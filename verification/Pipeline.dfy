/** What the database does for one query: filter, deduplicate, order, offset and limit a sequence of rows. */
module Pipeline {
  import opened Wrappers
  import opened AccountRow

  // ---- Predicates ----

  /** A predicate on rows: an arbitrary test, or `key IN (keys)`, which NULL keys never satisfy. */
  datatype Pred<!T> = Test(holds: T -> bool) | In(key: T -> Option<int>, keys: seq<int>) {
    predicate Holds(r: T) {
      match this
      case Test(holds) => holds(r)
      case In(key, keys) => key(r).Some? && key(r).value in keys
    }
  }

  predicate AllHold<T>(preds: seq<Pred<T>>, r: T) {
    forall i | 0 <= i < |preds| :: preds[i].Holds(r)
  }

  function Select<T>(preds: seq<Pred<T>>, rows: seq<T>): seq<T> {
    if rows == [] then []
    else (if AllHold(preds, rows[0]) then [rows[0]] else []) + Select(preds, rows[1..])
  }

  // ---- Ordering ----

  /** One ORDER BY term. */
  datatype Term<!T> = Term(rank: T -> int, desc: bool) {
    function Rank(r: T): int {
      if desc then -rank(r) else rank(r)
    }
  }

  /** `a` need not come after `b`. */
  predicate AtMost<T>(order: seq<Term<T>>, a: T, b: T) {
    order == []
    || order[0].Rank(a) < order[0].Rank(b)
    || (order[0].Rank(a) == order[0].Rank(b) && AtMost(order[1..], a, b))
  }

  function InsertBy<T>(order: seq<Term<T>>, r: T, rows: seq<T>): seq<T> {
    if rows == [] || AtMost(order, r, rows[0]) then [r] + rows else [rows[0]] + InsertBy(order, r, rows[1..])
  }

  /** ORDER BY, with ties in source order. */
  function SortBy<T>(order: seq<Term<T>>, rows: seq<T>): seq<T> {
    if rows == [] then [] else InsertBy(order, rows[0], SortBy(order, rows[1..]))
  }

  ghost predicate SortedBy<T>(order: seq<Term<T>>, rows: seq<T>) {
    forall i, j | 0 <= i < j < |rows| :: AtMost(order, rows[i], rows[j])
  }

  // ---- DISTINCT, OFFSET, LIMIT ----

  /** DISTINCT, keeping first occurrences. */
  function Dedup<T(==)>(rows: seq<T>): seq<T> {
    if rows == [] then []
    else
      var init, last := Dedup(rows[..|rows| - 1]), rows[|rows| - 1];
      if last in init then init else init + [last]
  }

  const MAX_INT32 := 0x7FFF_FFFF

  function Min(a: nat, b: nat): nat {
    if a <= b then a else b
  }

  /** Drop the first rows and keep at most `limit`. */
  function Slice<T>(offset: nat, limit: nat, rows: seq<T>): seq<T> {
    var rest := rows[Min(offset, |rows|)..];
    rest[..Min(limit, |rest|)]
  }

  /** The window of a query specification: zero means unset, and an offset forces a limit. */
  function Window<T>(offset: nat, limit: nat, rows: seq<T>): seq<T> {
    if limit != 0 then Slice(offset, limit, rows)
    else if offset != 0 then Slice(offset, MAX_INT32, rows)
    else rows
  }

  // ---- One query ----

  datatype Selection<!T> = Selection(preds: seq<Pred<T>>, order: seq<Term<T>>, distinct: bool, offset: nat, limit: nat) {
    predicate Unwindowed() {
      offset == 0 && limit == 0
    }
  }

  /** Every row a query selects, in order, before its window. */
  function Matching<T(==)>(sel: Selection<T>, source: seq<T>): seq<T> {
    var rows := Select(sel.preds, source);
    SortBy(sel.order, if sel.distinct then Dedup(rows) else rows)
  }

  function Fetch<T(==)>(sel: Selection<T>, source: seq<T>): seq<T> {
    Window(sel.offset, sel.limit, Matching(sel, source))
  }

  // ---- Selecting ----

  lemma OneHolds<T>(p: Pred<T>, r: T)
    ensures AllHold([p], r) <==> p.Holds(r)
  {
    assert [p][0] == p;
  }

  lemma {:induction false} SelectIn<T>(preds: seq<Pred<T>>, rows: seq<T>, r: T)
    ensures r in Select(preds, rows) <==> r in rows && AllHold(preds, r)
  {
    hide AllHold;
    if rows != [] {
      SelectIn(preds, rows[1..], r);
      assert rows == [rows[0]] + rows[1..];
    }
  }

  lemma {:induction false} SelectTwice<T>(p: seq<Pred<T>>, q: seq<Pred<T>>, both: seq<Pred<T>>, rows: seq<T>)
    requires forall r: T | r in rows :: AllHold(both, r) <==> AllHold(p, r) && AllHold(q, r)
    ensures Select(q, Select(p, rows)) == Select(both, rows)
  {
    hide AllHold;
    if rows != [] {
      SelectTwice(p, q, both, rows[1..]);
      assert rows[0] in rows;
      var rest := Select(p, rows[1..]);
      if AllHold(p, rows[0]) {
        assert ([rows[0]] + rest)[1..] == rest;
      } else {
        assert Select(p, rows) == rest;
      }
    }
  }

  lemma {:induction false} SelectSame<T>(p: seq<Pred<T>>, q: seq<Pred<T>>, rows: seq<T>)
    requires forall r: T | r in rows :: AllHold(p, r) <==> AllHold(q, r)
    ensures Select(p, rows) == Select(q, rows)
  {
    hide AllHold;
    if rows != [] {
      SelectSame(p, q, rows[1..]);
      assert rows[0] in rows;
    }
  }

  lemma SelectCons<T>(preds: seq<Pred<T>>, r: T, rows: seq<T>)
    ensures Select(preds, [r] + rows) == (if AllHold(preds, r) then [r] else []) + Select(preds, rows)
  {
    hide AllHold;
    assert ([r] + rows)[1..] == rows;
  }

  lemma {:induction false} SelectAppend<T>(preds: seq<Pred<T>>, a: seq<T>, b: seq<T>)
    ensures Select(preds, a + b) == Select(preds, a) + Select(preds, b)
  {
    hide AllHold;
    if a == [] {
      assert a + b == b;
    } else {
      hide *;
      SelectAppend(preds, a[1..], b);
      SelectCons(preds, a[0], a[1..] + b);
      SelectCons(preds, a[0], a[1..]);
      assert [a[0]] + (a[1..] + b) == a + b && [a[0]] + a[1..] == a;
    }
  }

  lemma {:induction false} SelectDistinct<T>(preds: seq<Pred<T>>, rows: seq<T>)
    requires Distinct(rows)
    ensures Distinct(Select(preds, rows))
  {
    hide AllHold;
    if rows != [] {
      SelectDistinct(preds, rows[1..]);
      SelectIn(preds, rows[1..], rows[0]);
      assert rows == [rows[0]] + rows[1..];
      var rest := Select(preds, rows[1..]);
      assert rows[0] !in rows[1..];
      forall i | 0 <= i < |rest| ensures rest[i] != rows[0] {
        assert rest[i] in rest;
      }
    }
  }

  // ---- Ordering keeps rows, sorts them, and commutes with selection ----

  lemma {:induction false} AtMostTotal<T>(order: seq<Term<T>>, a: T, b: T)
    ensures AtMost(order, a, b) || AtMost(order, b, a)
  {
    if order != [] {
      AtMostTotal(order[1..], a, b);
    }
  }

  lemma {:induction false} AtMostTransitive<T>(order: seq<Term<T>>, a: T, b: T, c: T)
    requires AtMost(order, a, b) && AtMost(order, b, c)
    ensures AtMost(order, a, c)
  {
    if order != [] && order[0].Rank(a) == order[0].Rank(b) == order[0].Rank(c) {
      AtMostTransitive(order[1..], a, b, c);
    }
  }

  lemma {:induction false} InsertKeeps<T>(order: seq<Term<T>>, r: T, rows: seq<T>)
    ensures multiset(InsertBy(order, r, rows)) == multiset{r} + multiset(rows)
    ensures forall x: T :: x in InsertBy(order, r, rows) <==> x == r || x in rows
  {
    hide AtMost;
    if rows != [] && !AtMost(order, r, rows[0]) {
      InsertKeeps(order, r, rows[1..]);
      assert rows == [rows[0]] + rows[1..];
    }
  }

  lemma SortedCons<T>(order: seq<Term<T>>, r: T, rows: seq<T>)
    requires SortedBy(order, rows) && forall x: T | x in rows :: AtMost(order, r, x)
    ensures SortedBy(order, [r] + rows)
  {
    hide AtMost;
    forall j | 0 <= j < |rows| ensures AtMost(order, r, rows[j]) {
      assert rows[j] in rows;
    }
  }

  lemma {:induction false} InsertSorts<T>(order: seq<Term<T>>, r: T, rows: seq<T>)
    requires SortedBy(order, rows)
    ensures SortedBy(order, InsertBy(order, r, rows))
  {
    hide AtMost;
    if rows == [] {
    } else if AtMost(order, r, rows[0]) {
      forall x: T | x in rows ensures AtMost(order, r, x) {
        var j :| 0 <= j < |rows| && rows[j] == x;
        if j > 0 {
          AtMostTransitive(order, r, rows[0], x);
        }
      }
      SortedCons(order, r, rows);
    } else {
      SortedTail(order, rows);
      InsertSorts(order, r, rows[1..]);
      AtMostTotal(order, r, rows[0]);
      var rest := InsertBy(order, r, rows[1..]);
      InsertKeeps(order, r, rows[1..]);
      forall x: T | x in rest ensures AtMost(order, rows[0], x) {
        assert x in multiset(rest);
        assert x == r || x in rows[1..];
      }
      SortedCons(order, rows[0], rest);
    }
  }

  /** Ordering rearranges the rows into order. */
  lemma {:induction false} SortSorts<T>(order: seq<Term<T>>, rows: seq<T>)
    ensures SortedBy(order, SortBy(order, rows))
    ensures multiset(SortBy(order, rows)) == multiset(rows)
    ensures forall x: T :: x in SortBy(order, rows) <==> x in rows
    ensures |SortBy(order, rows)| == |rows|
  {
    hide AtMost;
    if rows != [] {
      SortSorts(order, rows[1..]);
      InsertSorts(order, rows[0], SortBy(order, rows[1..]));
      InsertKeeps(order, rows[0], SortBy(order, rows[1..]));
      assert rows == [rows[0]] + rows[1..];
      assert |multiset(SortBy(order, rows))| == |multiset(rows)|;
    }
  }

  lemma SortedTail<T>(order: seq<Term<T>>, rows: seq<T>)
    requires SortedBy(order, rows) && rows != []
    ensures SortedBy(order, rows[1..])
    ensures forall x: T | x in rows[1..] :: AtMost(order, rows[0], x)
  {
    hide AtMost;
    forall x: T | x in rows[1..] ensures AtMost(order, rows[0], x) {
      var j :| 0 <= j < |rows[1..]| && rows[1..][j] == x;
      assert rows[j + 1] == x;
    }
  }

  lemma {:induction false} InsertFront<T>(order: seq<Term<T>>, r: T, rows: seq<T>)
    requires forall x: T | x in rows :: AtMost(order, r, x)
    ensures InsertBy(order, r, rows) == [r] + rows
  {
    hide AtMost;
    if rows != [] {
      assert rows[0] in rows;
    }
  }

  lemma {:induction false} SelectInsert<T>(preds: seq<Pred<T>>, order: seq<Term<T>>, r: T, rows: seq<T>)
    requires SortedBy(order, rows)
    ensures Select(preds, InsertBy(order, r, rows)) ==
      if AllHold(preds, r) then InsertBy(order, r, Select(preds, rows)) else Select(preds, rows)
  {
    hide AtMost, AllHold;
    if rows == [] {
    } else if AtMost(order, r, rows[0]) {
      assert ([r] + rows)[1..] == rows;
      SortedTail(order, rows);
      forall x: T | x in Select(preds, rows) ensures AtMost(order, r, x) {
        SelectIn(preds, rows, x);
        if x != rows[0] {
          assert rows == [rows[0]] + rows[1..];
          AtMostTransitive(order, r, rows[0], x);
        }
      }
      InsertFront(order, r, Select(preds, rows));
    } else {
      SortedTail(order, rows);
      SelectInsert(preds, order, r, rows[1..]);
      var rest := InsertBy(order, r, rows[1..]);
      assert ([rows[0]] + rest)[1..] == rest;
      if AllHold(preds, rows[0]) {
        assert ([rows[0]] + Select(preds, rows[1..]))[1..] == Select(preds, rows[1..]);
      } else {
        assert Select(preds, rows) == Select(preds, rows[1..]);
      }
    }
  }

  /** Selecting from ordered rows orders the selected rows. */
  lemma {:induction false} SelectSort<T>(preds: seq<Pred<T>>, order: seq<Term<T>>, rows: seq<T>)
    ensures Select(preds, SortBy(order, rows)) == SortBy(order, Select(preds, rows))
  {
    hide AtMost, AllHold;
    if rows != [] {
      SelectSort(preds, order, rows[1..]);
      SortSorts(order, rows[1..]);
      SelectInsert(preds, order, rows[0], SortBy(order, rows[1..]));
      if AllHold(preds, rows[0]) {
        assert ([rows[0]] + Select(preds, rows[1..]))[1..] == Select(preds, rows[1..]);
      } else {
        assert Select(preds, rows) == Select(preds, rows[1..]);
      }
    }
  }

  // ---- Deduplication ----

  lemma {:induction false} DedupKeeps<T>(rows: seq<T>)
    ensures Distinct(Dedup(rows))
    ensures forall x: T :: x in Dedup(rows) <==> x in rows
  {
    if rows != [] {
      DedupKeeps(rows[..|rows| - 1]);
      assert rows == rows[..|rows| - 1] + [rows[|rows| - 1]];
    }
  }

  lemma {:induction false} SelectDedup<T>(preds: seq<Pred<T>>, rows: seq<T>)
    ensures Select(preds, Dedup(rows)) == Dedup(Select(preds, rows))
  {
    hide AllHold;
    if rows != [] {
      var init, last := rows[..|rows| - 1], rows[|rows| - 1];
      SelectDedup(preds, init);
      SelectAppend(preds, init, [last]);
      SelectAppend(preds, Dedup(init), [last]);
      assert rows == init + [last];
      assert Select(preds, []) == [];
      SelectIn(preds, Dedup(init), last);
      if AllHold(preds, last) {
        assert Select(preds, [last]) == [last];
        assert (Select(preds, init) + [last])[..|Select(preds, init)|] == Select(preds, init);
      } else {
        assert Select(preds, [last]) == [];
        assert Select(preds, init) + [] == Select(preds, init);
        assert Select(preds, Dedup(init)) + [] == Select(preds, Dedup(init));
      }
    }
  }

  // ---- The law behind batching ----

  /** Picking one key out of a batched, unwindowed query gives the query for that key alone. */
  lemma BatchedKey<T>(sel: Selection<T>, key: T -> Option<int>, keys: seq<int>, k: int,
                      batched: seq<Pred<T>>, single: seq<Pred<T>>, source: seq<T>)
    requires k in keys
    requires forall r: T :: AllHold(batched, r) <==> AllHold(sel.preds, r) && AllHold([In(key, keys)], r)
    requires forall r: T :: AllHold(single, r) <==> AllHold(sel.preds, r) && AllHold([In(key, [k])], r)
    ensures Select([In(key, [k])], Matching(sel.(preds := batched), source)) == Matching(sel.(preds := single), source)
  {
    var one := [In(key, [k])];
    var rows := Select(batched, source);
    forall r: T ensures AllHold(one, r) ==> AllHold([In(key, keys)], r) {
      OneHolds(In(key, [k]), r);
      OneHolds(In(key, keys), r);
    }
    hide AllHold;
    SelectTwice(batched, one, single, source);
    SelectDedup(one, rows);
    SelectSort(one, sel.order, if sel.distinct then Dedup(rows) else rows);
  }

  // ---- The law behind windows ----

  /** The rows with one key. */
  function Share<T>(key: T -> Option<int>, k: int, rows: seq<T>): seq<T> {
    Select([In(key, [k])], rows)
  }

  /** The limit in force when a window is set. */
  function LimitInForce(limit: nat): nat {
    if limit != 0 then limit else MAX_INT32
  }

  /** A window over a batch leaves every key what a window over that key's rows alone would: it is not set; or every row
      lies before it; or it is a limit that no row exceeds; or one key fills the batch up to the window's end, and no
      other key has more rows than the offset. */
  ghost predicate Harmless<T>(offset: nat, limit: nat, key: T -> Option<int>, rows: seq<T>) {
    || (offset == 0 && limit == 0)
    || |rows| <= offset
    || (offset == 0 && |rows| <= limit)
    || OneKeyFills(offset, limit, key, rows)
  }

  ghost predicate OneKeyFills<T>(offset: nat, limit: nat, key: T -> Option<int>, rows: seq<T>) {
    rows != []
    && (forall i | 0 <= i < |rows| && i < offset + LimitInForce(limit) :: key(rows[i]) == key(rows[0]))
    && forall k | key(rows[0]) != Some(k) :: |Share(key, k, rows)| <= offset
  }

  lemma {:induction false} SelectLength<T>(preds: seq<Pred<T>>, rows: seq<T>)
    ensures |Select(preds, rows)| <= |rows|
    ensures |Select(preds, rows)| == |rows| ==> Select(preds, rows) == rows && forall i | 0 <= i < |rows| :: AllHold(preds, rows[i])
  {
    hide AllHold;
    if rows != [] {
      SelectLength(preds, rows[1..]);
      assert rows == [rows[0]] + rows[1..];
    }
  }

  lemma {:induction false} SelectAll<T>(preds: seq<Pred<T>>, rows: seq<T>)
    requires forall i | 0 <= i < |rows| :: AllHold(preds, rows[i])
    ensures Select(preds, rows) == rows
  {
    hide AllHold;
    if rows != [] {
      assert forall i | 0 <= i < |rows[1..]| :: rows[1..][i] == rows[i + 1];
      SelectAll(preds, rows[1..]);
      assert rows == [rows[0]] + rows[1..];
    }
  }

  lemma {:induction false} SelectNone<T>(preds: seq<Pred<T>>, rows: seq<T>)
    requires forall i | 0 <= i < |rows| :: !AllHold(preds, rows[i])
    ensures Select(preds, rows) == []
  {
    hide AllHold;
    if rows != [] {
      assert forall i | 0 <= i < |rows[1..]| :: rows[1..][i] == rows[i + 1];
      SelectNone(preds, rows[1..]);
    }
  }

  lemma ShareIn<T>(key: T -> Option<int>, k: int, rows: seq<T>, r: T)
    ensures r in Share(key, k, rows) <==> r in rows && key(r) == Some(k)
  {
    SelectIn([In(key, [k])], rows, r);
    OneHolds(In(key, [k]), r);
  }

  /** A row among the rows of its key, with the rows of its key before it. */
  lemma ShareSplit<T>(key: T -> Option<int>, k: int, rows: seq<T>, i: nat)
    requires i < |rows| && key(rows[i]) == Some(k)
    ensures var before := Share(key, k, rows[..i]);
      |before| <= i && |before| < |Share(key, k, rows)| && Share(key, k, rows)[|before|] == rows[i]
      && Share(key, k, rows)[..|before|] == before
  {
    var one := [In(key, [k])];
    assert rows == rows[..i] + ([rows[i]] + rows[i + 1..]);
    SelectAppend(one, rows[..i], [rows[i]] + rows[i + 1..]);
    SelectCons(one, rows[i], rows[i + 1..]);
    OneHolds(one[0], rows[i]);
    SelectLength(one, rows[..i]);
    hide AllHold, Select;
  }

  /** If rows all carry one key, they are its share, and no other key has one. */
  lemma ShareOfOne<T>(key: T -> Option<int>, k: int, rows: seq<T>, j: int)
    requires forall i | 0 <= i < |rows| :: key(rows[i]) == Some(k)
    ensures Share(key, j, rows) == if j == k then rows else []
  {
    var one := [In(key, [j])];
    forall i | 0 <= i < |rows| ensures AllHold(one, rows[i]) <==> j == k {
      OneHolds(one[0], rows[i]);
    }
    if j == k {
      SelectAll(one, rows);
    } else {
      SelectNone(one, rows);
    }
  }

  lemma ShareAppend<T>(key: T -> Option<int>, k: int, a: seq<T>, b: seq<T>)
    ensures Share(key, k, a + b) == Share(key, k, a) + Share(key, k, b)
  {
    SelectAppend([In(key, [k])], a, b);
  }

  lemma ShareLength<T>(key: T -> Option<int>, k: int, rows: seq<T>)
    ensures |Share(key, k, rows)| <= |rows|
    ensures |Share(key, k, rows)| == |rows| ==> forall i | 0 <= i < |rows| :: key(rows[i]) == Some(k)
  {
    var one := [In(key, [k])];
    SelectLength(one, rows);
    forall i | 0 <= i < |rows| ensures AllHold(one, rows[i]) <==> key(rows[i]) == Some(k) {
      OneHolds(one[0], rows[i]);
    }
  }

  /** Where a window lies. */
  lemma WindowIs<T>(offset: nat, limit: nat, rows: seq<T>)
    requires offset != 0 || limit != 0
    ensures Window(offset, limit, rows) ==
      if |rows| <= offset then [] else rows[offset..Min(|rows|, offset + LimitInForce(limit))]
  {
    var rest := rows[Min(offset, |rows|)..];
    if |rows| > offset {
      var n := Min(LimitInForce(limit), |rest|);
      assert rest[..n] == rows[offset..offset + n];
    }
  }

  /** Under a harmless window, one key's part of the windowed batch is the window of that key's rows. */
  lemma HarmlessShares<T>(offset: nat, limit: nat, key: T -> Option<int>, rows: seq<T>, k: int)
    requires forall r: T | r in rows :: key(r).Some?
    requires Harmless(offset, limit, key, rows)
    ensures Share(key, k, Window(offset, limit, rows)) == Window(offset, limit, Share(key, k, rows))
  {
    ShareLength(key, k, rows);
    if offset == 0 && limit == 0 {
    } else {
      WindowIs(offset, limit, rows);
      WindowIs(offset, limit, Share(key, k, rows));
      hide Share, Window;
      if |rows| <= offset {
        ShareOfOne(key, 0, [], k);
      } else if offset == 0 && |rows| <= limit {
        assert rows[0..|rows|] == rows;
        var own := Share(key, k, rows);
        assert own != [] ==> own[0..|own|] == own;
      } else {
        FilledShares(offset, limit, key, rows, k);
      }
    }
  }

  lemma FilledShares<T>(offset: nat, limit: nat, key: T -> Option<int>, rows: seq<T>, k: int)
    requires |rows| > offset && key(rows[0]).Some? && OneKeyFills(offset, limit, key, rows)
    ensures var end := offset + LimitInForce(limit);
      Share(key, k, rows[offset..Min(|rows|, end)]) ==
        var own := Share(key, k, rows); if |own| <= offset then [] else own[offset..Min(|own|, end)]
  {
    hide Share;
    var end, own := offset + LimitInForce(limit), Share(key, k, rows);
    var n, one := Min(|rows|, end), key(rows[0]).value;
    ShareOfOne(key, one, rows[offset..n], k);
    if k == one {
      assert rows == rows[..n] + rows[n..];
      ShareAppend(key, k, rows[..n], rows[n..]);
      ShareOfOne(key, one, rows[..n], k);
      ShareLength(key, k, rows[n..]);
      assert own == rows[..n] + Share(key, k, rows[n..]);
      assert own[offset..n] == rows[offset..n];
    }
  }

  /** For every key, the windowed batch has the same rows as the window of that key's rows alone. */
  ghost predicate SharesMatch<T(!new)>(offset: nat, limit: nat, key: T -> Option<int>, rows: seq<T>, keys: seq<int>) {
    forall k | k in keys :: SameRows(Share(key, k, Window(offset, limit, rows)), Window(offset, limit, Share(key, k, rows)))
  }

  ghost predicate SameRows<T(!new)>(a: seq<T>, b: seq<T>) {
    forall r: T :: r in a <==> r in b
  }

  lemma ShareDistinct<T>(key: T -> Option<int>, k: int, rows: seq<T>)
    requires Distinct(rows)
    ensures Distinct(Share(key, k, rows))
  {
    SelectDistinct([In(key, [k])], rows);
  }

  /** With an offset: a row inside the window has at least that many rows of its key before it. */
  lemma BehindOffset<T(!new)>(offset: nat, limit: nat, key: T -> Option<int>, rows: seq<T>, keys: seq<int>, i: nat, k: int)
    requires Distinct(rows) && SharesMatch(offset, limit, key, rows, keys) && k in keys
    requires 0 < offset <= i < |rows| && i < offset + LimitInForce(limit) && key(rows[i]) == Some(k)
    ensures |Share(key, k, rows[..i])| >= offset
  {
    var own := Share(key, k, rows);
    WindowIs(offset, limit, rows);
    WindowIs(offset, limit, own);
    ShareIn(key, k, Window(offset, limit, rows), rows[i]);
    ShareSplit(key, k, rows, i);
    ShareDistinct(key, k, rows);
    hide Share, Window;
    var end := Min(|rows|, offset + LimitInForce(limit));
    assert rows[offset..end][i - offset] == rows[i];
    assert SameRows(Share(key, k, Window(offset, limit, rows)), Window(offset, limit, own));
    assert rows[i] in Window(offset, limit, own);
    var p :| offset <= p < |own| && own[p] == rows[i];
  }

  /** With a limit alone: a row behind it has at least that many rows of its key before it. */
  lemma BehindLimit<T(!new)>(limit: nat, key: T -> Option<int>, rows: seq<T>, keys: seq<int>, i: nat, k: int)
    requires Distinct(rows) && SharesMatch(0, limit, key, rows, keys) && k in keys
    requires 0 < limit <= i < |rows| && key(rows[i]) == Some(k)
    ensures |Share(key, k, rows[..i])| >= limit
  {
    var own, before := Share(key, k, rows), Share(key, k, rows[..i]);
    WindowIs(0, limit, rows);
    WindowIs(0, limit, own);
    ShareIn(key, k, Window(0, limit, rows), rows[i]);
    ShareSplit(key, k, rows, i);
    hide Share, Window;
    assert SameRows(Share(key, k, Window(0, limit, rows)), Window(0, limit, own));
    assert rows[i] !in Window(0, limit, own);
    WindowHas(0, limit, own);
  }

  lemma WindowHas<T>(offset: nat, limit: nat, rows: seq<T>)
    requires offset != 0 || limit != 0
    ensures forall p | offset <= p < Min(|rows|, offset + LimitInForce(limit)) :: rows[p] in Window(offset, limit, rows)
  {
    WindowIs(offset, limit, rows);
    hide Window;
    var end := Min(|rows|, offset + LimitInForce(limit));
    forall p | offset <= p < end ensures rows[p] in Window(offset, limit, rows) {
      assert rows[offset..end][p - offset] == rows[p];
    }
  }

  /** Rows up to the window's end all carry the first row's key; with a limit alone, all rows do. */
  lemma {:induction false} OneKeyUpTo<T(!new)>(offset: nat, limit: nat, key: T -> Option<int>, rows: seq<T>, keys: seq<int>, n: nat)
    requires Distinct(rows) && SharesMatch(offset, limit, key, rows, keys) && (offset != 0 || limit != 0)
    requires forall r: T | r in rows :: key(r).Some? && key(r).value in keys
    requires |rows| > offset && (offset == 0 ==> |rows| > limit)
    requires n <= |rows| && (offset != 0 ==> n <= offset + LimitInForce(limit))
    ensures forall i | 0 <= i < n :: key(rows[i]) == key(rows[0])
    decreases n
  {
    var bound := if offset == 0 then limit else offset;
    hide Share, Window, SharesMatch, Distinct;
    if n <= bound {
      assert rows[bound] in rows;
      var k := key(rows[bound]).value;
      if offset == 0 {
        BehindLimit(limit, key, rows, keys, bound, k);
      } else {
        BehindOffset(offset, limit, key, rows, keys, bound, k);
      }
      ShareLength(key, k, rows[..bound]);
      assert forall i | 0 <= i < bound :: rows[..bound][i] == rows[i];
    } else {
      OneKeyUpTo(offset, limit, key, rows, keys, n - 1);
      var last := n - 1;
      assert rows[last] in rows && rows[0] in rows;
      if key(rows[last]) != key(rows[0]) {
        var k := key(rows[last]).value;
        assert forall i | 0 <= i < last :: rows[..last][i] == rows[i];
        ShareOfOne(key, key(rows[0]).value, rows[..last], k);
        if offset == 0 {
          BehindLimit(limit, key, rows, keys, last, k);
        } else {
          BehindOffset(offset, limit, key, rows, keys, last, k);
        }
      }
    }
  }

  /** And only under a harmless window. */
  lemma SharesAreHarmless<T(!new)>(offset: nat, limit: nat, key: T -> Option<int>, rows: seq<T>, keys: seq<int>)
    requires Distinct(rows) && SharesMatch(offset, limit, key, rows, keys)
    requires forall r: T | r in rows :: key(r).Some? && key(r).value in keys
    ensures Harmless(offset, limit, key, rows)
  {
    if (offset != 0 || limit != 0) && |rows| > offset && !(offset == 0 && |rows| <= limit) {
      hide Share, Window, Distinct, SharesMatch;
      var end := if offset == 0 then |rows| else Min(|rows|, offset + LimitInForce(limit));
      OneKeyUpTo(offset, limit, key, rows, keys, end);
      forall k | key(rows[0]) != Some(k) ensures |Share(key, k, rows)| <= offset {
        OtherShare(offset, limit, key, rows, keys, k);
      }
    }
  }

  lemma OtherShare<T(!new)>(offset: nat, limit: nat, key: T -> Option<int>, rows: seq<T>, keys: seq<int>, k: int)
    requires SharesMatch(offset, limit, key, rows, keys) && (offset != 0 || limit != 0) && |rows| > offset
    requires forall r: T | r in rows :: key(r).Some? && key(r).value in keys
    requires key(rows[0]).Some? && key(rows[0]) != Some(k)
    requires forall i | 0 <= i < |rows| && i < offset + LimitInForce(limit) :: key(rows[i]) == key(rows[0])
    requires offset == 0 ==> forall i | 0 <= i < |rows| :: key(rows[i]) == key(rows[0])
    ensures |Share(key, k, rows)| <= offset
  {
    var own := Share(key, k, rows);
    if own != [] {
      ShareIn(key, k, rows, own[0]);
      WindowIs(offset, limit, rows);
      WindowIs(offset, limit, own);
      var end := Min(|rows|, offset + LimitInForce(limit));
      ShareOfOne(key, key(rows[0]).value, rows[offset..end], k);
      hide Share, Window;
      assert SameRows(Share(key, k, Window(offset, limit, rows)), Window(offset, limit, own));
      SomeRow(Window(offset, limit, own));
    }
  }

  lemma SomeRow<T(!new)>(rows: seq<T>)
    ensures rows == [] || exists r: T :: r in rows
  {
    if rows != [] {
      assert rows[0] in rows;
    }
  }

  /** A window over a batch of distinct rows gives every key what a window over that key's rows alone gives, exactly if it
      is harmless. */
  lemma WindowIff<T(!new)>(offset: nat, limit: nat, key: T -> Option<int>, rows: seq<T>, keys: seq<int>)
    requires Distinct(rows) && forall r: T | r in rows :: key(r).Some? && key(r).value in keys
    ensures (forall k | k in keys :: Share(key, k, Window(offset, limit, rows)) == Window(offset, limit, Share(key, k, rows)))
       <==> Harmless(offset, limit, key, rows)
  {
    hide Share, Window, Distinct, Harmless;
    if Harmless(offset, limit, key, rows) {
      forall k | k in keys ensures Share(key, k, Window(offset, limit, rows)) == Window(offset, limit, Share(key, k, rows)) {
        HarmlessShares(offset, limit, key, rows, k);
      }
    }
    if forall k | k in keys :: Share(key, k, Window(offset, limit, rows)) == Window(offset, limit, Share(key, k, rows)) {
      SharesAreHarmless(offset, limit, key, rows, keys);
    }
  }

  /** All rows carry one key. */
  ghost predicate OneKey<T(!new)>(key: T -> Option<int>, rows: seq<T>) {
    forall r, s: T | r in rows && s in rows :: key(r) == key(s)
  }

  /** For a limit alone: the rows fit into it, or carry one key. For an offset alone: they lie before it, or carry one
      key. For rows whose keys all differ: they lie before the offset, or there is none and they fit into the limit. */
  lemma HarmlessCases<T(!new)>(offset: nat, limit: nat, key: T -> Option<int>, rows: seq<T>)
    requires forall r: T | r in rows :: key(r).Some?
    ensures offset == 0 && limit != 0 ==> (Harmless(offset, limit, key, rows) <==> |rows| <= limit || OneKey(key, rows))
    ensures offset != 0 && limit == 0 && |rows| <= offset + MAX_INT32 ==>
      (Harmless(offset, limit, key, rows) <==> |rows| <= offset || OneKey(key, rows))
    ensures (offset != 0 || limit != 0) && Distinct(Keys(key, rows)) ==>
      (Harmless(offset, limit, key, rows) <==> |rows| <= offset || (offset == 0 && |rows| <= limit))
  {
    hide Share, Keys;
    assert forall i | 0 <= i < |rows| :: rows[i] in rows;
    assert |rows| > 1 ==> rows[1] in rows;
    if Distinct(Keys(key, rows)) {
      forall i | 0 < i < |rows| ensures key(rows[i]) != key(rows[0]) {
        assert Keys(key, rows)[i] != Keys(key, rows)[0];
      }
    }
    if OneKey(key, rows) && rows != [] {
      forall k | key(rows[0]) != Some(k) ensures |Share(key, k, rows)| <= offset {
        ShareOfOne(key, key(rows[0]).value, rows, k);
      }
      assert OneKeyFills(offset, limit, key, rows);
    }
    if OneKeyFills(offset, limit, key, rows) {
      if offset == 0 || |rows| <= offset + LimitInForce(limit) {
        forall i | 0 <= i < |rows| ensures key(rows[i]) == key(rows[0]) {
          if offset == 0 && key(rows[i]) != key(rows[0]) {
            ShareIn(key, key(rows[i]).value, rows, rows[i]);
          }
        }
        assert OneKey(key, rows);
      }
    }
  }

  /** The rows' keys. */
  function Keys<T>(key: T -> Option<int>, rows: seq<T>): (keys: seq<Option<int>>)
    ensures |keys| == |rows| && forall i | 0 <= i < |rows| :: keys[i] == key(rows[i])
  {
    seq(|rows|, i requires 0 <= i < |rows| => key(rows[i]))
  }
}
