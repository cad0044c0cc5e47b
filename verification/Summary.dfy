/** The counting and gap arithmetic of the interception-log summary. */
module Summary {
  import opened Wrappers
  import opened PyText
  import opened Redaction

  // ---- Counters ----

  type Counter<!K> = map<K, nat>

  function Count<K>(c: Counter<K>, k: K): nat {
    if k in c then c[k] else 0
  }

  function Bump<K>(c: Counter<K>, k: K): Counter<K> {
    c[k := Count(c, k) + 1]
  }

  /** `collections.Counter(xs)`. */
  function CounterOf<K>(xs: seq<K>): Counter<K> {
    if xs == [] then map[] else Bump(CounterOf(xs[..|xs| - 1]), xs[|xs| - 1])
  }

  /** The sum of a weight over the entries of a counter. */
  ghost function Sum<K>(c: Counter<K>, weight: (K, nat) -> nat): nat {
    if c == map[] then 0
    else
      var k :| k in c;
      weight(k, c[k]) + Sum(c - {k}, weight)
  }

  ghost function Total<K>(c: Counter<K>): nat {
    Sum(c, (k, n) => n)
  }

  lemma {:induction false} SumSplit<K>(c: Counter<K>, weight: (K, nat) -> nat, k: K)
    requires k in c
    ensures Sum(c, weight) == weight(k, c[k]) + Sum(c - {k}, weight)
  {
    var first :| first in c && Sum(c, weight) == weight(first, c[first]) + Sum(c - {first}, weight);
    if first != k {
      SumSplit(c - {first}, weight, k);
      SumSplit(c - {k}, weight, first);
      assert c - {first} - {k} == c - {k} - {first};
    }
  }

  lemma SumBump<K>(c: Counter<K>, weight: (K, nat) -> nat, k: K)
    ensures Sum(Bump(c, k), weight) + (if k in c then weight(k, c[k]) else 0)
         == Sum(c, weight) + weight(k, Count(c, k) + 1)
  {
    var d := Bump(c, k);
    SumSplit(d, weight, k);
    assert d - {k} == c - {k};
    if k in c {
      SumSplit(c, weight, k);
    } else {
      assert c - {k} == c;
    }
  }

  lemma {:induction false} SumOnes<K>(c: Counter<K>)
    ensures Sum(c, (k, n) => 1) == |c|
  {
    if c != map[] {
      var k :| k in c && Sum(c, (k, n) => 1) == 1 + Sum(c - {k}, (k, n) => 1);
      SumOnes(c - {k});
      assert c.Keys == (c - {k}).Keys + {k};
    }
  }

  /** The multiplicities of a counter sum to the number of items counted, each key once per distinct item. */
  lemma {:induction false} CounterTotal<K>(xs: seq<K>)
    ensures Total(CounterOf(xs)) == |xs|
    ensures forall k :: k in CounterOf(xs) <==> k in xs
    ensures forall k | k in CounterOf(xs) :: CounterOf(xs)[k] == multiset(xs)[k] > 0
  {
    if xs != [] {
      var init, last := xs[..|xs| - 1], xs[|xs| - 1];
      assert xs == init + [last];
      CounterTotal(init);
      SumBump(CounterOf(init), (k: K, n: nat) => n, last);
    }
  }

  /** Never more distinct items than items. */
  lemma DistinctAtMostTotal<K>(xs: seq<K>)
    ensures |CounterOf(xs)| <= |xs|
  {
    CounterTotal(xs);
    SumOnes(CounterOf(xs));
    SumAtLeastOnes(CounterOf(xs));
  }

  lemma {:induction false} SumAtLeastOnes<K>(c: Counter<K>)
    requires forall k | k in c :: c[k] > 0
    ensures Total(c) >= |c|
  {
    if c != map[] {
      var k :| k in c;
      SumSplit(c, (k: K, n: nat) => n, k);
      SumAtLeastOnes(c - {k});
      assert c.Keys == (c - {k}).Keys + {k};
    }
  }

  /** The keys outside `rest` that carry the multiplicity `m`. */
  ghost function Holders<K>(c: Counter<K>, rest: set<K>, m: nat): set<K> {
    set k | k in c && k !in rest && c[k] == m
  }

  lemma HoldersStep<K>(c: Counter<K>, rest: set<K>, k: K, m: nat)
    requires k in c && k in rest
    ensures Holders(c, rest - {k}, m) == Holders(c, rest, m) + (if c[k] == m then {k} else {})
    ensures |Holders(c, rest - {k}, m)| == |Holders(c, rest, m)| + (if c[k] == m then 1 else 0)
  {
    assert k !in Holders(c, rest, m);
  }

  lemma WeightedBump(d: Counter<nat>, m: nat)
    ensures Sum(Bump(d, m), (m: nat, n: nat) => m * n) == Sum(d, (m, n) => m * n) + m
    ensures Total(Bump(d, m)) == Total(d) + 1
  {
    SumBump(d, (m: nat, n: nat) => n, m);
    SumBump(d, (m: nat, n: nat) => m * n, m);
    assert m * (Count(d, m) + 1) == m * Count(d, m) + m;
  }

  /** `collections.Counter(c.values())`, visiting the keys in some order: it re-sums to the unique and total counts. */
  method Distribution<K>(c: Counter<K>) returns (d: Counter<nat>)
    ensures Total(d) == |c|
    ensures Sum(d, (m, n) => m * n) == Total(c)
    ensures forall m: nat :: Count(d, m) == |Holders(c, {}, m)|
  {
    hide Sum, Holders;
    d := map[];
    var rest := c.Keys;
    assert c - {} == c && c - c.Keys == map[];
    NothingCounted(c);
    while rest != {}
      invariant rest <= c.Keys
      invariant Total(d) + |rest| == |c.Keys|
      invariant Sum(d, (m, n) => m * n) + Total(c - (c.Keys - rest)) == Total(c)
      invariant forall m: nat :: Count(d, m) == |Holders(c, rest, m)|
      decreases rest
    {
      var k :| k in rest;
      SumSplit(c - (c.Keys - rest), (k: K, n: nat) => n, k);
      assert c - (c.Keys - rest) - {k} == c - (c.Keys - (rest - {k}));
      WeightedBump(d, c[k]);
      forall m: nat ensures Count(Bump(d, c[k]), m) == |Holders(c, rest - {k}, m)| {
        HoldersStep(c, rest, k, m);
      }
      d := Bump(d, c[k]);
      rest := rest - {k};
    }
    NothingLeft(c);
  }

  lemma NothingCounted<K>(c: Counter<K>)
    ensures forall m: nat :: Holders(c, c.Keys, m) == {}
    ensures Total<nat>(map[]) == 0 && Sum<nat>(map[], (m, n) => m * n) == 0
    ensures c - (c.Keys - c.Keys) == c
  {
  }

  lemma NothingLeft<K>(c: Counter<K>)
    ensures c - (c.Keys - {}) == map[]
    ensures Total<K>(map[]) == 0
  {
  }

  // ---- Time gaps ----

  predicate Sorted(ts: seq<int>) {
    forall i, j | 0 <= i < j < |ts| :: ts[i] <= ts[j]
  }

  function Insert(t: int, ts: seq<int>): seq<int> {
    if ts == [] || t <= ts[0] then [t] + ts else [ts[0]] + Insert(t, ts[1..])
  }

  /** `timestamps.sort()`. */
  function Sort(ts: seq<int>): seq<int> {
    if ts == [] then [] else Insert(ts[0], Sort(ts[1..]))
  }

  lemma {:induction false} InsertAdds(t: int, ts: seq<int>)
    ensures multiset(Insert(t, ts)) == multiset(ts) + multiset{t}
    ensures forall x | x in Insert(t, ts) :: x == t || x in ts
  {
    if ts != [] && t > ts[0] {
      InsertAdds(t, ts[1..]);
      assert ts == [ts[0]] + ts[1..];
    }
    forall x | x in Insert(t, ts) ensures x == t || x in ts {
      assert x in multiset(Insert(t, ts));
    }
  }

  lemma SortedCons(t: int, ts: seq<int>)
    requires Sorted(ts) && forall x | x in ts :: t <= x
    ensures Sorted([t] + ts)
  {
    forall i, j | 0 <= i < j < |[t] + ts| ensures ([t] + ts)[i] <= ([t] + ts)[j] {
      assert ts[j - 1] in ts;
    }
  }

  lemma {:induction false} InsertSorts(t: int, ts: seq<int>)
    requires Sorted(ts)
    ensures Sorted(Insert(t, ts)) && multiset(Insert(t, ts)) == multiset(ts) + multiset{t}
  {
    InsertAdds(t, ts);
    if ts == [] || t <= ts[0] {
      SortedCons(t, ts);
    } else {
      InsertSorts(t, ts[1..]);
      InsertAdds(t, ts[1..]);
      assert forall x | x in ts[1..] :: ts[0] <= x;
      SortedCons(ts[0], Insert(t, ts[1..]));
    }
  }

  lemma {:induction false} SortSorts(ts: seq<int>)
    ensures Sorted(Sort(ts)) && multiset(Sort(ts)) == multiset(ts) && |Sort(ts)| == |ts|
  {
    if ts != [] {
      SortSorts(ts[1..]);
      InsertSorts(ts[0], Sort(ts[1..]));
      assert ts == [ts[0]] + ts[1..];
      assert |Sort(ts)| == |multiset(Sort(ts))|;
    }
  }

  function Gaps(ts: seq<int>): (gaps: seq<int>)
    ensures |gaps| == if ts == [] then 0 else |ts| - 1
    ensures forall i | 0 <= i < |gaps| :: gaps[i] == ts[i + 1] - ts[i]
  {
    if |ts| < 2 then [] else Gaps(ts[..|ts| - 1]) + [ts[|ts| - 1] - ts[|ts| - 2]]
  }

  function Plus(xs: seq<int>): int {
    if xs == [] then 0 else Plus(xs[..|xs| - 1]) + xs[|xs| - 1]
  }

  lemma {:induction false} GapsTelescope(ts: seq<int>)
    requires ts != []
    ensures Plus(Gaps(ts)) == ts[|ts| - 1] - ts[0]
  {
    if |ts| >= 2 {
      GapsTelescope(ts[..|ts| - 1]);
      assert Gaps(ts)[..|ts| - 2] == Gaps(ts[..|ts| - 1]);
    }
  }

  /** The gaps between the sorted timestamps are non-negative and sum to the duration from earliest to latest. */
  lemma GapsConserveDuration(ts: seq<int>)
    requires ts != []
    ensures var sorted := Sort(ts);
      && |sorted| == |ts| && |Gaps(sorted)| == |ts| - 1
      && (forall i | 0 <= i < |Gaps(sorted)| :: Gaps(sorted)[i] >= 0)
      && Plus(Gaps(sorted)) == sorted[|sorted| - 1] - sorted[0]
      && sorted[0] in ts && sorted[|sorted| - 1] in ts
      && (forall t | t in ts :: sorted[0] <= t <= sorted[|sorted| - 1])
  {
    var sorted := Sort(ts);
    hide Sort, Plus;
    SortSorts(ts);
    GapsTelescope(sorted);
    EndsAreExtremes(sorted, ts);
    forall i | 0 <= i < |Gaps(sorted)| ensures Gaps(sorted)[i] >= 0 {
      assert sorted[i] <= sorted[i + 1];
    }
  }

  lemma EndsAreExtremes(sorted: seq<int>, ts: seq<int>)
    requires Sorted(sorted) && sorted != [] && multiset(sorted) == multiset(ts)
    ensures sorted[0] in ts && sorted[|sorted| - 1] in ts
    ensures forall t | t in ts :: sorted[0] <= t <= sorted[|sorted| - 1]
  {
    assert sorted[0] in multiset(sorted) && sorted[|sorted| - 1] in multiset(sorted);
    assert sorted[0] in multiset(ts) && sorted[|sorted| - 1] in multiset(ts);
    forall t | t in ts ensures sorted[0] <= t <= sorted[|sorted| - 1] {
      assert t in multiset(ts);
      assert t in multiset(sorted);
      var i :| 0 <= i < |sorted| && sorted[i] == t;
    }
  }

  // ---- Rows ----

  type Dict = map<string, Json>

  /** One log row: its columns, the decoded request details (empty when absent or undecodable) and its parsed time. */
  datatype Row = Row(columns: Dict, details: Dict, time: Option<int>)

  /** The library calls whose results the summary only stores or compares. */
  datatype Library = Library(digest: Json -> string, dump: Json -> string)

  function Lookup(d: Dict, key: string): Json {
    if key in d then d[key] else Null
  }

  predicate Truthy(value: Json) {
    match value
    case Null => false
    case Bool(b) => b
    case Number(n) => n != 0.0
    case Text(s) => s != ""
    case List(items) => items != []
    case Object(members) => members != []
  }

  const EXCLUDED: set<string> := {"错误 ID", "时间", "客户端请求 ID", "请求 ID", "已解决"}

  /** The retained columns in header order, each header once. */
  function Payload(columns: Dict, headers: seq<string>): seq<Member> {
    if headers == [] then []
    else
      var init, last := headers[..|headers| - 1], headers[|headers| - 1];
      if last in EXCLUDED || last in init then Payload(columns, init)
      else Payload(columns, init) + [Member(last, Lookup(columns, last))]
  }

  /** What is digested for a row. */
  function RedactedPayload(row: Row, headers: seq<string>): Json {
    Redact(Object(Payload(row.columns, headers)))
  }

  function Fingerprint(row: Row, headers: seq<string>, lib: Library): string {
    lib.digest(RedactedPayload(row, headers))
  }

  datatype Status = OmittedOrTruncated | Complete | Unavailable

  predicate Incomplete(row: Row) {
    Truthy(Lookup(row.details, "body_omitted")) || Truthy(Lookup(row.details, "body_truncated"))
  }

  function StatusOf(row: Row): Status {
    if Incomplete(row) then OmittedOrTruncated
    else if Lookup(row.details, "body") != Null then Complete
    else Unavailable
  }

  function Fingerprints(rows: seq<Row>, headers: seq<string>, lib: Library): seq<string> {
    seq(|rows|, i requires 0 <= i < |rows| => Fingerprint(rows[i], headers, lib))
  }

  function Statuses(rows: seq<Row>): seq<Status> {
    seq(|rows|, i requires 0 <= i < |rows| => StatusOf(rows[i]))
  }

  function CompleteBodies(rows: seq<Row>): seq<Json> {
    if rows == [] then []
    else
      CompleteBodies(rows[..|rows| - 1])
      + if StatusOf(rows[|rows| - 1]) == Complete then [Lookup(rows[|rows| - 1].details, "body")] else []
  }

  function BodyDigests(bodies: seq<Json>, lib: Library): seq<string> {
    seq(|bodies|, i requires 0 <= i < |bodies| => lib.digest(Redact(bodies[i])))
  }

  function Times(rows: seq<Row>): seq<int> {
    if rows == [] then []
    else Times(rows[..|rows| - 1]) + if rows[|rows| - 1].time.Some? then [rows[|rows| - 1].time.value] else []
  }

  // ---- Keywords ----

  /** `text.count(word)`: occurrences that do not overlap, from the left. */
  function Occurrences(text: string, word: string): nat
    requires word != ""
    decreases |text|
  {
    if |text| < |word| then 0
    else if StartsWith(text, word) then 1 + Occurrences(text[|word|..], word)
    else Occurrences(text[1..], word)
  }

  /** A keyword is hit exactly when it occurs as a substring. */
  lemma {:induction false} OccursIffContained(text: string, word: string)
    requires word != ""
    ensures Occurrences(text, word) > 0 <==> Contains(text, word)
    decreases |text|
  {
    if |text| >= |word| {
      assert text[0..] == text;
      if !StartsWith(text, word) {
        OccursIffContained(text[1..], word);
        if Contains(text, word) {
          var i :| 0 <= i <= |text| - |word| && StartsWith(text[i..], word);
          assert text[1..][i - 1..] == text[i..];
        }
        if Contains(text[1..], word) {
          var i :| 0 <= i <= |text| - 1 - |word| && StartsWith(text[1..][i..], word);
          assert text[1..][i..] == text[i + 1..];
        }
      }
    }
  }

  function Hit(body: Json, word: string, lib: Library): nat
    requires word != ""
  {
    if Occurrences(Lower(lib.dump(body)), Lower(word)) > 0 then 1 else 0
  }

  function Hits(bodies: seq<Json>, word: string, lib: Library): nat
    requires word != ""
  {
    if bodies == [] then 0
    else Hits(bodies[..|bodies| - 1], word, lib) + Hit(bodies[|bodies| - 1], word, lib)
  }

  function AllOccurrences(bodies: seq<Json>, word: string, lib: Library): nat
    requires word != ""
  {
    if bodies == [] then 0
    else AllOccurrences(bodies[..|bodies| - 1], word, lib) + Occurrences(Lower(lib.dump(bodies[|bodies| - 1])), Lower(word))
  }

  lemma {:induction false} HitsBounds(bodies: seq<Json>, word: string, lib: Library)
    requires word != ""
    ensures Hits(bodies, word, lib) <= |bodies|
    ensures Hits(bodies, word, lib) <= AllOccurrences(bodies, word, lib)
    ensures Hits(bodies, word, lib) == 0 <==> AllOccurrences(bodies, word, lib) == 0
  {
    if bodies != [] {
      HitsBounds(bodies[..|bodies| - 1], word, lib);
    }
  }

  // ---- The summary ----

  datatype Report = Report(
    rowCount: nat,
    fingerprints: Counter<string>,
    duplicateRows: int,
    bodyStatus: Counter<Status>,
    completeBodyRows: nat,
    bodyFingerprints: Counter<string>,
    duplicateCompleteBodyRows: int,
    keywordHits: Counter<string>,
    keywordOccurrences: Counter<string>,
    duration: Option<int>,
    gaps: seq<int>)

  method Summarise(rows: seq<Row>, headers: seq<string>, keywords: seq<string>, lib: Library) returns (r: Report)
    requires forall i | 0 <= i < |keywords| :: keywords[i] != ""
    requires forall i, j | 0 <= i < j < |keywords| :: keywords[i] != keywords[j]
    ensures r.rowCount == |rows|
    ensures r.fingerprints == CounterOf(Fingerprints(rows, headers, lib))
    ensures r.duplicateRows == |rows| - |r.fingerprints|
    ensures r.bodyStatus == CounterOf(Statuses(rows))
    ensures r.completeBodyRows == |CompleteBodies(rows)|
    ensures r.bodyFingerprints == CounterOf(BodyDigests(CompleteBodies(rows), lib))
    ensures r.duplicateCompleteBodyRows == r.completeBodyRows - |r.bodyFingerprints|
    ensures forall w | w in keywords ::
      Count(r.keywordHits, w) == Hits(CompleteBodies(rows), w, lib)
      && Count(r.keywordOccurrences, w) == AllOccurrences(CompleteBodies(rows), w, lib)
    ensures forall w :: w in r.keywordHits || w in r.keywordOccurrences ==> w in keywords
    ensures var ts := Sort(Times(rows));
      r.gaps == Gaps(ts) && r.duration == if ts == [] then None else Some(ts[|ts| - 1] - ts[0])
  {
    var fingerprints: Counter<string>, bodyStatus: Counter<Status>, bodyFingerprints: Counter<string> := map[], map[], map[];
    var hits: Counter<string>, occurrences: Counter<string> := map[], map[];
    var times: seq<int> := [];
    var completeRows := 0;
    EmptyPrefix(rows, headers, lib);
    hide *;
    for i := 0 to |rows|
      invariant fingerprints == CounterOf(Fingerprints(rows[..i], headers, lib))
      invariant bodyStatus == CounterOf(Statuses(rows[..i]))
      invariant completeRows == |CompleteBodies(rows[..i])|
      invariant bodyFingerprints == CounterOf(BodyDigests(CompleteBodies(rows[..i]), lib))
      invariant forall w | w in keywords ::
        Count(hits, w) == Hits(CompleteBodies(rows[..i]), w, lib)
        && Count(occurrences, w) == AllOccurrences(CompleteBodies(rows[..i]), w, lib)
      invariant forall w :: w in hits || w in occurrences ==> w in keywords
      invariant times == Times(rows[..i])
    {
      var row := rows[i];
      ghost var bodies := CompleteBodies(rows[..i]);
      PrefixStep(rows, i, headers, lib);
      CounterStep(Fingerprints(rows[..i], headers, lib), Fingerprint(row, headers, lib));
      CounterStep(Statuses(rows[..i]), StatusOf(row));
      fingerprints := Bump(fingerprints, Fingerprint(row, headers, lib));
      if row.time.Some? {
        times := times + [row.time.value];
      }
      RowStatus(row);
      var body, incomplete := Lookup(row.details, "body"), Incomplete(row);
      bodyStatus := Bump(bodyStatus, if incomplete then OmittedOrTruncated else if body != Null then Complete else Unavailable);
      if body == Null || incomplete {
        continue;
      }
      forall w | w in keywords { BodyStep(bodies, body, lib, w); }
      BodyStep(bodies, body, lib, "x");
      CounterStep(BodyDigests(bodies, lib), lib.digest(Redact(body)));
      completeRows := completeRows + 1;
      bodyFingerprints := Bump(bodyFingerprints, lib.digest(Redact(body)));
      hits, occurrences := CountKeywords(Lower(lib.dump(body)), keywords, hits, occurrences);
    }
    assert rows[..|rows|] == rows;
    var sorted := Sort(times);
    var duration := if sorted == [] then None else Some(sorted[|sorted| - 1] - sorted[0]);
    r := Report(|rows|, fingerprints, |rows| - |fingerprints|, bodyStatus, completeRows, bodyFingerprints,
                completeRows - |bodyFingerprints|, hits, occurrences, duration, Gaps(sorted));
  }

  method CountKeywords(text: string, keywords: seq<string>, hits0: Counter<string>, occurrences0: Counter<string>)
      returns (hits: Counter<string>, occurrences: Counter<string>)
    requires forall i | 0 <= i < |keywords| :: keywords[i] != ""
    requires forall i, j | 0 <= i < j < |keywords| :: keywords[i] != keywords[j]
    ensures forall w | w in keywords ::
      Count(hits, w) == Count(hits0, w) + (if Occurrences(text, Lower(w)) > 0 then 1 else 0)
      && Count(occurrences, w) == Count(occurrences0, w) + Occurrences(text, Lower(w))
    ensures forall w | w !in keywords :: Count(hits, w) == Count(hits0, w) && Count(occurrences, w) == Count(occurrences0, w)
    ensures forall w | w !in keywords :: (w in hits <==> w in hits0) && (w in occurrences <==> w in occurrences0)
  {
    hits, occurrences := hits0, occurrences0;
    for k := 0 to |keywords|
      invariant forall w | w in keywords[..k] ::
        Count(hits, w) == Count(hits0, w) + (if Occurrences(text, Lower(w)) > 0 then 1 else 0)
        && Count(occurrences, w) == Count(occurrences0, w) + Occurrences(text, Lower(w))
      invariant forall w | w !in keywords[..k] ::
        Count(hits, w) == Count(hits0, w) && Count(occurrences, w) == Count(occurrences0, w)
        && (w in hits <==> w in hits0) && (w in occurrences <==> w in occurrences0)
    {
      var keyword := keywords[k];
      var n := Occurrences(text, Lower(keyword));
      assert keywords[..k + 1] == keywords[..k] + [keyword];
      assert keyword !in keywords[..k];
      if n > 0 {
        hits := Bump(hits, keyword);
        occurrences := occurrences[keyword := Count(occurrences, keyword) + n];
      }
    }
    assert keywords[..|keywords|] == keywords;
  }

  lemma PrefixStep(rows: seq<Row>, i: nat, headers: seq<string>, lib: Library)
    requires i < |rows|
    ensures Fingerprints(rows[..i + 1], headers, lib) == Fingerprints(rows[..i], headers, lib) + [Fingerprint(rows[i], headers, lib)]
    ensures Statuses(rows[..i + 1]) == Statuses(rows[..i]) + [StatusOf(rows[i])]
    ensures CompleteBodies(rows[..i + 1])
      == if StatusOf(rows[i]) == Complete then CompleteBodies(rows[..i]) + [Lookup(rows[i].details, "body")]
         else CompleteBodies(rows[..i])
    ensures Times(rows[..i + 1]) == if rows[i].time.Some? then Times(rows[..i]) + [rows[i].time.value] else Times(rows[..i])
  {
    assert rows[..i + 1][..i] == rows[..i];
  }

  lemma EmptyPrefix(rows: seq<Row>, headers: seq<string>, lib: Library)
    ensures Fingerprints(rows[..0], headers, lib) == [] && Statuses(rows[..0]) == []
    ensures CompleteBodies(rows[..0]) == [] && BodyDigests([], lib) == [] && Times(rows[..0]) == []
    ensures CounterOf<string>([]) == map[] && CounterOf<Status>([]) == map[]
    ensures forall w | w != "" :: Hits([], w, lib) == 0 && AllOccurrences([], w, lib) == 0
    ensures forall w: string :: Count(map[], w) == 0
  {
  }

  lemma RowStatus(row: Row)
    ensures StatusOf(row) ==
      if Incomplete(row) then OmittedOrTruncated
      else if Lookup(row.details, "body") != Null then Complete
      else Unavailable
  {
  }

  lemma BodyStep(bodies: seq<Json>, body: Json, lib: Library, w: string)
    requires w != ""
    ensures BodyDigests(bodies + [body], lib) == BodyDigests(bodies, lib) + [lib.digest(Redact(body))]
    ensures Hits(bodies + [body], w, lib) == Hits(bodies, w, lib) + if Occurrences(Lower(lib.dump(body)), Lower(w)) > 0 then 1 else 0
    ensures AllOccurrences(bodies + [body], w, lib) == AllOccurrences(bodies, w, lib) + Occurrences(Lower(lib.dump(body)), Lower(w))
  {
    assert (bodies + [body])[..|bodies|] == bodies;
  }

  lemma CounterStep<K>(xs: seq<K>, x: K)
    ensures CounterOf(xs + [x]) == Bump(CounterOf(xs), x)
  {
    assert (xs + [x])[..|xs|] == xs;
  }

  // ---- Conservation laws of the whole summary ----

  lemma {:induction false} CompleteIsCounted(rows: seq<Row>)
    ensures Count(CounterOf(Statuses(rows)), Complete) == |CompleteBodies(rows)|
  {
    if rows != [] {
      var n := |rows| - 1;
      CompleteIsCounted(rows[..n]);
      assert rows[..n + 1] == rows;
      PrefixStep(rows, n, [], Library(j => "", j => ""));
      assert Statuses(rows)[..n] == Statuses(rows[..n]);
    }
  }

  /** For any log: multiplicities sum to the row count, statuses partition the rows, the complete ones are the
      fingerprinted bodies, and the duplicate counts are never negative. */
  lemma SummaryConserves(rows: seq<Row>, headers: seq<string>, lib: Library)
    ensures Total(CounterOf(Fingerprints(rows, headers, lib))) == |rows|
    ensures |CounterOf(Fingerprints(rows, headers, lib))| <= |rows|
    ensures Total(CounterOf(Statuses(rows))) == |rows|
    ensures Count(CounterOf(Statuses(rows)), Complete) == |CompleteBodies(rows)|
    ensures Count(CounterOf(Statuses(rows)), OmittedOrTruncated) + Count(CounterOf(Statuses(rows)), Complete)
          + Count(CounterOf(Statuses(rows)), Unavailable) == |rows|
    ensures Total(CounterOf(BodyDigests(CompleteBodies(rows), lib))) == |CompleteBodies(rows)|
    ensures |CounterOf(BodyDigests(CompleteBodies(rows), lib))| <= |CompleteBodies(rows)| <= |rows|
  {
    CounterTotal(Fingerprints(rows, headers, lib));
    DistinctAtMostTotal(Fingerprints(rows, headers, lib));
    CounterTotal(BodyDigests(CompleteBodies(rows), lib));
    DistinctAtMostTotal(BodyDigests(CompleteBodies(rows), lib));
    CounterTotal(Statuses(rows));
    CompleteIsCounted(rows);
    StatusesAddUp(Statuses(rows));
  }

  lemma {:induction false} StatusesAddUp(statuses: seq<Status>)
    ensures var c := CounterOf(statuses);
      Count(c, OmittedOrTruncated) + Count(c, Complete) + Count(c, Unavailable) == |statuses|
  {
    if statuses != [] {
      var init, last := statuses[..|statuses| - 1], statuses[|statuses| - 1];
      StatusesAddUp(init);
      assert CounterOf(statuses) == Bump(CounterOf(init), last);
      assert last == OmittedOrTruncated || last == Complete || last == Unavailable;
    }
  }

  // ---- What a fingerprint sees ----

  /** The rows agree, once redacted, on every column that a fingerprint retains. */
  ghost predicate AgreeOnRetained(a: Row, b: Row, headers: seq<string>) {
    forall h | h in headers && h !in EXCLUDED && !Sensitive(h) :: Redact(Lookup(a.columns, h)) == Redact(Lookup(b.columns, h))
  }

  /** Rows that agree on the retained columns up to redaction, and only those, have one redacted payload. So they have
      one fingerprint, and rows that do not agree have the same one only where the digest of two different payloads
      collides. */
  lemma FingerprintSeesRetainedColumns(a: Row, b: Row, headers: seq<string>, lib: Library)
    ensures AgreeOnRetained(a, b, headers) <==> RedactedPayload(a, headers) == RedactedPayload(b, headers)
    ensures AgreeOnRetained(a, b, headers) ==> Fingerprint(a, headers, lib) == Fingerprint(b, headers, lib)
    ensures !AgreeOnRetained(a, b, headers) && Fingerprint(a, headers, lib) == Fingerprint(b, headers, lib) ==>
      var x, y := RedactedPayload(a, headers), RedactedPayload(b, headers);
      x != y && lib.digest(x) == lib.digest(y)
  {
    hide Sensitive, Lookup, Payload;
    var p, q := Payload(a.columns, headers), Payload(b.columns, headers);
    RedactMembersPointwise(p);
    RedactMembersPointwise(q);
    PayloadShape(a.columns, headers);
    PayloadShape(b.columns, headers);
    SameKeys(a.columns, b.columns, headers);
    if AgreeOnRetained(a, b, headers) {
      assert RedactMembers(p) == RedactMembers(q);
    }
    if RedactMembers(p) == RedactMembers(q) {
      forall h | h in headers && h !in EXCLUDED && !Sensitive(h)
        ensures Redact(Lookup(a.columns, h)) == Redact(Lookup(b.columns, h))
      {
        var i :| 0 <= i < |p| && p[i].key == h;
        assert RedactMembers(p)[i] == RedactMembers(q)[i];
      }
    }
  }

  lemma {:induction false} PayloadShape(columns: Dict, headers: seq<string>)
    ensures forall i | 0 <= i < |Payload(columns, headers)| ::
      var m := Payload(columns, headers)[i];
      m.key in headers && m.key !in EXCLUDED && m.value == Lookup(columns, m.key)
    ensures forall h | h in headers && h !in EXCLUDED :: exists i | 0 <= i < |Payload(columns, headers)| :: Payload(columns, headers)[i].key == h
  {
    if headers != [] {
      var init, last := headers[..|headers| - 1], headers[|headers| - 1];
      PayloadShape(columns, init);
      assert headers == init + [last];
      var before, after := Payload(columns, init), Payload(columns, headers);
      assert forall i | 0 <= i < |before| :: after[i] == before[i];
      assert |after| > |before| ==> after[|before|].key == last;
      forall h | h in headers && h !in EXCLUDED ensures exists i | 0 <= i < |after| :: after[i].key == h {
        if h in init {
          var i :| 0 <= i < |before| && before[i].key == h;
          assert after[i].key == h;
        } else {
          assert h == last;
          assert after[|before|].key == h;
        }
      }
    }
  }

  lemma {:induction false} SameKeys(a: Dict, b: Dict, headers: seq<string>)
    ensures |Payload(a, headers)| == |Payload(b, headers)|
    ensures forall i | 0 <= i < |Payload(a, headers)| :: Payload(a, headers)[i].key == Payload(b, headers)[i].key
  {
    if headers != [] {
      SameKeys(a, b, headers[..|headers| - 1]);
    }
  }
}
