/** Exactly when batched loading agrees with naive loading: the group orders and the windows for which it does. */
module EagerExact {
  import opened Wrappers
  import opened AccountRow
  import opened Pipeline
  import opened EagerLoad
  import opened EagerLaws
  import opened EagerRuns

  // ---- Group orders ----

  ghost predicate DistinctIds(groups: seq<LeafRow>) {
    forall i, j | 0 <= i < j < |groups| :: groups[i].id != groups[j].id
  }

  /** The account gets its groups in the order its own query gives. */
  ghost predicate OrderKept(db: Store, e: LeafQuery, rows: seq<Row>, i: nat)
    requires i < |rows|
  {
    var joins := JoinRows(db, e, IdsOf(rows));
    GroupsOf(FirstGroups(joins), joins, IdOf(rows[i])) == FirstGroups(JoinRows(db, e, [IdOf(rows[i])]))
  }

  ghost predicate AlwaysKept(e: LeafQuery, groups: seq<LeafRow>) {
    forall db: Store, rows: seq<Row>, i: nat | db.groups == groups && Consistent(db) && TableRows(db, rows) && i < |rows| ::
      OrderKept(db, e, rows, i)
  }

  /** For a group query without a window and any groups table: every account of every batch, whatever the accounts and
      their memberships, gets its groups in the order of its own query exactly if the group order separates the groups
      that the query can return. */
  lemma GroupOrderIff(e: LeafQuery, groups: seq<LeafRow>)
    requires LeafUnwindowed(e) && e.joined == [] && DistinctIds(groups)
    ensures AlwaysKept(e, groups) <==> Separates(e.order, Selectable(e, groups))
  {
    hide Consistent, TableRows, OrderKept, Selectable, IdOf, AtMost;
    if Separates(e.order, Selectable(e, groups)) {
      forall db: Store, rows: seq<Row>, i: nat | db.groups == groups && Consistent(db) && TableRows(db, rows) && i < |rows|
        ensures OrderKept(db, e, rows, i)
      {
        KeptIfSeparated(db, e, rows, i);
      }
    } else {
      var g, h :| g in Selectable(e, groups) && h in Selectable(e, groups) && g != h
                  && AtMost(e.order, g, h) && AtMost(e.order, h, g);
      TiedGroups(e, groups, g, h);
    }
  }

  lemma KeptIfSeparated(db: Store, e: LeafQuery, rows: seq<Row>, i: nat)
    requires LeafUnwindowed(e) && Consistent(db) && i < |rows| && Separates(e.order, Selectable(e, db.groups))
    ensures OrderKept(db, e, rows, i)
  {
    hide Consistent, Selectable, IdOf, AtMost, JoinMatching, Separates, JoinRows, GroupsOf, FirstGroups;
    assert GroupsHarmless(db, e, IdsOf(rows));
    GroupEdge(db, e, rows, i);
  }

  /** Two accounts, of which the second is in both groups and the first in one. */
  function TiedStore(groups: seq<LeafRow>, g: LeafRow, h: LeafRow): Store {
    Store([FullRow(10, None), FullRow(20, None)], [], groups, [(10, g.id), (20, h.id), (20, g.id)])
  }

  /** A tie breaks the order: the second account gets the groups of a tied pair in the order of the whole batch. */
  lemma TiedGroups(e: LeafQuery, groups: seq<LeafRow>, g: LeafRow, h: LeafRow)
    requires LeafUnwindowed(e) && e.joined == [] && DistinctIds(groups)
    requires g in Selectable(e, groups) && h in Selectable(e, groups) && g != h
    requires AtMost(e.order, g, h) && AtMost(e.order, h, g)
    ensures var db := TiedStore(groups, g, h);
      Consistent(db) && TableRows(db, db.accounts) && |db.accounts| == 2 && !OrderKept(db, e, db.accounts, 1)
  {
    var db := TiedStore(groups, g, h);
    TiedStoreIs(groups, g, h);
    hide FullRow;
    SelectIn(e.preds + e.inters, groups, g);
    SelectIn(e.preds + e.inters, groups, h);
    OtherId(groups, g, h);
    TiedJoins(db, e, g, h);
    JoinKeyOfBatch(db, e, [10, 20], 20);
    BatchReordersGroups(g, h, 10, 20);
    hide JoinMatching, Share, GroupsOf, FirstGroups, Consistent, Selectable, AtMost, DistinctIds;
    assert JoinRows(db, e, [20]) == JoinMatching(db, e, [20]);
    assert [g, h][0] != [h, g][0];
  }

  lemma TiedStoreIs(groups: seq<LeafRow>, g: LeafRow, h: LeafRow)
    requires DistinctIds(groups)
    ensures var db := TiedStore(groups, g, h);
      && Consistent(db) && TableRows(db, db.accounts) && |db.accounts| == 2 && IdOf(db.accounts[1]) == 20
      && IdsOf(db.accounts) == [10, 20] && db.groups == groups && db.memberships == [(10, g.id), (20, h.id), (20, g.id)]
  {
    FullRowDecodes(10, None);
    FullRowDecodes(20, None);
    hide FullRow, IdOf, DecodableRow;
    assert FullRow(10, None) != FullRow(20, None) by {
      assert IdOf(FullRow(10, None)) != IdOf(FullRow(20, None));
    }
  }

  lemma OtherId(groups: seq<LeafRow>, g: LeafRow, h: LeafRow)
    requires DistinctIds(groups) && g in groups && h in groups && g != h
    ensures g.id != h.id
  {
    var i :| 0 <= i < |groups| && groups[i] == g;
    var j :| 0 <= j < |groups| && groups[j] == h;
  }

  lemma {:induction false} JoinOneIs(account: int, g: LeafRow, groups: seq<LeafRow>)
    requires DistinctIds(groups)
    ensures JoinOne(account, g.id, groups) == if g in groups then [Joined(account, g, [])] else JoinOne(account, g.id, groups)
    ensures (forall x | x in groups :: x.id != g.id) ==> JoinOne(account, g.id, groups) == []
    ensures |JoinOne(account, g.id, groups)| <= 1
  {
    if groups != [] {
      JoinOneIs(account, g, groups[1..]);
      assert groups == [groups[0]] + groups[1..];
      assert forall i | 0 <= i < |groups[1..]| :: groups[1..][i] == groups[i + 1];
      if groups[0].id == g.id {
        assert forall x | x in groups[1..] :: x.id != g.id;
        if g in groups {
          assert g == groups[0];
        }
      }
    }
  }

  lemma {:induction false} TiedSort<T>(order: seq<Term<T>>, rows: seq<T>)
    requires forall x, y | x in rows && y in rows :: AtMost(order, x, y)
    ensures SortBy(order, rows) == rows
  {
    hide AtMost;
    if rows != [] {
      assert rows == [rows[0]] + rows[1..];
      TiedSort(order, rows[1..]);
      InsertFront(order, rows[0], rows[1..]);
    }
  }

  lemma TiedJoins(db: Store, e: LeafQuery, g: LeafRow, h: LeafRow)
    requires LeafUnwindowed(e) && e.joined == [] && DistinctIds(db.groups) && g in db.groups && h in db.groups
    requires AllHold(e.preds + e.inters, g) && AllHold(e.preds + e.inters, h)
    requires AtMost(e.order, g, h) && AtMost(e.order, h, g) && db.memberships == [(10, g.id), (20, h.id), (20, g.id)]
    ensures JoinMatching(db, e, [10, 20]) == [Joined(10, g, []), Joined(20, h, []), Joined(20, g, [])]
  {
    var joins := [Joined(10, g, []), Joined(20, h, []), Joined(20, g, [])];
    var sel := JoinSelection(e, [10, 20]);
    ThreeJoins(db, g, h);
    JoinOrder(e, [10, 20]);
    hide JoinSelection, AtMost, AllHold, Joins, ByGroups;
    forall i | 0 <= i < 3 ensures AllHold(sel.preds, joins[i]) {
      JoinHolds(e, [10, 20], joins[i]);
    }
    SelectAll(sel.preds, joins);
    AtMostTotal(e.order, g, g);
    AtMostTotal(e.order, h, h);
    forall x, y | x in joins && y in joins ensures AtMost(ByGroups(e.order), x, y) {
      LiftedAtMost(e.order, x, y);
    }
    TiedSort(sel.order, joins);
  }

  lemma ThreeJoins(db: Store, g: LeafRow, h: LeafRow)
    requires DistinctIds(db.groups) && g in db.groups && h in db.groups
    requires db.memberships == [(10, g.id), (20, h.id), (20, g.id)]
    ensures Joins(0, db.memberships, db.groups) == [Joined(10, g, []), Joined(20, h, []), Joined(20, g, [])]
  {
    JoinOneIs(10, g, db.groups);
    JoinOneIs(20, h, db.groups);
    JoinOneIs(20, g, db.groups);
    hide JoinOne, DistinctIds;
    var m := db.memberships;
    assert m[1..] == [(20, h.id), (20, g.id)] && m[1..][1..] == [(20, g.id)] && m[1..][1..][1..] == [];
    assert Join(m[1..][1..], db.groups) == [Joined(20, g, [])];
    assert Join(m[1..], db.groups) == [Joined(20, h, []), Joined(20, g, [])];
  }

  // ---- Windows: rows of one key, read off views ----

  lemma ShareSnoc(key: Row -> Option<int>, k: int, rows: seq<Row>)
    requires rows != []
    ensures var n := |rows| - 1;
      Share(key, k, rows) == Share(key, k, rows[..n]) + if key(rows[n]) == Some(k) then [rows[n]] else []
  {
    SelectLast(k, key, rows);
  }

  /** Each view was decoded from its row. */
  ghost predicate ViewsOf(columns: seq<Column>, rows: seq<Row>, views: seq<View>) {
    |rows| == |views| && forall i | 0 <= i < |rows| :: views[i].fields == Decode(columns, rows[i])
  }

  lemma {:induction false} CollectShares(columns: seq<Column>, rows: seq<Row>, views: seq<View>, k: int)
    requires ViewsOf(columns, rows, views)
    ensures ViewsOf(columns, Share(ParentKey, k, rows), Collect(rows, views, k))
  {
    hide Decode, ParentKey, Share;
    if rows == [] {
      ShareOfOne(ParentKey, k, rows, k);
    } else {
      var n := |rows| - 1;
      CollectShares(columns, rows[..n], views[..n], k);
      ShareSnoc(ParentKey, k, rows);
    }
  }

  lemma {:induction false} PickShares(columns: seq<Column>, rows: seq<Row>, views: seq<View>, k: int)
    requires ViewsOf(columns, rows, views)
    ensures var picked, own := PickLast(rows, views, Some(k)), LastOf(Share(IdKey, k, rows));
      (picked.Some? <==> own.Some?) && (picked.Some? ==> picked.value.fields == Decode(columns, own.value))
  {
    hide Decode, IdOf, Share;
    if rows == [] {
      ShareOfOne(IdKey, k, rows, k);
    } else {
      var n := |rows| - 1;
      PickShares(columns, rows[..n], views[..n], k);
      ShareSnoc(IdKey, k, rows);
    }
  }

  /** Decoded with its id, a table row is known. */
  lemma DecodedRow(db: Store, columns: seq<Column>, a: Row, b: Row)
    requires Consistent(db) && a in db.accounts && b in db.accounts && TableColumns(columns) && ID in columns
    requires Decode(columns, a) == Decode(columns, b)
    ensures a == b
  {
    AccountsDistinct(db);
    hide Decode, DecodableRow, IdOf, Get, TableColumns;
    DecodedKeys(a, columns);
    DecodedKeys(b, columns);
    assert Int(IdOf(a)) == Int(IdOf(b));
  }

  lemma AlikeRows(db: Store, columns: seq<Column>, a: seq<Row>, b: seq<Row>, x: seq<View>, y: seq<View>)
    requires Consistent(db) && TableColumns(columns) && ID in columns && ViewsOf(columns, a, x) && ViewsOf(columns, b, y)
    requires (forall r: Row | r in a :: r in db.accounts) && (forall r: Row | r in b :: r in db.accounts)
    requires AllAlike(x, y)
    ensures a == b
  {
    hide Consistent, Decode, TableColumns;
    forall i | 0 <= i < |a| ensures a[i] == b[i] {
      assert Alike(x[i], y[i]) && a[i] in a && b[i] in b;
      DecodedRow(db, columns, a[i], b[i]);
    }
  }

  lemma BatchDecodes(db: Store, q: Query, columns: seq<Column>, rows: seq<Row>)
    ensures ViewsOf(columns, rows, Batch(db, q, columns, rows)) && ViewsOf(columns, rows, NaiveAll(db, q, columns, rows))
  {
    hide Decode, FirstKeys, IdOf, JoinRows, FirstGroups, GroupsOf, ParentNeighbours, ChildNeighbours, ProxyNeighbours, LastOfId;
  }

  lemma ShareOfTable(db: Store, key: Row -> Option<int>, k: int, rows: seq<Row>)
    requires forall r: Row | r in rows :: r in db.accounts
    ensures forall r: Row | r in Share(key, k, rows) :: r in db.accounts
  {
    hide Share;
    forall r: Row | r in Share(key, k, rows) ensures r in db.accounts {
      ShareIn(key, k, rows, r);
    }
  }

  /** If, for every requested key, the rows of the batch are those of the key's own query, the window is harmless. */
  lemma EdgeTold(db: Store, e: Query, key: Row -> Option<int>, keys: seq<int>)
    requires Consistent(db)
    requires forall k | k in keys :: Share(key, k, EdgeRows(db, e, key, keys)) == EdgeRows(db, e, key, [k])
    ensures EdgeHarmless(db, e, key, keys)
  {
    AccountsDistinct(db);
    MatchingDistinct(SelectionOf(e.(preds := e.preds + [In(key, keys)])), db.accounts);
    EdgeMatchingKeys(db, e, key, keys);
    var o, l, m := OrZero(e.offset), OrZero(e.limit), EdgeMatching(db, e, key, keys);
    assert Distinct(m);
    hide Consistent, EdgeMatching, Share, Window, Harmless, Distinct;
    forall k | k in keys ensures SameRows(Share(key, k, Window(o, l, m)), Window(o, l, Share(key, k, m))) {
      EdgeKey(db, e, key, keys, k);
    }
    SharesAreHarmless(o, l, key, m, keys);
  }

  /** Every requested key gets from the batch what its own query returns. */
  ghost predicate BatchAgrees(db: Store, e: Query, key: Row -> Option<int>, keys: seq<int>) {
    forall k | k in keys :: Share(key, k, EdgeRows(db, e, key, keys)) == EdgeRows(db, e, key, [k])
  }

  /** For any edge query, key and requested keys, with the matching rows m: batch and own queries agree exactly if the
      window is harmless. With a limit alone, this is that m fits into it or has one key; with an offset alone, that m lies
      before it or has one key; and for a window on the parent query, whose rows all have different keys, that m lies
      before the offset, or there is none and m fits into the limit. */
  lemma EdgeWindowIff(db: Store, e: Query, key: Row -> Option<int>, keys: seq<int>)
    requires Consistent(db)
    ensures var o, l, m := OrZero(e.offset), OrZero(e.limit), EdgeMatching(db, e, key, keys);
      && (BatchAgrees(db, e, key, keys) <==> EdgeHarmless(db, e, key, keys))
      && (o == 0 && l != 0 ==> (BatchAgrees(db, e, key, keys) <==> |m| <= l || OneKey(key, m)))
      && (o != 0 && l == 0 && |m| <= o + MAX_INT32 ==> (BatchAgrees(db, e, key, keys) <==> |m| <= o || OneKey(key, m)))
      && ((o != 0 || l != 0) && key == IdKey ==> (BatchAgrees(db, e, key, keys) <==> |m| <= o || (o == 0 && |m| <= l)))
  {
    var m := EdgeMatching(db, e, key, keys);
    if key == IdKey {
      MatchingIdsDiffer(db, e, keys);
    }
    hide Consistent, EdgeMatching, Share, Window, Harmless, Distinct, EdgeRows, OneKey, Keys;
    EdgeAgrees(db, e, key, keys);
    assert EdgeHarmless(db, e, key, keys) <==> Harmless(OrZero(e.offset), OrZero(e.limit), key, m);
    EdgeMatchingKeys(db, e, key, keys);
    HarmlessCases(OrZero(e.offset), OrZero(e.limit), key, m);
  }

  lemma EdgeAgrees(db: Store, e: Query, key: Row -> Option<int>, keys: seq<int>)
    requires Consistent(db)
    ensures BatchAgrees(db, e, key, keys) <==> EdgeHarmless(db, e, key, keys)
  {
    hide Consistent, Share, EdgeRows, EdgeHarmless, EdgeMatching;
    if EdgeHarmless(db, e, key, keys) {
      forall k | k in keys ensures Share(key, k, EdgeRows(db, e, key, keys)) == EdgeRows(db, e, key, [k]) {
        EdgeKey(db, e, key, keys, k);
      }
    }
    if BatchAgrees(db, e, key, keys) {
      EdgeTold(db, e, key, keys);
    }
  }

  lemma MatchingIdsDiffer(db: Store, e: Query, keys: seq<int>)
    requires Consistent(db)
    ensures Distinct(Keys(IdKey, EdgeMatching(db, e, IdKey, keys)))
  {
    AccountsDistinct(db);
    MatchingDistinct(SelectionOf(e.(preds := e.preds + [In(IdKey, keys)])), db.accounts);
    EdgeMatchingKeys(db, e, IdKey, keys);
    var m := EdgeMatching(db, e, IdKey, keys);
    assert TableRows(db, m);
    hide Consistent, EdgeMatching, IdOf, TableRows;
    IdsAreDistinct(db, m);
  }

  // ---- Children ----

  /** Lists that agree for every key agree as wholes. */
  lemma {:induction false} CollectsCover(rows: seq<Row>, a: seq<View>, b: seq<View>, keys: seq<int>)
    requires |rows| == |a| == |b| && forall r: Row | r in rows :: ParentKey(r).Some? && ParentKey(r).value in keys
    requires forall k | k in keys :: AllAlike(Collect(rows, a, k), Collect(rows, b, k))
    ensures AllAlike(a, b)
  {
    hide Alike, ParentKey;
    if rows != [] {
      var n := |rows| - 1;
      assert rows[n] in rows;
      forall k | k in keys
        ensures AllAlike(Collect(rows[..n], a[..n], k), Collect(rows[..n], b[..n], k))
        ensures ParentKey(rows[n]) == Some(k) ==> Alike(a[n], b[n])
      {
        var x, y := Collect(rows[..n], a[..n], k), Collect(rows[..n], b[..n], k);
        CollectLength(rows[..n], a[..n], b[..n], k);
        assert AllAlike(Collect(rows, a, k), Collect(rows, b, k));
        if ParentKey(rows[n]) == Some(k) {
          assert (x + [a[n]])[|x|] == a[n] && (y + [b[n]])[|y|] == b[n];
          assert forall i | 0 <= i < |x| :: (x + [a[n]])[i] == x[i] && (y + [b[n]])[i] == y[i];
        } else {
          assert x + [] == x && y + [] == y;
        }
      }
      CollectsCover(rows[..n], a[..n], b[..n], keys);
      var last := ParentKey(rows[n]).value;
      assert last in keys && Alike(a[n], b[n]);
      assert forall i | 0 <= i < n :: Alike(a[..n][i], b[..n][i]) && a[..n][i] == a[i] && b[..n][i] == b[i];
    }
  }

  lemma {:induction false} CollectLength(rows: seq<Row>, a: seq<View>, b: seq<View>, k: int)
    requires |rows| == |a| == |b|
    ensures |Collect(rows, a, k)| == |Collect(rows, b, k)|
  {
    hide ParentKey;
    if rows != [] {
      var n := |rows| - 1;
      CollectLength(rows[..n], a[..n], b[..n], k);
    }
  }

  lemma ChildrenTold(db: Store, e: Query, rows: seq<Row>)
    requires Consistent(db) && FieldsValid(ChildFields(e.fields))
    requires var children := ChildNeighbours(db, e, rows);
      forall i | 0 <= i < |rows| :: AllAlike(
        Collect(children, Batch(db, e, ChildColumns(e), children), IdOf(rows[i])),
        NaiveAll(db, e, ChildColumns(e), EdgeRows(db, e, ParentKey, [IdOf(rows[i])])))
    ensures EdgeHarmless(db, e, ParentKey, IdsOf(rows))
    ensures var children := ChildNeighbours(db, e, rows);
      TableRows(db, children) && AllAlike(Batch(db, e, ChildColumns(e), children), NaiveAll(db, e, ChildColumns(e), children))
  {
    var ids, children := IdsOf(rows), ChildNeighbours(db, e, rows);
    EdgeRowsAreTableRows(db, e, ParentKey, ids);
    hide Consistent, Batch, NaiveAll, EdgeRows, EdgeHarmless, Collect, IdOf, ParentKey, Share, ChildColumns, AllAlike, FieldsValid;
    forall k | k in ids
      ensures Share(ParentKey, k, children) == EdgeRows(db, e, ParentKey, [k])
      ensures AllAlike(Collect(children, Batch(db, e, ChildColumns(e), children), k),
                       Collect(children, NaiveAll(db, e, ChildColumns(e), children), k))
    {
      var i :| 0 <= i < |rows| && ids[i] == k;
      assert IdOf(rows[i]) == k;
      OwnChildren(db, e, children, k);
    }
    EdgeTold(db, e, ParentKey, ids);
    CollectsCover(children, Batch(db, e, ChildColumns(e), children), NaiveAll(db, e, ChildColumns(e), children), ids);
  }

  /** A child list that looks like the key's own query consists of that query's rows. */
  lemma OwnChildren(db: Store, e: Query, children: seq<Row>, k: int)
    requires Consistent(db) && FieldsValid(ChildFields(e.fields)) && TableRows(db, children)
    requires AllAlike(Collect(children, Batch(db, e, ChildColumns(e), children), k),
                      NaiveAll(db, e, ChildColumns(e), EdgeRows(db, e, ParentKey, [k])))
    ensures Share(ParentKey, k, children) == EdgeRows(db, e, ParentKey, [k])
    ensures AllAlike(Collect(children, Batch(db, e, ChildColumns(e), children), k),
                     Collect(children, NaiveAll(db, e, ChildColumns(e), children), k))
  {
    var columns, own := ChildColumns(e), EdgeRows(db, e, ParentKey, [k]);
    EdgeRowsAreTableRows(db, e, ParentKey, [k]);
    ChildColumnsValid(e);
    BatchDecodes(db, e, columns, children);
    BatchDecodes(db, e, columns, own);
    TableRowsIn(db, children);
    TableRowsIn(db, own);
    hide *;
    CollectShares(columns, children, Batch(db, e, columns, children), k);
    ShareOfTable(db, ParentKey, k, children);
    AlikeRows(db, columns, Share(ParentKey, k, children), own,
      Collect(children, Batch(db, e, columns, children), k), NaiveAll(db, e, columns, own));
    CollectIsNaive(db, e, columns, children, k);
    ShareIs(ParentKey, k, children);
  }

  lemma TableRowsIn(db: Store, rows: seq<Row>)
    requires TableRows(db, rows)
    ensures Distinct(rows) && forall r: Row | r in rows :: r in db.accounts
  {
  }

  // ---- Parents ----

  /** At most one table row has a given id. */
  lemma OneWithId(db: Store, rows: seq<Row>, k: int)
    requires Consistent(db) && TableRows(db, rows)
    ensures |Share(IdKey, k, rows)| <= 1
  {
    ShareDistinct(IdKey, k, rows);
    AccountsDistinct(db);
    hide Consistent, Share, IdOf;
    var own := Share(IdKey, k, rows);
    assert |own| > 1 ==> own[0] != own[1] && own[0] in own && own[1] in own;
    forall x: Row, y: Row | x in own && y in own ensures x == y {
      ShareIn(IdKey, k, rows, x);
      ShareIn(IdKey, k, rows, y);
      assert IdOf(x) == k == IdOf(y);
    }
  }

  lemma AtMostOneSame<T>(a: seq<T>, b: seq<T>)
    requires |a| <= 1 && |b| <= 1 && LastOf(a) == LastOf(b)
    ensures a == b
  {
  }

  /** What a row's parent looks like, in the batch and on its own. */
  ghost predicate ParentLike(db: Store, e: Query, parents: seq<Row>, k: int) {
    var mine := PickLast(parents, Batch(db, e, QueryColumns(e), parents), Some(k));
    var own := LastOf(NaiveAll(db, e, QueryColumns(e), EdgeRows(db, e, IdKey, [k])));
    (mine.Some? <==> own.Some?) && (mine.Some? ==> Alike(mine.value, own.value))
  }

  /** A parent that looks like that of the key's own query is that query's row. */
  lemma OwnParent(db: Store, e: Query, parents: seq<Row>, k: int)
    requires Consistent(db) && FieldsValid(e.fields) && TableRows(db, parents) && ParentLike(db, e, parents, k)
    ensures Share(IdKey, k, parents) == EdgeRows(db, e, IdKey, [k])
    ensures var mine := PickLast(parents, Batch(db, e, QueryColumns(e), parents), Some(k));
      var naive := PickLast(parents, NaiveAll(db, e, QueryColumns(e), parents), Some(k));
      (mine.Some? <==> naive.Some?) && (mine.Some? ==> Alike(mine.value, naive.value))
  {
    var columns, own := QueryColumns(e), EdgeRows(db, e, IdKey, [k]);
    QueryColumnsValid(e);
    EdgeRowsAreTableRows(db, e, IdKey, [k]);
    BatchDecodes(db, e, columns, parents);
    BatchDecodes(db, e, columns, own);
    hide *;
    OneWithId(db, parents, k);
    OneWithId(db, own, k);
    OwnShare(db, e, k);
    PickShares(columns, parents, Batch(db, e, columns, parents), k);
    PickLastIsNaive(db, e, columns, parents, k);
    ShareIs(IdKey, k, parents);
    ParentLikeIs(db, e, parents, k);
    TableRowsIn(db, parents);
    TableRowsIn(db, own);
    ShareOfTable(db, IdKey, k, parents);
    SameParent(db, columns, Share(IdKey, k, parents), own, PickLast(parents, Batch(db, e, columns, parents), Some(k)),
      NaiveAll(db, e, columns, own));
  }

  lemma ParentLikeIs(db: Store, e: Query, parents: seq<Row>, k: int)
    requires ParentLike(db, e, parents, k)
    ensures var mine := PickLast(parents, Batch(db, e, QueryColumns(e), parents), Some(k));
      var own := LastOf(NaiveAll(db, e, QueryColumns(e), EdgeRows(db, e, IdKey, [k])));
      (mine.Some? <==> own.Some?) && (mine.Some? ==> Alike(mine.value, own.value))
  {
    hide Batch, NaiveAll, EdgeRows, PickLast, Alike, QueryColumns, LastOf;
  }

  lemma SameParent(db: Store, columns: seq<Column>, share: seq<Row>, own: seq<Row>, mine: Option<View>, views: seq<View>)
    requires Consistent(db) && TableColumns(columns) && ID in columns && |share| <= 1 && |own| <= 1 && ViewsOf(columns, own, views)
    requires (forall r: Row | r in share :: r in db.accounts) && (forall r: Row | r in own :: r in db.accounts)
    requires (mine.Some? <==> LastOf(share).Some?) && (mine.Some? ==> mine.value.fields == Decode(columns, LastOf(share).value))
    requires (mine.Some? <==> LastOf(views).Some?) && (mine.Some? ==> Alike(mine.value, LastOf(views).value))
    ensures share == own
  {
    hide Consistent, Decode, TableColumns;
    if mine.Some? {
      assert share[0] in share && own[0] in own;
      DecodedRow(db, columns, share[0], own[0]);
    }
  }

  lemma OwnShare(db: Store, e: Query, k: int)
    ensures Share(IdKey, k, EdgeRows(db, e, IdKey, [k])) == EdgeRows(db, e, IdKey, [k])
  {
    EdgeMatchingKeys(db, e, IdKey, [k]);
    WindowKeeps(OrZero(e.offset), OrZero(e.limit), EdgeMatching(db, e, IdKey, [k]));
    var rows := EdgeRows(db, e, IdKey, [k]);
    hide EdgeMatching, Window, Share, IdOf;
    forall i | 0 <= i < |rows| ensures IdKey(rows[i]) == Some(k) {
      assert rows[i] in rows;
    }
    ShareOfOne(IdKey, k, rows, k);
  }

  lemma {:induction false} PickAt(rows: seq<Row>, views: seq<View>, i: nat)
    requires i < |rows| == |views| && LastOfId(rows, i)
    ensures PickLast(rows, views, Some(IdOf(rows[i]))) == Some(views[i])
  {
    hide IdOf;
    var n := |rows| - 1;
    if i < n {
      assert IdOf(rows[n]) != IdOf(rows[i]);
      assert LastOfId(rows[..n], i);
      PickAt(rows[..n], views[..n], i);
    }
  }

  lemma ParentsTold(db: Store, e: Query, rows: seq<Row>)
    requires Consistent(db) && (FirstKeys(KeysOf(rows, ParentKey)) != [] ==> FieldsValid(e.fields))
    requires forall i | 0 <= i < |rows| && ParentKey(rows[i]).Some? ::
      ParentLike(db, e, ParentNeighbours(db, e, rows), ParentKey(rows[i]).value)
    ensures EdgeHarmless(db, e, IdKey, FirstKeys(KeysOf(rows, ParentKey)))
    ensures var parents := ParentNeighbours(db, e, rows);
      TableRows(db, parents) && AllAlike(Batch(db, e, QueryColumns(e), parents), NaiveAll(db, e, QueryColumns(e), parents))
  {
    hide *;
    var ids, parents := FirstKeys(KeysOf(rows, ParentKey)), ParentNeighbours(db, e, rows);
    ParentRowsAreTableRows(db, e, rows);
    ParentKeysLike(db, e, rows);
    ParentNeighboursAre(db, e, rows);
    forall k | k in ids ensures Share(IdKey, k, EdgeRows(db, e, IdKey, ids)) == EdgeRows(db, e, IdKey, [k]) {
      OwnParent(db, e, parents, k);
    }
    EdgeTold(db, e, IdKey, ids);
    if ids == [] {
      NoneAlike(db, e);
    } else {
      ParentsAlike(db, e, ids);
    }
  }

  lemma ParentNeighboursAre(db: Store, e: Query, rows: seq<Row>)
    ensures var ids := FirstKeys(KeysOf(rows, ParentKey));
      ParentNeighbours(db, e, rows) == if ids == [] then [] else EdgeRows(db, e, IdKey, ids)
  {
    hide FirstKeys, EdgeRows;
  }

  lemma ParentKeysLike(db: Store, e: Query, rows: seq<Row>)
    requires forall i | 0 <= i < |rows| && ParentKey(rows[i]).Some? ::
      ParentLike(db, e, ParentNeighbours(db, e, rows), ParentKey(rows[i]).value)
    ensures forall k | k in FirstKeys(KeysOf(rows, ParentKey)) :: ParentLike(db, e, ParentNeighbours(db, e, rows), k)
  {
    var keys := KeysOf(rows, ParentKey);
    FirstKeysIn(keys);
    hide ParentLike, FirstKeys, ParentKey, ParentNeighbours;
    forall k | k in FirstKeys(keys) ensures ParentLike(db, e, ParentNeighbours(db, e, rows), k) {
      assert Some(k) in keys;
      var i :| 0 <= i < |rows| && keys[i] == Some(k);
      assert ParentKey(rows[i]) == Some(k);
    }
  }

  /** Every parent is the one of some key, so all of them look alike. */
  lemma ParentsAlike(db: Store, e: Query, ids: seq<int>)
    requires Consistent(db) && FieldsValid(e.fields)
    requires forall k | k in ids :: ParentLike(db, e, EdgeRows(db, e, IdKey, ids), k)
    ensures var parents := EdgeRows(db, e, IdKey, ids);
      AllAlike(Batch(db, e, QueryColumns(e), parents), NaiveAll(db, e, QueryColumns(e), parents))
  {
    var parents := EdgeRows(db, e, IdKey, ids);
    EdgeRowsAreTableRows(db, e, IdKey, ids);
    IdsAreDistinct(db, parents);
    var mine, naive := Batch(db, e, QueryColumns(e), parents), NaiveAll(db, e, QueryColumns(e), parents);
    hide Consistent, Batch, NaiveAll, EdgeRows, IdOf, QueryColumns, FieldsValid, ParentLike, PickLast, Alike, Share, TableRows;
    forall c | 0 <= c < |parents| ensures Alike(mine[c], naive[c]) {
      assert parents[c] in parents && IdKey(parents[c]).value in ids;
      var k := IdOf(parents[c]);
      OwnParent(db, e, parents, k);
      assert LastOfId(parents, c);
      PickAt(parents, mine, c);
      PickAt(parents, naive, c);
    }
  }

  lemma NoneAlike(db: Store, e: Query)
    ensures AllAlike(Batch(db, e, QueryColumns(e), []), NaiveAll(db, e, QueryColumns(e), []))
  {
  }

  // ---- Proxies ----

  lemma OneProxy(db: Store, rows: seq<LeafRow>, k: int)
    requires Consistent(db) && Distinct(rows) && forall r | r in rows :: r in db.proxies
    ensures |Share(LeafKey, k, rows)| <= 1
  {
    ShareDistinct(LeafKey, k, rows);
    hide DecodableRow, IdOf, Share;
    var own := Share(LeafKey, k, rows);
    assert |own| > 1 ==> own[0] != own[1] && own[0] in own && own[1] in own;
    forall x, y | x in own && y in own ensures x == y {
      ShareIn(LeafKey, k, rows, x);
      ShareIn(LeafKey, k, rows, y);
      var i :| 0 <= i < |db.proxies| && db.proxies[i] == x;
      var j :| 0 <= j < |db.proxies| && db.proxies[j] == y;
      assert i == j;
    }
  }

  lemma ProxyRowsAreDistinct(db: Store, e: LeafQuery, keys: seq<int>)
    requires Consistent(db)
    ensures Distinct(ProxyMatching(db, e, keys)) && Distinct(ProxyRows(db, e, keys))
    ensures forall r | r in ProxyRows(db, e, keys) :: r in db.proxies && r.id in keys
  {
    ProxiesDistinct(db);
    MatchingDistinct(LeafSelectionOf(e.(preds := e.preds + [In(LeafKey, keys)])), db.proxies);
    ProxyMatchingKeys(db, e, keys);
    WindowKeeps(OrZero(e.offset), OrZero(e.limit), ProxyMatching(db, e, keys));
    hide Consistent, Window, Matching;
  }

  lemma ProxiesDistinct(db: Store)
    requires Consistent(db)
    ensures Distinct(db.proxies)
  {
    hide DecodableRow, IdOf;
  }

  lemma ProxiesTold(db: Store, e: LeafQuery, keys: seq<int>)
    requires Consistent(db)
    requires forall k | k in keys :: PickLastLeaf(ProxyRows(db, e, keys), Some(k)) == LastOf(ProxyRows(db, e, [k]))
    ensures ProxyHarmless(db, e, keys)
  {
    ProxyRowsAreDistinct(db, e, keys);
    ProxyMatchingKeys(db, e, keys);
    var o, l, m := OrZero(e.offset), OrZero(e.limit), ProxyMatching(db, e, keys);
    hide Consistent, ProxyMatching, Share, Window, Harmless, Distinct, PickLastLeaf, LastOf;
    forall k | k in keys ensures SameRows(Share(LeafKey, k, Window(o, l, m)), Window(o, l, Share(LeafKey, k, m))) {
      ProxyKeyOfBatch(db, e, keys, k);
      OwnProxy(db, e, keys, k);
    }
    SharesAreHarmless(o, l, LeafKey, m, keys);
  }

  lemma OwnProxy(db: Store, e: LeafQuery, keys: seq<int>, k: int)
    requires Consistent(db) && PickLastLeaf(ProxyRows(db, e, keys), Some(k)) == LastOf(ProxyRows(db, e, [k]))
    ensures Share(LeafKey, k, ProxyRows(db, e, keys)) == ProxyRows(db, e, [k])
  {
    ProxyRowsAreDistinct(db, e, keys);
    ProxyRowsAreDistinct(db, e, [k]);
    PickLastLeafIsLast(ProxyRows(db, e, keys), k);
    ShareIs(LeafKey, k, ProxyRows(db, e, keys));
    OneProxy(db, ProxyRows(db, e, keys), k);
    OneProxy(db, ProxyRows(db, e, [k]), k);
    var own := ProxyRows(db, e, [k]);
    forall i | 0 <= i < |own| ensures LeafKey(own[i]) == Some(k) {
      assert own[i] in own;
    }
    ShareOfOne(LeafKey, k, own, k);
    hide *;
    AtMostOneSame(Share(LeafKey, k, ProxyRows(db, e, keys)), own);
  }

  // ---- Groups ----

  lemma {:induction false} JoinDistinct(memberships: seq<(int, int)>, groups: seq<LeafRow>)
    requires Distinct(memberships) && DistinctIds(groups)
    ensures Distinct(Join(memberships, groups))
  {
    if memberships != [] {
      var one, rest := JoinOne(memberships[0].0, memberships[0].1, groups), Join(memberships[1..], groups);
      assert forall i | 0 <= i < |memberships[1..]| :: memberships[1..][i] == memberships[i + 1];
      JoinDistinct(memberships[1..], groups);
      JoinOneIs(memberships[0].0, LeafRow(memberships[0].1, 0), groups);
      JoinOneFromTable(memberships[0].0, memberships[0].1, groups);
      JoinFromTable(memberships[1..], groups);
      assert memberships[0] !in memberships[1..];
      hide JoinOne, Join;
      forall i, j | 0 <= i < |one| && 0 <= j < |rest| ensures one[i] != rest[j] {
        assert one[i] in one && rest[j] in rest;
        assert (rest[j].account, rest[j].group.id) in memberships[1..];
        assert (one[i].account, one[i].group.id) == memberships[0];
      }
    }
  }

  /** The groups that a row is handed, in the batch and on its own, are the same. */
  ghost predicate GroupsLike(db: Store, e: LeafQuery, ids: seq<int>, k: int) {
    var joins := JoinRows(db, e, ids);
    multiset(GroupsOf(FirstGroups(joins), joins, k)) == multiset(FirstGroups(JoinRows(db, e, [k])))
  }

  /** On a first load, a join row is its account and its group. */
  lemma OwnJoins(db: Store, e: LeafQuery, ids: seq<int>, k: int)
    requires Consistent(db) && e.joined == [] && GroupsLike(db, e, ids, k)
    ensures SameRows(Share(AccountKey, k, JoinRows(db, e, ids)), JoinRows(db, e, [k]))
  {
    var joins, own := JoinRows(db, e, ids), JoinRows(db, e, [k]);
    JoinRowsFromTable(db, e, ids);
    JoinRowsFromTable(db, e, [k]);
    hide Consistent, JoinRows, Share, GroupsOf, FirstGroups, FirstAt, Selectable, Distinct;
    GroupsAreExact(db, joins, k);
    FirstGroupsIn(db, own);
    var mine := GroupsOf(FirstGroups(joins), joins, k);
    assert forall g :: g in mine <==> g in multiset(mine);
    assert forall g :: g in FirstGroups(own) <==> g in multiset(FirstGroups(own));
    forall j: Joined ensures j in Share(AccountKey, k, joins) <==> j in own {
      ShareIn(AccountKey, k, joins, j);
      if j in own {
        assert j.group in mine;
        var x :| x in joins && x.account == k && x.group == j.group;
        assert x == j;
      }
      if j in joins && j.account == k {
        assert j.group in mine;
        var x :| x in own && x.group == j.group;
        assert x == j;
      }
    }
  }

  lemma GroupsTold(db: Store, e: LeafQuery, ids: seq<int>)
    requires Consistent(db) && Distinct(db.memberships) && !GroupsFail(db, e, ids)
    requires forall k | k in ids :: GroupsLike(db, e, ids, k)
    ensures GroupsHarmless(db, e, ids)
  {
    var o, l, m := OrZero(e.offset), OrZero(e.limit), JoinMatching(db, e, ids);
    if e.joined != [] {
      hide JoinMatching;
      NoWindow(o, l, m);
    } else {
      JoinMatchingDistinct(db, e, ids);
      JoinMatchingKeys(db, e, ids);
      hide Consistent, JoinMatching, Share, Window, Harmless, Distinct, GroupsLike;
      forall k | k in ids ensures SameRows(Share(AccountKey, k, Window(o, l, m)), Window(o, l, Share(AccountKey, k, m))) {
        JoinKeyOfBatch(db, e, ids, k);
        OwnJoins(db, e, ids, k);
      }
      SharesAreHarmless(o, l, AccountKey, m, ids);
    }
  }

  lemma JoinMatchingDistinct(db: Store, e: LeafQuery, ids: seq<int>)
    requires Consistent(db) && Distinct(db.memberships) && e.joined == []
    ensures Distinct(JoinMatching(db, e, ids))
  {
    JoinDistinct(db.memberships, db.groups);
    MatchingDistinct(JoinSelection(e, ids), Joins(0, db.memberships, db.groups));
    hide Consistent, Join, Matching, JoinSelection;
  }

  lemma JoinMatchingKeys(db: Store, e: LeafQuery, ids: seq<int>)
    ensures forall j | j in JoinMatching(db, e, ids) :: AccountKey(j).Some? && AccountKey(j).value in ids
  {
    hide JoinMatching, EarlierMatch, AllHold, Joins;
    forall j | j in JoinMatching(db, e, ids) ensures j.account in ids {
      JoinMatchingIn(db, e, ids, j);
    }
  }

  // ---- The exact condition ----

  /** What one row's views agree on. */
  lemma AlikeParts(db: Store, q: Query, columns: seq<Column>, rows: seq<Row>, i: nat)
    requires Consistent(db) && TableRows(db, rows) && i < |rows|
    requires Alike(Batch(db, q, columns, rows)[i], Naive(db, q, columns, rows[i]))
    ensures q.withGroups.Some? ==> GroupsLike(db, q.withGroups.value, IdsOf(rows), IdOf(rows[i]))
    ensures q.withProxy.Some? && ProxyKey(rows[i]).Some? ==>
      PickLastLeaf(ProxyNeighbours(db, q.withProxy.value, rows), ProxyKey(rows[i]))
        == LastOf(ProxyRows(db, q.withProxy.value, [ProxyKey(rows[i]).value]))
    ensures q.withParent.Some? && ParentKey(rows[i]).Some? ==>
      ParentLike(db, q.withParent.value, ParentNeighbours(db, q.withParent.value, rows), ParentKey(rows[i]).value)
    ensures q.withChildren.Some? ==>
      var e, children := q.withChildren.value, ChildNeighbours(db, q.withChildren.value, rows);
      AllAlike(Collect(children, Batch(db, e, ChildColumns(e), children), IdOf(rows[i])),
               NaiveAll(db, e, ChildColumns(e), EdgeRows(db, e, ParentKey, [IdOf(rows[i])])))
  {
    IdsAreDistinct(db, rows);
    assert LastOfId(rows, i);
    hide Consistent, Decode, IdOf, EdgeRows, ProxyRows, JoinRows, GroupsOf, FirstGroups, TableRows, FirstKeys, ParentKey, ProxyKey,
      PickLast, PickLastLeaf, Collect, NaiveAll, LastOf, QueryColumns, ChildColumns, ParentNeighbours, ChildNeighbours, ProxyNeighbours;
  }

  lemma ProxyKeysAgree(db: Store, e: LeafQuery, rows: seq<Row>)
    requires forall i | 0 <= i < |rows| && ProxyKey(rows[i]).Some? ::
      PickLastLeaf(ProxyNeighbours(db, e, rows), ProxyKey(rows[i])) == LastOf(ProxyRows(db, e, [ProxyKey(rows[i]).value]))
    ensures var ids := FirstKeys(KeysOf(rows, ProxyKey));
      forall k | k in ids :: PickLastLeaf(ProxyRows(db, e, ids), Some(k)) == LastOf(ProxyRows(db, e, [k]))
  {
    var keys := KeysOf(rows, ProxyKey);
    var ids := FirstKeys(keys);
    FirstKeysIn(keys);
    hide FirstKeys, ProxyRows, PickLastLeaf, LastOf, ProxyKey;
    forall k | k in ids ensures PickLastLeaf(ProxyRows(db, e, ids), Some(k)) == LastOf(ProxyRows(db, e, [k])) {
      assert Some(k) in keys;
      var i :| 0 <= i < |rows| && keys[i] == Some(k);
      assert ProxyKey(rows[i]) == Some(k);
    }
  }

  /** If the batches build what naive loading does, up to group order, every window is harmless. */
  lemma {:induction false} AlikeIsHarmless(db: Store, q: Query, columns: seq<Column>, rows: seq<Row>)
    requires Consistent(db) && Distinct(db.memberships) && TableRows(db, rows) && !LoadFails(db, q, rows)
    requires AllAlike(Batch(db, q, columns, rows), NaiveAll(db, q, columns, rows))
    ensures WindowsHarmless(db, q, rows)
    decreases q
  {
    if rows != [] {
      hide Consistent, Batch, Naive, NaiveAll, Alike, TableRows, Distinct, EdgeHarmless, GroupsHarmless, ProxyHarmless, FirstKeys, IdsOf,
        KeysOf, JoinRows, ParentNeighbours, ChildNeighbours, ProxyNeighbours, GroupsLike, ParentLike, IdOf, ParentKey, ProxyKey, Collect,
        PickLastLeaf, LastOf, EdgeRows, ProxyRows, FieldsValid, AllAlike, ChildFields, ChildColumns, QueryColumns;
      forall i | 0 <= i < |rows| ensures Alike(Batch(db, q, columns, rows)[i], Naive(db, q, columns, rows[i])) {
        AlikeAt(Batch(db, q, columns, rows), NaiveAll(db, q, columns, rows), i);
      }
      if q.withGroups.Some? {
        GroupsHarmlessIf(db, q, columns, rows);
      }
      if q.withProxy.Some? {
        ProxyHarmlessIf(db, q, columns, rows);
      }
      if q.withParent.Some? {
        var e, parents := q.withParent.value, ParentNeighbours(db, q.withParent.value, rows);
        ParentsHarmlessIf(db, q, columns, rows);
        AlikeIsHarmless(db, e, QueryColumns(e), parents);
      }
      if q.withChildren.Some? {
        var e, children := q.withChildren.value, ChildNeighbours(db, q.withChildren.value, rows);
        ChildrenHarmlessIf(db, q, columns, rows);
        AlikeIsHarmless(db, e, ChildColumns(e), children);
      }
    }
  }

  lemma AlikeAt(a: seq<View>, b: seq<View>, i: nat)
    requires AllAlike(a, b) && i < |a|
    ensures |a| == |b| && Alike(a[i], b[i])
  {
    hide Alike;
  }

  ghost predicate RowsAlike(db: Store, q: Query, columns: seq<Column>, rows: seq<Row>) {
    forall i | 0 <= i < |rows| :: Alike(Batch(db, q, columns, rows)[i], Naive(db, q, columns, rows[i]))
  }

  lemma GroupsHarmlessIf(db: Store, q: Query, columns: seq<Column>, rows: seq<Row>)
    requires Consistent(db) && Distinct(db.memberships) && TableRows(db, rows) && RowsAlike(db, q, columns, rows)
    requires q.withGroups.Some? && !GroupsFail(db, q.withGroups.value, IdsOf(rows))
    ensures GroupsHarmless(db, q.withGroups.value, IdsOf(rows))
  {
    hide Consistent, Batch, Naive, Alike, TableRows, Distinct, GroupsHarmless, GroupsLike, IdOf, GroupsFail;
    var ids := IdsOf(rows);
    forall k | k in ids ensures GroupsLike(db, q.withGroups.value, ids, k) {
      var i :| 0 <= i < |rows| && ids[i] == k;
      AlikeParts(db, q, columns, rows, i);
    }
    GroupsTold(db, q.withGroups.value, ids);
  }

  lemma ProxyHarmlessIf(db: Store, q: Query, columns: seq<Column>, rows: seq<Row>)
    requires Consistent(db) && TableRows(db, rows) && RowsAlike(db, q, columns, rows) && q.withProxy.Some?
    ensures ProxyHarmless(db, q.withProxy.value, FirstKeys(KeysOf(rows, ProxyKey)))
  {
    hide Consistent, Batch, Naive, Alike, TableRows, ProxyHarmless, ProxyNeighbours, ProxyRows, PickLastLeaf, LastOf, FirstKeys;
    var e := q.withProxy.value;
    forall i | 0 <= i < |rows| && ProxyKey(rows[i]).Some?
      ensures PickLastLeaf(ProxyNeighbours(db, e, rows), ProxyKey(rows[i])) == LastOf(ProxyRows(db, e, [ProxyKey(rows[i]).value]))
    {
      AlikeParts(db, q, columns, rows, i);
    }
    ProxyKeysAgree(db, e, rows);
    ProxiesTold(db, e, FirstKeys(KeysOf(rows, ProxyKey)));
  }

  lemma ParentsHarmlessIf(db: Store, q: Query, columns: seq<Column>, rows: seq<Row>)
    requires Consistent(db) && TableRows(db, rows) && RowsAlike(db, q, columns, rows)
    requires q.withParent.Some? && !ParentFails(db, q.withParent.value, rows)
    ensures var e := q.withParent.value;
      var parents := ParentNeighbours(db, e, rows);
      && EdgeHarmless(db, e, IdKey, FirstKeys(KeysOf(rows, ParentKey))) && TableRows(db, parents) && !LoadFails(db, e, parents)
      && AllAlike(Batch(db, e, QueryColumns(e), parents), NaiveAll(db, e, QueryColumns(e), parents))
  {
    var e := q.withParent.value;
    ParentFailsIs(db, e, rows);
    NothingFails(db, e);
    hide Consistent, Batch, Naive, NaiveAll, Alike, TableRows, EdgeHarmless, ParentLike, FirstKeys, LoadFails, ParentFails, EdgeRows,
      QueryColumns, FieldsValid, ParentKey;
    forall i | 0 <= i < |rows| && ParentKey(rows[i]).Some?
      ensures ParentLike(db, e, ParentNeighbours(db, e, rows), ParentKey(rows[i]).value)
    {
      AlikeParts(db, q, columns, rows, i);
    }
    ParentsTold(db, e, rows);
  }

  lemma NothingFails(db: Store, q: Query)
    ensures !LoadFails(db, q, [])
  {
  }

  lemma ChildrenHarmlessIf(db: Store, q: Query, columns: seq<Column>, rows: seq<Row>)
    requires Consistent(db) && TableRows(db, rows) && RowsAlike(db, q, columns, rows)
    requires q.withChildren.Some? && !ChildrenFail(db, q.withChildren.value, rows)
    ensures var e := q.withChildren.value;
      var children := ChildNeighbours(db, e, rows);
      && EdgeHarmless(db, e, ParentKey, IdsOf(rows)) && TableRows(db, children) && !LoadFails(db, e, children)
      && AllAlike(Batch(db, e, ChildColumns(e), children), NaiveAll(db, e, ChildColumns(e), children))
  {
    var e := q.withChildren.value;
    ChildrenFailIs(db, e, rows);
    hide *;
    forall i | 0 <= i < |rows|
      ensures AllAlike(
        Collect(ChildNeighbours(db, e, rows), Batch(db, e, ChildColumns(e), ChildNeighbours(db, e, rows)), IdOf(rows[i])),
        NaiveAll(db, e, ChildColumns(e), EdgeRows(db, e, ParentKey, [IdOf(rows[i])])))
    {
      RowAlikeAt(db, q, columns, rows, i);
      AlikeParts(db, q, columns, rows, i);
    }
    ChildrenTold(db, e, rows);
  }

  lemma RowAlikeAt(db: Store, q: Query, columns: seq<Column>, rows: seq<Row>, i: nat)
    requires RowsAlike(db, q, columns, rows) && i < |rows|
    ensures Alike(Batch(db, q, columns, rows)[i], Naive(db, q, columns, rows[i]))
  {
    hide Alike, Batch, Naive;
  }

  /** For every load that succeeds, whatever the tree of edge queries and their windows: the batches build the graph that
      naive loading does, up to the order of each account's groups, exactly if every window in the tree is harmless to the
      batch it cuts. */
  lemma AlikeIff(db: Store, q: Query, columns: seq<Column>, rows: seq<Row>)
    requires Consistent(db) && Distinct(db.memberships) && TableRows(db, rows) && !LoadFails(db, q, rows)
    ensures AllAlike(Batch(db, q, columns, rows), NaiveAll(db, q, columns, rows)) <==> WindowsHarmless(db, q, rows)
  {
    hide *;
    if WindowsHarmless(db, q, rows) {
      HarmlessIsAlike(db, q, columns, rows);
    }
    if AllAlike(Batch(db, q, columns, rows), NaiveAll(db, q, columns, rows)) {
      AlikeIsHarmless(db, q, columns, rows);
    }
  }

  // ---- A limit that is not harmless ----

  /** Accounts 1 and 2, with a child each. */
  function Families(): Store {
    Store([FullRow(1, None), FullRow(2, None), FullRow(11, Some(1)), FullRow(12, Some(2))], [], [], [])
  }

  predicate IsRoot(r: Row) {
    ParentKey(r).None?
  }

  const ONE_CHILD := Query([], [], [], None, Some(1), None, [], None, None, None, None, None)

  /** The accounts without a parent, with one child each, as one would think. */
  function RootsWithChild(): Query {
    Query([Test((r: Row) => IsRoot(r))], [], [], None, None, None, [], None, None, None, None, Some(ONE_CHILD))
  }

  lemma FamiliesAre()
    ensures var accounts := Families().accounts;
      && |accounts| == 4 && Consistent(Families()) && Distinct(Families().memberships) && TableRows(Families(), accounts[..2])
      && (forall i | 0 <= i < 4 :: IdOf(accounts[i]) == [1, 2, 11, 12][i])
      && ParentKey(accounts[0]) == None && ParentKey(accounts[1]) == None
      && ParentKey(accounts[2]) == Some(1) && ParentKey(accounts[3]) == Some(2)
  {
    FullRowDecodes(1, None);
    FullRowDecodes(2, None);
    FullRowDecodes(11, Some(1));
    FullRowDecodes(12, Some(2));
    hide FullRow, IdOf, DecodableRow, ParentKey;
    var accounts := Families().accounts;
    assert forall i | 0 <= i < 4 :: IdOf(accounts[i]) == [1, 2, 11, 12][i];
    assert accounts[0] != accounts[1] by {
      assert IdOf(accounts[0]) != IdOf(accounts[1]);
    }
  }

  lemma SelectFour<T>(preds: seq<Pred<T>>, a: T, b: T, c: T, d: T)
    ensures Select(preds, [a, b, c, d]) ==
      (if AllHold(preds, a) then [a] else []) + (if AllHold(preds, b) then [b] else [])
      + (if AllHold(preds, c) then [c] else []) + (if AllHold(preds, d) then [d] else [])
  {
    hide AllHold;
    assert [a, b, c, d][1..] == [b, c, d] && [b, c, d][1..] == [c, d] && [c, d][1..] == [d] && [d][1..] == [];
    assert Select(preds, [d]) == if AllHold(preds, d) then [d] else [];
    assert Select(preds, [c, d]) == (if AllHold(preds, c) then [c] else []) + Select(preds, [d]);
    assert Select(preds, [b, c, d]) == (if AllHold(preds, b) then [b] else []) + Select(preds, [c, d]);
  }

  /** The children of the requested accounts, in table order. */
  lemma ChildMatching(keys: seq<int>)
    ensures var accounts := Families().accounts;
      |accounts| == 4 && EdgeMatching(Families(), ONE_CHILD, ParentKey, keys)
        == (if 1 in keys then [accounts[2]] else []) + (if 2 in keys then [accounts[3]] else [])
  {
    FamiliesAre();
    hide Families, Consistent, TableRows, IdOf, ParentKey;
    var accounts, one := Families().accounts, [In(ParentKey, keys)];
    var none: seq<Pred<Row>> := [];
    assert none + one + none == one;
    assert accounts == [accounts[0], accounts[1], accounts[2], accounts[3]];
    SelectFour(one, accounts[0], accounts[1], accounts[2], accounts[3]);
    forall i | 0 <= i < 4 ensures AllHold(one, accounts[i]) <==> one[0].Holds(accounts[i]) {
      OneHolds(one[0], accounts[i]);
    }
    hide Select, AllHold;
    TiedSort([], Select(one, accounts));
  }

  lemma RootRows()
    ensures |Families().accounts| == 4 && Rows(Families(), RootsWithChild()) == Families().accounts[..2]
  {
    FamiliesAre();
    hide Families, Consistent, TableRows, IdOf, ParentKey;
    var accounts := Families().accounts;
    var root: Pred<Row> := Test((r: Row) => IsRoot(r));
    var none: seq<Pred<Row>> := [];
    assert [root] + none == [root];
    assert accounts == [accounts[0], accounts[1], accounts[2], accounts[3]];
    SelectFour([root], accounts[0], accounts[1], accounts[2], accounts[3]);
    forall i | 0 <= i < 4 ensures AllHold([root], accounts[i]) <==> root.Holds(accounts[i]) {
      OneHolds(root, accounts[i]);
    }
    hide Select, AllHold;
    TiedSort([], Select([root], accounts));
  }

  /** With a limit of one child, the batch leaves the second account without its child, which its own query finds. The
      store is consistent, and the run succeeds. */
  lemma LimitBreaksBatching()
    ensures var db, q := Families(), RootsWithChild();
      && Consistent(db) && !RunFails(db, q) && |Rows(db, q)| == 2 && !WindowsHarmless(db, q, Rows(db, q))
      && (var batch, naive := All(db, q), NaiveAll(db, q, QueryColumns(q), Rows(db, q));
          && |batch[0].children| == |naive[0].children| == 1 && batch[1].children == [] && |naive[1].children| == 1
          && !AllAlike(batch, naive))
  {
    var db, q := Families(), RootsWithChild();
    hide *;
    FamiliesAre();
    RootRows();
    RootsRun(db, q);
    FamilyEdges();
    var columns, rows := QueryColumns(q), Rows(db, q);
    RootViews(db, q, columns, rows);
    AllIs(db, q);
    Childless(All(db, q), NaiveAll(db, q, columns, rows));
    AlikeIff(db, q, columns, rows);
  }

  lemma FamilyEdges()
    ensures var accounts := Families().accounts;
      && |accounts| == 4 && ParentKey(accounts[2]) == Some(1) && IdsOf(accounts[..2]) == [1, 2]
      && EdgeRows(Families(), ONE_CHILD, ParentKey, [1, 2]) == [accounts[2]]
      && EdgeRows(Families(), ONE_CHILD, ParentKey, [1]) == [accounts[2]]
      && EdgeRows(Families(), ONE_CHILD, ParentKey, [2]) == [accounts[3]]
  {
    FamiliesAre();
    ChildMatching([1, 2]);
    ChildMatching([1]);
    ChildMatching([2]);
    hide Families, Consistent, TableRows, IdOf, ParentKey, EdgeMatching;
    var accounts := Families().accounts;
    assert IdOf(accounts[0]) == 1 && IdOf(accounts[1]) == 2;
  }

  lemma Childless(a: seq<View>, b: seq<View>)
    requires |a| == |b| == 2 && |a[1].children| != |b[1].children|
    ensures !AllAlike(a, b)
  {
    if AllAlike(a, b) {
      assert Alike(a[1], b[1]);
    }
  }

  lemma RootsRun(db: Store, q: Query)
    requires q == RootsWithChild()
    ensures !RunFails(db, q) && !LoadFails(db, q, Rows(db, q)) && q.withChildren == Some(ONE_CHILD)
  {
    hide Rows, EdgeRows;
  }

  /** What loading makes of two rows and one child of the first. */
  lemma RootViews(db: Store, q: Query, columns: seq<Column>, rows: seq<Row>)
    requires q.withChildren == Some(ONE_CHILD) && |rows| == 2 && IdsOf(rows) == [1, 2]
    requires var batch, first, second :=
      EdgeRows(db, ONE_CHILD, ParentKey, [1, 2]), EdgeRows(db, ONE_CHILD, ParentKey, [1]), EdgeRows(db, ONE_CHILD, ParentKey, [2]);
      |batch| == |first| == |second| == 1 && ParentKey(batch[0]) == Some(1)
    ensures var batch, naive := Batch(db, q, columns, rows), NaiveAll(db, q, columns, rows);
      |batch[0].children| == |naive[0].children| == 1 && batch[1].children == [] && |naive[1].children| == 1
  {
    assert IdsOf(rows)[0] == IdOf(rows[0]) == 1 && IdsOf(rows)[1] == IdOf(rows[1]) == 2;
    assert LastOfId(rows, 0) && LastOfId(rows, 1);
    var children := ChildNeighbours(db, ONE_CHILD, rows);
    var views := Batch(db, ONE_CHILD, ChildColumns(ONE_CHILD), children);
    assert children == EdgeRows(db, ONE_CHILD, ParentKey, [1, 2]);
    hide *;
    OneCollected(children, views, 1);
    OneCollected(children, views, 2);
    ChildrenOf(db, q, columns, rows, 0);
    ChildrenOf(db, q, columns, rows, 1);
  }

  lemma ChildrenOf(db: Store, q: Query, columns: seq<Column>, rows: seq<Row>, i: nat)
    requires q.withChildren.Some? && i < |rows|
    ensures var e := q.withChildren.value;
      var children := ChildNeighbours(db, e, rows);
      && Batch(db, q, columns, rows)[i].children ==
           (if LastOfId(rows, i) then Collect(children, Batch(db, e, ChildColumns(e), children), IdOf(rows[i])) else [])
      && NaiveAll(db, q, columns, rows)[i].children == NaiveAll(db, e, ChildColumns(e), EdgeRows(db, e, ParentKey, [IdOf(rows[i])]))
  {
    hide EdgeRows, ParentKey, IdOf, Decode, JoinRows, ProxyNeighbours, ParentNeighbours, ChildNeighbours, GroupsOf, FirstGroups, LastOfId,
      PickLast, PickLastLeaf, Collect, LastOf, ProxyRows, QueryColumns, ChildColumns;
  }

  lemma OneCollected(rows: seq<Row>, views: seq<View>, k: int)
    requires |rows| == |views| == 1
    ensures Collect(rows, views, k) == if ParentKey(rows[0]) == Some(k) then views else []
  {
    assert Collect(rows[..0], views[..0], k) == [];
  }

  // ---- An offset on a groups edge, and a second run ----

  /** Two accounts in one group. */
  function Members(): Store {
    Store([FullRow(1, None), FullRow(2, None)], [], [LeafRow(7, 0)], [(1, 7), (2, 7)])
  }

  const SKIPPING := LeafQuery([], [], [], Some(2), None, None, [])

  function SkippingGroups(): Query {
    Query([], [], [], None, None, None, [], None, Some(SKIPPING), None, None, None)
  }

  lemma MembersAre()
    ensures var db := Members();
      && |db.accounts| == 2 && Consistent(db) && IdsOf(db.accounts) == [1, 2] && db.accounts != []
      && Rows(db, SkippingGroups()) == db.accounts
  {
    FullRowDecodes(1, None);
    FullRowDecodes(2, None);
    hide FullRow, IdOf, DecodableRow;
    AllRows(Members(), SkippingGroups());
  }

  /** A query that asks for nothing in particular returns the table. */
  lemma AllRows(db: Store, q: Query)
    requires q.preds == [] && q.inters == [] && q.order == [] && q.offset == None && q.limit == None && q.unique == None && q.path == None
    ensures Rows(db, q) == db.accounts
  {
    var none: seq<Pred<Row>> := [];
    assert none + none == none;
    forall i | 0 <= i < |db.accounts| ensures AllHold(none, db.accounts[i]) {
    }
    SelectAll(none, db.accounts);
    TiedSort([], db.accounts);
  }

  /** The offset skips both join rows of the first load, and leaves some of the second. */
  lemma SkippedJoins()
    ensures JoinRows(Members(), SKIPPING, [1, 2]) == [] && JoinRows(Members(), GroupsAfter(SKIPPING, [1, 2]), [1, 2]) != []
  {
    var db, again := Members(), GroupsAfter(SKIPPING, [1, 2]);
    JoinLength(db, SKIPPING, [1, 2]);
    SelectLength(JoinSelection(SKIPPING, [1, 2]).preds, Joins(0, db.memberships, db.groups));
    MemberJoins();
    NoWindow(2, 0, JoinMatching(db, SKIPPING, [1, 2]));
    NoWindow(2, 0, JoinMatching(db, again, [1, 2]));
    hide JoinMatching, Joins, Window, JoinSelection, Select;
    var g := LeafRow(7, 0);
    var matching := JoinMatching(db, again, [1, 2]);
    RejoinedIn(1, 1);
    RejoinedIn(1, 2);
    RejoinedIn(2, 1);
    ThreeRows(matching, Joined(1, g, [1]), Joined(1, g, [2]), Joined(2, g, [1]));
  }

  lemma MemberJoins()
    ensures var db := Members();
      Joins(0, db.memberships, db.groups) == [Joined(1, LeafRow(7, 0), []), Joined(2, LeafRow(7, 0), [])]
  {
    var db, g := Members(), LeafRow(7, 0);
    assert db.groups[0] == g && g in db.groups;
    JoinOneIs(1, g, db.groups);
    JoinOneIs(2, g, db.groups);
    hide JoinOne, FullRow;
    assert db.memberships[1..] == [(2, 7)] && db.memberships[1..][1..] == [];
    assert Join(db.memberships[1..], db.groups) == [Joined(2, g, [])];
  }

  lemma RejoinedIn(a: int, b: int)
    requires 1 <= a <= 2 && 1 <= b <= 2
    ensures Joined(a, LeafRow(7, 0), [b]) in JoinMatching(Members(), GroupsAfter(SKIPPING, [1, 2]), [1, 2])
  {
    hide *;
    var j := Joined(a, LeafRow(7, 0), [b]);
    AgainIs();
    RejoinedRow(a, b);
    EarlierIs([1, 2], j);
    NothingAsked(j.group);
    JoinMatchingIn(Members(), GroupsAfter(SKIPPING, [1, 2]), [1, 2], j);
  }

  lemma RejoinedRow(a: int, b: int)
    requires 1 <= a <= 2 && 1 <= b <= 2
    ensures var db := Members(); Joined(a, LeafRow(7, 0), [b]) in Rejoin(Joins(0, db.memberships, db.groups), db.memberships)
  {
    hide *;
    var db, j := Members(), Joined(a, LeafRow(7, 0), [b]);
    AgainIs();
    MemberJoins();
    var joins := Joins(0, db.memberships, db.groups);
    assert j.earlier[1..] == [] && joins[b - 1] == Joined(b, j.group, []);
    assert joins[b - 1] in joins;
    assert db.memberships[a - 1] == (a, 7);
    assert db.memberships[a - 1] in db.memberships;
    RejoinIn(joins, db.memberships, j);
  }

  lemma EarlierIs(accounts: seq<int>, j: Joined)
    requires j.earlier != [] && j.earlier[0] in accounts
    ensures EarlierMatch([accounts], j)
  {
    assert EarlierAt([accounts], j, 0);
  }

  lemma AgainIs()
    ensures var db, again := Members(), GroupsAfter(SKIPPING, [1, 2]);
      && again.joined == [[1, 2]] && again.preds + again.inters == []
      && Joins(1, db.memberships, db.groups) == Rejoin(Joins(0, db.memberships, db.groups), db.memberships)
      && db.memberships == [(1, 7), (2, 7)]
  {
    hide FullRow, Rejoin, Join;
  }

  lemma NothingAsked(g: LeafRow)
    ensures AllHold([], g)
  {
  }

  lemma ThreeRows<T>(rows: seq<T>, a: T, b: T, c: T)
    requires a in rows && b in rows && c in rows && a != b && b != c && a != c
    ensures |rows| > 2
  {
    var i :| 0 <= i < |rows| && rows[i] == a;
    var j :| 0 <= j < |rows| && rows[j] == b;
    var k :| 0 <= k < |rows| && rows[k] == c;
  }

  /** With an offset on the group query, a first run whose groups edge returned no join row can be followed by one that
      fails: the join of the second run has more rows to skip. */
  lemma OffsetReloads()
    ensures var db, q := Members(), SkippingGroups();
      && Consistent(db) && !RunFails(db, q) && !LoadsGroups(db, q, Rows(db, q)) && RunFails(db, AfterAll(db, q))
  {
    var db, q := Members(), SkippingGroups();
    MembersAre();
    SkippedJoins();
    hide Members, JoinRows, GroupsAfter, Rows, AfterAll, Consistent, IdsOf, IdOf;
    RunAgain(db, q);
  }

  // ---- A groups edge that returns a row, and a second run ----

  /** One account in one group. */
  function OneMember(): Store {
    Store([FullRow(1, None)], [], [LeafRow(7, 0)], [(1, 7)])
  }

  const FRESH_GROUPS := LeafQuery([], [], [], None, None, None, [])

  const WITH_GROUPS := Query([], [], [], None, None, None, [], None, Some(FRESH_GROUPS), None, None, None)

  lemma OneMemberJoins()
    ensures JoinRows(OneMember(), FRESH_GROUPS, [1]) == [Joined(1, LeafRow(7, 0), [])]
  {
    var db, g := OneMember(), LeafRow(7, 0);
    var joins, sel := [Joined(1, g, [])], JoinSelection(FRESH_GROUPS, [1]);
    assert db.groups[0] == g && g in db.groups;
    JoinOneIs(1, g, db.groups);
    assert db.memberships[1..] == [];
    hide FullRow, JoinOne;
    assert Joins(0, db.memberships, db.groups) == joins;
    NothingAsked(g);
    hide Joins, AllHold, JoinSelection;
    JoinHolds(FRESH_GROUPS, [1], joins[0]);
    SelectAll(sel.preds, joins);
    SortSorts(sel.order, joins);
    JoinOrder(FRESH_GROUPS, [1]);
    hide Select;
    OneSorted(sel.order, joins[0]);
  }

  lemma OneSorted<T>(order: seq<Term<T>>, r: T)
    ensures SortBy(order, [r]) == [r]
  {
    assert [r][1..] == [];
  }

  /** The first run of a builder with a groups edge succeeds and returns the account's group; the second run fails. */
  lemma GroupsRunOnce()
    ensures var db, q := OneMember(), WITH_GROUPS;
      && Consistent(db) && Rows(db, q) == db.accounts && |db.accounts| == 1 && !RunFails(db, q) && ReloadsGroups(db, q, Rows(db, q))
      && |All(db, q)| == 1 && All(db, q)[0].groups == [LeafRow(7, 0)]
  {
    hide *;
    var db, q := OneMember(), WITH_GROUPS;
    OneMemberIs();
    OneMemberJoins();
    OneMemberLoads(db, q, db.accounts);
    ReloadsWhatLoads(db, q, db.accounts);
    OneGroup(Joined(1, LeafRow(7, 0), []));
    GroupsOfView(db, q, QueryColumns(q), db.accounts, 0);
    AllIs(db, q);
  }

  lemma OneMemberIs()
    ensures var db := OneMember();
      && Consistent(db) && |db.accounts| == 1 && IdsOf(db.accounts) == [1] && IdOf(db.accounts[0]) == 1 && LastOfId(db.accounts, 0)
      && Rows(db, WITH_GROUPS) == db.accounts
  {
    FullRowDecodes(1, None);
    hide FullRow, IdOf, DecodableRow;
    AllRows(OneMember(), WITH_GROUPS);
  }

  lemma OneMemberLoads(db: Store, q: Query, rows: seq<Row>)
    requires q == WITH_GROUPS && rows != [] && IdsOf(rows) == [1] && JoinRows(db, FRESH_GROUPS, [1]) != [] && Rows(db, q) == rows
    ensures q.withGroups == Some(FRESH_GROUPS) && LoadsGroups(db, q, rows) && !RunFails(db, q)
  {
    hide JoinRows, Rows, IdsOf;
  }

  lemma OneGroup(j: Joined)
    ensures GroupsOf(FirstGroups([j]), [j], j.account) == [j.group]
  {
    assert [j][..0] == [] && [j.group][..0] == [];
    assert FirstGroups([j]) == [j.group];
    assert j in [j];
  }

  lemma GroupsOfView(db: Store, q: Query, columns: seq<Column>, rows: seq<Row>, i: nat)
    requires q.withGroups.Some? && i < |rows| && LastOfId(rows, i)
    ensures var joins := JoinRows(db, q.withGroups.value, IdsOf(rows));
      Batch(db, q, columns, rows)[i].groups == GroupsOf(FirstGroups(joins), joins, IdOf(rows[i]))
  {
    hide EdgeRows, ParentKey, IdOf, Decode, JoinRows, ProxyNeighbours, ParentNeighbours, ChildNeighbours, GroupsOf, FirstGroups, LastOfId,
      PickLast, PickLastLeaf, Collect;
  }
}
