/** Further laws of eager loading: selected columns, group order, conservation of neighbours, and what a limit does. */
module EagerLaws {
  import opened Wrappers
  import opened AccountRow
  import opened Pipeline
  import opened EagerLoad

  // ---- Selected columns: the loaders' error branches have nothing to fire on ----

  lemma {:induction false} WithoutIdIn(fields: seq<Column>, c: Column)
    ensures c in WithoutId(fields) <==> c in fields && c != ID
  {
    if fields != [] {
      WithoutIdIn(fields[1..], c);
      assert fields == [fields[0]] + fields[1..];
    }
  }

  /** For any chosen fields: the id comes first and only there, every chosen field is selected, and so is the foreign
      key of each eager to-one edge. */
  lemma ColumnsSelected(fields: seq<Column>, proxy: bool, parent: bool)
    ensures var columns := ColumnsFor(fields, proxy, parent);
      && columns != [] && columns[0] == ID
      && (forall i | 1 <= i < |columns| :: columns[i] != ID)
      && (forall c | c in fields :: c in columns)
      && (proxy ==> ProxyID in columns)
      && (parent ==> ParentAccountID in columns)
      && (forall c | c in columns :: fields == [] || c in fields || c == ID || (proxy && c == ProxyID) || (parent && c == ParentAccountID))
  {
    if fields == [] {
      AllColumnsSelected();
    } else {
      ChosenColumns(fields);
      var chosen := [ID] + WithoutId(fields);
      var c1 := if proxy then AddOnce(chosen, ProxyID) else chosen;
      AddOnceKeeps(chosen, ProxyID);
      AddOnceKeeps(c1, ParentAccountID);
    }
  }

  lemma ChosenColumns(fields: seq<Column>)
    ensures var chosen := [ID] + WithoutId(fields);
      chosen[0] == ID && (forall i | 1 <= i < |chosen| :: chosen[i] != ID) && forall c :: c in chosen <==> c == ID || c in fields
  {
    var rest := WithoutId(fields);
    forall c ensures c in rest <==> c in fields && c != ID {
      WithoutIdIn(fields, c);
    }
    hide WithoutId;
    assert forall i | 0 <= i < |rest| :: rest[i] in rest;
    assert forall i | 1 <= i < |[ID] + rest| :: ([ID] + rest)[i] == rest[i - 1];
  }

  lemma AddOnceKeeps(columns: seq<Column>, c: Column)
    requires columns != [] && columns[0] == ID && c != ID && forall i | 1 <= i < |columns| :: columns[i] != ID
    ensures var more := AddOnce(columns, c);
      && more != [] && more[0] == ID && (forall i | 1 <= i < |more| :: more[i] != ID)
      && forall d :: d in more <==> d in columns || d == c
  {
  }

  lemma AllColumnsSelected()
    ensures |Columns()| == 33 && Columns()[0] == ID && (forall i | 1 <= i < 33 :: Columns()[i] != ID)
    ensures forall c: Column | !c.Other? :: c in Columns()
  {
    ColumnsInOrder();
    forall c: Column | !c.Other? ensures c in Columns() {
      ColumnsAreAll(c);
    }
    hide ColumnAt;
    assert Columns()[0] == ColumnAt(0) && Ordinal(ColumnAt(0)) == 0;
    FirstIsId();
  }

  lemma FirstIsId()
    ensures ColumnAt(0) == ID
  {
  }

  lemma ChildKeySelected(e: Query)
    ensures ParentAccountID in ChildColumns(e)
  {
    hide ColumnsFor, Columns;
    ColumnsSelected(ChildFields(e.fields), e.withProxy.Some?, e.withParent.Some?);
    if e.fields == [] {
      AllColumnsSelected();
      AllForNone(e.withProxy.Some?, e.withParent.Some?);
    } else {
      assert ParentAccountID in ChildFields(e.fields);
    }
  }

  lemma AllForNone(proxy: bool, parent: bool)
    ensures ColumnsFor([], proxy, parent) == Columns()
  {
  }

  /** The selected columns exist in every decodable row. */
  ghost predicate TableColumns(columns: seq<Column>) {
    forall c | c in columns :: !c.Other?
  }

  lemma DecodableIsTyped(r: Row, columns: seq<Column>)
    requires DecodableRow(r) && TableColumns(columns)
    ensures TypedRow(columns, r) && forall c | c in columns :: !Malformed(r[c])
  {
    hide Typed, Malformed;
    forall c | c in columns ensures c in r && Typed(c, r[c]) && !Malformed(r[c]) {
      ColumnsAreAll(c);
    }
  }

  /** A decoded account carries its row's id, and its foreign keys wherever they are selected. */
  lemma DecodedKeys(r: Row, columns: seq<Column>)
    requires DecodableRow(r) && TableColumns(columns)
    ensures TypedRow(columns, r) && AssignAll(Fresh(), columns, FillAll(columns, r)) == (Decode(columns, r), None)
    ensures ID in columns ==> Get(Decode(columns, r), ID) == Int(IdOf(r))
    ensures ProxyID in columns ==> Get(Decode(columns, r), ProxyID) == RefValue(ProxyKey(r))
    ensures ParentAccountID in columns ==> Get(Decode(columns, r), ParentAccountID) == RefValue(ParentKey(r))
  {
    DecodableIsTyped(r, columns);
    FreshIsWhole();
    RowIsDecoded(Fresh(), columns, r);
    ForeignKeyCells(r);
    hide Typed, Malformed, FillAll, AssignAll, Columns, Fresh;
  }

  function RefValue(k: Option<int>): Value {
    if k.Some? then Int(k.value) else Nil
  }

  lemma ForeignKeyCells(r: Row)
    requires DecodableRow(r)
    ensures ID in r && Decoded(Zero(ID), ID, r[ID]) == Int(IdOf(r))
    ensures ProxyID in r && Decoded(Zero(ProxyID), ProxyID, r[ProxyID]) == RefValue(ProxyKey(r))
    ensures ParentAccountID in r && Decoded(Zero(ParentAccountID), ParentAccountID, r[ParentAccountID]) == RefValue(ParentKey(r))
  {
    hide Columns;
    ColumnsAreAll(ProxyID);
    ColumnsAreAll(ParentAccountID);
    assert Typed(ProxyID, r[ProxyID]) && Typed(ParentAccountID, r[ParentAccountID]);
  }

  // ---- Batches against naive loading, whatever the group order ----

  /** The same graph, except that an account's groups may come in another order. */
  ghost predicate Alike(a: View, b: View)
    decreases a
  {
    && a.fields == b.fields && multiset(a.groups) == multiset(b.groups) && a.proxy == b.proxy
    && (a.parent.Some? <==> b.parent.Some?) && (a.parent.Some? ==> Alike(a.parent.value, b.parent.value))
    && |a.children| == |b.children| && forall i | 0 <= i < |a.children| :: Alike(a.children[i], b.children[i])
  }

  ghost predicate AllAlike(a: seq<View>, b: seq<View>) {
    |a| == |b| && forall i | 0 <= i < |a| :: Alike(a[i], b[i])
  }

  lemma {:induction false} PickLastAlike(rows: seq<Row>, a: seq<View>, b: seq<View>, k: Option<int>)
    requires |rows| == |a| && AllAlike(a, b)
    ensures PickLast(rows, a, k).Some? <==> PickLast(rows, b, k).Some?
    ensures PickLast(rows, a, k).Some? ==> Alike(PickLast(rows, a, k).value, PickLast(rows, b, k).value)
  {
    hide Alike, IdOf;
    if rows != [] && k.Some? {
      var n := |rows| - 1;
      PickLastAlike(rows[..n], a[..n], b[..n], k);
    }
  }

  lemma {:induction false} CollectAlike(rows: seq<Row>, a: seq<View>, b: seq<View>, k: int)
    requires |rows| == |a| && AllAlike(a, b)
    ensures AllAlike(Collect(rows, a, k), Collect(rows, b, k))
  {
    hide Alike, ParentKey;
    if rows != [] {
      var n := |rows| - 1;
      CollectAlike(rows[..n], a[..n], b[..n], k);
    }
  }

  lemma DistinctSame<T>(a: seq<T>, b: seq<T>)
    requires Distinct(a) && Distinct(b) && forall x: T :: x in a <==> x in b
    ensures multiset(a) == multiset(b)
  {
    DistinctMultiset(a);
    DistinctMultiset(b);
    forall x: T ensures multiset(a)[x] == multiset(b)[x] {
      assert x in a <==> x in multiset(a);
      assert x in b <==> x in multiset(b);
    }
  }

  /** Whatever the group order, under a harmless window an account gets the groups that its own query would find. */
  lemma GroupsAlike(db: Store, e: LeafQuery, rows: seq<Row>, i: nat)
    requires Consistent(db) && i < |rows| && GroupsHarmless(db, e, IdsOf(rows))
    ensures var joins := JoinRows(db, e, IdsOf(rows));
      multiset(GroupsOf(FirstGroups(joins), joins, IdOf(rows[i]))) == multiset(FirstGroups(JoinRows(db, e, [IdOf(rows[i])])))
  {
    hide Consistent, JoinRows, GroupsOf, FirstGroups, IdOf, FirstAt, Distinct, GroupsHarmless, Share, Selectable;
    var ids, account := IdsOf(rows), IdOf(rows[i]);
    assert ids[i] == account;
    var joins := JoinRows(db, e, ids);
    JoinRowsFromTable(db, e, ids);
    JoinRowsFromTable(db, e, [account]);
    JoinKeyOfBatch(db, e, ids, account);
    ShareIs(AccountKey, account, joins);
    hide Select;
    SharedGroups(db, joins, JoinRows(db, e, [account]), account);
  }

  /** The groups of an account among join rows are those of its own join rows. */
  lemma SharedGroups(db: Store, joins: seq<Joined>, own: seq<Joined>, account: int)
    requires Consistent(db) && FromTable(db, joins) && own == Select([In(AccountKey, [account])], joins) && FromTable(db, own)
    ensures multiset(GroupsOf(FirstGroups(joins), joins, account)) == multiset(FirstGroups(own))
  {
    hide Consistent, GroupsOf, FirstGroups, FirstAt, Distinct, Select;
    GroupsAreExact(db, joins, account);
    FirstGroupsIn(db, joins);
    FirstGroupsIn(db, own);
    var mine := GroupsOf(FirstGroups(joins), joins, account);
    forall g: LeafRow ensures g in mine <==> g in FirstGroups(own) {
      GroupsOfIn(FirstGroups(joins), joins, account, g);
      if g in db.groups {
        OwnGroups(db, joins, account, g);
        if JoinedTo(joins, account, g.id) {
          JoinedIsFirst(db, joins, account, g);
        }
      }
    }
    DistinctSame(mine, FirstGroups(own));
  }

  lemma JoinedIsFirst(db: Store, joins: seq<Joined>, account: int, g: LeafRow)
    requires Consistent(db) && FromTable(db, joins) && g in db.groups && JoinedTo(joins, account, g.id)
    ensures g in FirstGroups(joins)
  {
    hide Consistent, FirstGroups;
    if g !in FirstGroups(joins) {
      NotJoined(db, joins, account, g);
    }
  }

  /** Whatever the group orders: if the windows of the edge queries are harmless to the batches they cut, loading by
      batches builds the graph that naive loading does, up to the order of each account's groups. */
  lemma {:induction false} HarmlessIsAlike(db: Store, q: Query, columns: seq<Column>, rows: seq<Row>)
    requires Consistent(db) && TableRows(db, rows) && WindowsHarmless(db, q, rows)
    ensures AllAlike(Batch(db, q, columns, rows), NaiveAll(db, q, columns, rows))
    decreases q, 1
  {
    hide Batch, Naive, Alike, TableRows, Consistent, WindowsHarmless;
    forall i | 0 <= i < |rows| ensures Alike(Batch(db, q, columns, rows)[i], Naive(db, q, columns, rows[i])) {
      RowAlike(db, q, columns, rows, i);
    }
  }

  /** In particular for any edge queries without a limit or an offset. */
  lemma BatchAlikeNaive(db: Store, q: Query, columns: seq<Column>, rows: seq<Row>)
    requires Consistent(db) && TableRows(db, rows) && EdgesUnlimited(q)
    ensures AllAlike(Batch(db, q, columns, rows), NaiveAll(db, q, columns, rows))
  {
    hide *;
    UnlimitedIsHarmless(db, q, rows);
    HarmlessIsAlike(db, q, columns, rows);
  }

  lemma {:induction false} RowAlike(db: Store, q: Query, columns: seq<Column>, rows: seq<Row>, i: nat)
    requires Consistent(db) && TableRows(db, rows) && WindowsHarmless(db, q, rows) && i < |rows|
    ensures Alike(Batch(db, q, columns, rows)[i], Naive(db, q, columns, rows[i]))
    decreases q, 0
  {
    hide Consistent, Decode, IdOf, EdgeRows, ProxyRows, JoinRows, GroupsOf, FirstGroups, TableRows, FirstKeys, ParentKey, ProxyKey,
      PickLast, PickLastLeaf, Collect, NaiveAll, LastOf, QueryColumns, ChildColumns, ParentNeighbours, ChildNeighbours, ProxyNeighbours,
      GroupsHarmless, ProxyHarmless, EdgeHarmless;
    IdsAreDistinct(db, rows);
    assert LastOfId(rows, i);
    NoGroups(IdOf(rows[i]));
    NothingPicked(rows[i]);
    if q.withGroups.Some? {
      GroupsAlike(db, q.withGroups.value, rows, i);
    }
    if q.withProxy.Some? {
      ProxyEdge(db, q.withProxy.value, rows, i);
    }
    if q.withParent.Some? {
      ParentAlike(db, q.withParent.value, rows, i);
    }
    if q.withChildren.Some? {
      ChildrenAlike(db, q.withChildren.value, rows, i);
    }
  }

  lemma NothingPicked(r: Row)
    ensures PickLastLeaf([], ProxyKey(r)) == None && PickLast<View>([], [], ParentKey(r)) == None && Collect<View>([], [], IdOf(r)) == []
  {
  }

  lemma {:induction false} ParentAlike(db: Store, e: Query, rows: seq<Row>, i: nat)
    requires Consistent(db) && EdgeHarmless(db, e, IdKey, FirstKeys(KeysOf(rows, ParentKey))) && i < |rows|
    requires WindowsHarmless(db, e, ParentNeighbours(db, e, rows))
    ensures var parents := ParentNeighbours(db, e, rows);
      var mine := PickLast(parents, Batch(db, e, QueryColumns(e), parents), ParentKey(rows[i]));
      var own :=
        if ParentKey(rows[i]).Some?
        then LastOf(NaiveAll(db, e, QueryColumns(e), EdgeRows(db, e, IdKey, [ParentKey(rows[i]).value]))) else None;
      (mine.Some? <==> own.Some?) && (mine.Some? ==> Alike(mine.value, own.value))
    decreases e, 2
  {
    var parents := ParentNeighbours(db, e, rows);
    ParentRowsAreTableRows(db, e, rows);
    ParentEdge(db, e, rows, i);
    hide *;
    HarmlessIsAlike(db, e, QueryColumns(e), parents);
    PickLastAlike(parents, Batch(db, e, QueryColumns(e), parents), NaiveAll(db, e, QueryColumns(e), parents), ParentKey(rows[i]));
  }

  lemma {:induction false} ChildrenAlike(db: Store, e: Query, rows: seq<Row>, i: nat)
    requires Consistent(db) && EdgeHarmless(db, e, ParentKey, IdsOf(rows)) && i < |rows|
    requires WindowsHarmless(db, e, ChildNeighbours(db, e, rows))
    ensures var children := ChildNeighbours(db, e, rows);
      AllAlike(Collect(children, Batch(db, e, ChildColumns(e), children), IdOf(rows[i])),
               NaiveAll(db, e, ChildColumns(e), EdgeRows(db, e, ParentKey, [IdOf(rows[i])])))
    decreases e, 2
  {
    var children := ChildNeighbours(db, e, rows);
    EdgeRowsAreTableRows(db, e, ParentKey, IdsOf(rows));
    ChildEdge(db, e, rows, i);
    hide *;
    HarmlessIsAlike(db, e, ChildColumns(e), children);
    CollectAlike(children, Batch(db, e, ChildColumns(e), children), NaiveAll(db, e, ChildColumns(e), children), IdOf(rows[i]));
  }

  // ---- Neighbours are conserved ----

  /** The child lists for the given ids, one after the other. */
  function Lists<V>(ids: seq<int>, rows: seq<Row>, views: seq<V>): seq<V>
    requires |rows| == |views|
  {
    if ids == [] then [] else Collect(rows, views, ids[0]) + Lists(ids[1..], rows, views)
  }

  lemma CollectSnoc<V>(rows: seq<Row>, views: seq<V>, r: Row, v: V, k: int)
    requires |rows| == |views|
    ensures Collect(rows + [r], views + [v], k) == Collect(rows, views, k) + if ParentKey(r) == Some(k) then [v] else []
  {
    assert (rows + [r])[..|rows|] == rows && (views + [v])[..|views|] == views;
  }

  lemma {:induction false} ListsSnoc<V>(ids: seq<int>, rows: seq<Row>, views: seq<V>, r: Row, v: V)
    requires |rows| == |views| && Distinct(ids)
    ensures multiset(Lists(ids, rows + [r], views + [v])) == multiset(Lists(ids, rows, views))
      + if ParentKey(r).Some? && ParentKey(r).value in ids then multiset{v} else multiset{}
  {
    hide Collect;
    if ids != [] {
      CollectSnoc(rows, views, r, v, ids[0]);
      ListsSnoc(ids[1..], rows, views, r, v);
      assert ids == [ids[0]] + ids[1..];
    }
  }

  lemma {:induction false} NoLists<V>(ids: seq<int>)
    ensures Lists<V>(ids, [], []) == []
  {
    if ids != [] {
      NoLists<V>(ids[1..]);
    }
  }

  /** With distinct account ids, the child lists together hold every returned neighbour exactly once. */
  lemma {:induction false} ChildrenAreConserved<V>(ids: seq<int>, rows: seq<Row>, views: seq<V>)
    requires |rows| == |views| && Distinct(ids)
    requires forall r: Row | r in rows :: ParentKey(r).Some? && ParentKey(r).value in ids
    ensures multiset(Lists(ids, rows, views)) == multiset(views)
  {
    hide Lists, ParentKey;
    if rows == [] {
      NoLists<V>(ids);
    } else {
      var n := |rows| - 1;
      assert rows == rows[..n] + [rows[n]] && views == views[..n] + [views[n]];
      ListsSnoc(ids, rows[..n], views[..n], rows[n], views[n]);
      ChildrenAreConserved(ids, rows[..n], views[..n]);
    }
  }

  /** For the rows a children edge query returns, whatever its window. */
  lemma ChildEdgeIsConserved<V>(db: Store, e: Query, rows: seq<Row>, views: seq<V>)
    requires Consistent(db) && TableRows(db, rows) && |views| == |ChildNeighbours(db, e, rows)|
    ensures multiset(Lists(IdsOf(rows), ChildNeighbours(db, e, rows), views)) == multiset(views)
  {
    hide Consistent, EdgeRows, Lists, ParentKey, IdOf, TableRows;
    IdsAreDistinct(db, rows);
    EdgeRowsAreTableRows(db, e, ParentKey, IdsOf(rows));
    ChildrenAreConserved(IdsOf(rows), ChildNeighbours(db, e, rows), views);
  }

  // ---- A limit on an edge query is shared by the whole batch ----

  lemma WindowIsLimited<T>(offset: nat, limit: nat, rows: seq<T>)
    ensures limit != 0 ==> |Window(offset, limit, rows)| <= limit
  {
  }

  /** All accounts together get at most as many children as the edge query's limit. */
  lemma LimitIsShared(db: Store, e: Query, rows: seq<Row>)
    requires Consistent(db) && TableRows(db, rows) && OrZero(e.limit) != 0
    ensures |Lists(IdsOf(rows), ChildNeighbours(db, e, rows), ChildNeighbours(db, e, rows))| <= OrZero(e.limit)
  {
    hide Consistent, Lists, IdOf, TableRows, Matching;
    var children := ChildNeighbours(db, e, rows);
    ChildEdgeIsConserved(db, e, rows, children);
    assert |Lists(IdsOf(rows), children, children)| == |multiset(Lists(IdsOf(rows), children, children))|;
    assert |children| == |multiset(children)|;
    WindowIsLimited(OrZero(e.offset), OrZero(e.limit), EdgeMatching(db, e, ParentKey, IdsOf(rows)));
  }

  // ---- Rows for concrete stores ----

  /** A full row of the accounts table: its id, perhaps a parent, and NULL everywhere else. */
  function FullRow(id: int, parent: Option<int>): Row {
    map c | c in Columns() ::
      if c == ID then IntCell(id) else if c == ParentAccountID && parent.Some? then IntCell(parent.value) else Null
  }

  lemma FullRowDecodes(id: int, parent: Option<int>)
    ensures DecodableRow(FullRow(id, parent))
    ensures IdOf(FullRow(id, parent)) == id && ParentKey(FullRow(id, parent)) == parent && ProxyKey(FullRow(id, parent)) == None
  {
    hide Columns;
    ColumnsAreAll(ID);
    ColumnsAreAll(ParentAccountID);
    ColumnsAreAll(ProxyID);
    var r := FullRow(id, parent);
    forall c | c in Columns() ensures Typed(c, r[c]) && !Malformed(r[c]) {
      ColumnsAreAll(c);
      NullFits(c);
    }
  }

  lemma NullFits(c: Column)
    requires !c.Other?
    ensures Typed(c, Null)
  {
  }
}
