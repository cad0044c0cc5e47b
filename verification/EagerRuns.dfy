/** What a run leaves in the builder, when a run fails, and what running the same builder again does. */
module EagerRuns {
  import opened Wrappers
  import opened AccountRow
  import opened Pipeline
  import opened EagerLoad
  import opened EagerLaws

  // ---- The builder after a run ----

  function LeafAfter(e: LeafQuery, keys: seq<int>): LeafQuery {
    e.(preds := e.preds + [In(LeafKey, keys)] + e.inters)
  }

  /** Loading the groups edge leaves a join, which asks for the accounts of that load. */
  function GroupsAfter(e: LeafQuery, accounts: seq<int>): LeafQuery {
    e.(preds := e.preds + e.inters, joined := e.joined + [accounts])
  }

  function EdgeAfter(e: Query, key: Row -> Option<int>, keys: seq<int>, fields: seq<Column>): Query {
    e.(preds := e.preds + [In(key, keys)] + e.inters, fields := fields)
  }

  /** The edge queries after loading the edges of these rows: each one that ran keeps the predicates it was given. */
  function AfterLoad(db: Store, q: Query, rows: seq<Row>): Query
    decreases q
  {
    if rows == [] then q
    else
      var proxyIds := FirstKeys(KeysOf(rows, ProxyKey));
      var parentIds := FirstKeys(KeysOf(rows, ParentKey));
      q.(withGroups := if q.withGroups.Some? then Some(GroupsAfter(q.withGroups.value, IdsOf(rows))) else None,
         withProxy :=
           if q.withProxy.Some? && proxyIds != [] then Some(LeafAfter(q.withProxy.value, proxyIds)) else q.withProxy,
         withParent :=
           if q.withParent.Some? && parentIds != [] then
             var e := q.withParent.value;
             Some(EdgeAfter(AfterLoad(db, e, EdgeRows(db, e, IdKey, parentIds)), IdKey, parentIds, e.fields))
           else q.withParent,
         withChildren :=
           if q.withChildren.Some? then
             var e := q.withChildren.value;
             Some(EdgeAfter(AfterLoad(db, e, ChildNeighbours(db, e, rows)), ParentKey, IdsOf(rows), ChildFields(e.fields)))
           else None)
  }

  /** The builder after `All`. */
  function AfterAll(db: Store, q: Query): Query {
    AfterLoad(db, q, Rows(db, q)).(preds := q.preds + q.inters)
  }

  function ParentAfter(db: Store, e: Query, rows: seq<Row>): Query {
    var ids := FirstKeys(KeysOf(rows, ParentKey));
    if ids == [] then e else EdgeAfter(AfterLoad(db, e, EdgeRows(db, e, IdKey, ids)), IdKey, ids, e.fields)
  }

  function ChildrenAfter(db: Store, e: Query, rows: seq<Row>): Query {
    EdgeAfter(AfterLoad(db, e, ChildNeighbours(db, e, rows)), ParentKey, IdsOf(rows), ChildFields(e.fields))
  }

  function ProxyAfter(e: LeafQuery, rows: seq<Row>): LeafQuery {
    var ids := FirstKeys(KeysOf(rows, ProxyKey));
    if ids == [] then e else LeafAfter(e, ids)
  }

  function GroupsEdgeAfter(e: Option<LeafQuery>, rows: seq<Row>): Option<LeafQuery> {
    if e.None? then None else Some(GroupsAfter(e.value, IdsOf(rows)))
  }

  function ProxyEdgeAfter(e: Option<LeafQuery>, rows: seq<Row>): Option<LeafQuery> {
    if e.None? then None else Some(ProxyAfter(e.value, rows))
  }

  function ParentEdgeAfter(db: Store, e: Option<Query>, rows: seq<Row>): Option<Query> {
    if e.None? then None else Some(ParentAfter(db, e.value, rows))
  }

  function ChildrenEdgeAfter(db: Store, e: Option<Query>, rows: seq<Row>): Option<Query> {
    if e.None? then None else Some(ChildrenAfter(db, e.value, rows))
  }

  lemma AfterLoadIs(db: Store, q: Query, rows: seq<Row>)
    requires rows != []
    ensures AfterLoad(db, q, rows) == q.(
      withGroups := GroupsEdgeAfter(q.withGroups, rows), withProxy := ProxyEdgeAfter(q.withProxy, rows),
      withParent := ParentEdgeAfter(db, q.withParent, rows), withChildren := ChildrenEdgeAfter(db, q.withChildren, rows))
  {
    hide FirstKeys, EdgeRows, EdgeAfter, LeafAfter, ChildFields, IdsOf, GroupsAfter;
  }

  lemma AfterLoadKeeps(db: Store, q: Query, rows: seq<Row>)
    ensures var a := AfterLoad(db, q, rows);
      && a.preds == q.preds && a.inters == q.inters && a.order == q.order && a.offset == q.offset && a.limit == q.limit
      && a.unique == q.unique && a.fields == q.fields && a.path == q.path
      && (a.withGroups.Some? <==> q.withGroups.Some?) && (a.withProxy.Some? <==> q.withProxy.Some?)
      && (a.withParent.Some? <==> q.withParent.Some?) && (a.withChildren.Some? <==> q.withChildren.Some?)
  {
  }

  // ---- When a run fails ----

  predicate FieldsValid(fields: seq<Column>) {
    forall c | c in fields :: !c.Other?
  }

  lemma QueryColumnsValid(q: Query)
    requires FieldsValid(q.fields)
    ensures TableColumns(QueryColumns(q)) && ID in QueryColumns(q)
    ensures (q.withProxy.Some? ==> ProxyID in QueryColumns(q)) && (q.withParent.Some? ==> ParentAccountID in QueryColumns(q))
  {
    hide ColumnsFor, Columns;
    ColumnsSelected(q.fields, q.withProxy.Some?, q.withParent.Some?);
    if q.fields == [] {
      AllForNone(q.withProxy.Some?, q.withParent.Some?);
      forall c | c in Columns() ensures !c.Other? {
        ColumnsAreAll(c);
      }
    }
  }

  lemma ChildColumnsValid(e: Query)
    requires FieldsValid(ChildFields(e.fields))
    ensures TableColumns(ChildColumns(e)) && ID in ChildColumns(e) && ParentAccountID in ChildColumns(e)
  {
    hide FieldsValid, TableColumns, ColumnsFor;
    QueryColumnsValid(e.(fields := ChildFields(e.fields)));
    ChildKeySelected(e);
  }

  /** A group query that has been loaded as an edge before has an account id where the id of the group is expected, which
      shows as soon as a join row arrives. */
  predicate GroupsFail(db: Store, e: LeafQuery, accounts: seq<int>) {
    e.joined != [] && JoinRows(db, e, accounts) != []
  }

  ghost predicate ParentFails(db: Store, e: Query, rows: seq<Row>)
    decreases e, 1
  {
    FirstKeys(KeysOf(rows, ParentKey)) != [] && (!FieldsValid(e.fields) || LoadFails(db, e, ParentNeighbours(db, e, rows)))
  }

  ghost predicate ChildrenFail(db: Store, e: Query, rows: seq<Row>)
    decreases e, 1
  {
    !FieldsValid(ChildFields(e.fields)) || LoadFails(db, e, ChildNeighbours(db, e, rows))
  }

  /** Loading the edges of these rows fails: some group query returns join rows although it was loaded before, or some
      edge query that would run names an invalid field. */
  ghost predicate LoadFails(db: Store, q: Query, rows: seq<Row>)
    decreases q, 0
  {
    rows != [] && (
      || (q.withGroups.Some? && GroupsFail(db, q.withGroups.value, IdsOf(rows)))
      || (q.withParent.Some? && ParentFails(db, q.withParent.value, rows))
      || (q.withChildren.Some? && ChildrenFail(db, q.withChildren.value, rows)))
  }

  ghost predicate RunFails(db: Store, q: Query) {
    !FieldsValid(q.fields) || LoadFails(db, q, Rows(db, q))
  }

  ghost predicate SameEdges(a: Query, b: Query) {
    && a.withGroups == b.withGroups && a.withProxy == b.withProxy
    && a.withParent == b.withParent && a.withChildren == b.withChildren
  }

  lemma FailsByEdges(db: Store, a: Query, b: Query, rows: seq<Row>)
    requires SameEdges(a, b)
    ensures LoadFails(db, a, rows) <==> LoadFails(db, b, rows)
  {
    hide ParentFails, ChildrenFail, GroupsFail;
  }

  lemma AfterByEdges(db: Store, a: Query, b: Query, rows: seq<Row>)
    requires SameEdges(a, b)
    ensures SameEdges(AfterLoad(db, a, rows), AfterLoad(db, b, rows))
  {
    hide FirstKeys, EdgeRows, EdgeAfter, LeafAfter, ChildFields, IdsOf, GroupsAfter;
  }

  /** What a query loads for given rows depends on its edge queries alone. */
  lemma BatchByEdges(db: Store, a: Query, b: Query, columns: seq<Column>, rows: seq<Row>)
    requires SameEdges(a, b)
    ensures Batch(db, a, columns, rows) == Batch(db, b, columns, rows)
  {
  }

  // ---- The same edge query again ----

  lemma MatchingSame<T>(a: Selection<T>, b: Selection<T>, source: seq<T>)
    requires a.order == b.order && a.distinct == b.distinct
    requires forall r: T | r in source :: AllHold(a.preds, r) <==> AllHold(b.preds, r)
    ensures Matching(a, source) == Matching(b, source)
  {
    hide AllHold;
    SelectSame(a.preds, b.preds, source);
  }

  /** Adding predicates a second time adds nothing. */
  lemma AgainHolds<T>(p: seq<Pred<T>>, extra: seq<Pred<T>>, inters: seq<Pred<T>>, r: T)
    ensures AllHold(p + extra + inters + extra + inters, r) <==> AllHold(p + extra + inters, r)
    ensures AllHold(p + inters + inters, r) <==> AllHold(p + inters, r)
  {
    AllHoldAppend(p + extra + inters + extra, inters, r);
    AllHoldAppend(p + extra + inters, extra, r);
    AllHoldAppend(p + extra, inters, r);
    AllHoldAppend(p, extra, r);
    AllHoldAppend(p + inters, inters, r);
    AllHoldAppend(p, inters, r);
  }

  lemma EdgeRowsAgain(db: Store, e: Query, after: Query, key: Row -> Option<int>, keys: seq<int>)
    requires after.preds == e.preds + [In(key, keys)] + e.inters && after.inters == e.inters
    requires after.order == e.order && after.offset == e.offset && after.limit == e.limit
    requires after.unique == e.unique && after.path == e.path
    ensures EdgeRows(db, after, key, keys) == EdgeRows(db, e, key, keys)
  {
    hide AllHold, Matching;
    forall r: Row
      ensures AllHold(after.preds + [In(key, keys)] + after.inters, r) <==> AllHold(e.preds + [In(key, keys)] + e.inters, r)
    {
      AgainHolds(e.preds, [In(key, keys)], e.inters, r);
    }
    MatchingSame(SelectionOf(after.(preds := after.preds + [In(key, keys)])),
                 SelectionOf(e.(preds := e.preds + [In(key, keys)])), db.accounts);
  }

  lemma ProxyRowsAgain(db: Store, e: LeafQuery, keys: seq<int>)
    ensures ProxyRows(db, LeafAfter(e, keys), keys) == ProxyRows(db, e, keys)
  {
    hide AllHold, Matching;
    var after := LeafAfter(e, keys);
    forall r: LeafRow
      ensures AllHold(after.preds + [In(LeafKey, keys)] + after.inters, r) <==> AllHold(e.preds + [In(LeafKey, keys)] + e.inters, r)
    {
      AgainHolds(e.preds, [In(LeafKey, keys)], e.inters, r);
    }
    MatchingSame(LeafSelectionOf(after.(preds := after.preds + [In(LeafKey, keys)])),
                 LeafSelectionOf(e.(preds := e.preds + [In(LeafKey, keys)])), db.proxies);
  }

  lemma RowsAgain(db: Store, q: Query, after: Query)
    requires after.preds == q.preds + q.inters && after == after.(preds := after.preds)
    requires after.inters == q.inters && after.order == q.order && after.offset == q.offset && after.limit == q.limit
    requires after.unique == q.unique && after.path == q.path
    ensures Rows(db, after) == Rows(db, q)
  {
    hide AllHold, Matching;
    forall r: Row ensures AllHold(after.preds + after.inters, r) <==> AllHold(q.preds + q.inters, r) {
      AgainHolds(q.preds, [], q.inters, r);
    }
    MatchingSame(SelectionOf(after), SelectionOf(q), Source(db, q));
  }

  // ---- The groups edge again: one more join ----

  /** The join row that joins an account to its group a second time. */
  function Twice(j: Joined): Joined {
    Joined(j.account, j.group, [j.account] + j.earlier)
  }

  /** Every selected row is selected at least once more after another join. */
  lemma {:induction false} RejoinKeeps(p: seq<Pred<Joined>>, again: seq<Pred<Joined>>, rows: seq<Joined>, memberships: seq<(int, int)>)
    requires forall j | j in rows :: (j.account, j.group.id) in memberships && (AllHold(p, j) ==> AllHold(again, Twice(j)))
    ensures |Select(again, Rejoin(rows, memberships))| >= |Select(p, rows)|
  {
    hide AllHold, RejoinOne, Twice;
    if rows != [] {
      var j := rows[0];
      assert rows == [j] + rows[1..] && j in rows;
      RejoinKeeps(p, again, rows[1..], memberships);
      SelectAppend(again, RejoinOne(j, memberships), Rejoin(rows[1..], memberships));
      if AllHold(p, j) {
        TwiceIn(j, memberships);
        SelectIn(again, RejoinOne(j, memberships), Twice(j));
        assert |Select(again, RejoinOne(j, memberships))| >= 1;
      }
    }
  }

  lemma TwiceIn(j: Joined, memberships: seq<(int, int)>)
    requires (j.account, j.group.id) in memberships
    ensures Twice(j) in RejoinOne(j, memberships)
  {
    RejoinOneIn(j, memberships, Twice(j));
  }

  lemma EarlierAfter(joined: seq<seq<int>>, accounts: seq<int>, j: Joined)
    ensures EarlierMatch(joined + [accounts], j) <==>
      j.earlier != [] && j.earlier[0] in accounts && EarlierMatch(joined, Joined(j.earlier[0], j.group, j.earlier[1..]))
  {
    var n, after := |joined|, joined + [accounts];
    assert forall k | 0 <= k < n :: after[k] == joined[k];
    if j.earlier != [] {
      var before := Joined(j.earlier[0], j.group, j.earlier[1..]);
      assert EarlierAt(after, j, 0) <==> j.earlier[0] in accounts;
      forall k | 0 <= k < n ensures EarlierAt(after, j, k + 1) <==> EarlierAt(joined, before, k) {
        assert k < |before.earlier| ==> before.earlier[k] == j.earlier[k + 1];
      }
      if EarlierMatch(joined, before) && j.earlier[0] in accounts {
        forall k | 0 <= k < n + 1 ensures EarlierAt(after, j, k) {
          if k > 0 {
            assert EarlierAt(joined, before, k - 1);
          }
        }
      }
      if EarlierMatch(after, j) {
        forall k | 0 <= k < n ensures EarlierAt(joined, before, k) {
          assert EarlierAt(after, j, k + 1);
        }
      }
    } else {
      assert !EarlierAt(after, j, 0);
    }
  }

  /** Loaded again for the same accounts, a group query returns at least as many rows before its window. */
  lemma JoinsAgain(db: Store, e: LeafQuery, accounts: seq<int>)
    ensures |JoinMatching(db, GroupsAfter(e, accounts), accounts)| >= |JoinMatching(db, e, accounts)|
  {
    var a, n := GroupsAfter(e, accounts), |e.joined|;
    var rows := Joins(n, db.memberships, db.groups);
    JoinsFromTable(n, db.memberships, db.groups);
    assert Joins(n + 1, db.memberships, db.groups) == Rejoin(rows, db.memberships);
    hide Joins, Rejoin, AllHold, JoinSelection;
    forall j | j in rows
      ensures (j.account, j.group.id) in db.memberships
      ensures AllHold(JoinSelection(e, accounts).preds, j) ==> AllHold(JoinSelection(a, accounts).preds, Twice(j))
    {
      assert JoinRow(j, n, db.memberships, db.groups);
      if AllHold(JoinSelection(e, accounts).preds, j) {
        HoldsTwice(e, accounts, j);
      }
    }
    RejoinKeeps(JoinSelection(e, accounts).preds, JoinSelection(a, accounts).preds, rows, db.memberships);
    JoinLength(db, e, accounts);
    JoinLength(db, a, accounts);
  }

  lemma JoinLength(db: Store, e: LeafQuery, accounts: seq<int>)
    ensures |JoinMatching(db, e, accounts)| ==
      |Select(JoinSelection(e, accounts).preds, Joins(|e.joined|, db.memberships, db.groups))|
  {
    JoinOrder(e, accounts);
    var sel := JoinSelection(e, accounts);
    hide JoinSelection, Joins, Select;
    SortSorts(sel.order, Select(sel.preds, Joins(|e.joined|, db.memberships, db.groups)));
  }

  lemma HoldsTwice(e: LeafQuery, accounts: seq<int>, j: Joined)
    requires AllHold(JoinSelection(e, accounts).preds, j)
    ensures AllHold(JoinSelection(GroupsAfter(e, accounts), accounts).preds, Twice(j))
  {
    hide AllHold, JoinSelection, EarlierMatch;
    var a := GroupsAfter(e, accounts);
    JoinHolds(e, accounts, j);
    JoinHolds(a, accounts, Twice(j));
    AgainHolds(e.preds, [], e.inters, j.group);
    EarlierAfter(e.joined, accounts, Twice(j));
    assert Twice(j).earlier[1..] == j.earlier;
    assert Joined(j.account, j.group, j.earlier) == j;
  }

  lemma NoWindow<T>(offset: nat, limit: nat, rows: seq<T>)
    ensures Window(offset, limit, rows) == [] <==> |rows| <= offset
  {
    if offset != 0 || limit != 0 {
      WindowIs(offset, limit, rows);
      hide Window;
    }
  }

  /** If it then returns no row, it returned none before. */
  lemma NoRowsBefore(db: Store, e: LeafQuery, accounts: seq<int>)
    requires JoinRows(db, GroupsAfter(e, accounts), accounts) == []
    ensures JoinRows(db, e, accounts) == []
  {
    JoinsAgain(db, e, accounts);
    hide JoinMatching, Window;
    NoWindow(OrZero(e.offset), OrZero(e.limit), JoinMatching(db, e, accounts));
    NoWindow(OrZero(e.offset), OrZero(e.limit), JoinMatching(db, GroupsAfter(e, accounts), accounts));
  }

  /** And without an offset the other way round. */
  lemma RowsBefore(db: Store, e: LeafQuery, accounts: seq<int>)
    requires OrZero(e.offset) == 0 && JoinRows(db, GroupsAfter(e, accounts), accounts) != []
    ensures JoinRows(db, e, accounts) != []
  {
    var a := GroupsAfter(e, accounts);
    NoWindow(0, OrZero(e.limit), JoinMatching(db, e, accounts));
    NoWindow(0, OrZero(e.limit), JoinMatching(db, a, accounts));
    hide Window, AllHold, EarlierMatch, Rejoin, JoinMatching;
    var j := JoinMatching(db, a, accounts)[0];
    JoinMatchingIn(db, a, accounts, j);
    RejoinIn(Joins(|e.joined|, db.memberships, db.groups), db.memberships, j);
    EarlierAfter(e.joined, accounts, j);
    AgainHolds(e.preds, [], e.inters, j.group);
    JoinMatchingIn(db, e, accounts, Joined(j.earlier[0], j.group, j.earlier[1..]));
  }

  // ---- Running again ----

  /** Loading the edges of these rows a second time, some groups edge that is loaded returns join rows. */
  predicate ReloadsGroups(db: Store, q: Query, rows: seq<Row>)
    decreases q
  {
    rows != [] && (
      || (q.withGroups.Some? && JoinRows(db, GroupsAfter(q.withGroups.value, IdsOf(rows)), IdsOf(rows)) != [])
      || (q.withParent.Some? && ReloadsGroups(db, q.withParent.value, ParentNeighbours(db, q.withParent.value, rows)))
      || (q.withChildren.Some? && ReloadsGroups(db, q.withChildren.value, ChildNeighbours(db, q.withChildren.value, rows))))
  }

  /** Loading the edges of these rows, some groups edge that is loaded returns join rows. */
  predicate LoadsGroups(db: Store, q: Query, rows: seq<Row>)
    decreases q
  {
    rows != [] && (
      || (q.withGroups.Some? && JoinRows(db, q.withGroups.value, IdsOf(rows)) != [])
      || (q.withParent.Some? && LoadsGroups(db, q.withParent.value, ParentNeighbours(db, q.withParent.value, rows)))
      || (q.withChildren.Some? && LoadsGroups(db, q.withChildren.value, ChildNeighbours(db, q.withChildren.value, rows))))
  }

  /** No group query in the tree carries an offset. */
  predicate NoGroupsOffset(q: Query)
    decreases q
  {
    && (q.withGroups.Some? ==> OrZero(q.withGroups.value.offset) == 0)
    && (q.withParent.Some? ==> NoGroupsOffset(q.withParent.value))
    && (q.withChildren.Some? ==> NoGroupsOffset(q.withChildren.value))
  }

  /** A groups edge that returned join rows returns some again; and only such a one does, where no group query carries an
      offset. */
  lemma {:induction false} ReloadsWhatLoads(db: Store, q: Query, rows: seq<Row>)
    ensures LoadsGroups(db, q, rows) ==> ReloadsGroups(db, q, rows)
    ensures NoGroupsOffset(q) ==> (LoadsGroups(db, q, rows) <==> ReloadsGroups(db, q, rows))
    decreases q
  {
    hide JoinRows, ParentNeighbours, ChildNeighbours, GroupsAfter, IdsOf;
    if rows != [] {
      if q.withGroups.Some? {
        var e, ids := q.withGroups.value, IdsOf(rows);
        if JoinRows(db, GroupsAfter(e, ids), ids) == [] {
          NoRowsBefore(db, e, ids);
        } else if OrZero(e.offset) == 0 {
          RowsBefore(db, e, ids);
        }
      }
      if q.withParent.Some? {
        ReloadsWhatLoads(db, q.withParent.value, ParentNeighbours(db, q.withParent.value, rows));
      }
      if q.withChildren.Some? {
        ReloadsWhatLoads(db, q.withChildren.value, ChildNeighbours(db, q.withChildren.value, rows));
      }
    }
  }

  lemma ReloadsByEdges(db: Store, a: Query, b: Query, rows: seq<Row>)
    requires SameEdges(a, b)
    ensures ReloadsGroups(db, a, rows) <==> ReloadsGroups(db, b, rows)
    ensures LoadsGroups(db, a, rows) <==> LoadsGroups(db, b, rows)
    ensures NoGroupsOffset(a) <==> NoGroupsOffset(b)
  {
    hide JoinRows, ParentNeighbours, ChildNeighbours, GroupsAfter, IdsOf;
  }

  /** Unless a groups edge returns join rows again, loading the edges of the same rows again builds the same views. */
  lemma {:induction false} LoadAgain(db: Store, q: Query, columns: seq<Column>, rows: seq<Row>)
    requires !ReloadsGroups(db, q, rows)
    ensures Batch(db, AfterLoad(db, q, rows), columns, rows) == Batch(db, q, columns, rows)
    decreases q, 0
  {
    hide Decode, EdgeRows, ProxyRows, JoinRows, FirstKeys, GroupsOf, FirstGroups, ChildFields, GroupsAfter;
    if rows != [] {
      var after := AfterLoad(db, q, rows);
      if q.withGroups.Some? {
        NoRowsBefore(db, q.withGroups.value, IdsOf(rows));
      }
      if q.withProxy.Some? {
        ProxyRowsAgain(db, q.withProxy.value, FirstKeys(KeysOf(rows, ProxyKey)));
      }
      if q.withParent.Some? {
        ParentAgain(db, q.withParent.value, rows);
      }
      if q.withChildren.Some? {
        ChildAgain(db, q.withChildren.value, rows);
      }
      assert Batch(db, after, columns, rows) == Batch(db, q, columns, rows);
    }
  }

  /** The parent query after its run, on the same rows. */
  lemma ParentAfterIs(db: Store, e: Query, rows: seq<Row>)
    ensures var ids := FirstKeys(KeysOf(rows, ParentKey));
      ids != [] ==>
        var parents := EdgeRows(db, e, IdKey, ids);
        var a := EdgeAfter(AfterLoad(db, e, parents), IdKey, ids, e.fields);
        && ParentNeighbours(db, e, rows) == parents == ParentNeighbours(db, a, rows) && QueryColumns(a) == QueryColumns(e)
        && SameEdges(a, AfterLoad(db, e, parents)) && a.fields == e.fields && ParentAfter(db, e, rows) == a
    ensures FirstKeys(KeysOf(rows, ParentKey)) == [] ==> ParentAfter(db, e, rows) == e
  {
    hide EdgeRows, FirstKeys;
    var ids := FirstKeys(KeysOf(rows, ParentKey));
    if ids != [] {
      var parents := EdgeRows(db, e, IdKey, ids);
      AfterLoadKeeps(db, e, parents);
      var a := EdgeAfter(AfterLoad(db, e, parents), IdKey, ids, e.fields);
      hide AfterLoad;
      EdgeRowsAgain(db, e, a, IdKey, ids);
    }
  }

  lemma ChildrenAfterIs(db: Store, e: Query, rows: seq<Row>)
    ensures var children := ChildNeighbours(db, e, rows);
      var a := EdgeAfter(AfterLoad(db, e, children), ParentKey, IdsOf(rows), ChildFields(e.fields));
      && ChildNeighbours(db, a, rows) == children && ChildColumns(a) == ChildColumns(e)
      && SameEdges(a, AfterLoad(db, e, children)) && ChildFields(a.fields) == ChildFields(e.fields) && ChildrenAfter(db, e, rows) == a
  {
    hide EdgeRows;
    var children := ChildNeighbours(db, e, rows);
    AfterLoadKeeps(db, e, children);
    var a := EdgeAfter(AfterLoad(db, e, children), ParentKey, IdsOf(rows), ChildFields(e.fields));
    hide AfterLoad;
    EdgeRowsAgain(db, e, a, ParentKey, IdsOf(rows));
  }

  lemma {:induction false} ParentAgain(db: Store, e: Query, rows: seq<Row>)
    requires !ReloadsGroups(db, e, ParentNeighbours(db, e, rows))
    ensures var ids := FirstKeys(KeysOf(rows, ParentKey));
      ids != [] ==>
        var parents := EdgeRows(db, e, IdKey, ids);
        var a := EdgeAfter(AfterLoad(db, e, parents), IdKey, ids, e.fields);
        && ParentNeighbours(db, a, rows) == parents == ParentNeighbours(db, e, rows) && QueryColumns(a) == QueryColumns(e)
        && Batch(db, a, QueryColumns(a), parents) == Batch(db, e, QueryColumns(e), parents)
    decreases e, 1
  {
    hide *;
    ParentAfterIs(db, e, rows);
    var ids := FirstKeys(KeysOf(rows, ParentKey));
    if ids != [] {
      var parents := EdgeRows(db, e, IdKey, ids);
      LoadAgain(db, e, QueryColumns(e), parents);
      BatchByEdges(db, EdgeAfter(AfterLoad(db, e, parents), IdKey, ids, e.fields), AfterLoad(db, e, parents), QueryColumns(e), parents);
    }
  }

  lemma {:induction false} ChildAgain(db: Store, e: Query, rows: seq<Row>)
    requires !ReloadsGroups(db, e, ChildNeighbours(db, e, rows))
    ensures var children := ChildNeighbours(db, e, rows);
      var a := EdgeAfter(AfterLoad(db, e, children), ParentKey, IdsOf(rows), ChildFields(e.fields));
      && ChildNeighbours(db, a, rows) == children && ChildColumns(a) == ChildColumns(e)
      && Batch(db, a, ChildColumns(a), children) == Batch(db, e, ChildColumns(e), children)
    decreases e, 1
  {
    hide *;
    ChildrenAfterIs(db, e, rows);
    var children := ChildNeighbours(db, e, rows);
    LoadAgain(db, e, ChildColumns(e), children);
    BatchByEdges(db, EdgeAfter(AfterLoad(db, e, children), ParentKey, IdsOf(rows), ChildFields(e.fields)),
      AfterLoad(db, e, children), ChildColumns(e), children);
  }

  /** After a load that succeeded, loading the edges of the same rows again fails exactly if a groups edge returns join
      rows again. */
  lemma {:induction false} FailsAgain(db: Store, q: Query, rows: seq<Row>)
    requires !LoadFails(db, q, rows)
    ensures LoadFails(db, AfterLoad(db, q, rows), rows) <==> ReloadsGroups(db, q, rows)
    decreases q, 0
  {
    if rows != [] {
      AfterLoadIs(db, q, rows);
      hide ParentFails, ChildrenFail, AfterLoad, ParentAfter, ChildrenAfter, JoinRows, ParentNeighbours, ChildNeighbours, IdsOf;
      if q.withParent.Some? {
        ParentFailsAgain(db, q.withParent.value, rows);
      }
      if q.withChildren.Some? {
        ChildrenFailAgain(db, q.withChildren.value, rows);
      }
    }
  }

  lemma {:induction false} ParentFailsAgain(db: Store, e: Query, rows: seq<Row>)
    requires !ParentFails(db, e, rows)
    ensures ParentFails(db, ParentAfter(db, e, rows), rows) <==> ReloadsGroups(db, e, ParentNeighbours(db, e, rows))
    decreases e, 1
  {
    ParentAfterIs(db, e, rows);
    ParentFailsIs(db, e, rows);
    var ids, a := FirstKeys(KeysOf(rows, ParentKey)), ParentAfter(db, e, rows);
    ParentFailsIs(db, a, rows);
    hide *;
    if ids != [] {
      var parents := EdgeRows(db, e, IdKey, ids);
      FailsByEdges(db, a, AfterLoad(db, e, parents), parents);
      FailsAgain(db, e, parents);
    } else {
      NoParents(db, e, rows);
    }
  }

  lemma NoParents(db: Store, e: Query, rows: seq<Row>)
    requires FirstKeys(KeysOf(rows, ParentKey)) == []
    ensures ParentNeighbours(db, e, rows) == [] && !ReloadsGroups(db, e, []) && !LoadsGroups(db, e, [])
  {
    hide FirstKeys;
  }

  lemma ParentFailsIs(db: Store, e: Query, rows: seq<Row>)
    ensures ParentFails(db, e, rows) <==>
      FirstKeys(KeysOf(rows, ParentKey)) != [] && (!FieldsValid(e.fields) || LoadFails(db, e, ParentNeighbours(db, e, rows)))
  {
    hide FirstKeys, LoadFails, ParentNeighbours;
  }

  lemma ChildrenFailIs(db: Store, e: Query, rows: seq<Row>)
    ensures ChildrenFail(db, e, rows) <==> !FieldsValid(ChildFields(e.fields)) || LoadFails(db, e, ChildNeighbours(db, e, rows))
  {
    hide LoadFails, ChildNeighbours;
  }

  lemma {:induction false} ChildrenFailAgain(db: Store, e: Query, rows: seq<Row>)
    requires !ChildrenFail(db, e, rows)
    ensures ChildrenFail(db, ChildrenAfter(db, e, rows), rows) <==> ReloadsGroups(db, e, ChildNeighbours(db, e, rows))
    decreases e, 1
  {
    hide *;
    ChildrenAfterIs(db, e, rows);
    ChildrenFailIs(db, e, rows);
    var children, a := ChildNeighbours(db, e, rows), ChildrenAfter(db, e, rows);
    ChildrenFailIs(db, a, rows);
    FailsByEdges(db, a, AfterLoad(db, e, children), children);
    FailsAgain(db, e, children);
  }

  /** After a run that succeeded: the next run of the same builder fails exactly if a groups edge returns join rows
      again, and otherwise returns the same graph. */
  lemma RunAgain(db: Store, q: Query)
    requires !RunFails(db, q)
    ensures RunFails(db, AfterAll(db, q)) <==> ReloadsGroups(db, q, Rows(db, q))
    ensures !RunFails(db, AfterAll(db, q)) ==> All(db, AfterAll(db, q)) == All(db, q)
  {
    AfterRun(db, q);
    var rows, after := Rows(db, q), AfterAll(db, q);
    hide *;
    RunFailsIs(db, q);
    RunFailsIs(db, after);
    FailsByEdges(db, after, AfterLoad(db, q, rows), rows);
    FailsAgain(db, q, rows);
    if !RunFails(db, after) {
      LoadAgain(db, q, QueryColumns(q), rows);
      BatchByEdges(db, after, AfterLoad(db, q, rows), QueryColumns(q), rows);
      AllIs(db, q);
      AllIs(db, after);
    }
  }

  lemma AfterRun(db: Store, q: Query)
    ensures var after := AfterAll(db, q);
      && Rows(db, after) == Rows(db, q) && SameEdges(after, AfterLoad(db, q, Rows(db, q)))
      && QueryColumns(after) == QueryColumns(q) && after.fields == q.fields && after.path == q.path
      && after.preds == q.preds + q.inters && after.inters == q.inters
  {
    hide Rows;
    AfterLoadKeeps(db, q, Rows(db, q));
    hide AfterLoad;
    RowsAgain(db, q, AfterAll(db, q));
  }

  lemma RunFailsIs(db: Store, q: Query)
    ensures RunFails(db, q) <==> !FieldsValid(q.fields) || LoadFails(db, q, Rows(db, q))
  {
    hide LoadFails, Rows;
  }

  lemma AllIs(db: Store, q: Query)
    ensures All(db, q) == Batch(db, q, QueryColumns(q), Rows(db, q))
  {
    hide Batch, Rows, QueryColumns;
  }

  function Runs(db: Store, q: Query, n: nat): Query {
    if n == 0 then q else AfterAll(db, Runs(db, q, n - 1))
  }

  /** On an unchanged store, every further run of the same builder that succeeds returns what the first one did, although
      each run leaves another IN predicate, and perhaps a join, on the edge queries. */
  lemma {:induction false} RunsAreAlike(db: Store, q: Query, n: nat)
    requires forall k | 0 <= k <= n :: !RunFails(db, Runs(db, q, k))
    ensures All(db, Runs(db, q, n)) == All(db, q)
  {
    hide All, AfterAll, RunFails;
    if n > 0 {
      RunsAreAlike(db, q, n - 1);
      RunAgain(db, Runs(db, q, n - 1));
    }
  }

  lemma {:induction false} LoadsAgain(db: Store, q: Query, rows: seq<Row>)
    requires NoGroupsOffset(q)
    ensures NoGroupsOffset(AfterLoad(db, q, rows)) && (LoadsGroups(db, AfterLoad(db, q, rows), rows) <==> LoadsGroups(db, q, rows))
    decreases q, 0
  {
    if rows != [] {
      AfterLoadIs(db, q, rows);
      hide AfterLoad, ParentAfter, ChildrenAfter, JoinRows, ParentNeighbours, ChildNeighbours, IdsOf, FirstKeys, GroupsAfter;
      if q.withGroups.Some? {
        var e, ids := q.withGroups.value, IdsOf(rows);
        GroupsAfterKeeps(e, ids);
        if JoinRows(db, GroupsAfter(e, ids), ids) == [] {
          NoRowsBefore(db, e, ids);
        } else {
          RowsBefore(db, e, ids);
        }
      }
      if q.withParent.Some? {
        ParentLoadsAgain(db, q.withParent.value, rows);
      }
      if q.withChildren.Some? {
        ChildrenLoadAgain(db, q.withChildren.value, rows);
      }
    }
  }

  lemma GroupsAfterKeeps(e: LeafQuery, accounts: seq<int>)
    ensures GroupsAfter(e, accounts).offset == e.offset
  {
  }

  lemma {:induction false} ParentLoadsAgain(db: Store, e: Query, rows: seq<Row>)
    requires NoGroupsOffset(e)
    ensures var a := ParentAfter(db, e, rows);
      NoGroupsOffset(a) && (LoadsGroups(db, a, ParentNeighbours(db, a, rows)) <==> LoadsGroups(db, e, ParentNeighbours(db, e, rows)))
    decreases e, 1
  {
    hide *;
    ParentAfterIs(db, e, rows);
    var ids, a := FirstKeys(KeysOf(rows, ParentKey)), ParentAfter(db, e, rows);
    if ids != [] {
      var parents := EdgeRows(db, e, IdKey, ids);
      LoadsAgain(db, e, parents);
      ReloadsByEdges(db, a, AfterLoad(db, e, parents), parents);
    }
  }

  lemma {:induction false} ChildrenLoadAgain(db: Store, e: Query, rows: seq<Row>)
    requires NoGroupsOffset(e)
    ensures var a := ChildrenAfter(db, e, rows);
      NoGroupsOffset(a) && (LoadsGroups(db, a, ChildNeighbours(db, a, rows)) <==> LoadsGroups(db, e, ChildNeighbours(db, e, rows)))
    decreases e, 1
  {
    hide *;
    ChildrenAfterIs(db, e, rows);
    var children, a := ChildNeighbours(db, e, rows), ChildrenAfter(db, e, rows);
    LoadsAgain(db, e, children);
    ReloadsByEdges(db, a, AfterLoad(db, e, children), children);
  }

  /** Where no group query carries an offset: after a first run that succeeded, either no later run ever fails, or the
      second one does, and that exactly if the first one's groups edges returned a join row. */
  lemma {:induction false} RunsForEver(db: Store, q: Query, n: nat)
    requires NoGroupsOffset(q) && !RunFails(db, q)
    ensures RunFails(db, AfterAll(db, q)) <==> LoadsGroups(db, q, Rows(db, q))
    ensures !LoadsGroups(db, q, Rows(db, q)) ==>
      var r := Runs(db, q, n);
      !RunFails(db, r) && NoGroupsOffset(r) && Rows(db, r) == Rows(db, q) && !LoadsGroups(db, r, Rows(db, r)) && All(db, r) == All(db, q)
  {
    hide All, AfterAll, RunFails, NoGroupsOffset, LoadsGroups, ReloadsGroups, Rows;
    RunAgain(db, q);
    ReloadsWhatLoads(db, q, Rows(db, q));
    if n > 0 && !LoadsGroups(db, q, Rows(db, q)) {
      RunsForEver(db, q, n - 1);
      var r := Runs(db, q, n - 1);
      RunAgain(db, r);
      ReloadsWhatLoads(db, r, Rows(db, r));
      AfterRun(db, r);
      LoadsAgain(db, r, Rows(db, r));
      ReloadsByEdges(db, AfterAll(db, r), AfterLoad(db, r, Rows(db, r)), Rows(db, r));
    }
  }
}
