/** The account query builder: building, cloning, running, and loading the edges of what it returned. */
module AccountQueries {
  import opened Wrappers
  import opened AccountRow
  import opened Pipeline
  import opened EagerLoad
  import opened EagerLaws
  import opened EagerRuns
  import opened EagerExact
  import opened Loaders

  // ---- Account queries ----

  /** A traversal yields table rows. */
  ghost predicate PathOk(db: Store, q: Query) {
    q.path.Some? ==> forall r: Row | r in q.path.value(db) :: r in db.accounts
  }

  /** Running an edge query restricted to keys: what it returns, when it fails, and what it leaves behind. */
  lemma RunOfEdge(db: Store, e: Query, key: Row -> Option<int>, keys: seq<int>, fields: seq<Column>)
    requires e.path.None?
    ensures var run := e.(preds := e.preds + [In(key, keys)], fields := fields);
      var rows := EdgeRows(db, e, key, keys);
      && PathOk(db, run)
      && EagerLoad.All(db, run) == Batch(db, e, QueryColumns(run), rows)
      && (RunFails(db, run) <==> !FieldsValid(fields) || LoadFails(db, e, rows))
      && AfterAll(db, run) == EdgeAfter(AfterLoad(db, e, rows), key, keys, fields)
  {
    hide AfterLoad, Batch, LoadFails, Matching, Window, FieldsValid;
    var run := e.(preds := e.preds + [In(key, keys)], fields := fields);
    var rows := EdgeRows(db, e, key, keys);
    assert SelectionOf(run) == SelectionOf(e.(preds := e.preds + [In(key, keys)]));
    assert Rows(db, run) == rows;
    BatchByEdges(db, run, e, QueryColumns(run), rows);
    FailsByEdges(db, run, e, rows);
    AfterByEdges(db, run, e, rows);
    AfterLoadKeeps(db, e, rows);
    AfterLoadKeeps(db, run, rows);
  }

  /** The rows of a query whose interceptors' predicates are already among its own. */
  function Selected(db: Store, q: Query): seq<Row> {
    Fetch(Selection(q.preds, q.order, IsDistinct(q), OrZero(q.offset), OrZero(q.limit)), Source(db, q))
  }

  lemma PreparedRun(db: Store, q: Query)
    requires PathOk(db, q)
    ensures var run := q.(preds := q.preds + q.inters);
      && Selected(db, run) == Rows(db, q) && PathOk(db, run)
      && (LoadFails(db, run, Rows(db, q)) <==> LoadFails(db, q, Rows(db, q)))
      && AfterLoad(db, run, Rows(db, q)) == AfterAll(db, q)
      && Batch(db, run, QueryColumns(run), Rows(db, q)) == EagerLoad.All(db, q)
  {
    hide AfterLoad, Batch, LoadFails, Fetch;
    var run := q.(preds := q.preds + q.inters);
    var rows := Rows(db, q);
    FailsByEdges(db, run, q, rows);
    AfterByEdges(db, run, q, rows);
    AfterLoadKeeps(db, q, rows);
    AfterLoadKeeps(db, run, rows);
    BatchByEdges(db, run, q, QueryColumns(q), rows);
  }

  lemma SelectedDecodes(db: Store, q: Query)
    requires Consistent(db) && PathOk(db, q) && FieldsValid(q.fields)
    ensures TableColumns(QueryColumns(q)) && forall r: Row | r in Selected(db, q) :: DecodableRow(r)
    ensures forall r: Row | r in Selected(db, q) :: TypedRow(QueryColumns(q), r) && WellFormed(QueryColumns(q), r)
  {
    hide DecodableRow, Matching, ColumnsFor, Columns, TypedRow, Malformed;
    var sel := Selection(q.preds, q.order, IsDistinct(q), OrZero(q.offset), OrZero(q.limit));
    WindowKeeps(sel.offset, sel.limit, Matching(sel, Source(db, q)));
    forall r: Row | r in Selected(db, q) ensures r in db.accounts {
      MatchingIn(sel, Source(db, q), r);
    }
    QueryColumnsValid(q);
    DecodableIsWellFormed(QueryColumns(q), Selected(db, q));
  }

  ghost predicate TreeEdgesFail(db: Store, q: Query, rows: seq<Row>) {
    || (q.withParent.Some? && ParentFails(db, q.withParent.value, rows))
    || (q.withChildren.Some? && ChildrenFail(db, q.withChildren.value, rows))
  }

  predicate GroupsEdgeFails(db: Store, e: Option<LeafQuery>, rows: seq<Row>) {
    e.Some? && GroupsFail(db, e.value, IdsOf(rows))
  }

  lemma TreeFacts(db: Store, q: Query, rows: seq<Row>)
    ensures TreeEdgesFail(db, q, rows) <==>
      || (q.withParent.Some? && ParentFails(db, q.withParent.value, rows))
      || (q.withChildren.Some? && ChildrenFail(db, q.withChildren.value, rows))
    ensures ParentEdgeAfter(db, q.withParent, rows).Some? <==> q.withParent.Some?
  {
    hide ParentFails, ChildrenFail, ParentAfter;
  }

  lemma FailsIs(db: Store, q: Query, rows: seq<Row>)
    ensures LoadFails(db, q, rows) <==> rows != [] && (GroupsEdgeFails(db, q.withGroups, rows) || TreeEdgesFail(db, q, rows))
  {
    hide ParentFails, ChildrenFail, GroupsFail;
  }

  // ---- The edges of one row, and what loading leaves in the builder ----

  ghost function GroupsAt(db: Store, e: Option<LeafQuery>, rows: seq<Row>, i: nat): seq<LeafRow>
    requires i < |rows|
  {
    if e.None? then [] else GroupsOfRow(db, e.value, rows, i)
  }

  ghost function ProxyAt(db: Store, e: Option<LeafQuery>, rows: seq<Row>, i: nat): Option<LeafRow>
    requires i < |rows|
  {
    if e.None? then None else PickLastLeaf(ProxyNeighbours(db, e.value, rows), ProxyKey(rows[i]))
  }

  ghost function ParentAt(db: Store, e: Option<Query>, rows: seq<Row>, i: nat): Option<View>
    requires i < |rows|
  {
    if e.None? then None
    else
      var parents := ParentNeighbours(db, e.value, rows);
      PickLast(parents, Batch(db, e.value, QueryColumns(e.value), parents), ParentKey(rows[i]))
  }

  ghost function ChildrenAt(db: Store, e: Option<Query>, rows: seq<Row>, i: nat): seq<View>
    requires i < |rows|
  {
    if e.None? || !LastOfId(rows, i) then []
    else
      var children := ChildNeighbours(db, e.value, rows);
      Collect(children, Batch(db, e.value, ChildColumns(e.value), children), IdOf(rows[i]))
  }

  lemma BatchAt(db: Store, q: Query, columns: seq<Column>, rows: seq<Row>, i: nat)
    requires i < |rows|
    ensures Batch(db, q, columns, rows)[i] == View(
      Decode(columns, rows[i]), GroupsAt(db, q.withGroups, rows, i), ProxyAt(db, q.withProxy, rows, i),
      ParentAt(db, q.withParent, rows, i), ChildrenAt(db, q.withChildren, rows, i))
  {
    hide Decode, JoinRows, FirstGroups, GroupsOf, ProxyNeighbours, ParentNeighbours, ChildNeighbours, LastOfId, IdOf;
    NoGroups(IdOf(rows[i]));
  }

  /** The nodes carry their rows' ids and, where the query needs them, foreign keys. */
  ghost predicate KeysMatch(nodes: seq<Account>, rows: seq<Row>, proxy: bool, parent: bool)
    reads (set n | n in nodes)`fields
  {
    && |nodes| == |rows| && Distinct(nodes)
    && forall i | 0 <= i < |nodes| ::
      && nodes[i].Key() == IdOf(rows[i])
      && (proxy ==> nodes[i].Ref(ProxyID) == ProxyKey(rows[i]))
      && (parent ==> nodes[i].Ref(ParentAccountID) == ParentKey(rows[i]))
  }

  /** The node's loaded edges are those of row `i`. */
  ghost predicate EdgesAre(n: Account, db: Store, q: Query, rows: seq<Row>, i: nat, region: set<Account>)
    requires i < |rows|
    reads n, region
  {
    && RowsOf(n.groups) == GroupsAt(db, q.withGroups, rows, i)
    && ProxyIs(n.proxy, ProxyAt(db, q.withProxy, rows, i))
    && LinkIs(n.parent, ParentAt(db, q.withParent, rows, i), region)
    && Reps(n.children, ChildrenAt(db, q.withChildren, rows, i), region)
  }

  ghost predicate ParentsLinked(nodes: seq<Account>, db: Store, e: Option<Query>, rows: seq<Row>, region: set<Account>)
    reads (set n | n in nodes)`parent, region
  {
    |nodes| == |rows| && forall i | 0 <= i < |nodes| :: LinkIs(nodes[i].parent, ParentAt(db, e, rows, i), region)
  }

  ghost predicate ChildrenLinked(nodes: seq<Account>, db: Store, e: Option<Query>, rows: seq<Row>, region: set<Account>)
    reads (set n | n in nodes)`children, region
  {
    |nodes| == |rows| && forall i | 0 <= i < |nodes| :: Reps(nodes[i].children, ChildrenAt(db, e, rows, i), region)
  }

  lemma ParentsWiden(nodes: seq<Account>, db: Store, e: Option<Query>, rows: seq<Row>, small: set<Account>, large: set<Account>)
    requires ParentsLinked(nodes, db, e, rows, small) && small <= large
    ensures ParentsLinked(nodes, db, e, rows, large)
  {
    hide ParentAt, LinkIs;
    forall i | 0 <= i < |nodes| ensures LinkIs(nodes[i].parent, ParentAt(db, e, rows, i), large) {
      LinkGrows(nodes[i].parent, ParentAt(db, e, rows, i), small, large);
    }
  }

  lemma ChildrenWiden(nodes: seq<Account>, db: Store, e: Option<Query>, rows: seq<Row>, small: set<Account>, large: set<Account>)
    requires ChildrenLinked(nodes, db, e, rows, small) && small <= large
    ensures ChildrenLinked(nodes, db, e, rows, large)
  {
    hide ChildrenAt, Reps;
    forall i | 0 <= i < |nodes| ensures Reps(nodes[i].children, ChildrenAt(db, e, rows, i), large) {
      RepsGrow(nodes[i].children, ChildrenAt(db, e, rows, i), small, large);
    }
  }

  /** One node per row, in order, with the columns assigned. */
  ghost predicate Scanned(nodes: seq<Account>, columns: seq<Column>, rows: seq<Row>)
    reads (set n | n in nodes)`fields
  {
    && |nodes| == |rows| && Distinct(nodes)
    && forall i | 0 <= i < |nodes| :: nodes[i].fields == Decode(columns, rows[i])
  }

  /** No edges loaded yet. */
  ghost predicate Bare(nodes: seq<Account>)
    reads set n | n in nodes
  {
    forall n | n in nodes :: n.groups == [] && n.proxy == null && n.parent == null && n.children == []
  }

  lemma NothingLoaded(db: Store, q: Query, columns: seq<Column>)
    ensures !LoadFails(db, q, []) && AfterLoad(db, q, []) == q && Batch(db, q, columns, []) == []
    ensures Reps([], Batch(db, q, columns, []), {})
  {
  }

  lemma ScannedLength(nodes: seq<Account>, columns: seq<Column>, rows: seq<Row>)
    requires Scanned(nodes, columns, rows)
    ensures |nodes| == |rows| && Distinct(nodes)
  {
  }

  lemma ScannedKeys(nodes: seq<Account>, rows: seq<Row>, q: Query)
    requires FieldsValid(q.fields) && |nodes| == |rows| && Distinct(nodes) && forall r: Row | r in rows :: DecodableRow(r)
    requires forall i | 0 <= i < |nodes| :: nodes[i].fields == Decode(QueryColumns(q), rows[i])
    ensures KeysMatch(nodes, rows, q.withProxy.Some?, q.withParent.Some?)
  {
    hide Decode, QueryColumns, FieldsValid, DecodableRow, IdOf, ParentKey, ProxyKey, Account.Key, Account.Ref, TableColumns;
    QueryColumnsValid(q);
    forall i | 0 <= i < |nodes|
      ensures nodes[i].Key() == IdOf(rows[i])
      ensures q.withProxy.Some? ==> nodes[i].Ref(ProxyID) == ProxyKey(rows[i])
      ensures q.withParent.Some? ==> nodes[i].Ref(ParentAccountID) == ParentKey(rows[i])
    {
      assert rows[i] in rows;
      DecodedNode(nodes[i], rows[i], QueryColumns(q));
    }
  }

  /** Scanned fields and loaded edges together are the batch's views. */
  lemma Assembled(nodes: seq<Account>, db: Store, q: Query, columns: seq<Column>, rows: seq<Row>,
                  edges: set<Account>, region: set<Account>)
    requires edges <= region && forall n | n in nodes :: n in region
    requires Scanned(nodes, columns, rows)
    requires forall i | 0 <= i < |nodes| :: EdgesAre(nodes[i], db, q, rows, i, edges)
    ensures Reps(nodes, Batch(db, q, columns, rows), region)
  {
    forall i | 0 <= i < |nodes| ensures Rep(nodes[i], Batch(db, q, columns, rows)[i], region) {
      hide Decode, GroupsAt, ProxyAt, ParentAt, ChildrenAt, Batch;
      BatchAt(db, q, columns, rows, i);
      var n := nodes[i];
      assert EdgesAre(n, db, q, rows, i, edges);
      hide LinkIs, Reps;
      LinkGrows(n.parent, ParentAt(db, q.withParent, rows, i), edges, region);
      RepsGrow(n.children, ChildrenAt(db, q.withChildren, rows, i), edges, region);
      RepOf(n, Batch(db, q, columns, rows)[i], region);
    }
  }

  lemma RepOf(n: Account, v: View, region: set<Account>)
    requires n in region && n.fields == v.fields && RowsOf(n.groups) == v.groups && ProxyIs(n.proxy, v.proxy)
    requires LinkIs(n.parent, v.parent, region) && Reps(n.children, v.children, region)
    ensures Rep(n, v, region)
  {
  }

  // ---- Fetching at most one ----

  datatype FetchError = Failed(error: QueryError) | NotFound | NotSingular | ColumnMismatch

  /** The rows after the offset, with no limit. */
  function Remaining(db: Store, q: Query): seq<Row> {
    var rows := Matching(SelectionOf(q), Source(db, q));
    rows[Min(OrZero(q.offset), |rows|)..]
  }

  /** What loading builds for one row on its own. */
  ghost function ViewOf(db: Store, q: Query, r: Row): View {
    Batch(db, q, QueryColumns(q), [r])[0]
  }

  lemma LimitKeeps(db: Store, q: Query, n: nat)
    requires q.limit == Some(n) && n > 0
    ensures Rows(db, q) == if |Remaining(db, q)| <= n then Remaining(db, q) else Remaining(db, q)[..n]
  {
    hide Matching;
    var rest := Remaining(db, q);
    assert |rest| <= n ==> rest[..|rest|] == rest;
  }

  /** A limit changes neither what a run needs nor the rows it is cut from. */
  lemma AnyLimit(db: Store, q: Query, n: nat)
    ensures var limited := q.(limit := Some(n));
      && (PathOk(db, limited) <==> PathOk(db, q))
      && Remaining(db, limited) == Remaining(db, q)
  {
    hide Select, SortBy, Dedup;
  }

  /** A node alone in its result has the view of its row. */
  lemma OneView(nodes: seq<Account>, db: Store, q: Query, region: set<Account>)
    requires Reps(nodes, EagerLoad.All(db, q), region)
    ensures |nodes| == |Rows(db, q)|
    ensures |nodes| == 1 ==> Rep(nodes[0], ViewOf(db, q, Rows(db, q)[0]), region)
  {
    hide Rep, Fetch;
    if |nodes| == 1 {
      assert Rows(db, q) == [Rows(db, q)[0]];
    }
  }

  function IdsUnique(q: Query): Option<bool> {
    if q.unique.None? && q.path.Some? then Some(true) else q.unique
  }

  /** The window of a selector: unlike in a query specification, an explicit zero is a zero. */
  function SelectorWindow(offset: Option<nat>, limit: Option<nat>, rows: seq<Row>): seq<Row> {
    if limit.Some? then Slice(OrZero(offset), limit.value, rows)
    else if offset.Some? then Slice(offset.value, MAX_INT32, rows)
    else rows
  }

  function SelectorRows(db: Store, q: Query): seq<Row> {
    SelectorWindow(q.offset, q.limit, Matching(Selection(q.preds + q.inters, q.order, IsDistinct(q), 0, 0), Source(db, q)))
  }

  lemma SelectorRowsAre(db: Store, q: Query)
    ensures IdsUnique(q) == if q.unique.None? && q.path.Some? then Some(true) else q.unique
    ensures SelectorRows(db, q) == SelectorWindow(q.offset, q.limit,
      Matching(Selection(q.preds + q.inters, q.order, IdsUnique(q) == Some(true), 0, 0),
               if q.path.Some? then q.path.value(db) else db.accounts))
  {
    hide Matching, SelectorWindow;
  }

  lemma WithIdValid(fields: seq<Column>)
    ensures FieldsValid(fields + [ID]) <==> FieldsValid(fields)
  {
    assert forall c :: c in fields + [ID] <==> c in fields || c == ID;
  }

  lemma SelectorLimit(db: Store, q: Query, n: nat)
    requires q.limit == Some(n)
    ensures var all, ids := IdsOf(Remaining(db, q)), IdsOf(SelectorRows(db, q));
      ids == if |all| <= n then all else all[..n]
  {
    hide Select, SortBy, Dedup, IdOf;
  }

  lemma NoFields()
    ensures FieldsValid([])
  {
  }

  /** `IDs` and `All` return the same rows exactly unless a limit of zero cuts rows off, or an offset of zero caps an
      otherwise unlimited result. */
  lemma IdsAgreeWithAll(db: Store, q: Query)
    ensures var rows := Matching(SelectionOf(q), Source(db, q));
      SelectorRows(db, q) == Rows(db, q) <==>
        && (q.limit == Some(0) ==> |rows| <= OrZero(q.offset))
        && (q.limit == None && q.offset == Some(0) ==> |rows| <= MAX_INT32)
  {
  }

  class AccountQuery {
    var predicates: seq<Pred<Row>>
    var inters: seq<Pred<Row>>
    var order: seq<Term<Row>>
    var offset: Option<nat>
    var limit: Option<nat>
    var unique: Option<bool>
    var fields: seq<Column>
    var path: Option<Path>
    var modifiers: seq<Modifier>
    var withGroups: NeighbourQuery?
    var withProxy: NeighbourQuery?
    var withParent: AccountQuery?
    var withChildren: AccountQuery?
    ghost var Repr: set<object>

    /** The builder and its edge queries form a tree: `With...` gives every edge a query of its own. */
    ghost predicate Valid()
      reads this, Repr
      ensures Valid() ==> this in Repr
      decreases Repr
    {
      && this in Repr
      && (withGroups != null ==> withGroups in Repr)
      && (withProxy != null ==> withProxy in Repr && withProxy != withGroups)
      && (withParent != null ==>
           && withParent in Repr && withParent.Repr <= Repr && this !in withParent.Repr
           && (withGroups != null ==> withGroups !in withParent.Repr)
           && (withProxy != null ==> withProxy !in withParent.Repr)
           && withParent.Valid() && withParent.path.None?)
      && (withChildren != null ==>
           && withChildren in Repr && withChildren.Repr <= Repr && this !in withChildren.Repr
           && (withGroups != null ==> withGroups !in withChildren.Repr)
           && (withProxy != null ==> withProxy !in withChildren.Repr)
           && withChildren.Valid() && withChildren.path.None?)
      && (withParent != null && withChildren != null ==> withParent.Repr !! withChildren.Repr)
    }

    ghost function Value(): Query
      requires Valid()
      reads this, Repr
      decreases Repr
    {
      Query(predicates, inters, order, offset, limit, unique, fields, path,
        if withGroups == null then None else Some(withGroups.Value()),
        if withProxy == null then None else Some(withProxy.Value()),
        if withParent == null then None else Some(withParent.Value()),
        if withChildren == null then None else Some(withChildren.Value()))
    }

    constructor (inters: seq<Pred<Row>>)
      ensures Valid() && fresh(Repr) && modifiers == []
      ensures Value() == Query([], inters, [], None, None, None, [], None, None, None, None, None)
    {
      predicates, order, offset, limit, unique, fields, path, modifiers := [], [], None, None, None, [], None, [];
      this.inters := inters;
      withGroups, withProxy, withParent, withChildren := null, null, null, null;
      Repr := {this};
    }

    // ---- Building ----

    method Where(ps: seq<Pred<Row>>)
      requires Valid()
      modifies this`predicates
      ensures Valid() && Repr == old(Repr) && Value() == old(Value()).(preds := old(Value()).preds + ps)
    {
      predicates := predicates + ps;
    }

    method Limit(n: nat)
      requires Valid()
      modifies this`limit
      ensures Valid() && Repr == old(Repr) && Value() == old(Value()).(limit := Some(n))
    {
      limit := Some(n);
    }

    method Offset(n: nat)
      requires Valid()
      modifies this`offset
      ensures Valid() && Repr == old(Repr) && Value() == old(Value()).(offset := Some(n))
    {
      offset := Some(n);
    }

    method Unique(b: bool)
      requires Valid()
      modifies this`unique
      ensures Valid() && Repr == old(Repr) && Value() == old(Value()).(unique := Some(b))
    {
      unique := Some(b);
    }

    /** `ForUpdate` and `ForShare`: a row lock, which on Postgres excludes DISTINCT. */
    method Lock(m: Modifier, postgres: bool)
      requires Valid()
      modifies this`modifiers, this`unique
      ensures Valid() && Repr == old(Repr) && modifiers == old(modifiers) + [m]
      ensures Value() == old(Value()).(unique := if postgres then Some(false) else old(Value()).unique)
    {
      if postgres {
        Unique(false);
      }
      modifiers := modifiers + [m];
    }

    method Order(o: seq<Term<Row>>)
      requires Valid()
      modifies this`order
      ensures Valid() && Repr == old(Repr) && Value() == old(Value()).(order := old(Value()).order + o)
    {
      order := order + o;
    }

    method Select(fs: seq<Column>)
      requires Valid()
      modifies this`fields
      ensures Valid() && Repr == old(Repr) && Value() == old(Value()).(fields := old(Value()).fields + fs)
    {
      fields := fields + fs;
    }

    /** Adds the parent's foreign key to an explicit selection that lacks it. */
    method AppendFieldOnce()
      requires Valid()
      modifies this`fields
      ensures Valid() && Repr == old(Repr) && Value() == old(Value()).(fields := ChildFields(old(Value()).fields))
    {
      if fields != [] && ParentAccountID !in fields {
        fields := fields + [ParentAccountID];
      }
    }

    method WithGroups(q: NeighbourQuery)
      requires Valid() && q !in Repr
      modifies this`withGroups, this`Repr
      ensures Valid() && Repr == old(Repr) + {q}
      ensures old(Unmodified()) && q.modifiers == [] ==> Unmodified()
      ensures Value() == old(Value()).(withGroups := Some(q.Value()))
    {
      withGroups := q;
      Repr := Repr + {q};
    }

    method WithProxy(q: NeighbourQuery)
      requires Valid() && q !in Repr
      modifies this`withProxy, this`Repr
      ensures Valid() && Repr == old(Repr) + {q}
      ensures old(Unmodified()) && q.modifiers == [] ==> Unmodified()
      ensures Value() == old(Value()).(withProxy := Some(q.Value()))
    {
      withProxy := q;
      Repr := Repr + {q};
    }

    method WithParent(q: AccountQuery)
      requires Valid() && q.Valid() && q.Repr !! Repr && q.path.None?
      modifies this`withParent, this`Repr
      ensures Valid() && Repr == old(Repr) + q.Repr
      ensures old(Unmodified()) && q.Unmodified() ==> Unmodified()
      ensures Value() == old(Value()).(withParent := Some(q.Value()))
    {
      withParent := q;
      Repr := Repr + q.Repr;
    }

    method WithChildren(q: AccountQuery)
      requires Valid() && q.Valid() && q.Repr !! Repr && q.path.None?
      modifies this`withChildren, this`Repr
      ensures Valid() && Repr == old(Repr) + q.Repr
      ensures old(Unmodified()) && q.Unmodified() ==> Unmodified()
      ensures Value() == old(Value()).(withChildren := Some(q.Value()))
    {
      withChildren := q;
      Repr := Repr + q.Repr;
    }

    /** A builder with the settings of another and no edge queries yet. */
    constructor CopyOf(q: AccountQuery)
      requires q.Valid()
      ensures Valid() && Unmodified() && fresh(Repr)
      ensures Value() == q.Value().(withGroups := None, withProxy := None, withParent := None, withChildren := None)
    {
      predicates, inters, order, offset, limit := q.predicates, q.inters, q.order, q.offset, q.limit;
      unique, fields, path, modifiers := q.unique, q.fields, q.path, [];
      withGroups, withProxy, withParent, withChildren := null, null, null, null;
      Repr := {this};
    }

    /** A deep copy: fresh builders all the way down, with the same value and no modifiers. */
    method Clone() returns (c: AccountQuery)
      requires Valid()
      ensures c.Valid() && fresh(c.Repr) && c.path == path
      ensures c.Value() == Value()
      ensures c.Unmodified()
      decreases Repr, 1
    {
      hide AccountQuery.Valid, AccountQuery.Value, AccountQuery.Unmodified;
      c := new AccountQuery.CopyOf(this);
      CloneGroups(c);
      CloneProxy(c);
      CloneParent(c);
      CloneChildren(c);
      c.EdgeParts();
      EdgeParts();
    }

    method CloneGroups(c: AccountQuery)
      requires Valid() && c.Valid() && c !in Repr && c.Unmodified() && c.Value().withGroups == None
      modifies c
      ensures c.Valid() && c.Unmodified() && fresh(c.Repr - old(c.Repr))
      ensures c.Value() == old(c.Value()).(withGroups := Value().withGroups)
    {
      EdgeParts();
      hide *;
      var q := CloneNeighbour(withGroups);
      c.AttachGroups(q);
    }

    method CloneProxy(c: AccountQuery)
      requires Valid() && c.Valid() && c !in Repr && c.Unmodified() && c.Value().withProxy == None
      modifies c
      ensures c.Valid() && c.Unmodified() && fresh(c.Repr - old(c.Repr))
      ensures c.Value() == old(c.Value()).(withProxy := Value().withProxy)
    {
      EdgeParts();
      hide *;
      var q := CloneNeighbour(withProxy);
      c.AttachProxy(q);
    }

    method CloneParent(c: AccountQuery)
      requires Valid() && c.Valid() && c !in Repr && c.Unmodified() && c.Value().withParent == None
      modifies c
      ensures c.Valid() && c.Unmodified() && fresh(c.Repr - old(c.Repr))
      ensures c.Value() == old(c.Value()).(withParent := Value().withParent)
      decreases Repr, 0
    {
      EdgeParts();
      hide *;
      var q := CloneEdge(withParent);
      c.AttachParent(q);
    }

    method CloneChildren(c: AccountQuery)
      requires Valid() && c.Valid() && c !in Repr && c.Unmodified() && c.Value().withChildren == None
      modifies c
      ensures c.Valid() && c.Unmodified() && fresh(c.Repr - old(c.Repr))
      ensures c.Value() == old(c.Value()).(withChildren := Value().withChildren)
      decreases Repr, 0
    {
      EdgeParts();
      hide *;
      var q := CloneEdge(withChildren);
      c.AttachChildren(q);
    }

    method AttachGroups(q: NeighbourQuery?)
      requires Valid() && Unmodified() && Value().withGroups == None
      requires q != null ==> q !in Repr && q.modifiers == []
      modifies this`withGroups, this`Repr
      ensures Valid() && Unmodified() && Repr == old(Repr) + (if q == null then {} else {q})
      ensures Value() == old(Value()).(withGroups := if q == null then None else Some(q.Value()))
    {
      if q != null {
        WithGroups(q);
      }
    }

    method AttachProxy(q: NeighbourQuery?)
      requires Valid() && Unmodified() && Value().withProxy == None
      requires q != null ==> q !in Repr && q.modifiers == []
      modifies this`withProxy, this`Repr
      ensures Valid() && Unmodified() && Repr == old(Repr) + (if q == null then {} else {q})
      ensures Value() == old(Value()).(withProxy := if q == null then None else Some(q.Value()))
    {
      if q != null {
        WithProxy(q);
      }
    }

    method AttachParent(q: AccountQuery?)
      requires Valid() && Unmodified() && Value().withParent == None
      requires q != null ==> q.Valid() && q.Unmodified() && q.Repr !! Repr && q.path.None?
      modifies this`withParent, this`Repr
      ensures Valid() && Unmodified() && Repr == old(Repr) + (if q == null then {} else q.Repr)
      ensures Value() == old(Value()).(withParent := if q == null then None else Some(q.Value()))
    {
      hide AccountQuery.Valid, AccountQuery.Value, AccountQuery.Unmodified;
      if q != null {
        WithParent(q);
      }
    }

    method AttachChildren(q: AccountQuery?)
      requires Valid() && Unmodified() && Value().withChildren == None
      requires q != null ==> q.Valid() && q.Unmodified() && q.Repr !! Repr && q.path.None?
      modifies this`withChildren, this`Repr
      ensures Valid() && Unmodified() && Repr == old(Repr) + (if q == null then {} else q.Repr)
      ensures Value() == old(Value()).(withChildren := if q == null then None else Some(q.Value()))
    {
      hide AccountQuery.Valid, AccountQuery.Value, AccountQuery.Unmodified;
      if q != null {
        WithChildren(q);
      }
    }

    lemma EdgeParts()
      requires Valid()
      ensures Value().path == path
      ensures Value().withGroups == if withGroups == null then None else Some(withGroups.Value())
      ensures Value().withProxy == if withProxy == null then None else Some(withProxy.Value())
      ensures Value().withParent == if withParent == null then None else Some(withParent.Value())
      ensures Value().withChildren == if withChildren == null then None else Some(withChildren.Value())
      ensures withParent != null ==> withParent.Valid() && withParent.Repr < Repr && this !in withParent.Repr && withParent.path.None?
      ensures withChildren != null ==> withChildren.Valid() && withChildren.Repr < Repr && this !in withChildren.Repr && withChildren.path.None?
      ensures (withGroups != null ==> withGroups in Repr) && (withProxy != null ==> withProxy in Repr)
    {
      assert withParent != null ==> this !in withParent.Repr;
      assert withChildren != null ==> this !in withChildren.Repr;
    }

    // ---- Running ----

    /** Adds the interceptors' predicates, then rejects an invalid field. */
    method PrepareQuery() returns (err: Option<QueryError>)
      requires Valid()
      modifies this`predicates
      ensures Valid() && Value() == old(Value()).(preds := old(Value()).preds + old(Value()).inters)
      ensures err.None? <==> FieldsValid(fields)
    {
      predicates := predicates + inters;
      for i := 0 to |fields|
        invariant Valid() && predicates == old(predicates) + inters
        invariant forall k | 0 <= k < i :: !fields[k].Other?
      {
        if fields[i].Other? {
          return Some(InvalidField(fields[i]));
        }
      }
      err := None;
    }

    /** Runs the query and loads its edges, batch by batch. */
    method All(db: Store) returns (nodes: seq<Account>, err: Option<QueryError>, ghost region: set<Account>)
      requires Valid() && Consistent(db) && PathOk(db, Value())
      modifies Repr
      ensures Valid() && Repr == old(Repr) && modifiers == old(modifiers) && path == old(path)
      ensures err.Some? <==> RunFails(db, old(Value()))
      ensures err.None? ==> Value() == AfterAll(db, old(Value()))
      ensures fresh(region)
      ensures err.None? ==> Distinct(nodes) && Reps(nodes, EagerLoad.All(db, old(Value())), region)
      decreases Repr, 7
    {
      ghost var q := Value();
      hide AccountQuery.Valid, AccountQuery.Value, LoadFails, AfterLoad, Batch, Fetch, Consistent, Reps, FieldsValid, PathOk;
      err := PrepareQuery();
      region := {};
      if err.Some? {
        return [], err, region;
      }
      PreparedRun(db, q);
      nodes, err, region := SqlAll(db);
    }

    /** The rows the query returns as its predicates stand, with the edges of those rows loaded. */
    method SqlAll(db: Store) returns (nodes: seq<Account>, err: Option<QueryError>, ghost region: set<Account>)
      requires Valid() && Consistent(db) && PathOk(db, Value()) && FieldsValid(fields)
      modifies Repr
      ensures Valid() && Repr == old(Repr) && modifiers == old(modifiers) && path == old(path)
      ensures err.Some? <==> LoadFails(db, old(Value()), Selected(db, old(Value())))
      ensures err.None? ==> Value() == AfterLoad(db, old(Value()), Selected(db, old(Value())))
      ensures fresh(region)
      ensures err.None? ==> Distinct(nodes)
      ensures err.None? ==> Reps(nodes, Batch(db, old(Value()), QueryColumns(old(Value())), Selected(db, old(Value()))), region)
      decreases Repr, 6
    {
      hide *;
      ghost var q, rows := Value(), Selected(db, Value());
      nodes, err := QueryNodes(db);
      region := {};
      ScannedLength(nodes, QueryColumns(q), rows);
      if nodes == [] {
        NothingLoaded(db, q, QueryColumns(q));
        return;
      }
      err, region := LoadNodes(nodes, db, QueryColumns(q), rows);
    }

    /** Runs the query itself and scans what it returns. */
    method QueryNodes(db: Store) returns (nodes: seq<Account>, err: Option<QueryError>)
      requires Valid() && Consistent(db) && PathOk(db, Value()) && FieldsValid(fields)
      ensures err.None? && Scanned(nodes, QueryColumns(old(Value())), Selected(db, old(Value()))) && Bare(nodes)
      ensures KeysMatch(nodes, Selected(db, old(Value())), old(Value()).withProxy.Some?, old(Value()).withParent.Some?)
      ensures fresh(set n | n in nodes)
    {
      ghost var q := Value();
      var columns := ColumnsFor(fields, withProxy != null, withParent != null);
      var distinct := if unique.Some? then unique.value else path.Some?;
      var source := if path.Some? then path.value(db) else db.accounts;
      var rows := Fetch(Selection(predicates, order, distinct, OrZero(offset), OrZero(limit)), source);
      assert columns == QueryColumns(q) && rows == Selected(db, q);
      hide Fetch, ColumnsFor, AccountQuery.Valid, AccountQuery.Value, Consistent, PathOk, Selected, QueryColumns, FieldsValid,
        WellFormed, TypedRow, KeysMatch;
      SelectedDecodes(db, q);
      nodes, err := ScanRows(columns, rows);
      assert Scanned(nodes, columns, rows) && Bare(nodes);
      ScannedKeys(nodes, rows, q);
    }

    method LoadNodes(nodes: seq<Account>, db: Store, ghost columns: seq<Column>, ghost rows: seq<Row>)
        returns (err: Option<QueryError>, ghost region: set<Account>)
      requires Valid() && Consistent(db) && rows != []
      requires KeysMatch(nodes, rows, Value().withProxy.Some?, Value().withParent.Some?)
      requires Scanned(nodes, columns, rows) && Bare(nodes) && forall n | n in nodes :: n !in Repr
      modifies Repr, set n | n in nodes
      ensures Valid() && Repr == old(Repr) && modifiers == old(modifiers) && path == old(path)
      ensures forall o | o in region :: o in nodes || fresh(o)
      ensures err.Some? <==> LoadFails(db, old(Value()), rows)
      ensures err.None? ==> Value() == AfterLoad(db, old(Value()), rows)
      ensures err.None? ==> Reps(nodes, Batch(db, old(Value()), columns, rows), region)
      decreases Repr, 5
    {
      hide *;
      ghost var q := Value();
      ghost var edges;
      err, edges := LoadEdges(nodes, db, rows);
      region := edges + set n | n in nodes;
      if err.None? {
        Assembled(nodes, db, q, columns, rows, edges, region);
      }
    }

    /** Loads every edge the query asks for onto the nodes scanned from these rows. */
    method LoadEdges(nodes: seq<Account>, db: Store, ghost rows: seq<Row>)
        returns (err: Option<QueryError>, ghost region: set<Account>)
      requires Valid() && Consistent(db) && rows != []
      requires KeysMatch(nodes, rows, Value().withProxy.Some?, Value().withParent.Some?)
      requires Bare(nodes) && forall n | n in nodes :: n !in Repr
      modifies Repr, (set n | n in nodes)`groups, (set n | n in nodes)`proxy, (set n | n in nodes)`parent, (set n | n in nodes)`children
      ensures Valid() && Repr == old(Repr) && modifiers == old(modifiers) && path == old(path) && fresh(region)
      ensures err.Some? <==> LoadFails(db, old(Value()), rows)
      ensures err.None? ==> Value() == AfterLoad(db, old(Value()), rows)
      ensures forall i | 0 <= i < |nodes| :: nodes[i].fields == old(nodes[i].fields)
      ensures err.None? ==> forall i | 0 <= i < |nodes| :: EdgesAre(nodes[i], db, old(Value()), rows, i, region)
      decreases Repr, 4
    {
      hide AccountQuery.Valid, AccountQuery.Value, Consistent, LoadFails, ParentFails, ChildrenFail, AfterLoad, GroupsAt, ProxyAt,
        ParentAt, ChildrenAt, KeysMatch, RowsOf, ProxyIs, Reps, LinkIs, GroupsEdgeAfter, ProxyAfter, ParentEdgeAfter, ChildrenEdgeAfter,
        GroupsEdgeFails;
      ghost var q := Value();
      EdgeParts();
      AfterLoadIs(db, q, rows);
      FailsIs(db, q, rows);
      assert forall i | 0 <= i < |nodes| :: nodes[i] in nodes;
      region := {};
      err := LoadLeafEdges(nodes, db, rows);
      if err.Some? {
        return;
      }
      err, region := LoadTreeEdges(nodes, db, rows);
      EdgeParts();
    }

    method LoadLeafEdges(nodes: seq<Account>, db: Store, ghost rows: seq<Row>) returns (err: Option<QueryError>)
      requires Valid() && KeysMatch(nodes, rows, Value().withProxy.Some?, Value().withParent.Some?)
      requires forall n | n in nodes :: n !in Repr && n.groups == [] && n.proxy == null
      modifies Repr
      modifies (set n | n in nodes)`groups, (set n | n in nodes)`proxy
      ensures Valid() && Repr == old(Repr) && modifiers == old(modifiers) && path == old(path)
      ensures err.Some? <==> GroupsEdgeFails(db, old(Value()).withGroups, rows)
      ensures err.None? ==> Value() == old(Value()).(withGroups := GroupsEdgeAfter(old(Value()).withGroups, rows),
        withProxy := ProxyEdgeAfter(old(Value()).withProxy, rows))
      ensures err.None? ==> forall i | 0 <= i < |nodes| :: RowsOf(nodes[i].groups) == GroupsAt(db, old(Value()).withGroups, rows, i)
      ensures err.None? ==> forall i | 0 <= i < |nodes| :: ProxyIs(nodes[i].proxy, ProxyAt(db, old(Value()).withProxy, rows, i))
    {
      EdgeParts();
      assert forall i | 0 <= i < |nodes| :: nodes[i] in nodes;
      hide AccountQuery.Valid, AccountQuery.Value, GroupsAt, ProxyAt, RowsOf, ProxyIs, GroupsEdgeAfter, ProxyEdgeAfter, KeysMatch,
        GroupsEdgeFails;
      err := LoadGroupsEdge(nodes, db, rows);
      if err.None? {
        err := LoadProxyEdge(nodes, db, rows);
      }
    }

    method LoadTreeEdges(nodes: seq<Account>, db: Store, ghost rows: seq<Row>)
        returns (err: Option<QueryError>, ghost region: set<Account>)
      requires Valid() && Consistent(db)
      requires KeysMatch(nodes, rows, Value().withProxy.Some?, Value().withParent.Some?)
      requires forall n | n in nodes :: n !in Repr && n.parent == null && n.children == []
      modifies Repr
      modifies (set n | n in nodes)`parent, (set n | n in nodes)`children
      ensures Valid() && Repr == old(Repr) && modifiers == old(modifiers) && path == old(path) && fresh(region)
      ensures err.Some? <==> TreeEdgesFail(db, old(Value()), rows)
      ensures err.None? ==> Value() == old(Value()).(withParent := ParentEdgeAfter(db, old(Value()).withParent, rows),
        withChildren := ChildrenEdgeAfter(db, old(Value()).withChildren, rows))
      ensures err.None? ==> ParentsLinked(nodes, db, old(Value()).withParent, rows, region)
      ensures err.None? ==> ChildrenLinked(nodes, db, old(Value()).withChildren, rows, region)
      decreases Repr, 3
    {
      hide *;
      ghost var q := Value();
      TreeFacts(db, q, rows);
      ghost var parents;
      err, parents := LoadParentEdge(nodes, db, rows);
      region := parents;
      if err.Some? {
        return;
      }
      err, region := LoadChildrenToo(nodes, db, rows, q.withParent, parents);
    }

    /** Loads the children, leaving the parents linked as they are. */
    method LoadChildrenToo(nodes: seq<Account>, db: Store, ghost rows: seq<Row>, ghost e: Option<Query>, ghost parents: set<Account>)
        returns (err: Option<QueryError>, ghost region: set<Account>)
      requires Valid() && Consistent(db)
      requires KeysMatch(nodes, rows, Value().withProxy.Some?, Value().withParent.Some?)
      requires forall n | n in nodes :: n !in Repr && n !in parents && n.children == []
      requires ParentsLinked(nodes, db, e, rows, parents) && forall n | n in parents :: n !in Repr
      modifies Repr, (set n | n in nodes)`children
      ensures Valid() && Repr == old(Repr) && modifiers == old(modifiers) && path == old(path)
      ensures err.Some? <==> old(Value()).withChildren.Some? && ChildrenFail(db, old(Value()).withChildren.value, rows)
      ensures err.None? ==> Value() == old(Value()).(withChildren := ChildrenEdgeAfter(db, old(Value()).withChildren, rows))
      ensures fresh(region - parents)
      ensures err.None? ==> ParentsLinked(nodes, db, e, rows, region)
      ensures err.None? ==> ChildrenLinked(nodes, db, old(Value()).withChildren, rows, region)
      decreases Repr, 3, 0
    {
      hide *;
      ghost var q := Value();
      ghost var children;
      err, children := LoadChildrenEdge(nodes, db, rows);
      region := parents + children;
      if err.None? {
        ParentsWiden(nodes, db, e, rows, parents, region);
        ChildrenWiden(nodes, db, q.withChildren, rows, children, region);
      }
    }

    // ---- One row, or none, or too many ----

    /** The first row there is, whatever limit was set before. */
    method First(db: Store) returns (node: Account?, err: Option<FetchError>, ghost region: set<Account>)
      requires Valid() && Consistent(db) && PathOk(db, Value())
      modifies Repr
      ensures Valid() && Repr == old(Repr) && fresh(region)
      ensures var q := old(Value()).(limit := Some(1));
        && (err.Some? && err.value.Failed? <==> RunFails(db, q))
        && (err == Some(NotFound) <==> !RunFails(db, q) && Remaining(db, q) == [])
        && err != Some(NotSingular)
        && (err.None? ==> node != null && Remaining(db, q) != [] && Rep(node, ViewOf(db, q, Remaining(db, q)[0]), region))
        && ((err.Some? ==> !err.value.Failed?) ==> Value() == AfterAll(db, q))
    {
      hide *;
      AnyLimit(db, Value(), 1);
      Limit(1);
      ghost var q := Value();
      LimitKeeps(db, q, 1);
      var nodes, failed;
      nodes, failed, region := All(db);
      node := null;
      if failed.Some? {
        return node, Some(Failed(failed.value)), region;
      }
      OneView(nodes, db, q, region);
      if |nodes| == 0 {
        return node, Some(NotFound), region;
      }
      return nodes[0], None, region;
    }

    /** The row, if there is exactly one, whatever limit was set before. */
    method Only(db: Store) returns (node: Account?, err: Option<FetchError>, ghost region: set<Account>)
      requires Valid() && Consistent(db) && PathOk(db, Value())
      modifies Repr
      ensures Valid() && Repr == old(Repr) && fresh(region)
      ensures var q := old(Value()).(limit := Some(2));
        && (err.Some? && err.value.Failed? <==> RunFails(db, q))
        && (err == Some(NotFound) <==> !RunFails(db, q) && |Remaining(db, q)| == 0)
        && (err == Some(NotSingular) <==> !RunFails(db, q) && |Remaining(db, q)| > 1)
        && (err.None? ==> node != null && |Remaining(db, q)| == 1 && Rep(node, ViewOf(db, q, Remaining(db, q)[0]), region))
        && ((err.Some? ==> !err.value.Failed?) ==> Value() == AfterAll(db, q))
    {
      hide *;
      AnyLimit(db, Value(), 2);
      Limit(2);
      ghost var q := Value();
      LimitKeeps(db, q, 2);
      var nodes, failed;
      nodes, failed, region := All(db);
      node := null;
      if failed.Some? {
        return node, Some(Failed(failed.value)), region;
      }
      OneView(nodes, db, q, region);
      if |nodes| == 1 {
        return nodes[0], None, region;
      } else if |nodes| == 0 {
        return node, Some(NotFound), region;
      }
      return node, Some(NotSingular), region;
    }

    /** The ids of the rows, through a selector of its own. It runs only on a builder without selected fields: the id
        is added to those, and the result has room for one column. */
    method IDs(db: Store) returns (ids: seq<int>, err: Option<FetchError>)
      requires Valid() && Consistent(db) && PathOk(db, Value())
      modifies this
      ensures Valid() && Repr == old(Repr)
      ensures Value() == old(Value()).(unique := IdsUnique(old(Value())), fields := old(Value()).fields + [ID],
        preds := old(Value()).preds + old(Value()).inters)
      ensures !FieldsValid(old(Value()).fields) <==> err.Some? && err.value.Failed?
      ensures FieldsValid(old(Value()).fields) && old(Value()).fields != [] <==> err == Some(ColumnMismatch)
      ensures err.None? <==> old(Value()).fields == []
      ensures err.None? ==> ids == IdsOf(SelectorRows(db, old(Value())))
    {
      hide *;
      Settings();
      NoFields();
      ghost var q := Value();
      SelectorRowsAre(db, q);
      if unique.None? && path.Some? {
        Unique(true);
      }
      Select([ID]);
      WithIdValid(q.fields);
      var invalid := PrepareQuery();
      Settings();
      if invalid.Some? {
        return [], Some(Failed(invalid.value));
      }
      if |fields| != 1 {
        return [], Some(ColumnMismatch);
      }
      var source := if path.Some? then path.value(db) else db.accounts;
      var rows := Matching(Selection(predicates, order, unique == Some(true), 0, 0), source);
      ids := IdsOf(SelectorWindow(offset, limit, rows));
      err := None;
    }

    lemma Settings()
      requires Valid()
      ensures Value() == Value().(preds := predicates, inters := inters, order := order, offset := offset, limit := limit,
        unique := unique, fields := fields, path := path)
    {
    }

    method FirstID(db: Store) returns (id: Option<int>, err: Option<FetchError>)
      requires Valid() && Consistent(db) && PathOk(db, Value())
      modifies this
      ensures Valid() && Repr == old(Repr) && Value().fields == old(Value()).fields + [ID]
      ensures old(Value()).fields != [] <==> err.Some? && err.value != NotFound
      ensures old(Value()).fields == [] ==> (
        var all := IdsOf(Remaining(db, old(Value())));
        && (err == Some(NotFound) <==> |all| == 0) && (err.None? ==> id == Some(all[0])))
    {
      ghost var q := Value();
      NoFields();
      hide *;
      AnyLimit(db, q, 1);
      Limit(1);
      SelectorLimit(db, q.(limit := Some(1)), 1);
      var ids;
      ids, err := IDs(db);
      id := None;
      if err.None? && |ids| == 0 {
        return None, Some(NotFound);
      }
      if err.None? {
        id := Some(ids[0]);
      }
    }

    method OnlyID(db: Store) returns (id: Option<int>, err: Option<FetchError>)
      requires Valid() && Consistent(db) && PathOk(db, Value())
      modifies this
      ensures Valid() && Repr == old(Repr) && Value().fields == old(Value()).fields + [ID]
      ensures old(Value()).fields != [] <==> err.Some? && err.value != NotFound && err.value != NotSingular
      ensures old(Value()).fields == [] ==>
        var all := IdsOf(Remaining(db, old(Value())));
        && (err == Some(NotFound) <==> |all| == 0) && (err == Some(NotSingular) <==> |all| > 1)
        && (err.None? ==> id == Some(all[0]))
    {
      ghost var q := Value();
      NoFields();
      hide *;
      AnyLimit(db, q, 2);
      Limit(2);
      SelectorLimit(db, q.(limit := Some(2)), 2);
      var ids;
      ids, err := IDs(db);
      id := None;
      if err.None? {
        if |ids| == 1 {
          id := Some(ids[0]);
        } else if |ids| == 0 {
          err := Some(NotFound);
        } else {
          err := Some(NotSingular);
        }
      }
    }

    /** Whether there is any row, whatever limit was set before. */
    method Exist(db: Store) returns (found: bool, err: Option<FetchError>)
      requires Valid() && Consistent(db) && PathOk(db, Value())
      modifies this
      ensures Valid() && Repr == old(Repr) && Value().fields == old(Value()).fields + [ID]
      ensures err.Some? <==> old(Value()).fields != []
      ensures err.None? ==> (found <==> Remaining(db, old(Value())) != [])
    {
      var id;
      id, err := FirstID(db);
      if err == Some(NotFound) {
        return false, None;
      }
      found := err.None?;
    }

    // ---- Loading the edges, one by one ----

    method LoadGroupsEdge(nodes: seq<Account>, db: Store, ghost rows: seq<Row>) returns (err: Option<QueryError>)
      requires Valid() && KeysMatch(nodes, rows, Value().withProxy.Some?, Value().withParent.Some?)
      requires forall n | n in nodes :: n !in Repr && n.groups == []
      modifies Repr, (set n | n in nodes)`groups
      ensures Valid() && Repr == old(Repr) && modifiers == old(modifiers) && path == old(path)
      ensures err.Some? <==> GroupsEdgeFails(db, old(Value()).withGroups, rows)
      ensures Value() == old(Value()).(withGroups := GroupsEdgeAfter(old(Value()).withGroups, rows))
      ensures err.None? ==> forall i | 0 <= i < |nodes| :: RowsOf(nodes[i].groups) == GroupsAt(db, old(Value()).withGroups, rows, i)
    {
      hide GroupsOfRow, IdOf, Account.Key, Account.Ref, GroupsFail;
      err := None;
      if withGroups != null {
        err := LoadGroups(withGroups, nodes, db, rows);
      }
    }

    method LoadProxyEdge(nodes: seq<Account>, db: Store, ghost rows: seq<Row>) returns (err: Option<QueryError>)
      requires Valid() && KeysMatch(nodes, rows, Value().withProxy.Some?, Value().withParent.Some?)
      requires forall n | n in nodes :: n !in Repr && n.proxy == null
      modifies Repr, (set n | n in nodes)`proxy
      ensures Valid() && Repr == old(Repr) && modifiers == old(modifiers) && path == old(path) && err.None?
      ensures Value() == old(Value()).(withProxy := ProxyEdgeAfter(old(Value()).withProxy, rows))
      ensures forall i | 0 <= i < |nodes| :: ProxyIs(nodes[i].proxy, ProxyAt(db, old(Value()).withProxy, rows, i))
    {
      hide ProxyNeighbours, PickLastLeaf, IdOf, Account.Key, Account.Ref, ProxyAfter;
      err := None;
      if withProxy != null {
        err := LoadProxy(withProxy, nodes, db, rows);
      }
    }

    method LoadParentEdge(nodes: seq<Account>, db: Store, ghost rows: seq<Row>)
        returns (err: Option<QueryError>, ghost region: set<Account>)
      requires Valid() && Consistent(db) && KeysMatch(nodes, rows, Value().withProxy.Some?, Value().withParent.Some?)
      requires forall n | n in nodes :: n !in Repr && n.parent == null
      modifies Repr, (set n | n in nodes)`parent
      ensures Valid() && Repr == old(Repr) && modifiers == old(modifiers) && path == old(path)
      ensures err.Some? <==> old(Value()).withParent.Some? && ParentFails(db, old(Value()).withParent.value, rows)
      ensures err.None? ==> Value() == old(Value()).(withParent := ParentEdgeAfter(db, old(Value()).withParent, rows))
      ensures fresh(region)
      ensures err.None? ==> ParentsLinked(nodes, db, old(Value()).withParent, rows, region)
      decreases Repr, 2
    {
      EdgeParts();
      hide AccountQuery.Valid, AccountQuery.Value, Consistent, ParentFails, ParentAt, ParentAfter, IdOf, ParentKey, ProxyKey;
      err, region := None, {};
      if withParent != null {
        err, region := LoadParent(withParent, nodes, db, rows);
        ParentChanged(this);
      }
    }

    method LoadChildrenEdge(nodes: seq<Account>, db: Store, ghost rows: seq<Row>)
        returns (err: Option<QueryError>, ghost region: set<Account>)
      requires Valid() && Consistent(db) && KeysMatch(nodes, rows, Value().withProxy.Some?, Value().withParent.Some?)
      requires forall n | n in nodes :: n !in Repr && n.children == []
      modifies Repr, (set n | n in nodes)`children
      ensures Valid() && Repr == old(Repr) && modifiers == old(modifiers) && path == old(path)
      ensures err.Some? <==> old(Value()).withChildren.Some? && ChildrenFail(db, old(Value()).withChildren.value, rows)
      ensures err.None? ==> Value() == old(Value()).(withChildren := ChildrenEdgeAfter(db, old(Value()).withChildren, rows))
      ensures fresh(region)
      ensures err.None? ==> ChildrenLinked(nodes, db, old(Value()).withChildren, rows, region)
      decreases Repr, 2
    {
      EdgeParts();
      hide AccountQuery.Valid, AccountQuery.Value, Consistent, ChildrenFail, ChildrenAt, ChildrenAfter, IdOf, ParentKey, ProxyKey;
      err, region := None, {};
      if withChildren != null {
        err, region := LoadChildren(withChildren, nodes, db, rows);
        ChildrenChanged(this);
      }
    }

    /** No modifiers anywhere in the tree. */
    ghost predicate Unmodified()
      requires Valid()
      reads this, Repr
      decreases Repr
    {
      && modifiers == []
      && (withGroups != null ==> withGroups.modifiers == [])
      && (withProxy != null ==> withProxy.modifiers == [])
      && (withParent != null ==> withParent.Unmodified())
      && (withChildren != null ==> withChildren.Unmodified())
    }
  }

  /** A builder of which only the children edge query has changed. */
  twostate lemma ChildrenChanged(q: AccountQuery)
    requires old(q.Valid()) && old(q.withChildren) != null && q.withChildren == old(q.withChildren)
    requires q.withChildren.Valid() && q.withChildren.Repr == old(q.withChildren.Repr) && q.withChildren.path.None?
    requires forall o | o in old(q.Repr) && o !in old(q.withChildren.Repr) :: unchanged(o)
    ensures q.Valid() && q.Repr == old(q.Repr)
    ensures q.Value() == old(q.Value()).(withChildren := Some(q.withChildren.Value()))
  {
  }

  /** A builder of which only the parent edge query has changed. */
  twostate lemma ParentChanged(q: AccountQuery)
    requires old(q.Valid()) && old(q.withParent) != null && q.withParent == old(q.withParent)
    requires q.withParent.Valid() && q.withParent.Repr == old(q.withParent.Repr) && q.withParent.path.None?
    requires forall o | o in old(q.Repr) && o !in old(q.withParent.Repr) :: unchanged(o)
    ensures q.Valid() && q.Repr == old(q.Repr)
    ensures q.Value() == old(q.Value()).(withParent := Some(q.withParent.Value()))
  {
  }

  /** Runs an edge query restricted to keys. */
  method RunFor(query: AccountQuery, key: Row -> Option<int>, keys: seq<int>, db: Store, ghost e: Query)
      returns (neighbours: seq<Account>, err: Option<QueryError>, ghost region: set<Account>)
    requires query.Valid() && e.path.None? && Consistent(db)
    requires query.Value() == e.(fields := query.Value().fields)
    modifies query.Repr
    ensures query.Valid() && query.Repr == old(query.Repr) && query.path.None? && fresh(region)
    ensures var fields := old(query.Value()).fields;
      && (err.Some? <==> !FieldsValid(fields) || LoadFails(db, e, EdgeRows(db, e, key, keys)))
      && (err.None? ==> query.Value() == EdgeAfter(AfterLoad(db, e, EdgeRows(db, e, key, keys)), key, keys, fields))
      && (err.None? ==> Reps(neighbours, Batch(db, e, QueryColumns(e.(fields := fields)), EdgeRows(db, e, key, keys)), region))
    decreases query.Repr, 8
  {
    ghost var fields := query.Value().fields;
    assert query.path == query.Value().path;
    hide AccountQuery.Valid, AccountQuery.Value, Consistent, PathOk, RunFails, EagerLoad.All, AfterAll, EdgeRows,
      AfterLoad, LoadFails, Batch, Reps, FieldsValid, EdgeAfter;
    query.Where([In(key, keys)]);
    ghost var run := e.(preds := e.preds + [In(key, keys)], fields := fields);
    assert query.Value() == run;
    RunOfEdge(db, e, key, keys, fields);
    assert QueryColumns(run) == QueryColumns(e.(fields := fields));
    hide *;
    neighbours, err, region := query.All(db);
  }

  twostate lemma Untouched(query: AccountQuery)
    requires old(query.Valid()) && forall o | o in old(query.Repr) :: unchanged(o)
    ensures query.Valid() && query.Value() == old(query.Value()) && query.Repr == old(query.Repr)
  {
  }

  /** `loadParent`: every node gets the last returned parent with its key, itself loaded to any depth. The
      unexpected-key error cannot occur. */
  method LoadParent(query: AccountQuery, nodes: seq<Account>, db: Store, ghost rows: seq<Row>)
      returns (err: Option<QueryError>, ghost region: set<Account>)
    requires query.Valid() && query.path.None? && Consistent(db)
    requires |rows| == |nodes| && Distinct(nodes)
    requires forall n | n in nodes :: n.parent == null && n !in query.Repr
    requires forall i | 0 <= i < |nodes| :: nodes[i].Ref(ParentAccountID) == ParentKey(rows[i])
    modifies query.Repr, (set n | n in nodes)`parent
    ensures query.Valid() && query.Repr == old(query.Repr) && query.path.None?
    ensures err.Some? <==> ParentFails(db, old(query.Value()), rows)
    ensures err.None? ==> query.Value() == ParentAfter(db, old(query.Value()), rows)
    ensures fresh(region)
    ensures err.None? ==> ParentsLinked(nodes, db, Some(old(query.Value())), rows, region)
    decreases query.Repr, 10
  {
    hide AccountQuery.Valid, AccountQuery.Value, Consistent, EdgeRows, AfterLoad, LoadFails, Batch, Reps,
      FieldsValid, EdgeAfter, FirstKeys, Grouped, Account.Ref, QueryColumns, PickLast, ParentAt;
    ghost var e := query.Value();
    var ids, nodeids := GroupByRef(nodes, ParentAccountID);
    ghost var keys := KeysOf(rows, ParentKey);
    assert RefsOf(nodes, ParentAccountID) == keys;
    ParentsAt(db, e, rows);
    hide RefsOf;
    err, region := None, {};
    if ids != [] {
      err, region := LoadParentFor(query, nodes, ids, nodeids, db, keys);
    }
  }

  /** The rest of `loadParent`, once the nodes are grouped by key. */
  method LoadParentFor(query: AccountQuery, nodes: seq<Account>, ids: seq<int>, nodeids: map<int, seq<Account>>,
                       db: Store, ghost keys: seq<Option<int>>)
      returns (err: Option<QueryError>, ghost region: set<Account>)
    requires query.Valid() && query.path.None? && Consistent(db)
    requires |keys| == |nodes| && Distinct(nodes) && ids == FirstKeys(keys) && nodeids == Grouped(nodes, keys)
    requires forall n | n in nodes :: n.parent == null && n !in query.Repr
    modifies query.Repr, (set n | n in nodes)`parent
    ensures query.Valid() && query.Repr == old(query.Repr) && query.path.None? && fresh(region)
    ensures var e := old(query.Value());
      var parents := EdgeRows(db, e, IdKey, ids);
      && (err.Some? <==> !FieldsValid(e.fields) || LoadFails(db, e, parents))
      && (err.None? ==> query.Value() == EdgeAfter(AfterLoad(db, e, parents), IdKey, ids, e.fields))
      && (err.None? ==> forall i | 0 <= i < |nodes| ::
           LinkIs(nodes[i].parent, PickLast(parents, Batch(db, e, QueryColumns(e), parents), keys[i]), region))
    decreases query.Repr, 9
  {
    query.EdgeParts();
    hide *;
    ghost var e := query.Value();
    var neighbours;
    neighbours, err, region := RunFor(query, IdKey, ids, db, e);
    if err.None? {
      ParentsKnown(db, e, ids, nodes, keys, neighbours, region);
      ghost var parents := EdgeRows(db, e, IdKey, ids);
      label Loaded:
      err := LinkParents(nodes, nodeids, neighbours, keys, parents, Batch(db, e, QueryColumns(e), parents), region);
      Untouched@Loaded(query);
    }
  }

  lemma ParentsAt(db: Store, e: Query, rows: seq<Row>)
    ensures var keys := KeysOf(rows, ParentKey);
      var parents := EdgeRows(db, e, IdKey, FirstKeys(keys));
      |keys| == |rows| && forall i | 0 <= i < |rows| ::
        ParentAt(db, Some(e), rows, i) ==
          if FirstKeys(keys) == [] then None else PickLast(parents, Batch(db, e, QueryColumns(e), parents), keys[i])
  {
    hide EdgeRows, Batch, FirstKeys, QueryColumns, ParentKey;
  }

  lemma ParentsKnown(db: Store, e: Query, ids: seq<int>, nodes: seq<Account>, keys: seq<Option<int>>,
                     neighbours: seq<Account>, region: set<Account>)
    requires Consistent(db) && |nodes| == |keys| && ids == FirstKeys(keys) && FieldsValid(e.fields)
    requires Reps(neighbours, Batch(db, e, QueryColumns(e), EdgeRows(db, e, IdKey, ids)), region)
    ensures IdsOfNodes(neighbours) == IdsOf(EdgeRows(db, e, IdKey, ids))
    ensures forall n | n in neighbours :: n.Key() in Grouped(nodes, keys)
  {
    hide FirstKeys, Batch, EdgeRows, Account.Key, IdOf, IdsOfNodes, Reps, FieldsValid, DecodableRow, QueryColumns;
    var parents := EdgeRows(db, e, IdKey, ids);
    EdgeRowsAreTableRows(db, e, IdKey, ids);
    QueryColumnsValid(e);
    NodesCarryKeys(db, e, QueryColumns(e), parents, neighbours, region);
    forall n | n in neighbours ensures n.Key() in Grouped(nodes, keys) {
      var j :| 0 <= j < |neighbours| && neighbours[j] == n;
      assert IdsOf(parents)[j] == IdOf(parents[j]) && parents[j] in parents;
      assert n.Key() == IdOf(parents[j]);
      assert IdKey(parents[j]) == Some(n.Key());
    }
  }

  /** `loadChildren`: the last node of each id gets exactly the returned neighbours with its key, in order, themselves
      loaded to any depth. The nil-key and unexpected-key errors cannot occur. */
  method LoadChildren(query: AccountQuery, nodes: seq<Account>, db: Store, ghost rows: seq<Row>)
      returns (err: Option<QueryError>, ghost region: set<Account>)
    requires query.Valid() && query.path.None? && Consistent(db)
    requires |rows| == |nodes| && Distinct(nodes)
    requires forall n | n in nodes :: n.children == [] && n !in query.Repr
    requires forall i | 0 <= i < |nodes| :: nodes[i].Key() == IdOf(rows[i])
    modifies query.Repr, (set n | n in nodes)`children
    ensures query.Valid() && query.Repr == old(query.Repr) && query.path.None?
    ensures err.Some? <==> ChildrenFail(db, old(query.Value()), rows)
    ensures err.None? ==> query.Value() == ChildrenAfter(db, old(query.Value()), rows)
    ensures fresh(region)
    ensures err.None? ==> ChildrenLinked(nodes, db, Some(old(query.Value())), rows, region)
    decreases query.Repr, 10
  {
    hide AccountQuery.Valid, AccountQuery.Value, Consistent, EdgeRows, AfterLoad, LoadFails, Batch, Reps,
      FieldsValid, EdgeAfter, Account.Key, ChildFields, ById, ChildrenAt, Collect, IdOf, LastId, ChildColumns, IdsOfNodes;
    ghost var e := query.Value();
    label Start:
    var fks, nodeids := IndexById(nodes);
    assert fks == IdsOf(rows);
    Untouched@Start(query);
    ChildrenAtIs(db, e, rows);
    query.AppendFieldOnce();
    query.EdgeParts();
    err, region := LoadChildrenFor(query, nodes, fks, nodeids, db, e);
  }

  lemma ChildrenAtIs(db: Store, e: Query, rows: seq<Row>)
    ensures var ids := IdsOf(rows);
      var children := EdgeRows(db, e, ParentKey, ids);
      |ids| == |rows| && forall i | 0 <= i < |rows| ::
        ChildrenAt(db, Some(e), rows, i) ==
          if LastId(ids, i) then Collect(children, Batch(db, e, ChildColumns(e), children), ids[i]) else []
  {
    hide EdgeRows, Batch, ChildColumns, LastId, LastOfId, IdOf, Collect;
    LastIds(rows);
  }

  /** The rest of `loadChildren`, once the nodes are indexed by id. */
  method LoadChildrenFor(query: AccountQuery, nodes: seq<Account>, fks: seq<int>, nodeids: map<int, Account>, db: Store,
                         ghost e: Query)
      returns (err: Option<QueryError>, ghost region: set<Account>)
    requires query.Valid() && e.path.None? && Consistent(db)
    requires query.Value() == e.(fields := ChildFields(e.fields))
    requires |fks| == |nodes| && Distinct(nodes) && ById(nodeids, nodes, fks)
    requires forall n | n in nodes :: n.children == [] && n !in query.Repr
    modifies query.Repr, (set n | n in nodes)`children
    ensures query.Valid() && query.Repr == old(query.Repr) && query.path.None? && fresh(region)
    ensures var children := EdgeRows(db, e, ParentKey, fks);
      && (err.Some? <==> !FieldsValid(ChildFields(e.fields)) || LoadFails(db, e, children))
      && (err.None? ==> query.Value() == EdgeAfter(AfterLoad(db, e, children), ParentKey, fks, ChildFields(e.fields)))
      && (err.None? ==> forall i | 0 <= i < |nodes| ::
           Reps(nodes[i].children,
                if LastId(fks, i) then Collect(children, Batch(db, e, ChildColumns(e), children), fks[i]) else [], region))
    decreases query.Repr, 9
  {
    hide AccountQuery.Valid, AccountQuery.Value, Consistent, EdgeRows, AfterLoad, LoadFails, Batch, Reps,
      FieldsValid, EdgeAfter, Account.Ref, RefsOf, Collect, ColumnsFor, ChildFields, ById, LastId;
    var neighbours;
    neighbours, err, region := RunFor(query, ParentKey, fks, db, e);
    if err.None? {
      ChildrenKnown(db, e, fks, neighbours, region);
      ghost var children := EdgeRows(db, e, ParentKey, fks);
      label Loaded:
      err := LinkChildren(nodes, nodeids, neighbours, fks, children, Batch(db, e, ChildColumns(e), children), region);
      Untouched@Loaded(query);
    }
  }

  lemma ChildrenKnown(db: Store, e: Query, ids: seq<int>, neighbours: seq<Account>, region: set<Account>)
    requires Consistent(db) && FieldsValid(ChildFields(e.fields))
    requires Reps(neighbours, Batch(db, e, ChildColumns(e), EdgeRows(db, e, ParentKey, ids)), region)
    ensures RefsOf(neighbours, ParentAccountID) == KeysOf(EdgeRows(db, e, ParentKey, ids), ParentKey)
    ensures forall n | n in neighbours :: n.Ref(ParentAccountID).Some? && n.Ref(ParentAccountID).value in ids
  {
    hide Batch, EdgeRows, Account.Ref, ParentKey, RefsOf, Reps, FieldsValid, DecodableRow, ChildColumns, ChildFields;
    var children := EdgeRows(db, e, ParentKey, ids);
    EdgeRowsAreTableRows(db, e, ParentKey, ids);
    ChildColumnsValid(e);
    NodesCarryKeys(db, e, ChildColumns(e), children, neighbours, region);
    forall n | n in neighbours ensures n.Ref(ParentAccountID).Some? && n.Ref(ParentAccountID).value in ids {
      var j :| 0 <= j < |neighbours| && neighbours[j] == n;
      assert RefsOf(neighbours, ParentAccountID)[j] == ParentKey(children[j]) && children[j] in children;
    }
  }

  method CloneNeighbour(n: NeighbourQuery?) returns (c: NeighbourQuery?)
    ensures c == null <==> n == null
    ensures c != null ==> fresh(c) && c.Value() == n.Value() && c.modifiers == []
  {
    if n == null {
      c := null;
    } else {
      c := n.Clone();
    }
  }

  method CloneEdge(q: AccountQuery?) returns (c: AccountQuery?)
    requires q != null ==> q.Valid()
    ensures c == null <==> q == null
    ensures c != null ==> c.Valid() && fresh(c.Repr) && c.Value() == q.Value() && c.path == q.path && c.Unmodified()
    decreases if q == null then {} else q.Repr, 2
  {
    if q == null {
      c := null;
    } else {
      c := q.Clone();
    }
  }

  /** Changes to a clone leave the original alone, and the other way round. */
  method CloneIsIndependent(q: AccountQuery, ps: seq<Pred<Row>>, o: seq<Term<Row>>, n: nat, qs: seq<Pred<Row>>)
      returns (c: AccountQuery)
    requires q.Valid()
    modifies q
    ensures q.Valid() && c.Valid() && fresh(c.Repr) && q.Repr == old(q.Repr)
    ensures c.Value() == old(q.Value()).(preds := old(q.Value()).preds + ps, order := old(q.Value()).order + o, limit := Some(n))
    ensures q.Value() == old(q.Value()).(preds := old(q.Value()).preds + qs)
  {
    hide AccountQuery.Value, AccountQuery.Valid;
    c := q.Clone();
    c.Where(ps);
    c.Order(o);
    c.Limit(n);
    q.Where(qs);
  }

  /** The graph `All` builds in batches is the one that evaluating every edge query for every row alone describes, if the
      windows of the edge queries are harmless to the batches they cut and group orders separate groups. */
  method AllRefinesNaive(q: AccountQuery, db: Store)
      returns (nodes: seq<Account>, err: Option<QueryError>, ghost region: set<Account>)
    requires q.Valid() && Consistent(db) && PathOk(db, q.Value())
    requires WindowsHarmless(db, q.Value(), Rows(db, q.Value())) && OrdersSeparate(db, q.Value())
    requires q.Value().path.Some? ==> IsDistinct(q.Value())
    modifies q.Repr
    ensures err.Some? <==> RunFails(db, old(q.Value()))
    ensures fresh(region)
    ensures err.None? ==>
      var v := old(q.Value());
      Reps(nodes, NaiveAll(db, v, QueryColumns(v), Rows(db, v)), region)
  {
    ghost var v := q.Value();
    PathOkIs(db, v);
    hide *;
    AllIsNaive(db, v);
    nodes, err, region := q.All(db);
  }

  lemma PathOkIs(db: Store, q: Query)
    requires PathOk(db, q)
    ensures q.path.Some? ==> forall r: Row | r in q.path.value(db) :: r in db.accounts
  {
  }

  // ---- Running again ----

  lemma PathAfter(db: Store, q: Query)
    requires PathOk(db, q)
    ensures PathOk(db, AfterAll(db, q))
  {
    hide AfterLoad, Rows;
    AfterLoadKeeps(db, q, Rows(db, q));
  }

  /** Running the same builder again on the same tables: the second run fails exactly if some groups edge returns join rows
      again; otherwise it builds the same graph anew. */
  method RunTwice(q: AccountQuery, db: Store)
      returns (first: seq<Account>, second: seq<Account>, err1: Option<QueryError>, err2: Option<QueryError>,
               ghost region1: set<Account>, ghost region2: set<Account>)
    requires q.Valid() && Consistent(db) && PathOk(db, q.Value())
    modifies q.Repr
    ensures err1.Some? <==> RunFails(db, old(q.Value()))
    ensures err1.None? ==> (err2.Some? <==> ReloadsGroups(db, old(q.Value()), Rows(db, old(q.Value()))))
    ensures fresh(region1) && fresh(region2) && region1 !! region2
    ensures err1.None? ==> Reps(first, EagerLoad.All(db, old(q.Value())), region1)
    ensures err1.None? && err2.None? ==> Reps(second, EagerLoad.All(db, old(q.Value())), region2)
  {
    hide *;
    ghost var v := q.Value();
    PathAfter(db, v);
    first, err1, region1 := q.All(db);
    second, err2, region2 := [], None, {};
    if err1.None? {
      RunAgain(db, v);
      second, err2, region2 := q.All(db);
    }
  }

  /** A builder with a groups edge, run twice on a store with one account in one group. */
  method RunGroupsTwice() returns (first: seq<Account>, err1: Option<QueryError>, err2: Option<QueryError>)
    ensures err1.None? && |first| == 1 && RowsOf(first[0].groups) == [LeafRow(7, 0)] && err2.Some?
  {
    hide *;
    GroupsRunOnce();
    var g := new NeighbourQuery([]);
    var q := new AccountQuery([]);
    q.WithGroups(g);
    WithGroupsIs(q.Value());
    var second;
    ghost var region1, region2;
    first, second, err1, err2, region1, region2 := RunTwice(q, OneMember());
    GroupsShown(first, EagerLoad.All(OneMember(), WITH_GROUPS), region1);
  }

  lemma WithGroupsIs(q: Query)
    requires q == Query([], [], [], None, None, None, [], None, None, None, None, None).(
      withGroups := Some(LeafQuery([], [], [], None, None, None, [])))
    ensures q == WITH_GROUPS && PathOk(OneMember(), q)
  {
  }

  lemma GroupsShown(nodes: seq<Account>, views: seq<View>, region: set<Account>)
    requires Reps(nodes, views, region) && |views| == 1
    ensures |nodes| == 1 && RowsOf(nodes[0].groups) == views[0].groups
  {
  }
}
