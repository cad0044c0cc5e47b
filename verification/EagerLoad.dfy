/** The meaning of eager-loading queries on values: the batched loading the builder performs, and the naive loading
    that evaluates every edge query separately for every row. */
module EagerLoad {
  import opened Wrappers
  import opened AccountRow
  import opened Pipeline

  // ---- Tables ----

  /** Accounts, proxies and groups, and the (account, group) pairs of the join table. */
  datatype Store = Store(accounts: seq<Row>, proxies: seq<LeafRow>, groups: seq<LeafRow>, memberships: seq<(int, int)>)

  function IdOf(r: Row): int {
    if ID in r && r[ID].IntCell? then r[ID].i else 0
  }

  function RefOf(r: Row, c: Column): Option<int> {
    if c in r && r[c].IntCell? then Some(r[c].i) else None
  }

  function IdKey(r: Row): Option<int> {
    Some(IdOf(r))
  }

  function ParentKey(r: Row): Option<int> {
    RefOf(r, ParentAccountID)
  }

  function ProxyKey(r: Row): Option<int> {
    RefOf(r, ProxyID)
  }

  function LeafKey(l: LeafRow): Option<int> {
    Some(l.id)
  }

  ghost predicate DecodableRow(r: Row) {
    TypedRow(Columns(), r) && ID in r && r[ID].IntCell? && forall c | c in Columns() :: c in r && !Malformed(r[c])
  }

  /** Primary keys are unique, and every row decodes. */
  ghost predicate Consistent(db: Store) {
    && (forall i, j | 0 <= i < j < |db.accounts| :: IdOf(db.accounts[i]) != IdOf(db.accounts[j]))
    && (forall r: Row | r in db.accounts :: DecodableRow(r))
    && (forall i, j | 0 <= i < j < |db.proxies| :: db.proxies[i].id != db.proxies[j].id)
    && (forall i, j | 0 <= i < j < |db.groups| :: db.groups[i].id != db.groups[j].id)
  }

  // ---- Queries as values ----

  type Path = Store -> seq<Row>

  /** A query on a neighbouring table. `inters` are the predicates its traversing interceptors add on every run;
      `joined` has the account ids of every earlier load of this query as a groups edge: each of them leaves a join. */
  datatype LeafQuery = LeafQuery(
    preds: seq<Pred<LeafRow>>, inters: seq<Pred<LeafRow>>, order: seq<Term<LeafRow>>,
    offset: Option<nat>, limit: Option<nat>, unique: Option<bool>, joined: seq<seq<int>>)

  /** A query on accounts with its edge queries. `path` yields the rows of a traversal in place of the table. */
  datatype Query = Query(
    preds: seq<Pred<Row>>, inters: seq<Pred<Row>>, order: seq<Term<Row>>,
    offset: Option<nat>, limit: Option<nat>, unique: Option<bool>, fields: seq<Column>, path: Option<Path>,
    withGroups: Option<LeafQuery>, withProxy: Option<LeafQuery>, withParent: Option<Query>, withChildren: Option<Query>)

  function OrZero(n: Option<nat>): nat {
    if n.Some? then n.value else 0
  }

  function IsDistinct(q: Query): bool {
    if q.unique.Some? then q.unique.value else q.path.Some?
  }

  /** What `querySpec` asks of the database once `prepareQuery` has added the interceptors' predicates. */
  function SelectionOf(q: Query): Selection<Row> {
    Selection(q.preds + q.inters, q.order, IsDistinct(q), OrZero(q.offset), OrZero(q.limit))
  }

  function LeafSelectionOf(q: LeafQuery): Selection<LeafRow> {
    Selection(q.preds + q.inters, q.order, q.unique == Some(true), OrZero(q.offset), OrZero(q.limit))
  }

  function Source(db: Store, q: Query): seq<Row> {
    if q.path.Some? then q.path.value(db) else db.accounts
  }

  /** The rows a query returns. */
  function Rows(db: Store, q: Query): seq<Row> {
    Fetch(SelectionOf(q), Source(db, q))
  }

  // ---- Selected columns ----

  function AddOnce(columns: seq<Column>, c: Column): seq<Column> {
    if c in columns then columns else columns + [c]
  }

  function WithoutId(fields: seq<Column>): seq<Column> {
    if fields == [] then []
    else (if fields[0] != ID then [fields[0]] else []) + WithoutId(fields[1..])
  }

  /** The columns `querySpec` selects: all of them, or the id, the chosen fields and the foreign keys of edges. */
  function ColumnsFor(fields: seq<Column>, proxy: bool, parent: bool): seq<Column> {
    if fields == [] then Columns()
    else
      var chosen := [ID] + WithoutId(fields);
      var c1 := if proxy then AddOnce(chosen, ProxyID) else chosen;
      if parent then AddOnce(c1, ParentAccountID) else c1
  }

  function QueryColumns(q: Query): seq<Column> {
    ColumnsFor(q.fields, q.withProxy.Some?, q.withParent.Some?)
  }

  /** `loadChildren` adds the foreign key to an explicit selection. */
  function ChildFields(fields: seq<Column>): seq<Column> {
    if fields == [] then fields else AddOnce(fields, ParentAccountID)
  }

  function ChildColumns(e: Query): seq<Column> {
    ColumnsFor(ChildFields(e.fields), e.withProxy.Some?, e.withParent.Some?)
  }

  ghost function Decode(columns: seq<Column>, r: Row): Fields {
    if TypedRow(columns, r) then AssignAll(Fresh(), columns, FillAll(columns, r)).0 else Fresh()
  }

  // ---- Edge queries ----

  /** The rows of an edge query restricted to `key IN (keys)`, before its window. */
  function EdgeMatching(db: Store, e: Query, key: Row -> Option<int>, keys: seq<int>): seq<Row> {
    Matching(SelectionOf(e.(preds := e.preds + [In(key, keys)])), db.accounts)
  }

  function EdgeRows(db: Store, e: Query, key: Row -> Option<int>, keys: seq<int>): seq<Row> {
    Window(OrZero(e.offset), OrZero(e.limit), EdgeMatching(db, e, key, keys))
  }

  function ProxyMatching(db: Store, e: LeafQuery, keys: seq<int>): seq<LeafRow> {
    Matching(LeafSelectionOf(e.(preds := e.preds + [In(LeafKey, keys)])), db.proxies)
  }

  function ProxyRows(db: Store, e: LeafQuery, keys: seq<int>): seq<LeafRow> {
    Window(OrZero(e.offset), OrZero(e.limit), ProxyMatching(db, e, keys))
  }

  /** A join row: the account, the group it is joined to, and the accounts that the joins of earlier loads bring in, the
      latest first. */
  datatype Joined = Joined(account: int, group: LeafRow, earlier: seq<int>)

  function AccountKey(j: Joined): Option<int> {
    Some(j.account)
  }

  function JoinOne(account: int, group: int, groups: seq<LeafRow>): seq<Joined> {
    if groups == [] then []
    else (if groups[0].id == group then [Joined(account, groups[0], [])] else []) + JoinOne(account, group, groups[1..])
  }

  /** The inner join of the join table with the groups. */
  function Join(memberships: seq<(int, int)>, groups: seq<LeafRow>): seq<Joined> {
    if memberships == [] then []
    else JoinOne(memberships[0].0, memberships[0].1, groups) + Join(memberships[1..], groups)
  }

  /** The inner join of join rows with the join table once more. */
  function Rejoin(rows: seq<Joined>, memberships: seq<(int, int)>): seq<Joined> {
    if rows == [] then [] else RejoinOne(rows[0], memberships) + Rejoin(rows[1..], memberships)
  }

  function RejoinOne(row: Joined, memberships: seq<(int, int)>): seq<Joined> {
    if memberships == [] then []
    else
      (if memberships[0].1 == row.group.id then [Joined(memberships[0].0, row.group, [row.account] + row.earlier)] else [])
      + RejoinOne(row, memberships[1..])
  }

  /** The join for a load after `n` earlier ones. */
  function Joins(n: nat, memberships: seq<(int, int)>, groups: seq<LeafRow>): seq<Joined> {
    if n == 0 then Join(memberships, groups) else Rejoin(Joins(n - 1, memberships, groups), memberships)
  }

  function EarlierKey(j: Joined, k: nat): Option<int> {
    if k < |j.earlier| then Some(j.earlier[k]) else None
  }

  function EarlierIn(k: nat, accounts: seq<int>): Pred<Joined> {
    In((j: Joined) => EarlierKey(j, k), accounts)
  }

  function OnGroup(p: Pred<LeafRow>): Pred<Joined> {
    Test((j: Joined) => p.Holds(j.group))
  }

  function ByGroup(t: Term<LeafRow>): Term<Joined> {
    Term((j: Joined) => t.Rank(j.group), false)
  }

  function OnGroups(preds: seq<Pred<LeafRow>>): seq<Pred<Joined>> {
    seq(|preds|, i requires 0 <= i < |preds| => OnGroup(preds[i]))
  }

  /** What the joins of earlier loads ask of their accounts. */
  function EarlierPreds(joined: seq<seq<int>>): seq<Pred<Joined>> {
    seq(|joined|, k requires 0 <= k < |joined| => EarlierIn(k, joined[|joined| - 1 - k]))
  }

  function ByGroups(order: seq<Term<LeafRow>>): seq<Term<Joined>> {
    seq(|order|, i requires 0 <= i < |order| => ByGroup(order[i]))
  }

  /** The group query as it runs inside `loadGroups`: over join rows, restricted to the accounts, never DISTINCT. */
  function JoinSelection(e: LeafQuery, accounts: seq<int>): Selection<Joined> {
    Selection(OnGroups(e.preds) + EarlierPreds(e.joined) + [In(AccountKey, accounts)] + OnGroups(e.inters), ByGroups(e.order),
      false, OrZero(e.offset), OrZero(e.limit))
  }

  function JoinMatching(db: Store, e: LeafQuery, accounts: seq<int>): seq<Joined> {
    Matching(JoinSelection(e, accounts), Joins(|e.joined|, db.memberships, db.groups))
  }

  function JoinRows(db: Store, e: LeafQuery, accounts: seq<int>): seq<Joined> {
    Window(OrZero(e.offset), OrZero(e.limit), JoinMatching(db, e, accounts))
  }

  /** The groups of join rows, each once, in order of first appearance. */
  function FirstGroups(rows: seq<Joined>): seq<LeafRow> {
    if rows == [] then []
    else
      var init, last := FirstGroups(rows[..|rows| - 1]), rows[|rows| - 1].group;
      if exists g | g in init :: g.id == last.id then init else init + [last]
  }

  // ---- What loading builds ----

  /** An account with its loaded edges. */
  datatype View = View(
    fields: Fields, groups: seq<LeafRow>, proxy: Option<LeafRow>, parent: Option<View>, children: seq<View>)

  // ---- Batched loading ----

  /** The distinct keys, in order of first appearance. */
  function FirstKeys(keys: seq<Option<int>>): seq<int> {
    if keys == [] then []
    else
      var init, last := FirstKeys(keys[..|keys| - 1]), keys[|keys| - 1];
      if last.None? || last.value in init then init else init + [last.value]
  }

  function KeysOf(rows: seq<Row>, key: Row -> Option<int>): seq<Option<int>> {
    seq(|rows|, i requires 0 <= i < |rows| => key(rows[i]))
  }

  function IdsOf(rows: seq<Row>): seq<int> {
    seq(|rows|, i requires 0 <= i < |rows| => IdOf(rows[i]))
  }

  /** No later row has the same id: the one that maps by id end up holding. */
  predicate LastOfId(rows: seq<Row>, i: nat)
    requires i < |rows|
  {
    forall j | i < j < |rows| :: IdOf(rows[j]) != IdOf(rows[i])
  }

  /** The last neighbour with the id `k`: assigning in turn overwrites. */
  function PickLast<V>(rows: seq<Row>, views: seq<V>, k: Option<int>): Option<V>
    requires |rows| == |views|
  {
    if rows == [] || k.None? then None
    else
      var n := |rows| - 1;
      if IdOf(rows[n]) == k.value then Some(views[n]) else PickLast(rows[..n], views[..n], k)
  }

  function PickLastLeaf(rows: seq<LeafRow>, k: Option<int>): Option<LeafRow> {
    if rows == [] || k.None? then None
    else
      var n := |rows| - 1;
      if rows[n].id == k.value then Some(rows[n]) else PickLastLeaf(rows[..n], k)
  }

  /** The neighbours whose foreign key is `k`, in order. */
  function Collect<V>(rows: seq<Row>, views: seq<V>, k: int): seq<V>
    requires |rows| == |views|
  {
    if rows == [] then []
    else
      var n := |rows| - 1;
      Collect(rows[..n], views[..n], k) + if ParentKey(rows[n]) == Some(k) then [views[n]] else []
  }

  /** The neighbours joined to the account, in the neighbours' order. */
  function GroupsOf(neighbours: seq<LeafRow>, joins: seq<Joined>, account: int): seq<LeafRow> {
    if neighbours == [] then []
    else
      var n := |neighbours| - 1;
      GroupsOf(neighbours[..n], joins, account)
      + if exists j | j in joins :: j.account == account && j.group.id == neighbours[n].id then [neighbours[n]] else []
  }

  function ProxyNeighbours(db: Store, e: LeafQuery, rows: seq<Row>): seq<LeafRow> {
    var ids := FirstKeys(KeysOf(rows, ProxyKey));
    if ids == [] then [] else ProxyRows(db, e, ids)
  }

  function ParentNeighbours(db: Store, e: Query, rows: seq<Row>): seq<Row> {
    var ids := FirstKeys(KeysOf(rows, ParentKey));
    if ids == [] then [] else EdgeRows(db, e, IdKey, ids)
  }

  function ChildNeighbours(db: Store, e: Query, rows: seq<Row>): seq<Row> {
    EdgeRows(db, e, ParentKey, IdsOf(rows))
  }

  /** What `sqlAll` builds for the rows its own query returned. */
  ghost function Batch(db: Store, q: Query, columns: seq<Column>, rows: seq<Row>): (views: seq<View>)
    ensures |views| == |rows|
    decreases q
  {
    var proxies := if q.withProxy.Some? then ProxyNeighbours(db, q.withProxy.value, rows) else [];
    var joins := if q.withGroups.Some? then JoinRows(db, q.withGroups.value, IdsOf(rows)) else [];
    var parents := if q.withParent.Some? then ParentNeighbours(db, q.withParent.value, rows) else [];
    var parentViews := if q.withParent.Some? then Batch(db, q.withParent.value, QueryColumns(q.withParent.value), parents) else [];
    var children := if q.withChildren.Some? then ChildNeighbours(db, q.withChildren.value, rows) else [];
    var childViews := if q.withChildren.Some? then Batch(db, q.withChildren.value, ChildColumns(q.withChildren.value), children) else [];
    seq(|rows|, i requires 0 <= i < |rows| =>
      View(
        Decode(columns, rows[i]),
        if LastOfId(rows, i) then GroupsOf(FirstGroups(joins), joins, IdOf(rows[i])) else [],
        PickLastLeaf(proxies, ProxyKey(rows[i])),
        PickLast(parents, parentViews, ParentKey(rows[i])),
        if LastOfId(rows, i) then Collect(children, childViews, IdOf(rows[i])) else []))
  }

  /** What `All` returns. */
  ghost function All(db: Store, q: Query): seq<View> {
    Batch(db, q, QueryColumns(q), Rows(db, q))
  }

  // ---- Naive loading ----

  /** One row's view, evaluating each edge query for this row alone. */
  ghost function Naive(db: Store, q: Query, columns: seq<Column>, r: Row): View
    decreases q, 0
  {
    View(
      Decode(columns, r),
      if q.withGroups.Some? then FirstGroups(JoinRows(db, q.withGroups.value, [IdOf(r)])) else [],
      if q.withProxy.Some? && ProxyKey(r).Some?
        then LastOf(ProxyRows(db, q.withProxy.value, [ProxyKey(r).value])) else None,
      if q.withParent.Some? && ParentKey(r).Some?
        then LastOf(NaiveAll(db, q.withParent.value, QueryColumns(q.withParent.value),
                             EdgeRows(db, q.withParent.value, IdKey, [ParentKey(r).value]))) else None,
      if q.withChildren.Some?
        then NaiveAll(db, q.withChildren.value, ChildColumns(q.withChildren.value),
                      EdgeRows(db, q.withChildren.value, ParentKey, [IdOf(r)])) else [])
  }

  ghost function NaiveAll(db: Store, q: Query, columns: seq<Column>, rows: seq<Row>): (views: seq<View>)
    ensures |views| == |rows|
    ensures forall i | 0 <= i < |rows| :: views[i] == Naive(db, q, columns, rows[i])
    decreases q, 1
  {
    seq(|rows|, i requires 0 <= i < |rows| => Naive(db, q, columns, rows[i]))
  }

  function LastOf<V>(xs: seq<V>): Option<V> {
    if xs == [] then None else Some(xs[|xs| - 1])
  }

  // ---- When the two agree ----

  predicate LeafUnwindowed(q: LeafQuery) {
    OrZero(q.offset) == 0 && OrZero(q.limit) == 0
  }

  /** The order never ties two different groups of these, so it fixes the order of an account's groups. */
  ghost predicate Separates(order: seq<Term<LeafRow>>, groups: seq<LeafRow>) {
    forall a, b | a in groups && b in groups && AtMost(order, a, b) && AtMost(order, b, a) :: a == b
  }

  /** The groups that a group query can return. */
  function Selectable(e: LeafQuery, groups: seq<LeafRow>): seq<LeafRow> {
    Select(e.preds + e.inters, groups)
  }

  /** Every group order in the tree separates the groups its query can return. */
  ghost predicate OrdersSeparate(db: Store, q: Query)
    decreases q
  {
    && (q.withGroups.Some? ==> Separates(q.withGroups.value.order, Selectable(q.withGroups.value, db.groups)))
    && (q.withParent.Some? ==> OrdersSeparate(db, q.withParent.value))
    && (q.withChildren.Some? ==> OrdersSeparate(db, q.withChildren.value))
  }

  /** No edge query, at any depth, carries a limit or an offset. */
  predicate EdgesUnlimited(q: Query)
    decreases q
  {
    && (q.withGroups.Some? ==> LeafUnwindowed(q.withGroups.value))
    && (q.withProxy.Some? ==> LeafUnwindowed(q.withProxy.value))
    && (q.withParent.Some? ==> Unwindowed(q.withParent.value) && EdgesUnlimited(q.withParent.value))
    && (q.withChildren.Some? ==> Unwindowed(q.withChildren.value) && EdgesUnlimited(q.withChildren.value))
  }

  ghost predicate EdgesUnwindowed(db: Store, q: Query) {
    EdgesUnlimited(q) && OrdersSeparate(db, q)
  }

  ghost predicate EdgeHarmless(db: Store, e: Query, key: Row -> Option<int>, keys: seq<int>) {
    Harmless(OrZero(e.offset), OrZero(e.limit), key, EdgeMatching(db, e, key, keys))
  }

  ghost predicate ProxyHarmless(db: Store, e: LeafQuery, keys: seq<int>) {
    Harmless(OrZero(e.offset), OrZero(e.limit), LeafKey, ProxyMatching(db, e, keys))
  }

  ghost predicate GroupsHarmless(db: Store, e: LeafQuery, accounts: seq<int>) {
    Harmless(OrZero(e.offset), OrZero(e.limit), AccountKey, JoinMatching(db, e, accounts))
  }

  /** In loading the edges of these rows, at every depth, each edge query's window is harmless to the batch it cuts. */
  ghost predicate WindowsHarmless(db: Store, q: Query, rows: seq<Row>)
    decreases q
  {
    rows == [] || (
      && (q.withGroups.Some? ==> GroupsHarmless(db, q.withGroups.value, IdsOf(rows)))
      && (q.withProxy.Some? ==> ProxyHarmless(db, q.withProxy.value, FirstKeys(KeysOf(rows, ProxyKey))))
      && (q.withParent.Some? ==>
            && EdgeHarmless(db, q.withParent.value, IdKey, FirstKeys(KeysOf(rows, ParentKey)))
            && WindowsHarmless(db, q.withParent.value, ParentNeighbours(db, q.withParent.value, rows)))
      && (q.withChildren.Some? ==>
            && EdgeHarmless(db, q.withChildren.value, ParentKey, IdsOf(rows))
            && WindowsHarmless(db, q.withChildren.value, ChildNeighbours(db, q.withChildren.value, rows))))
  }

  predicate Unwindowed(q: Query) {
    OrZero(q.offset) == 0 && OrZero(q.limit) == 0
  }

  /** Rows of the table without repetition. */
  ghost predicate TableRows(db: Store, rows: seq<Row>) {
    Distinct(rows) && forall r: Row | r in rows :: r in db.accounts
  }

  // ---- Rows of a query on the table are distinct table rows ----

  lemma DistinctMultiset<T>(xs: seq<T>)
    ensures Distinct(xs) <==> forall x: T :: multiset(xs)[x] <= 1
    decreases |xs|
  {
    if xs != [] {
      var init, last := xs[..|xs| - 1], xs[|xs| - 1];
      DistinctMultiset(init);
      assert xs == init + [last];
      if Distinct(xs) {
        assert last !in init;
        assert multiset(init)[last] == 0;
      }
      if forall x: T :: multiset(xs)[x] <= 1 {
        forall x: T ensures multiset(init)[x] <= 1 {
          assert multiset(xs)[x] <= 1;
        }
        assert multiset(xs)[last] <= 1;
        assert last !in multiset(init);
        assert last !in init;
      }
    }
  }

  lemma MatchingIn<T>(sel: Selection<T>, source: seq<T>, x: T)
    ensures x in Matching(sel, source) <==> x in source && AllHold(sel.preds, x)
  {
    hide AllHold, AtMost;
    var selected := Select(sel.preds, source);
    SelectIn(sel.preds, source, x);
    DedupKeeps(selected);
    SortSorts(sel.order, if sel.distinct then Dedup(selected) else selected);
  }

  lemma MatchingDistinct<T>(sel: Selection<T>, source: seq<T>)
    requires Distinct(source) || sel.distinct
    ensures Distinct(Matching(sel, source))
  {
    hide AllHold, AtMost, Distinct;
    var selected := Select(sel.preds, source);
    var rows := if sel.distinct then Dedup(selected) else selected;
    if sel.distinct {
      DedupKeeps(selected);
    } else {
      SelectDistinct(sel.preds, source);
    }
    SortSorts(sel.order, rows);
    DistinctMultiset(rows);
    DistinctMultiset(SortBy(sel.order, rows));
  }

  lemma WindowKeeps<T>(offset: nat, limit: nat, rows: seq<T>)
    ensures Distinct(rows) ==> Distinct(Window(offset, limit, rows))
    ensures forall x: T | x in Window(offset, limit, rows) :: x in rows
  {
  }

  lemma FetchDistinct<T>(sel: Selection<T>, source: seq<T>)
    requires Distinct(source) || sel.distinct
    ensures Distinct(Fetch(sel, source))
    ensures forall x: T | x in Fetch(sel, source) :: x in source && AllHold(sel.preds, x)
  {
    hide AllHold, AtMost, Matching, Window, Distinct;
    MatchingDistinct(sel, source);
    WindowKeeps(sel.offset, sel.limit, Matching(sel, source));
    forall x: T | x in Fetch(sel, source) ensures x in source && AllHold(sel.preds, x) {
      MatchingIn(sel, source, x);
    }
  }

  lemma AccountsDistinct(db: Store)
    requires Consistent(db)
    ensures Distinct(db.accounts)
    ensures forall a: Row, b: Row | a in db.accounts && b in db.accounts && IdOf(a) == IdOf(b) :: a == b
  {
    hide IdOf, DecodableRow;
    forall a: Row, b: Row | a in db.accounts && b in db.accounts && IdOf(a) == IdOf(b) ensures a == b {
      var i :| 0 <= i < |db.accounts| && db.accounts[i] == a;
      var j :| 0 <= j < |db.accounts| && db.accounts[j] == b;
      assert i == j;
    }
  }

  /** An edge query's rows are distinct table rows whose key is among the requested ones. */
  lemma EdgeRowsAreTableRows(db: Store, e: Query, key: Row -> Option<int>, keys: seq<int>)
    requires Consistent(db)
    ensures TableRows(db, EdgeRows(db, e, key, keys))
    ensures forall r: Row | r in EdgeRows(db, e, key, keys) :: key(r).Some? && key(r).value in keys
  {
    AccountsDistinct(db);
    MatchingDistinct(SelectionOf(e.(preds := e.preds + [In(key, keys)])), db.accounts);
    EdgeMatchingKeys(db, e, key, keys);
    hide Matching, Consistent, Window;
    WindowKeeps(OrZero(e.offset), OrZero(e.limit), EdgeMatching(db, e, key, keys));
  }

  lemma IdsAreDistinct(db: Store, rows: seq<Row>)
    requires Consistent(db) && TableRows(db, rows)
    ensures forall i, j | 0 <= i < j < |rows| :: IdOf(rows[i]) != IdOf(rows[j])
  {
    hide IdOf;
    AccountsDistinct(db);
    forall i, j | 0 <= i < j < |rows| ensures IdOf(rows[i]) != IdOf(rows[j]) {
      assert rows[i] in rows && rows[j] in rows;
    }
  }

  // ---- One key out of a batch ----

  lemma AllHoldAppend<T>(p: seq<Pred<T>>, q: seq<Pred<T>>, r: T)
    ensures AllHold(p + q, r) <==> AllHold(p, r) && AllHold(q, r)
  {
    assert forall i | 0 <= i < |p| :: (p + q)[i] == p[i];
    assert forall i | 0 <= i < |q| :: (p + q)[|p| + i] == q[i];
  }

  lemma EdgeKey(db: Store, e: Query, key: Row -> Option<int>, keys: seq<int>, k: int)
    requires k in keys
    ensures Share(key, k, EdgeMatching(db, e, key, keys)) == EdgeMatching(db, e, key, [k])
    ensures forall r: Row | r in EdgeMatching(db, e, key, keys) :: key(r).Some? && key(r).value in keys
    ensures EdgeHarmless(db, e, key, keys) ==> Share(key, k, EdgeRows(db, e, key, keys)) == EdgeRows(db, e, key, [k])
  {
    EdgeMatchingKeys(db, e, key, keys);
    hide AllHold, Matching;
    forall r: Row, ks: seq<int>
      ensures AllHold(e.preds + [In(key, ks)] + e.inters, r) <==> AllHold(e.preds + e.inters, r) && AllHold([In(key, ks)], r)
    {
      AllHoldAppend(e.preds + [In(key, ks)], e.inters, r);
      AllHoldAppend(e.preds, [In(key, ks)], r);
      AllHoldAppend(e.preds, e.inters, r);
    }
    BatchedKey(SelectionOf(e), key, keys, k, e.preds + [In(key, keys)] + e.inters, e.preds + [In(key, [k])] + e.inters, db.accounts);
    hide Window, Harmless;
    if EdgeHarmless(db, e, key, keys) {
      HarmlessShares(OrZero(e.offset), OrZero(e.limit), key, EdgeMatching(db, e, key, keys), k);
    }
  }

  lemma EdgeMatchingKeys(db: Store, e: Query, key: Row -> Option<int>, keys: seq<int>)
    ensures forall r: Row | r in EdgeMatching(db, e, key, keys) :: key(r).Some? && key(r).value in keys
    ensures forall r: Row | r in EdgeMatching(db, e, key, keys) :: r in db.accounts
  {
    hide AllHold, Matching;
    var sel := SelectionOf(e.(preds := e.preds + [In(key, keys)]));
    forall r: Row | r in EdgeMatching(db, e, key, keys) ensures r in db.accounts && key(r).Some? && key(r).value in keys {
      MatchingIn(sel, db.accounts, r);
      AllHoldAppend(e.preds + [In(key, keys)], e.inters, r);
      AllHoldAppend(e.preds, [In(key, keys)], r);
      OneHolds(In(key, keys), r);
    }
  }

  lemma {:induction false} FirstKeysIn(keys: seq<Option<int>>)
    ensures Distinct(FirstKeys(keys))
    ensures forall k :: k in FirstKeys(keys) <==> Some(k) in keys
  {
    if keys != [] {
      var init, last := keys[..|keys| - 1], keys[|keys| - 1];
      FirstKeysIn(init);
      assert keys == init + [last];
    }
  }

  lemma SelectLast(k: int, key: Row -> Option<int>, rows: seq<Row>)
    requires rows != []
    ensures Select([In(key, [k])], rows) == Select([In(key, [k])], rows[..|rows| - 1])
      + if key(rows[|rows| - 1]) == Some(k) then [rows[|rows| - 1]] else []
  {
    var init, last := rows[..|rows| - 1], rows[|rows| - 1];
    assert rows == init + [last];
    SelectAppend([In(key, [k])], init, [last]);
    OneHolds(In(key, [k]), last);
    assert [last][1..] == [];
    assert Select([In(key, [k])], [last]) == if key(last) == Some(k) then [last] else [];
  }

  lemma {:induction false} PickLastIsNaive(db: Store, e: Query, columns: seq<Column>, rows: seq<Row>, k: int)
    ensures PickLast(rows, NaiveAll(db, e, columns, rows), Some(k))
         == LastOf(NaiveAll(db, e, columns, Select([In(IdKey, [k])], rows)))
  {
    hide Naive, Select;
    var views := NaiveAll(db, e, columns, rows);
    if rows == [] {
      assert Select([In(IdKey, [k])], rows) == [] by { EmptySelect(IdKey, k); }
    } else {
      var n := |rows| - 1;
      PickLastIsNaive(db, e, columns, rows[..n], k);
      SelectLast(k, IdKey, rows);
      assert views[..n] == NaiveAll(db, e, columns, rows[..n]);
      if IdKey(rows[n]) != Some(k) {
        assert Select([In(IdKey, [k])], rows[..n]) + [] == Select([In(IdKey, [k])], rows[..n]);
      }
    }
  }

  lemma EmptySelect(key: Row -> Option<int>, k: int)
    ensures Select([In(key, [k])], []) == []
  {
  }

  lemma {:induction false} CollectIsNaive(db: Store, e: Query, columns: seq<Column>, rows: seq<Row>, k: int)
    ensures Collect(rows, NaiveAll(db, e, columns, rows), k) == NaiveAll(db, e, columns, Select([In(ParentKey, [k])], rows))
  {
    hide Naive, Select;
    var views := NaiveAll(db, e, columns, rows);
    if rows == [] {
      assert Select([In(ParentKey, [k])], rows) == [] by { EmptySelect(ParentKey, k); }
    } else {
      var n := |rows| - 1;
      CollectIsNaive(db, e, columns, rows[..n], k);
      SelectLast(k, ParentKey, rows);
      assert views[..n] == NaiveAll(db, e, columns, rows[..n]);
      var selected := Select([In(ParentKey, [k])], rows[..n]);
      if ParentKey(rows[n]) == Some(k) {
        assert (selected + [rows[n]])[..|selected|] == selected;
      } else {
        assert selected + [] == selected;
      }
    }
  }

  // ---- Proxies: one key out of a batch ----

  lemma ProxyKeyOfBatch(db: Store, e: LeafQuery, keys: seq<int>, k: int)
    requires k in keys
    ensures Share(LeafKey, k, ProxyMatching(db, e, keys)) == ProxyMatching(db, e, [k])
    ensures forall r | r in ProxyMatching(db, e, keys) :: r.id in keys
    ensures ProxyHarmless(db, e, keys) ==> Share(LeafKey, k, ProxyRows(db, e, keys)) == ProxyRows(db, e, [k])
  {
    ProxyMatchingKeys(db, e, keys);
    hide AllHold, Matching;
    forall r: LeafRow, ks: seq<int>
      ensures AllHold(e.preds + [In(LeafKey, ks)] + e.inters, r)
         <==> AllHold(e.preds + e.inters, r) && AllHold([In(LeafKey, ks)], r)
    {
      AllHoldAppend(e.preds + [In(LeafKey, ks)], e.inters, r);
      AllHoldAppend(e.preds, [In(LeafKey, ks)], r);
      AllHoldAppend(e.preds, e.inters, r);
    }
    BatchedKey(LeafSelectionOf(e), LeafKey, keys, k,
      e.preds + [In(LeafKey, keys)] + e.inters, e.preds + [In(LeafKey, [k])] + e.inters, db.proxies);
    hide Window, Harmless;
    if ProxyHarmless(db, e, keys) {
      HarmlessShares(OrZero(e.offset), OrZero(e.limit), LeafKey, ProxyMatching(db, e, keys), k);
    }
  }

  lemma ProxyMatchingKeys(db: Store, e: LeafQuery, keys: seq<int>)
    ensures forall r | r in ProxyMatching(db, e, keys) :: r.id in keys && r in db.proxies
  {
    hide AllHold, Matching;
    var sel := LeafSelectionOf(e.(preds := e.preds + [In(LeafKey, keys)]));
    forall r | r in ProxyMatching(db, e, keys) ensures r.id in keys && r in db.proxies {
      MatchingIn(sel, db.proxies, r);
      AllHoldAppend(e.preds + [In(LeafKey, keys)], e.inters, r);
      AllHoldAppend(e.preds, [In(LeafKey, keys)], r);
      OneHolds(In(LeafKey, keys), r);
    }
  }

  lemma {:induction false} PickLastLeafIsLast(rows: seq<LeafRow>, k: int)
    ensures PickLastLeaf(rows, Some(k)) == LastOf(Select([In(LeafKey, [k])], rows))
  {
    if rows != [] {
      var init, last := rows[..|rows| - 1], rows[|rows| - 1];
      PickLastLeafIsLast(init, k);
      assert rows == init + [last];
      SelectAppend([In(LeafKey, [k])], init, [last]);
      OneHolds(In(LeafKey, [k]), last);
      assert [last][1..] == [];
      assert Select([In(LeafKey, [k])], [last]) == if last.id == k then [last] else [];
      assert Select([In(LeafKey, [k])], init) + [] == Select([In(LeafKey, [k])], init);
    }
  }

  // ---- Groups ----

  /** Join rows whose groups come from the table. */
  ghost predicate FromTable(db: Store, joins: seq<Joined>) {
    forall j | j in joins :: j.group in db.groups
  }

  lemma {:induction false} JoinOneFromTable(account: int, group: int, groups: seq<LeafRow>)
    ensures forall j: Joined | j in JoinOne(account, group, groups) ::
      j.account == account && j.group.id == group && j.group in groups && j.earlier == []
  {
    if groups != [] {
      JoinOneFromTable(account, group, groups[1..]);
      assert groups == [groups[0]] + groups[1..];
    }
  }

  lemma {:induction false} JoinFromTable(memberships: seq<(int, int)>, groups: seq<LeafRow>)
    ensures forall j: Joined | j in Join(memberships, groups) ::
      j.group in groups && (j.account, j.group.id) in memberships && j.earlier == []
  {
    if memberships != [] {
      JoinFromTable(memberships[1..], groups);
      JoinOneFromTable(memberships[0].0, memberships[0].1, groups);
      assert memberships == [memberships[0]] + memberships[1..];
    }
  }

  /** A row of the join after `n` earlier loads. */
  ghost predicate JoinRow(j: Joined, n: nat, memberships: seq<(int, int)>, groups: seq<LeafRow>) {
    && j.group in groups && (j.account, j.group.id) in memberships && |j.earlier| == n
    && forall k | 0 <= k < n :: (j.earlier[k], j.group.id) in memberships
  }

  lemma RejoinOneStep(row: Joined, memberships: seq<(int, int)>, j: Joined)
    requires memberships != []
    ensures j in RejoinOne(row, memberships) <==>
      || (memberships[0] == (j.account, j.group.id) && j.group == row.group && j.earlier == [row.account] + row.earlier)
      || j in RejoinOne(row, memberships[1..])
  {
    var next := Joined(memberships[0].0, row.group, [row.account] + row.earlier);
    var one := if memberships[0].1 == row.group.id then [next] else [];
    assert memberships[0] == (memberships[0].0, memberships[0].1);
    assert j == next <==> j.account == next.account && j.group == next.group && j.earlier == next.earlier;
    assert j in one <==> memberships[0].1 == row.group.id && j == next;
    assert j in one + RejoinOne(row, memberships[1..]) <==> j in one || j in RejoinOne(row, memberships[1..]);
  }

  lemma {:induction false} RejoinOneIn(row: Joined, memberships: seq<(int, int)>, j: Joined)
    ensures j in RejoinOne(row, memberships) <==>
      (j.account, j.group.id) in memberships && j.group == row.group && j.earlier == [row.account] + row.earlier
  {
    if memberships != [] {
      RejoinOneIn(row, memberships[1..], j);
      RejoinOneStep(row, memberships, j);
      hide RejoinOne;
      assert memberships == [memberships[0]] + memberships[1..];
    }
  }

  lemma {:induction false} RejoinIn(rows: seq<Joined>, memberships: seq<(int, int)>, j: Joined)
    ensures j in Rejoin(rows, memberships) <==>
      && (j.account, j.group.id) in memberships && j.earlier != [] && Joined(j.earlier[0], j.group, j.earlier[1..]) in rows
  {
    hide RejoinOne;
    if rows != [] {
      RejoinIn(rows[1..], memberships, j);
      RejoinOneIn(rows[0], memberships, j);
      assert rows == [rows[0]] + rows[1..];
      if j.earlier != [] {
        assert j.earlier == [j.earlier[0]] + j.earlier[1..];
      }
    }
  }

  lemma {:induction false} JoinsFromTable(n: nat, memberships: seq<(int, int)>, groups: seq<LeafRow>)
    ensures forall j: Joined | j in Joins(n, memberships, groups) :: JoinRow(j, n, memberships, groups)
  {
    hide Rejoin, Join;
    JoinFromTable(memberships, groups);
    if n > 0 {
      JoinsFromTable(n - 1, memberships, groups);
      forall j: Joined | j in Joins(n, memberships, groups) ensures JoinRow(j, n, memberships, groups) {
        RejoinIn(Joins(n - 1, memberships, groups), memberships, j);
        JoinRowOnward(j, n - 1, memberships, groups);
      }
    }
  }

  lemma JoinRowOnward(j: Joined, n: nat, memberships: seq<(int, int)>, groups: seq<LeafRow>)
    requires j.earlier != [] && JoinRow(Joined(j.earlier[0], j.group, j.earlier[1..]), n, memberships, groups)
    requires (j.account, j.group.id) in memberships
    ensures JoinRow(j, n + 1, memberships, groups)
  {
    forall k | 0 <= k < n + 1 ensures (j.earlier[k], j.group.id) in memberships {
      if k > 0 {
        assert j.earlier[k] == j.earlier[1..][k - 1];
      }
    }
  }

  lemma OnGroupsHold(preds: seq<Pred<LeafRow>>, j: Joined)
    ensures AllHold(OnGroups(preds), j) <==> AllHold(preds, j.group)
  {
    assert forall i | 0 <= i < |preds| :: OnGroups(preds)[i].Holds(j) <==> preds[i].Holds(j.group);
  }

  predicate EarlierAt(joined: seq<seq<int>>, j: Joined, k: nat) {
    k < |joined| && k < |j.earlier| && j.earlier[k] in joined[|joined| - 1 - k]
  }

  /** The accounts of the earlier joins are among the ids of the earlier loads. */
  ghost predicate EarlierMatch(joined: seq<seq<int>>, j: Joined) {
    forall k | 0 <= k < |joined| :: EarlierAt(joined, j, k)
  }

  lemma EarlierHold(joined: seq<seq<int>>, j: Joined)
    ensures AllHold(EarlierPreds(joined), j) <==> EarlierMatch(joined, j)
  {
    var preds := EarlierPreds(joined);
    forall k | 0 <= k < |joined| ensures preds[k].Holds(j) <==> EarlierAt(joined, j, k) {
      assert preds[k] == EarlierIn(k, joined[|joined| - 1 - k]);
    }
  }

  /** What a group query asks of a join row. */
  lemma JoinHolds(e: LeafQuery, accounts: seq<int>, j: Joined)
    ensures AllHold(JoinSelection(e, accounts).preds, j) <==>
      AllHold(e.preds + e.inters, j.group) && j.account in accounts && EarlierMatch(e.joined, j)
  {
    hide AllHold, OnGroups, EarlierPreds, EarlierMatch;
    AllHoldAppend(OnGroups(e.preds) + EarlierPreds(e.joined) + [In(AccountKey, accounts)], OnGroups(e.inters), j);
    AllHoldAppend(OnGroups(e.preds) + EarlierPreds(e.joined), [In(AccountKey, accounts)], j);
    AllHoldAppend(OnGroups(e.preds), EarlierPreds(e.joined), j);
    AllHoldAppend(e.preds, e.inters, j.group);
    OneHolds(In(AccountKey, accounts), j);
    OnGroupsHold(e.preds, j);
    OnGroupsHold(e.inters, j);
    EarlierHold(e.joined, j);
  }

  lemma JoinMatchingIn(db: Store, e: LeafQuery, accounts: seq<int>, j: Joined)
    ensures j in JoinMatching(db, e, accounts) <==>
      && j in Joins(|e.joined|, db.memberships, db.groups) && AllHold(e.preds + e.inters, j.group) && j.account in accounts
      && EarlierMatch(e.joined, j)
  {
    hide Matching, AllHold, JoinSelection, EarlierMatch;
    MatchingIn(JoinSelection(e, accounts), Joins(|e.joined|, db.memberships, db.groups), j);
    JoinHolds(e, accounts, j);
  }

  lemma JoinRowsFromTable(db: Store, e: LeafQuery, accounts: seq<int>)
    ensures FromTable(db, JoinRows(db, e, accounts))
    ensures forall j: Joined | j in JoinRows(db, e, accounts) ::
      j.account in accounts && |j.earlier| == |e.joined| && j.group in Selectable(e, db.groups)
  {
    hide Matching, AllHold, Select;
    JoinsFromTable(|e.joined|, db.memberships, db.groups);
    hide JoinMatching, Joins, Window, EarlierMatch;
    WindowKeeps(OrZero(e.offset), OrZero(e.limit), JoinMatching(db, e, accounts));
    forall j: Joined | j in JoinRows(db, e, accounts)
      ensures j.group in db.groups && j.account in accounts && |j.earlier| == |e.joined| && j.group in Selectable(e, db.groups)
    {
      JoinMatchingIn(db, e, accounts, j);
      SelectIn(e.preds + e.inters, db.groups, j.group);
    }
  }

  lemma JoinKeyOfBatch(db: Store, e: LeafQuery, keys: seq<int>, k: int)
    requires k in keys
    ensures Share(AccountKey, k, JoinMatching(db, e, keys)) == JoinMatching(db, e, [k])
    ensures GroupsHarmless(db, e, keys) ==> Share(AccountKey, k, JoinRows(db, e, keys)) == JoinRows(db, e, [k])
  {
    hide AllHold, Matching, OnGroups, ByGroups, EarlierPreds, Joins, Share;
    var before, after := OnGroups(e.preds) + EarlierPreds(e.joined), OnGroups(e.inters);
    var sel := JoinSelection(e, keys).(preds := before + after);
    forall r: Joined, ks: seq<int>
      ensures AllHold(before + [In(AccountKey, ks)] + after, r)
         <==> AllHold(before + after, r) && AllHold([In(AccountKey, ks)], r)
    {
      AllHoldAppend(before + [In(AccountKey, ks)], after, r);
      AllHoldAppend(before, [In(AccountKey, ks)], r);
      AllHoldAppend(before, after, r);
    }
    BatchedKey(sel, AccountKey, keys, k, before + [In(AccountKey, keys)] + after,
      before + [In(AccountKey, [k])] + after, Joins(|e.joined|, db.memberships, db.groups));
    ShareIs(AccountKey, k, JoinMatching(db, e, keys));
    hide Window, Harmless, JoinMatching;
    if GroupsHarmless(db, e, keys) {
      HarmlessShares(OrZero(e.offset), OrZero(e.limit), AccountKey, JoinMatching(db, e, keys), k);
    }
  }

  lemma ShareIs<T>(key: T -> Option<int>, k: int, rows: seq<T>)
    ensures Share(key, k, rows) == Select([In(key, [k])], rows)
  {
  }

  lemma {:induction false} LiftedAtMost(order: seq<Term<LeafRow>>, a: Joined, b: Joined)
    ensures AtMost(ByGroups(order), a, b) <==> AtMost(order, a.group, b.group)
  {
    if order != [] {
      LiftedAtMost(order[1..], a, b);
      assert ByGroups(order)[1..] == ByGroups(order[1..]);
      assert ByGroups(order)[0] == ByGroup(order[0]);
    }
  }

  /** Ordered by their groups. */
  ghost predicate GroupSorted(order: seq<Term<LeafRow>>, joins: seq<Joined>) {
    forall i, j | 0 <= i < j < |joins| :: AtMost(order, joins[i].group, joins[j].group)
  }

  lemma JoinRowsSorted(db: Store, e: LeafQuery, keys: seq<int>)
    ensures GroupSorted(e.order, JoinRows(db, e, keys))
  {
    hide AllHold, AtMost, ByGroups, Joins, JoinSelection, GroupSorted;
    var sel := JoinSelection(e, keys);
    SortSorts(sel.order, Select(sel.preds, Joins(|e.joined|, db.memberships, db.groups)));
    JoinOrder(e, keys);
    hide Select, Window;
    SortedByGroup(e.order, JoinMatching(db, e, keys));
    WindowSorted(e.order, OrZero(e.offset), OrZero(e.limit), JoinMatching(db, e, keys));
  }

  lemma SortedByGroup(order: seq<Term<LeafRow>>, joins: seq<Joined>)
    requires SortedBy(ByGroups(order), joins)
    ensures GroupSorted(order, joins)
  {
    hide AtMost, ByGroups;
    forall i, j | 0 <= i < j < |joins| ensures AtMost(order, joins[i].group, joins[j].group) {
      LiftedAtMost(order, joins[i], joins[j]);
    }
  }

  lemma WindowSorted(order: seq<Term<LeafRow>>, offset: nat, limit: nat, joins: seq<Joined>)
    requires GroupSorted(order, joins)
    ensures GroupSorted(order, Window(offset, limit, joins))
  {
    hide AtMost;
    if offset != 0 || limit != 0 {
      WindowIs(offset, limit, joins);
      hide Window;
    }
  }

  lemma JoinOrder(e: LeafQuery, keys: seq<int>)
    ensures JoinSelection(e, keys).order == ByGroups(e.order) && !JoinSelection(e, keys).distinct
  {
  }

  lemma {:induction false} FirstGroupsIn(db: Store, joins: seq<Joined>)
    requires Consistent(db) && FromTable(db, joins)
    ensures Distinct(FirstGroups(joins))
    ensures forall g :: g in FirstGroups(joins) <==> exists j | j in joins :: j.group == g
    ensures forall g | g in FirstGroups(joins) :: g in db.groups
  {
    hide DecodableRow, IdOf;
    if joins != [] {
      var init, last := joins[..|joins| - 1], joins[|joins| - 1];
      assert joins == init + [last];
      FirstGroupsIn(db, init);
      assert last in joins;
      if g :| g in FirstGroups(init) && g.id == last.group.id {
        SameGroup(db, g, last.group);
      }
    }
  }

  lemma SameGroup(db: Store, g: LeafRow, h: LeafRow)
    requires Consistent(db) && g in db.groups && h in db.groups && g.id == h.id
    ensures g == h
  {
    hide DecodableRow, IdOf;
    var i :| 0 <= i < |db.groups| && db.groups[i] == g;
    var j :| 0 <= j < |db.groups| && db.groups[j] == h;
  }

  lemma FromTableParts(db: Store, init: seq<Joined>, last: Joined)
    requires FromTable(db, init + [last])
    ensures FromTable(db, init) && last.group in db.groups
  {
    assert (init + [last])[|init|] == last;
    assert forall j | j in init :: j in init + [last];
  }

  lemma FirstGroupsStep(db: Store, init: seq<Joined>, last: Joined)
    requires Consistent(db) && FromTable(db, init + [last])
    ensures FirstGroups(init + [last]) ==
      if last.group in FirstGroups(init) then FirstGroups(init) else FirstGroups(init) + [last.group]
  {
    hide Consistent;
    FromTableParts(db, init, last);
    FirstGroupsIn(db, init);
    assert (init + [last])[..|init|] == init;
    if g :| g in FirstGroups(init) && g.id == last.group.id {
      SameGroup(db, g, last.group);
    }
  }

  /** The order never ties two different groups of these join rows. */
  ghost predicate JoinsSeparated(order: seq<Term<LeafRow>>, joins: seq<Joined>) {
    forall x, y | x in joins && y in joins && AtMost(order, x.group, y.group) && AtMost(order, y.group, x.group) ::
      x.group == y.group
  }

  lemma JoinsSeparatedInit(order: seq<Term<LeafRow>>, init: seq<Joined>, last: Joined)
    requires JoinsSeparated(order, init + [last])
    ensures JoinsSeparated(order, init)
  {
    hide AtMost;
    assert forall j | j in init :: j in init + [last];
  }

  /** In sorted join rows, rows between two of the same group belong to it too. */
  lemma SameGroupBetween(order: seq<Term<LeafRow>>, joins: seq<Joined>, i: nat, k: nat, j: nat)
    requires JoinsSeparated(order, joins) && GroupSorted(order, joins)
    requires i <= k <= j < |joins| && joins[i].group == joins[j].group
    ensures joins[k].group == joins[i].group
  {
    hide AtMost;
    assert joins[i] in joins && joins[k] in joins;
    if i < k < j {
      assert AtMost(order, joins[i].group, joins[k].group) && AtMost(order, joins[k].group, joins[j].group);
    }
  }

  lemma GroupSortedInit(order: seq<Term<LeafRow>>, init: seq<Joined>, last: Joined)
    requires GroupSorted(order, init + [last])
    ensures GroupSorted(order, init)
  {
    hide AtMost;
    var joins := init + [last];
    forall i, j | 0 <= i < j < |init| ensures AtMost(order, init[i].group, init[j].group) {
      assert joins[i] == init[i] && joins[j] == init[j];
    }
  }

  /** In sorted join rows, a group that reappears is the one that appeared last. */
  lemma {:induction false} ReappearsLast(db: Store, order: seq<Term<LeafRow>>, init: seq<Joined>, last: Joined)
    requires Consistent(db) && FromTable(db, init + [last]) && JoinsSeparated(order, init + [last])
    requires GroupSorted(order, init + [last]) && last.group in FirstGroups(init)
    ensures FirstGroups(init) != [] && FirstGroups(init)[|FirstGroups(init)| - 1] == last.group
    decreases |init|
  {
    hide Consistent, FirstGroups, JoinsSeparated, GroupSorted, FromTable;
    FromTableParts(db, init, last);
    FirstGroupsIn(db, init);
    var x :| x in init && x.group == last.group;
    var k :| 0 <= k < |init| && init[k] == x;
    var joins, before, p := init + [last], init[..|init| - 1], init[|init| - 1];
    SameGroupBetween(order, joins, k, |init| - 1, |init|);
    assert init == before + [p] && p.group == last.group;
    GroupSortedInit(order, init, last);
    JoinsSeparatedInit(order, init, last);
    FirstGroupsStep(db, before, p);
    if p.group in FirstGroups(before) {
      ReappearsLast(db, order, before, p);
    }
  }

  predicate JoinedTo(joins: seq<Joined>, account: int, id: int) {
    exists j | j in joins :: j.account == account && j.group.id == id
  }

  lemma {:induction false} GroupsOfSame(neighbours: seq<LeafRow>, joins: seq<Joined>, other: seq<Joined>, account: int)
    requires forall g | g in neighbours :: JoinedTo(joins, account, g.id) <==> JoinedTo(other, account, g.id)
    ensures GroupsOf(neighbours, joins, account) == GroupsOf(neighbours, other, account)
  {
    if neighbours != [] {
      var n := |neighbours| - 1;
      assert neighbours[n] in neighbours;
      assert JoinedTo(joins, account, neighbours[n].id) <==> JoinedTo(other, account, neighbours[n].id);
      GroupsOfSame(neighbours[..n], joins, other, account);
    }
  }

  lemma JoinedToStep(init: seq<Joined>, last: Joined, account: int, id: int)
    ensures JoinedTo(init + [last], account, id)
       <==> JoinedTo(init, account, id) || (last.account == account && last.group.id == id)
  {
    assert (init + [last])[|init|] == last;
  }

  lemma GroupsOfSnoc(neighbours: seq<LeafRow>, g: LeafRow, joins: seq<Joined>, account: int)
    ensures GroupsOf(neighbours + [g], joins, account) ==
      GroupsOf(neighbours, joins, account) + if JoinedTo(joins, account, g.id) then [g] else []
  {
    assert (neighbours + [g])[..|neighbours|] == neighbours;
  }

  lemma AccountSelectStep(init: seq<Joined>, last: Joined, account: int)
    ensures Select([In(AccountKey, [account])], init + [last]) ==
      if last.account == account then Select([In(AccountKey, [account])], init) + [last]
      else Select([In(AccountKey, [account])], init)
  {
    SelectAppend([In(AccountKey, [account])], init, [last]);
    OneHolds(In(AccountKey, [account]), last);
    assert [last][1..] == [];
    assert Select([In(AccountKey, [account])], [last]) == if last.account == account then [last] else [];
    assert Select([In(AccountKey, [account])], init) + [] == Select([In(AccountKey, [account])], init);
  }

  lemma AccountSelectIn(joins: seq<Joined>, account: int, j: Joined)
    ensures j in Select([In(AccountKey, [account])], joins) <==> j in joins && j.account == account
  {
    SelectIn([In(AccountKey, [account])], joins, j);
    OneHolds(In(AccountKey, [account]), j);
  }

  /** With an order that separates groups, regrouping the batched join rows by account gives each account the groups
      of its own join rows, in their order. */
  lemma {:induction false} GroupsOfIsNaive(db: Store, order: seq<Term<LeafRow>>, joins: seq<Joined>, account: int)
    requires Consistent(db) && FromTable(db, joins) && JoinsSeparated(order, joins) && GroupSorted(order, joins)
    ensures FromTable(db, Select([In(AccountKey, [account])], joins))
    ensures GroupsOf(FirstGroups(joins), joins, account) == FirstGroups(Select([In(AccountKey, [account])], joins))
    decreases |joins|
  {
    hide Consistent, JoinsSeparated, GroupSorted, Select;
    var own := Select([In(AccountKey, [account])], joins);
    forall j | j in own ensures j.group in db.groups {
      AccountSelectIn(joins, account, j);
    }
    if joins == [] {
      NoneSelected(account);
    } else {
      var init, last := joins[..|joins| - 1], joins[|joins| - 1];
      assert joins == init + [last];
      FromTableParts(db, init, last);
      GroupSortedInit(order, init, last);
      JoinsSeparatedInit(order, init, last);
      GroupsOfIsNaive(db, order, init, account);
      FirstGroupsStep(db, init, last);
      AccountSelectStep(init, last, account);
      if last.group in FirstGroups(init) {
        ReappearsLast(db, order, init, last);
      }
      GroupsOfStep(db, init, last, account);
    }
  }

  lemma NoneSelected(account: int)
    ensures Select([In(AccountKey, [account])], []) == []
  {
  }

  lemma GroupsOfStep(db: Store, init: seq<Joined>, last: Joined, account: int)
    requires Consistent(db) && FromTable(db, init + [last])
    requires var own := Select([In(AccountKey, [account])], init);
      FromTable(db, own) && GroupsOf(FirstGroups(init), init, account) == FirstGroups(own)
    requires last.group in FirstGroups(init) ==> FirstGroups(init)[|FirstGroups(init)| - 1] == last.group
    ensures GroupsOf(FirstGroups(init + [last]), init + [last], account)
         == FirstGroups(Select([In(AccountKey, [account])], init + [last]))
  {
    hide Consistent, Select, FirstGroups, GroupsOf, FromTable, JoinedTo;
    AccountSelectStep(init, last, account);
    if last.account != account {
      OtherAccountStep(db, init, last, account);
    } else {
      OwnAccountStep(db, init, last, account);
    }
  }

  /** A join row of another account leaves this account's groups alone. */
  lemma OtherAccountStep(db: Store, init: seq<Joined>, last: Joined, account: int)
    requires Consistent(db) && FromTable(db, init + [last]) && last.account != account
    ensures GroupsOf(FirstGroups(init + [last]), init + [last], account) == GroupsOf(FirstGroups(init), init, account)
  {
    hide Consistent, FirstGroups, GroupsOf, FromTable, JoinedTo;
    var joins, groups := init + [last], FirstGroups(init);
    FromTableParts(db, init, last);
    FirstGroupsStep(db, init, last);
    forall g ensures JoinedTo(joins, account, g) <==> JoinedTo(init, account, g) {
      JoinedToStep(init, last, account, g);
    }
    GroupsOfSame(groups, joins, init, account);
    if last.group !in groups {
      GroupsOfSnoc(groups, last.group, joins, account);
      NotJoined(db, init, account, last.group);
    }
  }

  /** A join row of this account adds its group last, unless it was there. */
  lemma OwnAccountStep(db: Store, init: seq<Joined>, last: Joined, account: int)
    requires Consistent(db) && FromTable(db, init + [last]) && last.account == account
    requires var own := Select([In(AccountKey, [account])], init);
      FromTable(db, own) && GroupsOf(FirstGroups(init), init, account) == FirstGroups(own)
    requires last.group in FirstGroups(init) ==> FirstGroups(init)[|FirstGroups(init)| - 1] == last.group
    ensures GroupsOf(FirstGroups(init + [last]), init + [last], account)
         == FirstGroups(Select([In(AccountKey, [account])], init) + [last])
  {
    hide Consistent, Select, FirstGroups, GroupsOf, FromTable, JoinedTo, Distinct;
    var joins, groups := init + [last], FirstGroups(init);
    var own := Select([In(AccountKey, [account])], init);
    FromTableParts(db, init, last);
    FirstGroupsStep(db, init, last);
    FirstGroupsIn(db, init);
    OwnFromTable(db, init, last, account);
    FirstGroupsStep(db, own, last);
    var earlier := if last.group in groups then groups[..|groups| - 1] else groups;
    assert last.group in groups ==> groups == earlier + [last.group];
    assert FirstGroups(joins) == earlier + [last.group];
    forall g | g in earlier ensures JoinedTo(joins, account, g.id) <==> JoinedTo(init, account, g.id) {
      JoinedToStep(init, last, account, g.id);
      EarlierDiffers(db, init, last, groups, earlier, g);
    }
    GroupsOfSame(earlier, joins, init, account);
    GroupsOfSnoc(earlier, last.group, joins, account);
    JoinedToStep(init, last, account, last.group.id);
    OwnGroups(db, init, account, last.group);
    if last.group in groups {
      GroupsOfSnoc(earlier, last.group, init, account);
      DistinctTail(earlier, last.group, groups);
      GroupsOfIn(earlier, init, account, last.group);
    } else {
      NotJoined(db, init, account, last.group);
    }
  }

  lemma DistinctTail(earlier: seq<LeafRow>, g: LeafRow, groups: seq<LeafRow>)
    requires Distinct(groups)
    requires (groups == earlier + [g]) || (groups == earlier && g !in groups)
    ensures g !in earlier
  {
    if groups == earlier + [g] {
      assert groups[|earlier|] == g;
      forall i | 0 <= i < |earlier| ensures earlier[i] != g {
        assert groups[i] == earlier[i];
      }
    }
  }

  lemma {:induction false} GroupsOfIn(neighbours: seq<LeafRow>, joins: seq<Joined>, account: int, g: LeafRow)
    ensures g in GroupsOf(neighbours, joins, account) <==> g in neighbours && JoinedTo(joins, account, g.id)
  {
    if neighbours != [] {
      var n := |neighbours| - 1;
      GroupsOfIn(neighbours[..n], joins, account, g);
      assert neighbours == neighbours[..n] + [neighbours[n]];
    }
  }

  /** A group that appears nowhere is joined to no account. */
  lemma NotJoined(db: Store, joins: seq<Joined>, account: int, g: LeafRow)
    requires Consistent(db) && FromTable(db, joins) && g in db.groups && g !in FirstGroups(joins)
    ensures !JoinedTo(joins, account, g.id)
  {
    hide Consistent;
    FirstGroupsIn(db, joins);
    if j :| j in joins && j.account == account && j.group.id == g.id {
      SameGroup(db, j.group, g);
    }
  }

  lemma OwnFromTable(db: Store, init: seq<Joined>, last: Joined, account: int)
    requires FromTable(db, init + [last]) && FromTable(db, Select([In(AccountKey, [account])], init))
    ensures FromTable(db, Select([In(AccountKey, [account])], init) + [last])
  {
    FromTableParts(db, init, last);
  }

  lemma EarlierDiffers(db: Store, init: seq<Joined>, last: Joined, groups: seq<LeafRow>, earlier: seq<LeafRow>, g: LeafRow)
    requires Consistent(db) && FromTable(db, init + [last]) && groups == FirstGroups(init)
    requires g in earlier && ((groups == earlier + [last.group]) || (groups == earlier && last.group !in groups))
    ensures g.id != last.group.id
  {
    hide Consistent;
    FromTableParts(db, init, last);
    FirstGroupsIn(db, init);
    DistinctTail(earlier, last.group, groups);
    assert g in groups;
    if g.id == last.group.id {
      SameGroup(db, g, last.group);
    }
  }

  /** A group is among an account's own join rows exactly when some join row joins the two. */
  lemma OwnGroups(db: Store, joins: seq<Joined>, account: int, g: LeafRow)
    requires Consistent(db) && FromTable(db, joins) && g in db.groups
    requires FromTable(db, Select([In(AccountKey, [account])], joins))
    ensures g in FirstGroups(Select([In(AccountKey, [account])], joins)) <==> JoinedTo(joins, account, g.id)
  {
    hide Consistent, Select;
    var own := Select([In(AccountKey, [account])], joins);
    FirstGroupsIn(db, own);
    if j :| j in joins && j.account == account && j.group.id == g.id {
      SameGroup(db, j.group, g);
      AccountSelectIn(joins, account, j);
    }
    if g in FirstGroups(own) {
      var j :| j in own && j.group == g;
      AccountSelectIn(joins, account, j);
    }
  }

  // ---- Many-to-many loading, for any join rows ----

  /** An account's groups are exactly the groups joined to it, each once, in order of first appearance among all the
      join rows; a repeated join row adds nothing. */
  lemma GroupsAreExact(db: Store, joins: seq<Joined>, account: int)
    requires Consistent(db) && FromTable(db, joins)
    ensures var groups := GroupsOf(FirstGroups(joins), joins, account);
      && Distinct(groups)
      && (forall g :: g in groups <==> exists j | j in joins :: j.account == account && j.group == g)
      && (forall i, k | 0 <= i < k < |groups| :: FirstAt(joins, groups[i]) < FirstAt(joins, groups[k]))
    ensures forall j | j in joins ::
      GroupsOf(FirstGroups(joins + [j]), joins + [j], account) == GroupsOf(FirstGroups(joins), joins, account)
  {
    hide Consistent, GroupsOf, FirstAt;
    FirstGroupsIn(db, joins);
    FirstGroupsOrdered(db, joins);
    GroupsOfOrdered(FirstGroups(joins), joins, account);
    forall g ensures g in GroupsOf(FirstGroups(joins), joins, account) <==> exists j | j in joins :: j.account == account && j.group == g {
      GroupsOfIn(FirstGroups(joins), joins, account, g);
      if j :| j in joins && j.account == account && j.group == g {
        assert JoinedTo(joins, account, g.id);
      }
      if g in FirstGroups(joins) && JoinedTo(joins, account, g.id) {
        var j :| j in joins && j.account == account && j.group.id == g.id;
        SameGroup(db, j.group, g);
      }
    }
    forall j | j in joins
      ensures GroupsOf(FirstGroups(joins + [j]), joins + [j], account) == GroupsOf(FirstGroups(joins), joins, account)
    {
      FirstGroupsStep(db, joins, j);
      forall id ensures JoinedTo(joins + [j], account, id) <==> JoinedTo(joins, account, id) {
        JoinedToStep(joins, j, account, id);
      }
      GroupsOfSame(FirstGroups(joins), joins + [j], joins, account);
    }
  }

  /** Where a group first appears. */
  function FirstAt(joins: seq<Joined>, g: LeafRow): nat {
    if joins == [] || joins[0].group == g then 0 else 1 + FirstAt(joins[1..], g)
  }

  lemma {:induction false} FirstAtSnoc(init: seq<Joined>, last: Joined, g: LeafRow)
    ensures (exists j | j in init :: j.group == g) ==> FirstAt(init + [last], g) == FirstAt(init, g) < |init|
    ensures (forall j | j in init :: j.group != g) ==> FirstAt(init + [last], g) >= |init|
  {
    if init != [] {
      assert (init + [last])[1..] == init[1..] + [last];
      assert init == [init[0]] + init[1..];
      FirstAtSnoc(init[1..], last, g);
    }
  }

  lemma {:induction false} FirstGroupsOrdered(db: Store, joins: seq<Joined>)
    requires Consistent(db) && FromTable(db, joins)
    ensures var groups := FirstGroups(joins);
      forall i, k | 0 <= i < k < |groups| :: FirstAt(joins, groups[i]) < FirstAt(joins, groups[k])
  {
    hide Consistent, FirstAt;
    if joins != [] {
      var init, last := joins[..|joins| - 1], joins[|joins| - 1];
      assert joins == init + [last];
      FromTableParts(db, init, last);
      FirstGroupsOrdered(db, init);
      FirstGroupsStep(db, init, last);
      FirstGroupsIn(db, init);
      var groups, before := FirstGroups(joins), FirstGroups(init);
      forall i, k | 0 <= i < k < |groups| ensures FirstAt(joins, groups[i]) < FirstAt(joins, groups[k]) {
        assert groups[i] == before[i] && before[i] in before;
        FirstAtSnoc(init, last, groups[i]);
        FirstAtSnoc(init, last, groups[k]);
        if k < |before| {
          assert before[k] in before;
        }
      }
    }
  }

  lemma {:induction false} GroupsOfOrdered(neighbours: seq<LeafRow>, joins: seq<Joined>, account: int)
    requires forall i, k | 0 <= i < k < |neighbours| :: FirstAt(joins, neighbours[i]) < FirstAt(joins, neighbours[k])
    ensures var groups := GroupsOf(neighbours, joins, account);
      && Distinct(groups)
      && (forall i, k | 0 <= i < k < |groups| :: FirstAt(joins, groups[i]) < FirstAt(joins, groups[k]))
  {
    hide FirstAt;
    if neighbours != [] {
      var n := |neighbours| - 1;
      GroupsOfOrdered(neighbours[..n], joins, account);
      var before := GroupsOf(neighbours[..n], joins, account);
      forall i | 0 <= i < |before| ensures FirstAt(joins, before[i]) < FirstAt(joins, neighbours[n]) {
        GroupsOfIn(neighbours[..n], joins, account, before[i]);
        assert before[i] in before;
      }
    }
  }

  /** The batched order is that of the whole batch, not of each account's own join rows: an account that is joined to two
      groups gets them the other way round if an account before it is joined to the second one. */
  lemma BatchReordersGroups(g: LeafRow, h: LeafRow, first: int, second: int)
    requires g.id != h.id && first != second
    ensures var joins := [Joined(first, g, []), Joined(second, h, []), Joined(second, g, [])];
      && FirstGroups(Share(AccountKey, second, joins)) == [h, g]
      && GroupsOf(FirstGroups(joins), joins, second) == [g, h]
  {
    var a, b, c := Joined(first, g, []), Joined(second, h, []), Joined(second, g, []);
    var joins := [a, b, c];
    assert [] + [a] == [a] && [a] + [b] == [a, b] && [a, b] + [c] == joins && [] + [b] == [b] && [b] + [c] == [b, c];
    hide *;
    NoneSelected(second);
    AccountSelectStep([], a, second);
    AccountSelectStep([a], b, second);
    AccountSelectStep([a, b], c, second);
    ShareIs(AccountKey, second, joins);
    TwoGroups(b, c);
    TwoGroups(a, b);
    FirstGroupsSnoc([a, b], c);
    assert g in [g, h];
    JoinedTwice(joins, second, g, h);
  }

  lemma FirstGroupsSnoc(init: seq<Joined>, last: Joined)
    ensures FirstGroups(init + [last]) ==
      if exists g | g in FirstGroups(init) :: g.id == last.group.id then FirstGroups(init) else FirstGroups(init) + [last.group]
  {
    assert (init + [last])[..|init|] == init;
  }

  lemma TwoGroups(x: Joined, y: Joined)
    requires x.group.id != y.group.id
    ensures FirstGroups([x, y]) == [x.group, y.group]
  {
    assert [] + [x] == [x] && [x] + [y] == [x, y];
    FirstGroupsSnoc([], x);
    FirstGroupsSnoc([x], y);
  }

  lemma JoinedTwice(joins: seq<Joined>, account: int, g: LeafRow, h: LeafRow)
    requires |joins| == 3 && joins[1].account == joins[2].account == account && joins[1].group == h && joins[2].group == g
    ensures GroupsOf([g, h], joins, account) == [g, h]
  {
    assert joins[1] in joins && joins[2] in joins;
    assert [] + [g] == [g] && [g] + [h] == [g, h];
    GroupsOfSnoc([], g, joins, account);
    GroupsOfSnoc([g], h, joins, account);
  }

  // ---- The main theorem ----

  /** Loading by batches builds the same graph as evaluating every edge query separately for every row, at every depth,
      if the windows of the edge queries are harmless to the batches they cut and group orders separate groups. */
  lemma {:induction false} BatchIsNaive(db: Store, q: Query, columns: seq<Column>, rows: seq<Row>)
    requires Consistent(db) && TableRows(db, rows) && WindowsHarmless(db, q, rows) && OrdersSeparate(db, q)
    ensures Batch(db, q, columns, rows) == NaiveAll(db, q, columns, rows)
    decreases q
  {
    hide Consistent, Decode, IdOf, EdgeRows, ProxyRows, JoinRows, GroupsOf, FirstGroups, TableRows, FirstKeys, GroupsHarmless,
      ProxyHarmless, EdgeHarmless, Separates;
    forall i | 0 <= i < |rows|
      ensures Batch(db, q, columns, rows)[i].groups == Naive(db, q, columns, rows[i]).groups
      ensures Batch(db, q, columns, rows)[i].proxy == Naive(db, q, columns, rows[i]).proxy
      ensures Batch(db, q, columns, rows)[i].parent == Naive(db, q, columns, rows[i]).parent
      ensures Batch(db, q, columns, rows)[i].children == Naive(db, q, columns, rows[i]).children
    {
      IdsAreDistinct(db, rows);
      assert LastOfId(rows, i);
      NoGroups(IdOf(rows[i]));
      if q.withGroups.Some? {
        GroupEdge(db, q.withGroups.value, rows, i);
      }
      if q.withProxy.Some? {
        ProxyEdge(db, q.withProxy.value, rows, i);
      }
      if q.withParent.Some? {
        var e := q.withParent.value;
        var parents := ParentNeighbours(db, e, rows);
        ParentRowsAreTableRows(db, e, rows);
        BatchIsNaive(db, e, QueryColumns(e), parents);
        ParentEdge(db, e, rows, i);
      }
      if q.withChildren.Some? {
        var e := q.withChildren.value;
        var children := ChildNeighbours(db, e, rows);
        EdgeRowsAreTableRows(db, e, ParentKey, IdsOf(rows));
        BatchIsNaive(db, e, ChildColumns(e), children);
        ChildEdge(db, e, rows, i);
      }
    }
    assert Batch(db, q, columns, rows) == NaiveAll(db, q, columns, rows);
  }

  lemma NoGroups(account: int)
    ensures GroupsOf(FirstGroups([]), [], account) == []
  {
  }

  lemma GroupEdge(db: Store, e: LeafQuery, rows: seq<Row>, i: nat)
    requires Consistent(db) && i < |rows| && GroupsHarmless(db, e, IdsOf(rows)) && Separates(e.order, Selectable(e, db.groups))
    ensures var joins := JoinRows(db, e, IdsOf(rows));
      GroupsOf(FirstGroups(joins), joins, IdOf(rows[i])) == FirstGroups(JoinRows(db, e, [IdOf(rows[i])]))
  {
    hide Consistent, JoinRows, GroupsOf, FirstGroups, GroupSorted, AtMost, GroupsHarmless, Selectable, Share;
    var ids := IdsOf(rows);
    assert ids[i] == IdOf(rows[i]);
    JoinRowsFromTable(db, e, ids);
    JoinRowsSorted(db, e, ids);
    assert JoinsSeparated(e.order, JoinRows(db, e, ids));
    hide JoinsSeparated, Separates;
    GroupsOfIsNaive(db, e.order, JoinRows(db, e, ids), ids[i]);
    JoinKeyOfBatch(db, e, ids, ids[i]);
    ShareIs(AccountKey, ids[i], JoinRows(db, e, ids));
  }

  lemma KeyIsCollected(rows: seq<Row>, key: Row -> Option<int>, i: nat)
    requires i < |rows| && key(rows[i]).Some?
    ensures key(rows[i]).value in FirstKeys(KeysOf(rows, key))
  {
    var keys := KeysOf(rows, key);
    FirstKeysIn(keys);
    var k := key(rows[i]).value;
    assert keys[i] == Some(k) && keys[i] in keys;
    assert k in FirstKeys(keys) <==> Some(k) in keys;
  }

  lemma ProxyEdge(db: Store, e: LeafQuery, rows: seq<Row>, i: nat)
    requires i < |rows| && ProxyHarmless(db, e, FirstKeys(KeysOf(rows, ProxyKey)))
    ensures PickLastLeaf(ProxyNeighbours(db, e, rows), ProxyKey(rows[i])) ==
      if ProxyKey(rows[i]).Some? then LastOf(ProxyRows(db, e, [ProxyKey(rows[i]).value])) else None
  {
    hide FirstKeys, ProxyRows, ProxyHarmless;
    if ProxyKey(rows[i]).Some? {
      var k := ProxyKey(rows[i]).value;
      KeyIsCollected(rows, ProxyKey, i);
      ProxyKeyOfBatch(db, e, FirstKeys(KeysOf(rows, ProxyKey)), k);
      PickLastLeafIsLast(ProxyNeighbours(db, e, rows), k);
    }
  }

  lemma ParentRowsAreTableRows(db: Store, e: Query, rows: seq<Row>)
    requires Consistent(db)
    ensures TableRows(db, ParentNeighbours(db, e, rows))
  {
    hide Consistent, FirstKeys, EdgeRows;
    EdgeRowsAreTableRows(db, e, IdKey, FirstKeys(KeysOf(rows, ParentKey)));
  }

  lemma ParentEdge(db: Store, e: Query, rows: seq<Row>, i: nat)
    requires i < |rows| && EdgeHarmless(db, e, IdKey, FirstKeys(KeysOf(rows, ParentKey)))
    ensures var parents := ParentNeighbours(db, e, rows);
      PickLast(parents, NaiveAll(db, e, QueryColumns(e), parents), ParentKey(rows[i])) ==
        if ParentKey(rows[i]).Some?
        then LastOf(NaiveAll(db, e, QueryColumns(e), EdgeRows(db, e, IdKey, [ParentKey(rows[i]).value])))
        else None
  {
    hide FirstKeys, EdgeRows, Naive, NaiveAll, EdgeHarmless;
    if ParentKey(rows[i]).Some? {
      var k := ParentKey(rows[i]).value;
      KeyIsCollected(rows, ParentKey, i);
      EdgeKey(db, e, IdKey, FirstKeys(KeysOf(rows, ParentKey)), k);
      PickLastIsNaive(db, e, QueryColumns(e), ParentNeighbours(db, e, rows), k);
    }
  }

  lemma ChildEdge(db: Store, e: Query, rows: seq<Row>, i: nat)
    requires i < |rows| && EdgeHarmless(db, e, ParentKey, IdsOf(rows))
    ensures var children := ChildNeighbours(db, e, rows);
      Collect(children, NaiveAll(db, e, ChildColumns(e), children), IdOf(rows[i]))
        == NaiveAll(db, e, ChildColumns(e), EdgeRows(db, e, ParentKey, [IdOf(rows[i])]))
  {
    hide EdgeRows, Naive, NaiveAll, IdOf, EdgeHarmless;
    assert IdsOf(rows)[i] == IdOf(rows[i]);
    EdgeKey(db, e, ParentKey, IdsOf(rows), IdOf(rows[i]));
    CollectIsNaive(db, e, ChildColumns(e), ChildNeighbours(db, e, rows), IdOf(rows[i]));
  }

  /** A query that starts from the table, or deduplicates a traversal within it, returns table rows. */
  lemma RowsAreTableRows(db: Store, q: Query)
    requires Consistent(db)
    requires q.path.Some? ==> IsDistinct(q) && forall r: Row | r in q.path.value(db) :: r in db.accounts
    ensures TableRows(db, Rows(db, q))
  {
    hide DecodableRow, IdOf;
    AccountsDistinct(db);
    FetchDistinct(SelectionOf(q), Source(db, q));
  }

  /** `All` refines naive loading. */
  lemma AllIsNaive(db: Store, q: Query)
    requires Consistent(db) && WindowsHarmless(db, q, Rows(db, q)) && OrdersSeparate(db, q)
    requires q.path.Some? ==> IsDistinct(q) && forall r: Row | r in q.path.value(db) :: r in db.accounts
    ensures All(db, q) == NaiveAll(db, q, QueryColumns(q), Rows(db, q))
  {
    hide Consistent, WindowsHarmless, OrdersSeparate;
    RowsAreTableRows(db, q);
    BatchIsNaive(db, q, QueryColumns(q), Rows(db, q));
  }

  /** Edge queries without a limit or an offset have harmless windows, whatever the rows. */
  lemma {:induction false} UnlimitedIsHarmless(db: Store, q: Query, rows: seq<Row>)
    requires EdgesUnlimited(q)
    ensures WindowsHarmless(db, q, rows)
    decreases q
  {
    hide FirstKeys, ParentNeighbours, ChildNeighbours, EdgeMatching, ProxyMatching, JoinMatching, IdsOf, KeysOf;
    if q.withParent.Some? {
      UnlimitedIsHarmless(db, q.withParent.value, ParentNeighbours(db, q.withParent.value, rows));
    }
    if q.withChildren.Some? {
      UnlimitedIsHarmless(db, q.withChildren.value, ChildNeighbours(db, q.withChildren.value, rows));
    }
  }

  /** In particular for any tree of unwindowed edge queries. */
  lemma UnwindowedIsNaive(db: Store, q: Query, columns: seq<Column>, rows: seq<Row>)
    requires Consistent(db) && TableRows(db, rows) && EdgesUnwindowed(db, q)
    ensures Batch(db, q, columns, rows) == NaiveAll(db, q, columns, rows)
  {
    UnlimitedIsHarmless(db, q, rows);
    hide *;
    EdgesUnwindowedIs(db, q);
    BatchIsNaive(db, q, columns, rows);
  }

  lemma EdgesUnwindowedIs(db: Store, q: Query)
    requires EdgesUnwindowed(db, q)
    ensures EdgesUnlimited(q) && OrdersSeparate(db, q)
  {
  }
}
