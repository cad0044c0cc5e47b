/** Regrouping loaded neighbours onto nodes, on the heap: the loops of the eager loaders. */
module Loaders {
  import opened Wrappers
  import opened AccountRow
  import opened Pipeline
  import opened EagerLoad
  import opened EagerLaws
  import opened EagerRuns

  datatype QueryError =
    | InvalidField(c: Column)
    | DecodeError(error: AssignError)
    | UnexpectedForeignKey(c: Column, id: int)
    | NilForeignKey(id: int)
    | UnexpectedGroup(id: int)
    | UnexpectedColumn(column: JoinColumn)

  /** A column of the rows of a group query inside `loadGroups`: an account id that a join adds, or one of the group's
      own. */
  datatype JoinColumn = JoinAccountID | GroupID | GroupData

  /** A selector modifier, such as a row lock. */
  datatype Modifier = ForUpdate | ForShare

  // ---- Queries on neighbouring tables ----

  /** The builder of a proxy or group query. */
  class NeighbourQuery {
    var predicates: seq<Pred<LeafRow>>
    var inters: seq<Pred<LeafRow>>
    var order: seq<Term<LeafRow>>
    var offset: Option<nat>
    var limit: Option<nat>
    var unique: Option<bool>
    var joined: seq<seq<int>>
    var modifiers: seq<Modifier>

    constructor (inters: seq<Pred<LeafRow>>)
      ensures Value() == LeafQuery([], inters, [], None, None, None, []) && modifiers == []
    {
      predicates, order, offset, limit, unique, joined, modifiers := [], [], None, None, None, [], [];
      this.inters := inters;
    }

    ghost function Value(): LeafQuery
      reads this
    {
      LeafQuery(predicates, inters, order, offset, limit, unique, joined)
    }

    method Where(p: Pred<LeafRow>)
      modifies this`predicates
      ensures predicates == old(predicates) + [p]
    {
      predicates := predicates + [p];
    }

    method PrepareQuery()
      modifies this`predicates
      ensures predicates == old(predicates) + inters
    {
      predicates := predicates + inters;
    }

    method Clone() returns (c: NeighbourQuery)
      ensures fresh(c) && c.Value() == Value() && c.modifiers == []
    {
      c := new NeighbourQuery(inters);
      c.predicates, c.order, c.offset, c.limit, c.unique, c.joined := predicates, order, offset, limit, unique, joined;
    }

    /** Runs the query on its table. */
    method All(table: seq<LeafRow>) returns (nodes: seq<Neighbour>)
      modifies this`predicates
      ensures predicates == old(predicates) + inters
      ensures RowsOf(nodes) == Fetch(LeafSelectionOf(old(Value())), table)
      ensures fresh(set n | n in nodes)
    {
      ghost var q := Value();
      PrepareQuery();
      var sel := Selection(predicates, order, unique == Some(true), OrZero(offset), OrZero(limit));
      assert sel == LeafSelectionOf(q);
      hide Fetch;
      var rows := Fetch(sel, table);
      nodes := [];
      for i := 0 to |rows|
        invariant predicates == old(predicates) + inters
        invariant RowsOf(nodes) == rows[..i]
        invariant fresh(set n | n in nodes)
      {
        var node := new Neighbour(rows[i]);
        nodes := nodes + [node];
      }
      assert rows[..|rows|] == rows;
    }
  }

  function RowsOf(nodes: seq<Neighbour>): (rows: seq<LeafRow>)
    ensures |rows| == |nodes| && forall i | 0 <= i < |rows| :: rows[i] == nodes[i].row
  {
    seq(|nodes|, i requires 0 <= i < |nodes| => nodes[i].row)
  }

  // ---- Grouping by foreign key ----

  ghost function RefsOf(nodes: seq<Account>, c: Column): (keys: seq<Option<int>>)
    reads (set n | n in nodes)`fields
    ensures |keys| == |nodes| && forall i | 0 <= i < |keys| :: keys[i] == nodes[i].Ref(c)
  {
    if nodes == [] then [] else RefsOf(nodes[..|nodes| - 1], c) + [nodes[|nodes| - 1].Ref(c)]
  }

  /** The nodes with the key `k`, in order. */
  function NodesWith(nodes: seq<Account>, keys: seq<Option<int>>, k: int): seq<Account>
    requires |nodes| == |keys|
  {
    if nodes == [] then []
    else
      var n := |nodes| - 1;
      NodesWith(nodes[..n], keys[..n], k) + if keys[n] == Some(k) then [nodes[n]] else []
  }

  /** The nodes by their non-nil key. */
  ghost function Grouped(nodes: seq<Account>, keys: seq<Option<int>>): map<int, seq<Account>>
    requires |nodes| == |keys|
  {
    map k | k in FirstKeys(keys) :: NodesWith(nodes, keys, k)
  }

  /** `ids` are the distinct non-nil keys in order of first appearance; `nodeids` holds exactly the nodes of each. */
  method GroupByRef(nodes: seq<Account>, c: Column) returns (ids: seq<int>, nodeids: map<int, seq<Account>>)
    ensures ids == FirstKeys(RefsOf(nodes, c))
    ensures nodeids == Grouped(nodes, RefsOf(nodes, c))
  {
    ids, nodeids := [], map[];
    ghost var keys := RefsOf(nodes, c);
    hide RefsOf, FirstKeys, Grouped, Account.Ref;
    NothingGrouped(nodes[..0], keys[..0]);
    for i := 0 to |nodes|
      invariant ids == FirstKeys(keys[..i])
      invariant nodeids == Grouped(nodes[..i], keys[..i])
    {
      GroupStep(nodes, keys, i);
      if nodes[i].Ref(c).None? {
        continue;
      }
      var fk := nodes[i].Ref(c).value;
      if fk !in nodeids {
        ids := ids + [fk];
        nodeids := nodeids[fk := []];
      }
      nodeids := nodeids[fk := nodeids[fk] + [nodes[i]]];
    }
    assert nodes[..|nodes|] == nodes && keys[..|nodes|] == keys;
  }

  lemma NothingGrouped(nodes: seq<Account>, keys: seq<Option<int>>)
    requires |nodes| == |keys| == 0
    ensures FirstKeys(keys) == [] && Grouped(nodes, keys) == map[]
  {
  }

  lemma KeyStep(nodes: seq<Account>, keys: seq<Option<int>>, i: nat, k: int)
    requires i < |nodes| == |keys|
    ensures NodesWith(nodes[..i + 1], keys[..i + 1], k) ==
      if keys[i] == Some(k) then NodesWith(nodes[..i], keys[..i], k) + [nodes[i]] else NodesWith(nodes[..i], keys[..i], k)
    ensures k in FirstKeys(keys[..i + 1]) <==> k in FirstKeys(keys[..i]) || keys[i] == Some(k)
    ensures FirstKeys(keys[..i + 1]) ==
      if keys[i].None? || keys[i].value in FirstKeys(keys[..i]) then FirstKeys(keys[..i])
      else FirstKeys(keys[..i]) + [keys[i].value]
    ensures k !in FirstKeys(keys[..i]) ==> NodesWith(nodes[..i], keys[..i], k) == []
  {
    assert nodes[..i + 1][..i] == nodes[..i] && keys[..i + 1][..i] == keys[..i];
    if k !in FirstKeys(keys[..i]) {
      FirstKeysIn(keys[..i]);
      UnusedKey(nodes[..i], keys[..i], k);
    }
  }

  lemma GroupStep(nodes: seq<Account>, keys: seq<Option<int>>, i: nat)
    requires i < |nodes| == |keys|
    ensures var ids, m := FirstKeys(keys[..i]), Grouped(nodes[..i], keys[..i]);
      var ids', m' := FirstKeys(keys[..i + 1]), Grouped(nodes[..i + 1], keys[..i + 1]);
      match keys[i]
      case None => ids' == ids && m' == m
      case Some(fk) =>
        && ids' == (if fk in m then ids else ids + [fk])
        && m' == m[fk := (if fk in m then m[fk] else []) + [nodes[i]]]
  {
    hide FirstKeys, NodesWith;
    var before, after := Grouped(nodes[..i], keys[..i]), Grouped(nodes[..i + 1], keys[..i + 1]);
    forall k
      ensures k in after <==> k in before || keys[i] == Some(k)
      ensures k in after ==>
        (after[k] == if keys[i] != Some(k) then before[k] else if k in before then before[k] + [nodes[i]] else [] + [nodes[i]])
    {
      KeyStep(nodes, keys, i, k);
    }
    KeyStep(nodes, keys, i, 0);
    match keys[i]
    case None => assert after == before;
    case Some(fk) => assert after == before[fk := (if fk in before then before[fk] else []) + [nodes[i]]];
  }

  lemma {:induction false} UnusedKey(nodes: seq<Account>, keys: seq<Option<int>>, k: int)
    requires |nodes| == |keys| && Some(k) !in keys
    ensures NodesWith(nodes, keys, k) == []
  {
    if nodes != [] {
      UnusedKey(nodes[..|nodes| - 1], keys[..|nodes| - 1], k);
    }
  }

  lemma {:induction false} NodesWithIn(nodes: seq<Account>, keys: seq<Option<int>>, k: int, n: Account)
    requires |nodes| == |keys|
    ensures n in NodesWith(nodes, keys, k) <==> exists i | 0 <= i < |nodes| :: nodes[i] == n && keys[i] == Some(k)
  {
    if nodes != [] {
      var m := |nodes| - 1;
      NodesWithIn(nodes[..m], keys[..m], k, n);
      if i :| 0 <= i < |nodes| && nodes[i] == n && keys[i] == Some(k) {
        if i < m {
          assert nodes[..m][i] == n && keys[..m][i] == Some(k);
        }
      }
    }
  }

  /** The groups partition exactly the nodes with a key: together they hold each of those once. */
  lemma {:induction false} GroupsPartition(nodes: seq<Account>, keys: seq<Option<int>>, ids: seq<int>)
    requires |nodes| == |keys| && Distinct(ids) && forall i | 0 <= i < |keys| :: keys[i].Some? ==> keys[i].value in ids
    ensures multiset(Concat(ids, nodes, keys)) == multiset(Keyed(nodes, keys))
  {
    if nodes == [] {
      ConcatNothing(ids);
    } else {
      var m := |nodes| - 1;
      hide Concat, NodesWith;
      GroupsPartition(nodes[..m], keys[..m], ids);
      ConcatSnoc(ids, nodes, keys);
      assert nodes == nodes[..m] + [nodes[m]];
    }
  }

  function Concat(ids: seq<int>, nodes: seq<Account>, keys: seq<Option<int>>): seq<Account>
    requires |nodes| == |keys|
  {
    if ids == [] then [] else NodesWith(nodes, keys, ids[0]) + Concat(ids[1..], nodes, keys)
  }

  function Keyed(nodes: seq<Account>, keys: seq<Option<int>>): seq<Account>
    requires |nodes| == |keys|
  {
    if nodes == [] then []
    else
      var n := |nodes| - 1;
      Keyed(nodes[..n], keys[..n]) + if keys[n].Some? then [nodes[n]] else []
  }

  lemma {:induction false} ConcatNothing(ids: seq<int>)
    ensures Concat(ids, [], []) == []
  {
    if ids != [] {
      ConcatNothing(ids[1..]);
    }
  }

  lemma {:induction false} ConcatSnoc(ids: seq<int>, nodes: seq<Account>, keys: seq<Option<int>>)
    requires |nodes| == |keys| > 0 && Distinct(ids)
    ensures var m := |nodes| - 1;
      multiset(Concat(ids, nodes, keys)) == multiset(Concat(ids, nodes[..m], keys[..m]))
        + if keys[m].Some? && keys[m].value in ids then multiset{nodes[m]} else multiset{}
  {
    hide NodesWith;
    if ids != [] {
      NodesWithSnoc(nodes, keys, ids[0]);
      ConcatSnoc(ids[1..], nodes, keys);
      assert ids == [ids[0]] + ids[1..];
    }
  }

  lemma NodesWithSnoc(nodes: seq<Account>, keys: seq<Option<int>>, k: int)
    requires |nodes| == |keys| > 0
    ensures var m := |nodes| - 1;
      NodesWith(nodes, keys, k) == NodesWith(nodes[..m], keys[..m], k) + if keys[m] == Some(k) then [nodes[m]] else []
  {
  }

  // ---- Assigning neighbours to nodes ----

  /** The last neighbour with this id, or null: assigning in turn overwrites. */
  function LastWith<V>(ids: seq<int>, neighbours: seq<V>, k: Option<int>): Option<V>
    requires |ids| == |neighbours|
  {
    if ids == [] || k.None? then None
    else
      var n := |ids| - 1;
      if ids[n] == k.value then Some(neighbours[n]) else LastWith(ids[..n], neighbours[..n], k)
  }

  ghost function IdsOfNodes(nodes: seq<Account>): (ids: seq<int>)
    reads (set n | n in nodes)`fields
    ensures |ids| == |nodes| && forall i | 0 <= i < |ids| :: ids[i] == nodes[i].Key()
  {
    if nodes == [] then [] else IdsOfNodes(nodes[..|nodes| - 1]) + [nodes[|nodes| - 1].Key()]
  }

  ghost function LinkedParent(n: Account): Option<Account>
    reads n`parent
  {
    if n.parent == null then None else Some(n.parent)
  }

  ghost function LinkedProxy(n: Account): Option<Neighbour>
    reads n`proxy
  {
    if n.proxy == null then None else Some(n.proxy)
  }

  /** The regrouping loop of `loadParent`: it fails exactly on a neighbour nobody asked for, and otherwise links every
      node to the last neighbour with its key and touches no other node. */
  method AssignParents(nodes: seq<Account>, nodeids: map<int, seq<Account>>, neighbours: seq<Account>,
                       ghost keys: seq<Option<int>>)
      returns (err: Option<QueryError>)
    requires |keys| == |nodes| && Distinct(nodes) && nodeids == Grouped(nodes, keys)
    requires forall n | n in nodes :: n.parent == null
    modifies (set n | n in nodes)`parent
    ensures err.None? <==> forall n | n in neighbours :: n.Key() in nodeids
    ensures err.None? ==> forall i | 0 <= i < |nodes| ::
      LinkedParent(nodes[i]) == LastWith(IdsOfNodes(neighbours), neighbours, keys[i])
  {
    ghost var ids := IdsOfNodes(neighbours);
    hide IdsOfNodes, Grouped, Account.Key;
    for j := 0 to |neighbours|
      invariant forall m | 0 <= m < j :: neighbours[m].Key() in nodeids
      invariant forall i | 0 <= i < |nodes| :: LinkedParent(nodes[i]) == LastWith(ids[..j], neighbours[..j], keys[i])
    {
      var n := neighbours[j];
      if n.Key() !in nodeids {
        return Some(UnexpectedForeignKey(ParentAccountID, n.Key()));
      }
      var group := nodeids[n.Key()];
      GroupMembers(nodes, keys, n.Key());
      assert ids[..j + 1][..j] == ids[..j] && neighbours[..j + 1][..j] == neighbours[..j];
      for m := 0 to |group|
        invariant forall i | 0 <= i < |nodes| ::
          LinkedParent(nodes[i]) == if nodes[i] in group[..m] then Some(n) else LastWith(ids[..j], neighbours[..j], keys[i])
      {
        assert group[m] in nodes;
        group[m].parent := n;
        assert group[..m + 1] == group[..m] + [group[m]];
      }
      assert group[..|group|] == group;
    }
    err := None;
    assert ids[..|neighbours|] == ids && neighbours[..|neighbours|] == neighbours;
  }

  lemma GroupMembers(nodes: seq<Account>, keys: seq<Option<int>>, k: int)
    requires |keys| == |nodes| && Distinct(nodes) && k in Grouped(nodes, keys)
    ensures forall x | x in Grouped(nodes, keys)[k] :: x in nodes
    ensures forall i | 0 <= i < |nodes| :: nodes[i] in Grouped(nodes, keys)[k] <==> keys[i] == Some(k)
  {
    forall x | x in Grouped(nodes, keys)[k] ensures x in nodes {
      NodesWithIn(nodes, keys, k, x);
    }
    forall i | 0 <= i < |nodes| ensures nodes[i] in Grouped(nodes, keys)[k] <==> keys[i] == Some(k) {
      NodesWithIn(nodes, keys, k, nodes[i]);
    }
  }

  /** The regrouping loop of `loadProxy`. */
  method AssignProxies(nodes: seq<Account>, nodeids: map<int, seq<Account>>, neighbours: seq<Neighbour>,
                       ghost keys: seq<Option<int>>)
      returns (err: Option<QueryError>)
    requires |keys| == |nodes| && Distinct(nodes) && nodeids == Grouped(nodes, keys)
    requires forall n | n in nodes :: n.proxy == null
    modifies (set n | n in nodes)`proxy
    ensures err.None? <==> forall n | n in neighbours :: n.row.id in nodeids
    ensures err.None? ==> forall i | 0 <= i < |nodes| ::
      LinkedProxy(nodes[i]) == LastWith(LeafIds(RowsOf(neighbours)), neighbours, keys[i])
  {
    ghost var ids := LeafIds(RowsOf(neighbours));
    hide Grouped;
    for j := 0 to |neighbours|
      invariant forall m | 0 <= m < j :: neighbours[m].row.id in nodeids
      invariant forall i | 0 <= i < |nodes| :: LinkedProxy(nodes[i]) == LastWith(ids[..j], neighbours[..j], keys[i])
    {
      var n := neighbours[j];
      if n.row.id !in nodeids {
        return Some(UnexpectedForeignKey(ProxyID, n.row.id));
      }
      var group := nodeids[n.row.id];
      GroupMembers(nodes, keys, n.row.id);
      assert ids[..j + 1][..j] == ids[..j] && neighbours[..j + 1][..j] == neighbours[..j];
      for m := 0 to |group|
        invariant forall i | 0 <= i < |nodes| ::
          LinkedProxy(nodes[i]) == if nodes[i] in group[..m] then Some(n) else LastWith(ids[..j], neighbours[..j], keys[i])
      {
        assert group[m] in nodes;
        group[m].proxy := n;
        assert group[..m + 1] == group[..m] + [group[m]];
      }
      assert group[..|group|] == group;
    }
    err := None;
    assert ids[..|neighbours|] == ids && neighbours[..|neighbours|] == neighbours;
  }

  function LeafIds(rows: seq<LeafRow>): seq<int> {
    seq(|rows|, i requires 0 <= i < |rows| => rows[i].id)
  }

  /** No later node has this id. */
  predicate LastId(ids: seq<int>, i: nat)
    requires i < |ids|
  {
    forall j | i < j < |ids| :: ids[j] != ids[i]
  }

  /** A map by id holds, for every id, the last node with it. */
  ghost predicate ById(nodeids: map<int, Account>, nodes: seq<Account>, ids: seq<int>)
    requires |nodes| == |ids|
  {
    && (forall i | 0 <= i < |ids| :: ids[i] in nodeids)
    && (forall k | k in nodeids :: exists i | 0 <= i < |ids| :: ids[i] == k && LastId(ids, i) && nodeids[k] == nodes[i])
  }

  /** Indexes the nodes by id and clears their children. */
  method IndexById(nodes: seq<Account>) returns (fks: seq<int>, nodeids: map<int, Account>)
    modifies (set n | n in nodes)`children
    ensures fks == IdsOfNodes(nodes) && ById(nodeids, nodes, fks)
    ensures forall n | n in nodes :: n.children == []
  {
    fks, nodeids := [], map[];
    hide IdsOfNodes, Account.Key;
    for i := 0 to |nodes|
      invariant |fks| == i && forall k | 0 <= k < i :: fks[k] == nodes[k].Key()
      invariant ById(nodeids, nodes[..i], fks)
      invariant forall k | 0 <= k < i :: nodes[k].children == []
    {
      fks := fks + [nodes[i].Key()];
      ByIdStep(nodeids, nodes, fks, i);
      nodeids := nodeids[nodes[i].Key() := nodes[i]];
      nodes[i].children := [];
    }
    assert nodes[..|nodes|] == nodes;
    assert fks == IdsOfNodes(nodes);
  }

  lemma ByIdStep(nodeids: map<int, Account>, nodes: seq<Account>, ids: seq<int>, i: nat)
    requires i < |nodes| && |ids| == i + 1 && ById(nodeids, nodes[..i], ids[..i])
    ensures ById(nodeids[ids[i] := nodes[i]], nodes[..i + 1], ids)
  {
    var after := nodeids[ids[i] := nodes[i]];
    assert LastId(ids, i) && nodes[..i + 1][i] == nodes[i];
    forall k | k in after ensures exists j | 0 <= j < |ids| :: ids[j] == k && LastId(ids, j) && after[k] == nodes[..i + 1][j] {
      if k == ids[i] {
      } else {
        var j :| 0 <= j < i && ids[..i][j] == k && LastId(ids[..i], j) && nodeids[k] == nodes[..i][j];
        assert ids[j] == k && nodes[..i + 1][j] == nodes[..i][j];
        assert LastId(ids, j) by {
          forall m | j < m < |ids| ensures ids[m] != ids[j] {
            if m < i {
              assert ids[..i][m] == ids[m];
            }
          }
        }
      }
    }
    forall j | 0 <= j < |ids| ensures ids[j] in after {
      if j < i {
        assert ids[..i][j] == ids[j];
      }
    }
  }

  /** The regrouping loop of `loadChildren`: it fails exactly on a neighbour whose key is nil or was not asked for, and
      otherwise appends to the last node of each id the neighbours with its key, in order. */
  method AssignChildren(nodes: seq<Account>, nodeids: map<int, Account>, neighbours: seq<Account>, ghost ids: seq<int>)
      returns (err: Option<QueryError>)
    requires |ids| == |nodes| && Distinct(nodes) && ById(nodeids, nodes, ids)
    requires forall n | n in nodes :: n.children == []
    modifies (set n | n in nodes)`children
    ensures err.None? <==> forall n | n in neighbours ::
      n.Ref(ParentAccountID).Some? && n.Ref(ParentAccountID).value in ids
    ensures err.None? ==> forall i | 0 <= i < |nodes| ::
      nodes[i].children == if LastId(ids, i) then NodesWith(neighbours, RefsOf(neighbours, ParentAccountID), ids[i]) else []
  {
    ghost var refs := RefsOf(neighbours, ParentAccountID);
    hide RefsOf, Account.Ref, Account.Key, NodesWith, FirstKeys, ById, LastId;
    ByIdKeys(nodeids, nodes, ids);
    NodesWithNothing(neighbours, refs);
    for j := 0 to |neighbours|
      invariant forall m | 0 <= m < j :: refs[m].Some? && refs[m].value in ids
      invariant forall i | 0 <= i < |nodes| ::
        nodes[i].children == if LastId(ids, i) then NodesWith(neighbours[..j], refs[..j], ids[i]) else []
    {
      var n := neighbours[j];
      assert n in neighbours && refs[j] == n.Ref(ParentAccountID);
      var fk := n.Ref(ParentAccountID);
      if fk.None? {
        return Some(NilForeignKey(n.Key()));
      }
      if fk.value !in nodeids {
        return Some(UnexpectedForeignKey(ParentAccountID, fk.value));
      }
      ghost var at := ByIdAt(nodeids, nodes, ids, fk.value);
      var node := nodeids[fk.value];
      NodesWithStep(neighbours, refs, j);
      node.children := node.children + [n];
    }
    err := None;
    assert neighbours[..|neighbours|] == neighbours && refs[..|neighbours|] == refs;
    forall n | n in neighbours ensures n.Ref(ParentAccountID).Some? && n.Ref(ParentAccountID).value in ids {
      var m :| 0 <= m < |neighbours| && neighbours[m] == n;
      assert refs[m].Some?;
    }
  }

  lemma NodesWithNothing(nodes: seq<Account>, keys: seq<Option<int>>)
    requires |nodes| == |keys|
    ensures forall k :: NodesWith(nodes[..0], keys[..0], k) == []
  {
  }

  lemma NodesWithStep(nodes: seq<Account>, keys: seq<Option<int>>, j: nat)
    requires j < |nodes| == |keys|
    ensures forall k ::
      NodesWith(nodes[..j + 1], keys[..j + 1], k)
        == if keys[j] == Some(k) then NodesWith(nodes[..j], keys[..j], k) + [nodes[j]] else NodesWith(nodes[..j], keys[..j], k)
  {
    forall k ensures NodesWith(nodes[..j + 1], keys[..j + 1], k) ==
      (if keys[j] == Some(k) then NodesWith(nodes[..j], keys[..j], k) + [nodes[j]] else NodesWith(nodes[..j], keys[..j], k))
    {
      KeyStep(nodes, keys, j, k);
    }
  }

  lemma ByIdKeys(nodeids: map<int, Account>, nodes: seq<Account>, ids: seq<int>)
    requires |ids| == |nodes| && ById(nodeids, nodes, ids)
    ensures forall k :: k in nodeids <==> k in ids
  {
  }

  /** The one node a key maps to. */
  lemma ByIdAt(nodeids: map<int, Account>, nodes: seq<Account>, ids: seq<int>, k: int) returns (at: nat)
    requires |ids| == |nodes| && Distinct(nodes) && ById(nodeids, nodes, ids) && k in nodeids
    ensures at < |ids| && ids[at] == k && LastId(ids, at) && nodeids[k] == nodes[at]
    ensures forall i | 0 <= i < |ids| :: (LastId(ids, i) && ids[i] == k <==> i == at) && (nodes[i] == nodes[at] <==> i == at)
  {
    at :| 0 <= at < |ids| && ids[at] == k && LastId(ids, at) && nodeids[k] == nodes[at];
    forall i | 0 <= i < |ids| && LastId(ids, i) && ids[i] == k ensures i == at {
    }
  }

  // ---- The groups edge ----

  /** The nodes joined to a group, as a map by id sees them: the last one of each id. */
  ghost function Members(nodes: seq<Account>, ids: seq<int>, joins: seq<Joined>, id: int): set<Account>
    requires |nodes| == |ids|
  {
    set i | 0 <= i < |nodes| && LastId(ids, i) && JoinedTo(joins, ids[i], id) :: nodes[i]
  }

  /** For every group id, the nodes joined to it: the sets that `loadGroups` gathers while scanning join rows. */
  ghost predicate JoinSets(nids: map<int, set<Account>>, nodes: seq<Account>, ids: seq<int>, joins: seq<Joined>)
    requires |nodes| == |ids|
  {
    && (forall id :: id in nids <==> exists j | j in joins :: j.group.id == id)
    && (forall id | id in nids :: nids[id] == Members(nodes, ids, joins, id))
  }

  lemma MemberStep(nodes: seq<Account>, ids: seq<int>, init: seq<Joined>, last: Joined, at: nat, id: int)
    requires |nodes| == |ids| && Distinct(nodes) && at < |ids| && ids[at] == last.account && LastId(ids, at)
    ensures Members(nodes, ids, init + [last], id)
         == Members(nodes, ids, init, id) + if id == last.group.id then {nodes[at]} else {}
    ensures (forall j | j in init :: j.group.id != id) ==> Members(nodes, ids, init, id) == {}
  {
    hide JoinedTo;
    forall i | 0 <= i < |nodes|
      ensures JoinedTo(init + [last], ids[i], id) <==> JoinedTo(init, ids[i], id) || (last.account == ids[i] && last.group.id == id)
    {
      JoinedToStep(init, last, ids[i], id);
    }
    forall i | 0 <= i < |ids| && LastId(ids, i) && ids[i] == last.account ensures i == at {
    }
    if forall j | j in init :: j.group.id != id {
      forall a ensures !JoinedTo(init, a, id) {
        NothingJoined(init, a, id);
      }
    }
  }

  lemma NothingJoined(joins: seq<Joined>, account: int, id: int)
    requires forall j | j in joins :: j.group.id != id
    ensures !JoinedTo(joins, account, id)
  {
  }

  lemma JoinSetsStep(nids: map<int, set<Account>>, nodes: seq<Account>, ids: seq<int>,
                     init: seq<Joined>, last: Joined, at: nat)
    requires |nodes| == |ids| && Distinct(nodes) && at < |ids| && ids[at] == last.account && LastId(ids, at)
    requires JoinSets(nids, nodes, ids, init)
    ensures var id := last.group.id;
      JoinSets(nids[id := (if id in nids then nids[id] else {}) + {nodes[at]}], nodes, ids, init + [last])
  {
    hide Members, LastId;
    var id := last.group.id;
    var after := nids[id := (if id in nids then nids[id] else {}) + {nodes[at]}];
    assert (init + [last])[|init|] == last;
    forall i ensures i in after <==> exists j | j in init + [last] :: j.group.id == i {
      if i in nids {
        var j :| j in init && j.group.id == i;
        assert j in init + [last];
      }
    }
    forall i | i in after ensures after[i] == Members(nodes, ids, init + [last], i) {
      MemberStep(nodes, ids, init, last, at, i);
    }
  }

  lemma FirstGroupsById(init: seq<Joined>, last: Joined)
    ensures FirstGroups(init + [last]) ==
      if exists j | j in init :: j.group.id == last.group.id then FirstGroups(init) else FirstGroups(init) + [last.group]
  {
    assert (init + [last])[..|init|] == init;
    FirstGroupsIds(init, last.group.id);
  }

  lemma {:induction false} FirstGroupsIds(joins: seq<Joined>, id: int)
    ensures (exists g | g in FirstGroups(joins) :: g.id == id) <==> exists j | j in joins :: j.group.id == id
  {
    if joins != [] {
      var init, last := joins[..|joins| - 1], joins[|joins| - 1];
      FirstGroupsIds(init, id);
      FirstGroupsIds(init, last.group.id);
      assert joins == init + [last];
    }
  }

  // ---- Scanning join rows by column ----

  /** The columns after `n` loads: each load selects its join column in front of the columns selected so far. */
  function JoinColumns(n: nat): (columns: seq<JoinColumn>)
    ensures |columns| == n + 2 && columns[n] == GroupID && columns[n + 1] == GroupData
    ensures forall i | 0 <= i < n :: columns[i] == JoinAccountID
  {
    if n == 0 then [GroupID, GroupData] else [JoinAccountID] + JoinColumns(n - 1)
  }

  /** The cells of a join row, the latest join's account first. */
  function Cells(j: Joined): seq<int> {
    [j.account] + j.earlier + [j.group.id, j.group.data]
  }

  function AllCells(joins: seq<Joined>): (cells: seq<seq<int>>)
    ensures |cells| == |joins| && forall i | 0 <= i < |joins| :: cells[i] == Cells(joins[i])
  {
    seq(|joins|, i requires 0 <= i < |joins| => Cells(joins[i]))
  }

  /** The buffer the group's `scanValues` allocates: a column it does not know gets one of unknown type. */
  function GroupKind(c: JoinColumn): Kind {
    match c
    case GroupID => Int64Kind
    case GroupData => BytesKind
    case JoinAccountID => UnknownKind
  }

  /** The buffers of `loadGroups`: one for the join column, and the group's for the columns behind it. */
  function JoinKinds(columns: seq<JoinColumn>): seq<Kind>
    requires columns != []
  {
    [Int64Kind] + seq(|columns| - 1, i requires 0 <= i < |columns| - 1 => GroupKind(columns[i + 1]))
  }

  /** What the group's `assignValues` keeps: the value of its column, the last one if there are several. */
  function CellOf(columns: seq<JoinColumn>, cells: seq<int>, c: JoinColumn): int
    requires |columns| == |cells|
  {
    if columns == [] then 0
    else
      var n := |columns| - 1;
      if columns[n] == c then cells[n] else CellOf(columns[..n], cells[..n], c)
  }

  function GroupOf(columns: seq<JoinColumn>, cells: seq<int>): LeafRow
    requires |columns| == |cells|
  {
    LeafRow(CellOf(columns, cells, GroupID), CellOf(columns, cells, GroupData))
  }

  /** On a first load, positions 0 and 1 of a row are the account's and the group's id, and the rest is the group. After
      an earlier load, position 1 has the buffer of an unknown column. */
  lemma PositionsOf(n: nat, j: Joined)
    requires |j.earlier| == n
    ensures var columns := JoinColumns(n + 1);
      && |Cells(j)| == |columns| == |JoinKinds(columns)| == n + 3 && Cells(j)[0] == j.account
      && (n == 0 ==> Cells(j)[1] == j.group.id && JoinKinds(columns)[1] == Int64Kind && GroupOf(columns[1..], Cells(j)[1..]) == j.group)
      && (n > 0 ==> JoinKinds(columns)[1] == UnknownKind)
  {
    var columns := JoinColumns(n + 1);
    assert |Cells(j)| == n + 3 && Cells(j)[0] == j.account;
    assert JoinKinds(columns)[1] == GroupKind(columns[1]);
    if n == 0 {
      assert columns[1..] == [GroupID, GroupData] && Cells(j)[1..] == [j.group.id, j.group.data];
      TwoCells(j.group);
    }
  }

  lemma TwoCells(g: LeafRow)
    ensures GroupOf([GroupID, GroupData], [g.id, g.data]) == g
  {
    var columns, cells := [GroupID, GroupData], [g.id, g.data];
    assert columns[..1] == [GroupID] && cells[..1] == [g.id];
    assert CellOf(columns, cells, GroupID) == CellOf(columns[..1], cells[..1], GroupID) == g.id;
    assert CellOf(columns, cells, GroupData) == g.data;
  }

  /** One join row of a first load: the group on its first appearance, and the account among the group's nodes. */
  method ScanJoin(nodes: seq<Account>, byID: map<int, Account>, columns: seq<JoinColumn>, values: seq<int>,
                  nids: map<int, set<Account>>, neighbours: seq<Neighbour>,
                  ghost ids: seq<int>, ghost init: seq<Joined>, ghost last: Joined)
      returns (nids': map<int, set<Account>>, neighbours': seq<Neighbour>)
    requires |nodes| == |ids| && Distinct(nodes) && ById(byID, nodes, ids) && last.account in ids
    requires |values| == |columns| > 1 && values[0] == last.account && values[1] == last.group.id
    requires GroupOf(columns[1..], values[1..]) == last.group
    requires RowsOf(neighbours) == FirstGroups(init) && JoinSets(nids, nodes, ids, init)
    ensures RowsOf(neighbours') == FirstGroups(init + [last]) && JoinSets(nids', nodes, ids, init + [last])
    ensures forall g | g in neighbours' :: g in neighbours || fresh(g)
  {
    hide FirstGroups, ById, LastId, Members, GroupOf;
    ByIdKeys(byID, nodes, ids);
    var outValue, inValue := values[0], values[1];
    ghost var at := ByIdAt(byID, nodes, ids, outValue);
    JoinSetsStep(nids, nodes, ids, init, last, at);
    FirstGroupsById(init, last);
    neighbours' := neighbours;
    if inValue !in nids {
      nids' := nids[inValue := {byID[outValue]}];
      var g := new Neighbour(GroupOf(columns[1..], values[1..]));
      neighbours' := neighbours + [g];
    } else {
      nids' := nids[inValue := nids[inValue] + {byID[outValue]}];
    }
  }

  /** The scan of the join rows, by column: it fails exactly if a row arrives while an earlier load's join column is where
      the group's id is expected; otherwise it gathers the groups in order of first appearance, and the nodes joined to
      each. */
  method ScanJoins(nodes: seq<Account>, byID: map<int, Account>, columns: seq<JoinColumn>, cells: seq<seq<int>>,
                   ghost ids: seq<int>, ghost n: nat, ghost joins: seq<Joined>)
      returns (nids: map<int, set<Account>>, neighbours: seq<Neighbour>, err: Option<QueryError>)
    requires |nodes| == |ids| && Distinct(nodes) && ById(byID, nodes, ids)
    requires columns == JoinColumns(n + 1) && cells == AllCells(joins)
    requires forall j | j in joins :: j.account in ids && |j.earlier| == n
    ensures err.Some? <==> n > 0 && joins != []
    ensures err.None? ==> RowsOf(neighbours) == FirstGroups(joins)
    ensures err.None? ==> JoinSets(nids, nodes, ids, joins)
    ensures fresh(set n | n in neighbours)
  {
    nids, neighbours := map[], [];
    var kinds := JoinKinds(columns);
    hide FirstGroups, ById, JoinSets, JoinKinds, JoinColumns, Cells, GroupOf, RowsOf;
    NothingScanned(nodes, ids);
    for k := 0 to |cells|
      invariant RowsOf(neighbours) == FirstGroups(joins[..k])
      invariant JoinSets(nids, nodes, ids, joins[..k])
      invariant fresh(set n | n in neighbours)
      invariant k > 0 ==> n == 0
    {
      assert joins[k] in joins && joins[..k + 1] == joins[..k] + [joins[k]];
      PositionsOf(n, joins[k]);
      if kinds[1] != Int64Kind {
        return nids, neighbours, Some(UnexpectedColumn(columns[1]));
      }
      nids, neighbours := ScanJoin(nodes, byID, columns, cells[k], nids, neighbours, ids, joins[..k], joins[k]);
    }
    err := None;
    assert joins[..|joins|] == joins;
  }

  lemma NothingScanned(nodes: seq<Account>, ids: seq<int>)
    requires |nodes| == |ids|
    ensures RowsOf([]) == FirstGroups([]) && JoinSets(map[], nodes, ids, [])
  {
  }

  /** Indexes the nodes by id and clears their groups. */
  method IndexForGroups(nodes: seq<Account>) returns (edgeIDs: seq<int>, byID: map<int, Account>)
    modifies (set n | n in nodes)`groups
    ensures edgeIDs == IdsOfNodes(nodes) && ById(byID, nodes, edgeIDs)
    ensures forall n | n in nodes :: n.groups == []
  {
    edgeIDs, byID := [], map[];
    hide IdsOfNodes, Account.Key;
    for i := 0 to |nodes|
      invariant |edgeIDs| == i && forall k | 0 <= k < i :: edgeIDs[k] == nodes[k].Key()
      invariant ById(byID, nodes[..i], edgeIDs)
      invariant forall k | 0 <= k < i :: nodes[k].groups == []
    {
      edgeIDs := edgeIDs + [nodes[i].Key()];
      ByIdStep(byID, nodes, edgeIDs, i);
      byID := byID[nodes[i].Key() := nodes[i]];
      nodes[i].groups := [];
    }
    assert nodes[..|nodes|] == nodes;
    assert edgeIDs == IdsOfNodes(nodes);
  }

  method AppendGroup(all: set<Account>, n: Neighbour)
    modifies all`groups
    ensures forall x | x in all :: x.groups == old(x.groups) + [n]
  {
    var rest := all;
    while rest != {}
      invariant rest <= all
      invariant forall x | x in all :: x.groups == if x in rest then old(x.groups) else old(x.groups) + [n]
      decreases rest
    {
      var kn :| kn in rest;
      kn.groups := kn.groups + [n];
      rest := rest - {kn};
    }
  }

  /** Hands every group to the nodes joined to it, whatever the order in which a set of nodes is visited; it fails
      exactly on a group that no join row mentioned. */
  method AssignGroups(nodes: seq<Account>, nids: map<int, set<Account>>, neighbours: seq<Neighbour>,
                      ghost ids: seq<int>, ghost joins: seq<Joined>)
      returns (err: Option<QueryError>)
    requires |nodes| == |ids| && Distinct(nodes) && JoinSets(nids, nodes, ids, joins)
    requires forall n | n in nodes :: n.groups == []
    modifies (set n | n in nodes)`groups
    ensures err.None? <==> forall g | g in neighbours :: g.row.id in nids
    ensures err.None? ==> forall i | 0 <= i < |nodes| ::
      RowsOf(nodes[i].groups) == if LastId(ids, i) then GroupsOf(RowsOf(neighbours), joins, ids[i]) else []
  {
    ghost var rows := RowsOf(neighbours);
    hide LastId, JoinedTo, GroupsOf;
    NoGroupsYet(joins);
    for m := 0 to |neighbours|
      invariant forall k | 0 <= k < m :: neighbours[k].row.id in nids
      invariant forall i | 0 <= i < |nodes| ::
        RowsOf(nodes[i].groups) == if LastId(ids, i) then GroupsOf(rows[..m], joins, ids[i]) else []
    {
      var n := neighbours[m];
      assert n in neighbours;
      if n.row.id !in nids {
        return Some(UnexpectedGroup(n.row.id));
      }
      var all := nids[n.row.id];
      MembersOnly(nids, nodes, ids, joins, n.row.id);
      AppendGroup(all, n);
      assert rows[..m + 1] == rows[..m] + [n.row];
      forall i | 0 <= i < |nodes|
        ensures GroupsOf(rows[..m + 1], joins, ids[i]) ==
          GroupsOf(rows[..m], joins, ids[i]) + if JoinedTo(joins, ids[i], n.row.id) then [n.row] else []
      {
        GroupsOfSnoc(rows[..m], n.row, joins, ids[i]);
      }
    }
    err := None;
    assert rows[..|neighbours|] == rows;
  }

  lemma NoGroupsYet(joins: seq<Joined>)
    ensures forall a :: GroupsOf([], joins, a) == []
  {
  }

  lemma MembersOnly(nids: map<int, set<Account>>, nodes: seq<Account>, ids: seq<int>, joins: seq<Joined>, id: int)
    requires |nodes| == |ids| && Distinct(nodes) && JoinSets(nids, nodes, ids, joins) && id in nids
    ensures forall x | x in nids[id] :: x in nodes
    ensures forall i | 0 <= i < |nodes| :: nodes[i] in nids[id] <==> LastId(ids, i) && JoinedTo(joins, ids[i], id)
  {
    hide LastId, JoinedTo;
    assert nids[id] == Members(nodes, ids, joins, id);
  }

  /** The groups of one row: an earlier row with the same id gets none. */
  function GroupsOfRow(db: Store, e: LeafQuery, rows: seq<Row>, i: nat): seq<LeafRow>
    requires i < |rows|
  {
    var joins := JoinRows(db, e, IdsOf(rows));
    if LastOfId(rows, i) then GroupsOf(FirstGroups(joins), joins, IdOf(rows[i])) else []
  }

  /** `loadGroups`: it fails exactly if the query has been loaded as a groups edge before and returns a join row. Otherwise
      the last node of each id gets exactly the groups joined to it, in order of first appearance in the join rows. */
  method LoadGroups(query: NeighbourQuery, nodes: seq<Account>, db: Store, ghost rows: seq<Row>)
      returns (err: Option<QueryError>)
    requires Distinct(nodes) && |nodes| == |rows|
    requires forall i | 0 <= i < |nodes| :: nodes[i].Key() == IdOf(rows[i])
    modifies query, (set n | n in nodes)`groups
    ensures err.Some? <==> GroupsFail(db, old(query.Value()), IdsOf(rows))
    ensures query.Value() == GroupsAfter(old(query.Value()), IdsOf(rows)) && query.modifiers == old(query.modifiers)
    ensures err.None? ==> forall i | 0 <= i < |nodes| :: RowsOf(nodes[i].groups) == GroupsOfRow(db, old(query.Value()), rows, i)
  {
    hide IdsOfNodes, JoinRows, FirstGroups, GroupsOf, ById, LastId, JoinSets, RowsOf, IdOf, LastOfId, Account.Key, JoinColumns, AllCells;
    var edgeIDs, byID := IndexForGroups(nodes);
    assert edgeIDs == IdsOf(rows);
    LastIds(rows);
    var e := LeafQuery(query.predicates, query.inters, query.order, query.offset, query.limit, query.unique, query.joined);
    query.joined := query.joined + [edgeIDs];
    query.PrepareQuery();
    ghost var joins := JoinRows(db, e, edgeIDs);
    JoinRowsFromTable(db, e, edgeIDs);
    var nids, neighbours;
    nids, neighbours, err := ScanJoins(nodes, byID, JoinColumns(|query.joined|), AllCells(JoinRows(db, e, edgeIDs)), edgeIDs, |e.joined|, joins);
    if err.None? {
      EveryGroupIsKnown(nids, nodes, edgeIDs, joins, neighbours);
      err := AssignGroups(nodes, nids, neighbours, edgeIDs, joins);
    }
  }

  lemma LastIds(rows: seq<Row>)
    ensures forall i | 0 <= i < |rows| :: LastId(IdsOf(rows), i) <==> LastOfId(rows, i)
  {
    hide IdOf;
    forall i | 0 <= i < |rows| ensures LastId(IdsOf(rows), i) <==> LastOfId(rows, i) {
      forall j | i < j < |rows| ensures IdsOf(rows)[j] == IdOf(rows[j]) {
      }
    }
  }

  lemma EveryGroupIsKnown(nids: map<int, set<Account>>, nodes: seq<Account>, ids: seq<int>, joins: seq<Joined>,
                          neighbours: seq<Neighbour>)
    requires |nodes| == |ids| && JoinSets(nids, nodes, ids, joins) && RowsOf(neighbours) == FirstGroups(joins)
    ensures forall g | g in neighbours :: g.row.id in nids
  {
    forall g | g in neighbours ensures g.row.id in nids {
      var i :| 0 <= i < |neighbours| && neighbours[i] == g;
      assert RowsOf(neighbours)[i] == g.row;
      FirstGroupsIds(joins, g.row.id);
    }
  }

  // ---- The graph of loaded accounts ----

  /** The node, with everything reachable through its loaded edges, is the view; all its accounts lie in the region. */
  ghost predicate Rep(n: Account, v: View, region: set<Account>)
    reads region
    decreases v
  {
    && n in region
    && n.fields == v.fields
    && RowsOf(n.groups) == v.groups
    && ProxyIs(n.proxy, v.proxy)
    && (n.parent == null <==> v.parent.None?)
    && (n.parent != null ==> Rep(n.parent, v.parent.value, region))
    && |n.children| == |v.children|
    && forall i | 0 <= i < |v.children| :: Rep(n.children[i], v.children[i], region)
  }

  predicate ProxyIs(n: Neighbour?, row: Option<LeafRow>) {
    if n == null then row.None? else row == Some(n.row)
  }

  ghost predicate Reps(nodes: seq<Account>, views: seq<View>, region: set<Account>)
    reads region
  {
    |nodes| == |views| && forall i | 0 <= i < |nodes| :: Rep(nodes[i], views[i], region)
  }

  ghost predicate LinkIs(n: Account?, v: Option<View>, region: set<Account>)
    reads region
  {
    (n == null <==> v.None?) && (n != null ==> Rep(n, v.value, region))
  }

  lemma {:induction false} RepGrows(n: Account, v: View, small: set<Account>, large: set<Account>)
    requires Rep(n, v, small) && small <= large
    ensures Rep(n, v, large)
    decreases v
  {
    if n.parent != null {
      RepGrows(n.parent, v.parent.value, small, large);
    }
    forall i | 0 <= i < |v.children| ensures Rep(n.children[i], v.children[i], large) {
      RepGrows(n.children[i], v.children[i], small, large);
    }
  }

  lemma RepsGrow(nodes: seq<Account>, views: seq<View>, small: set<Account>, large: set<Account>)
    requires Reps(nodes, views, small) && small <= large
    ensures Reps(nodes, views, large)
  {
    hide Rep;
    forall i | 0 <= i < |nodes| ensures Rep(nodes[i], views[i], large) {
      RepGrows(nodes[i], views[i], small, large);
    }
  }

  lemma LinkGrows(n: Account?, v: Option<View>, small: set<Account>, large: set<Account>)
    requires LinkIs(n, v, small) && small <= large
    ensures LinkIs(n, v, large)
  {
    hide Rep;
    if n != null {
      RepGrows(n, v.value, small, large);
    }
  }

  // ---- From what the loops link to what the batch says ----

  lemma {:induction false} LinkPicked(nodes: seq<Account>, ids: seq<int>, rows: seq<Row>, views: seq<View>,
                                      k: Option<int>, region: set<Account>)
    requires |nodes| == |views| == |rows| && ids == IdsOf(rows) && Reps(nodes, views, region)
    ensures LastWith(ids, nodes, k).Some? <==> PickLast(rows, views, k).Some?
    ensures LastWith(ids, nodes, k).Some? ==> Rep(LastWith(ids, nodes, k).value, PickLast(rows, views, k).value, region)
  {
    hide Rep, IdOf;
    if nodes != [] && k.Some? {
      var n := |nodes| - 1;
      assert ids[..n] == IdsOf(rows[..n]);
      LinkPicked(nodes[..n], ids[..n], rows[..n], views[..n], k, region);
    }
  }

  lemma {:induction false} ProxyPicked(nodes: seq<Neighbour>, ids: seq<int>, rows: seq<LeafRow>, k: Option<int>)
    requires rows == RowsOf(nodes) && ids == LeafIds(rows)
    ensures LastWith(ids, nodes, k).Some? <==> PickLastLeaf(rows, k).Some?
    ensures LastWith(ids, nodes, k).Some? ==> LastWith(ids, nodes, k).value.row == PickLastLeaf(rows, k).value
  {
    if nodes != [] && k.Some? {
      var n := |nodes| - 1;
      assert ids[..n] == LeafIds(rows[..n]) && rows[..n] == RowsOf(nodes[..n]);
      ProxyPicked(nodes[..n], ids[..n], rows[..n], k);
    }
  }

  lemma {:induction false} ChildrenCollected(nodes: seq<Account>, keys: seq<Option<int>>, rows: seq<Row>, views: seq<View>,
                                             k: int, region: set<Account>)
    requires |nodes| == |views| == |rows| && keys == KeysOf(rows, ParentKey) && Reps(nodes, views, region)
    ensures Reps(NodesWith(nodes, keys, k), Collect(rows, views, k), region)
  {
    hide Rep, ParentKey;
    if nodes != [] {
      var n := |nodes| - 1;
      assert keys[..n] == KeysOf(rows[..n], ParentKey);
      ChildrenCollected(nodes[..n], keys[..n], rows[..n], views[..n], k, region);
    }
  }

  /** `AssignParents`, for neighbours that are themselves loaded. */
  method LinkParents(nodes: seq<Account>, nodeids: map<int, seq<Account>>, neighbours: seq<Account>,
                     ghost keys: seq<Option<int>>, ghost rows: seq<Row>, ghost views: seq<View>, ghost region: set<Account>)
      returns (err: Option<QueryError>)
    requires |keys| == |nodes| && Distinct(nodes) && nodeids == Grouped(nodes, keys)
    requires forall n | n in nodes :: n.parent == null && n !in region
    requires |rows| == |views| && Reps(neighbours, views, region) && IdsOfNodes(neighbours) == IdsOf(rows)
    requires forall n | n in neighbours :: n.Key() in nodeids
    modifies (set n | n in nodes)`parent
    ensures err.None?
    ensures forall i | 0 <= i < |nodes| :: LinkIs(nodes[i].parent, PickLast(rows, views, keys[i]), region)
  {
    hide Grouped, Account.Key, IdOf, LastWith, PickLast, Rep, IdsOfNodes;
    err := AssignParents(nodes, nodeids, neighbours, keys);
    assert Reps(neighbours, views, region);
    forall i | 0 <= i < |nodes| ensures LinkIs(nodes[i].parent, PickLast(rows, views, keys[i]), region) {
      LinkPicked(neighbours, IdsOf(rows), rows, views, keys[i], region);
    }
  }

  /** `AssignChildren`, for neighbours that are themselves loaded. */
  method LinkChildren(nodes: seq<Account>, nodeids: map<int, Account>, neighbours: seq<Account>,
                      ghost ids: seq<int>, ghost rows: seq<Row>, ghost views: seq<View>, ghost region: set<Account>)
      returns (err: Option<QueryError>)
    requires |ids| == |nodes| && Distinct(nodes) && ById(nodeids, nodes, ids)
    requires forall n | n in nodes :: n.children == [] && n !in region
    requires |rows| == |views| && Reps(neighbours, views, region)
    requires RefsOf(neighbours, ParentAccountID) == KeysOf(rows, ParentKey)
    requires forall n | n in neighbours :: n.Ref(ParentAccountID).Some? && n.Ref(ParentAccountID).value in ids
    modifies (set n | n in nodes)`children
    ensures err.None?
    ensures forall i | 0 <= i < |nodes| ::
      Reps(nodes[i].children, if LastId(ids, i) then Collect(rows, views, ids[i]) else [], region)
  {
    hide ById, Account.Ref, ParentKey, NodesWith, Collect, Rep, RefsOf, LastId;
    err := AssignChildren(nodes, nodeids, neighbours, ids);
    assert Reps(neighbours, views, region);
    forall i | 0 <= i < |nodes|
      ensures Reps(nodes[i].children, if LastId(ids, i) then Collect(rows, views, ids[i]) else [], region)
    {
      ChildrenCollected(neighbours, KeysOf(rows, ParentKey), rows, views, ids[i], region);
    }
  }

  // ---- The proxy edge ----

  lemma ProxyRowsHaveKeys(db: Store, e: LeafQuery, keys: seq<int>)
    ensures forall r | r in ProxyRows(db, e, keys) :: r.id in keys
  {
    ProxyMatchingKeys(db, e, keys);
    hide ProxyMatching, Window;
    WindowKeeps(OrZero(e.offset), OrZero(e.limit), ProxyMatching(db, e, keys));
  }

  /** `loadProxy`: every node gets the last returned proxy with its key. The unexpected-key error cannot occur. */
  method LoadProxy(query: NeighbourQuery, nodes: seq<Account>, db: Store, ghost rows: seq<Row>)
      returns (err: Option<QueryError>)
    requires |rows| == |nodes| && Distinct(nodes) && forall n | n in nodes :: n.proxy == null
    requires forall i | 0 <= i < |nodes| :: nodes[i].Ref(ProxyID) == ProxyKey(rows[i])
    modifies query`predicates, (set n | n in nodes)`proxy
    ensures err.None?
    ensures query.Value() == ProxyAfter(old(query.Value()), rows)
    ensures forall i | 0 <= i < |nodes| ::
      ProxyIs(nodes[i].proxy, PickLastLeaf(ProxyNeighbours(db, old(query.Value()), rows), ProxyKey(rows[i])))
  {
    hide FirstKeys, Grouped, Account.Ref, ProxyKey, RowsOf;
    ghost var e := query.Value();
    var ids, nodeids := GroupByRef(nodes, ProxyID);
    ghost var keys := RefsOf(nodes, ProxyID);
    assert keys == KeysOf(rows, ProxyKey);
    if ids == [] {
      return None;
    }
    query.Where(In(LeafKey, ids));
    var neighbours := query.All(db.proxies);
    assert RowsOf(neighbours) == ProxyRows(db, e, ids);
    ProxyRowsHaveKeys(db, e, ids);
    ProxyKeysKnown(nodes, keys, neighbours);
    err := AssignProxies(nodes, nodeids, neighbours, keys);
    forall i | 0 <= i < |nodes|
      ensures ProxyIs(nodes[i].proxy, PickLastLeaf(ProxyRows(db, e, ids), keys[i]))
    {
      ProxyPicked(neighbours, LeafIds(RowsOf(neighbours)), ProxyRows(db, e, ids), keys[i]);
    }
  }

  lemma ProxyKeysKnown(nodes: seq<Account>, keys: seq<Option<int>>, neighbours: seq<Neighbour>)
    requires |nodes| == |keys| && forall r | r in RowsOf(neighbours) :: r.id in FirstKeys(keys)
    ensures forall n | n in neighbours :: n.row.id in Grouped(nodes, keys)
  {
    hide FirstKeys;
    forall n | n in neighbours ensures n.row.id in Grouped(nodes, keys) {
      var j :| 0 <= j < |neighbours| && neighbours[j] == n;
      assert RowsOf(neighbours)[j] == n.row;
    }
  }

  // ---- Nodes scanned from rows carry the rows' keys ----

  lemma DecodedNode(n: Account, r: Row, columns: seq<Column>)
    requires DecodableRow(r) && TableColumns(columns) && n.fields == Decode(columns, r)
    ensures ID in columns ==> n.Key() == IdOf(r)
    ensures ProxyID in columns ==> n.Ref(ProxyID) == ProxyKey(r)
    ensures ParentAccountID in columns ==> n.Ref(ParentAccountID) == ParentKey(r)
  {
    hide DecodableRow, Decode, AssignAll, FillAll, TypedRow, Get, IdOf, ProxyKey, ParentKey;
    DecodedKeys(r, columns);
  }

  lemma NodesCarryKeys(db: Store, q: Query, columns: seq<Column>, rows: seq<Row>, nodes: seq<Account>, region: set<Account>)
    requires TableColumns(columns) && ID in columns && forall r: Row | r in rows :: DecodableRow(r)
    requires Reps(nodes, Batch(db, q, columns, rows), region)
    ensures IdsOfNodes(nodes) == IdsOf(rows)
    ensures ParentAccountID in columns ==> RefsOf(nodes, ParentAccountID) == KeysOf(rows, ParentKey)
  {
    hide DecodableRow, Decode, IdOf, ParentKey, Account.Key, Account.Ref, TableColumns, IdsOfNodes, RefsOf;
    forall i | 0 <= i < |nodes|
      ensures nodes[i].Key() == IdOf(rows[i])
      ensures ParentAccountID in columns ==> nodes[i].Ref(ParentAccountID) == ParentKey(rows[i])
    {
      assert rows[i] in rows;
      ScannedFields(db, q, columns, rows, nodes, region, i);
      DecodedNode(nodes[i], rows[i], columns);
    }
  }

  lemma ScannedFields(db: Store, q: Query, columns: seq<Column>, rows: seq<Row>, nodes: seq<Account>, region: set<Account>, i: nat)
    requires i < |rows| && Reps(nodes, Batch(db, q, columns, rows), region)
    ensures nodes[i] in region && nodes[i].fields == Decode(columns, rows[i])
  {
    hide Decode, LastOfId, GroupsOf, FirstGroups, PickLastLeaf, PickLast, Collect, IdOf, ProxyKey, ParentKey;
    assert Rep(nodes[i], Batch(db, q, columns, rows)[i], region);
  }

  ghost predicate WellFormed(columns: seq<Column>, r: Row) {
    TypedRow(columns, r) && forall c | c in columns && !c.Other? :: !Malformed(r[c])
  }

  /** The scan of the returned rows: one new account per row, in order, with its columns assigned. It fails exactly on
      malformed JSON in a selected column. */
  method ScanRows(columns: seq<Column>, rows: seq<Row>) returns (nodes: seq<Account>, err: Option<QueryError>)
    requires forall r: Row | r in rows :: TypedRow(columns, r)
    ensures err.None? <==> forall r: Row | r in rows :: WellFormed(columns, r)
    ensures err.None? ==> |nodes| == |rows| && Distinct(nodes)
    ensures err.None? ==> forall i | 0 <= i < |nodes| :: nodes[i].fields == Decode(columns, rows[i])
    ensures forall n | n in nodes :: n.groups == [] && n.proxy == null && n.parent == null && n.children == []
    ensures fresh(set n | n in nodes)
  {
    hide AssignAll, FillAll, TypedRow, Malformed;
    nodes := [];
    for i := 0 to |rows|
      invariant |nodes| == i && Distinct(nodes) && fresh(set n | n in nodes)
      invariant forall k | 0 <= k < i :: nodes[k].fields == Decode(columns, rows[k]) && WellFormed(columns, rows[k])
      invariant forall n | n in nodes :: n.groups == [] && n.proxy == null && n.parent == null && n.children == []
    {
      assert rows[i] in rows;
      RowIsAccepted(Fresh(), columns, rows[i]);
      var node := new Account();
      nodes := nodes + [node];
      var failed := node.AssignValues(columns, FillAll(columns, rows[i]));
      if failed.Some? {
        return nodes, Some(DecodeError(failed.value));
      }
    }
    err := None;
  }

  lemma DecodableIsWellFormed(columns: seq<Column>, rows: seq<Row>)
    requires TableColumns(columns) && forall r: Row | r in rows :: DecodableRow(r)
    ensures forall r: Row | r in rows :: WellFormed(columns, r)
  {
    hide DecodableRow, TypedRow, Malformed;
    forall r: Row | r in rows ensures WellFormed(columns, r) {
      DecodableIsTyped(r, columns);
    }
  }
}
