/** Creating accounts in bulk: one chain of mutators through all builders, one write at its end. */
module BulkCreate {
  import opened Wrappers
  import opened AccountRow
  import opened AccountWrite

  // ---- Mutations, hooks, mutators ----

  /** A mutation. `id` is the slot of the account whose id it points at. */
  class AccountMutation {
    var data: Mutation
    var id: Option<nat>
    var done: bool

    constructor (data: Mutation)
      ensures this.data == data && id == None && !done
    {
      this.data, id, done := data, None, false;
    }

    ghost function Holds(): Held
      reads this
    {
      Held(data, id, done)
    }
  }

  datatype Held = Held(data: Mutation, id: Option<nat>, done: bool)

  /** What a hook passes on: the mutation it got, another one, or one of another type. */
  datatype Pass = Same | Replace(m: AccountMutation) | Foreign

  /** A hook that calls the next mutator at most once. It either returns at once, or edits the mutation it gets, passes one
      on, and turns the outcome of the inner call into its own; which of these it does is fixed. */
  datatype Hook =
    | Stop(ok: bool)
    | Next(edit: Mutation -> Mutation, pass: Pass, onOk: bool, onErr: bool)

  /** A builder's own mutator, under hooks. */
  datatype Mutator = Base(i: nat) | Wrapped(hook: Hook, inner: Mutator)

  function Index(mut: Mutator): nat {
    match mut
    case Base(i) => i
    case Wrapped(_, inner) => Index(inner)
  }

  function Depth(mut: Mutator): (d: nat)
    ensures d > 0
  {
    match mut
    case Base(_) => 1
    case Wrapped(_, inner) => 1 + Depth(inner)
  }

  /** The hooks around a mutator, outermost first. */
  function HooksOf(mut: Mutator): seq<Hook> {
    match mut
    case Base(_) => []
    case Wrapped(hook, inner) => [hook] + HooksOf(inner)
  }

  class AccountCreate {
    var mutation: AccountMutation
    const hooks: seq<Hook>

    constructor (mutation: AccountMutation, hooks: seq<Hook>)
      ensures this.mutation == mutation && this.hooks == hooks
    {
      this.mutation, this.hooks := mutation, hooks;
    }

    /** `defaults`: fills the unset columns that have a default, up to the first default that is not initialised. */
    method FillDefaults(rt: Runtime) returns (ok: bool)
      modifies mutation`data
      ensures (mutation.data, ok) == Defaults(rt, old(mutation.data))
    {
      hide DefaultValue, Defaulted;
      var columns := Defaulted();
      for i := 0 to |columns|
        invariant DefaultsFrom(rt, old(mutation.data), columns) == DefaultsFrom(rt, mutation.data, columns[i..])
      {
        assert columns[i..][0] == columns[i] && columns[i..][1..] == columns[i + 1..];
        if columns[i] !in mutation.data.values {
          var v := DefaultValue(rt, columns[i]);
          if v.None? {
            return false;
          }
          mutation.data := SetValue(mutation.data, columns[i], v.value);
        }
      }
      ok := true;
    }
  }

  // ---- The chain on values ----

  /** What one bulk save reads and writes: the mutations, the builders' current mutations, the slots, the order in
      which builders finished, and the batch writes attempted. */
  datatype World = World(
    held: map<AccountMutation, Held>, owner: map<AccountCreate, AccountMutation>,
    specs: seq<Option<Spec>>, nodes: seq<Option<Fields>>, finished: seq<nat>, writes: seq<seq<Option<Spec>>>)

  /** The ids of the inserted rows, or None if the insert fails. */
  type Insert = seq<Option<Spec>> -> Option<seq<Option<int>>>

  datatype Chain = Chain(builders: seq<AccountCreate>, mutators: seq<Mutator>, valid: Validators, insert: Insert)

  ghost predicate WellFormed(c: Chain) {
    |c.mutators| == |c.builders| && forall k | 0 <= k < |c.mutators| :: Index(c.mutators[k]) == k
  }

  /** The mutations that the hooks of a mutator may pass on are known. */
  ghost predicate Targets(mut: Mutator, known: set<AccountMutation>) {
    forall h | h in HooksOf(mut) && h.Next? && h.pass.Replace? :: h.pass.m in known
  }

  ghost predicate Fits(c: Chain, w: World) {
    && WellFormed(c) && |w.specs| == |w.nodes| == |c.builders|
    && (forall b | b in c.builders :: b in w.owner)
    && (forall b | b in w.owner :: w.owner[b] in w.held)
    && (forall mut | mut in c.mutators :: Targets(mut, w.held.Keys))
  }

  function Edited(w: World, m: AccountMutation?, edit: Mutation -> Mutation): World
    requires m != null ==> m in w.held
  {
    if m == null then w else w.(held := w.held[m := w.held[m].(data := edit(w.held[m].data))])
  }

  function Passed(pass: Pass, m: AccountMutation?): AccountMutation? {
    match pass
    case Same => m
    case Replace(other) => other
    case Foreign => null
  }

  function Filled(w: World, i: nat, b: AccountCreate, m: AccountMutation): World
    requires i < |w.specs| == |w.nodes| && m in w.held
  {
    w.(owner := w.owner[b := m],
       specs := w.specs[i := Some(SpecOf(w.held[m].data))], nodes := w.nodes[i := Some(NodeOf(w.held[m].data))])
  }

  function WithId(s: Option<Spec>, id: Option<int>): Option<Spec> {
    if s.Some? then Some(s.value.(id := id)) else s
  }

  /** The specifications with their rows' ids. */
  function WithIds(specs: seq<Option<Spec>>, ids: seq<Option<int>>): (r: seq<Option<Spec>>)
    ensures |r| == |specs|
  {
    seq(|specs|, k requires 0 <= k < |specs| => WithId(specs[k], if k < |ids| then ids[k] else None))
  }

  function Written(w: World, insert: Insert): (World, bool) {
    var ids := insert(w.specs);
    if ids.None? then (w.(writes := w.writes + [w.specs]), false)
    else (w.(writes := w.writes + [w.specs], specs := WithIds(w.specs, ids.value)), true)
  }

  /** The account with the id its specification received, if it did. */
  function Identified(f: Option<Fields>, s: Option<Spec>): Option<Fields> {
    if f.Some? && s.Some? && s.value.id.Some? then Some(SetColumn(f.value, ID, Int(s.value.id.value))) else f
  }

  function Completed(w: World, i: nat, m: AccountMutation): World
    requires i < |w.specs| == |w.nodes| && m in w.held
  {
    w.(held := w.held[m := w.held[m].(id := Some(i), done := true)],
       nodes := w.nodes[i := Identified(w.nodes[i], w.specs[i])], finished := w.finished + [i])
  }

  /** What a mutator does to the world, and whether it reports success. */
  ghost function Run(c: Chain, w: World, mut: Mutator, m: AccountMutation?): (r: (World, bool))
    requires Fits(c, w) && Index(mut) < |c.builders| && Targets(mut, w.held.Keys) && (m != null ==> m in w.held)
    ensures Fits(c, r.0) && r.0.held.Keys == w.held.Keys && r.0.owner.Keys == w.owner.Keys
    decreases |c.builders| - Index(mut), Depth(mut)
  {
    match mut
    case Wrapped(Stop(ok), _) => (w, ok)
    case Wrapped(Next(edit, pass, onOk, onErr), inner) =>
      InnerTargets(mut, w.held.Keys);
      EditFits(c, w, m, edit);
      var (after, ok) := Run(c, Edited(w, m, edit), inner, Passed(pass, m));
      (after, if ok then onOk else onErr)
    case Base(i) =>
      var b := c.builders[i];
      if m == null || Check(w.held[w.owner[b]].data, c.valid).Some? then (w, false)
      else
        FillFits(c, w, i, m);
        var (after, ok) := RunRest(c, Filled(w, i, b, m), i);
        CompleteFits(c, after, i, m);
        (if ok then Completed(after, i, m) else after, ok)
  }

  /** What follows once builder `i` has filled its slot: the next builder's mutator, or the write. */
  ghost function RunRest(c: Chain, w: World, i: nat): (r: (World, bool))
    requires Fits(c, w) && i < |c.builders|
    ensures Fits(c, r.0) && r.0.held.Keys == w.held.Keys && r.0.owner.Keys == w.owner.Keys
    decreases |c.builders| - i, 0
  {
    if i + 1 < |c.builders| then
      OwnerFits(c, w, i + 1);
      Run(c, w, c.mutators[i + 1], w.owner[c.builders[i + 1]])
    else
      WriteFits(c, w);
      Written(w, c.insert)
  }

  lemma WriteFits(c: Chain, w: World)
    requires Fits(c, w)
    ensures var r := Written(w, c.insert).0;
      Fits(c, r) && r.held.Keys == w.held.Keys && r.owner.Keys == w.owner.Keys
  {
    hide Targets, Index;
  }

  lemma InnerTargets(mut: Mutator, known: set<AccountMutation>)
    requires mut.Wrapped? && Targets(mut, known)
    ensures Targets(mut.inner, known)
    ensures mut.hook.Next? && mut.hook.pass.Replace? ==> mut.hook.pass.m in known
  {
    var hooks := HooksOf(mut);
    assert hooks[0] == mut.hook && mut.hook in hooks;
    forall h | h in HooksOf(mut.inner) ensures h in hooks {
    }
  }

  lemma EditFits(c: Chain, w: World, m: AccountMutation?, edit: Mutation -> Mutation)
    requires Fits(c, w) && (m != null ==> m in w.held)
    ensures Fits(c, Edited(w, m, edit)) && Edited(w, m, edit).held.Keys == w.held.Keys
  {
    assert Edited(w, m, edit).held.Keys == w.held.Keys;
  }

  lemma FillFits(c: Chain, w: World, i: nat, m: AccountMutation)
    requires Fits(c, w) && i < |c.builders| && m in w.held
    ensures Fits(c, Filled(w, i, c.builders[i], m)) && Filled(w, i, c.builders[i], m).owner.Keys == w.owner.Keys
  {
    hide SpecOf, NodeOf, Targets, Index;
    assert c.builders[i] in c.builders;
    assert Filled(w, i, c.builders[i], m).owner.Keys == w.owner.Keys;
  }

  lemma CompleteFits(c: Chain, w: World, i: nat, m: AccountMutation)
    requires Fits(c, w) && i < |c.builders| && m in w.held
    ensures Fits(c, Completed(w, i, m)) && Completed(w, i, m).held.Keys == w.held.Keys
  {
    assert Completed(w, i, m).held.Keys == w.held.Keys;
  }

  // ---- Unfolding a run ----

  ghost predicate Runnable(c: Chain, w: World, mut: Mutator, m: AccountMutation?) {
    Fits(c, w) && Index(mut) < |c.builders| && Targets(mut, w.held.Keys) && (m != null ==> m in w.held)
  }

  lemma RunNext(c: Chain, w: World, mut: Mutator, m: AccountMutation?)
    requires Runnable(c, w, mut, m) && mut.Wrapped? && mut.hook.Next?
    ensures var w1, m1 := Edited(w, m, mut.hook.edit), Passed(mut.hook.pass, m);
      && Runnable(c, w1, mut.inner, m1)
      && (w1.finished, w1.writes, w1.specs, w1.nodes, w1.owner) == (w.finished, w.writes, w.specs, w.nodes, w.owner)
      && (var (after, ok) := Run(c, w1, mut.inner, m1);
          Run(c, w, mut, m) == (after, if ok then mut.hook.onOk else mut.hook.onErr))
  {
    hide Fits, Targets, Check;
    InnerTargets(mut, w.held.Keys);
    EditFits(c, w, m, mut.hook.edit);
  }

  /** The builder's own mutator rejects what reaches it. */
  ghost predicate Rejects(c: Chain, w: World, i: nat, m: AccountMutation?)
    requires Fits(c, w) && i < |c.builders|
  {
    OwnerFits(c, w, i);
    m == null || Check(w.held[w.owner[c.builders[i]]].data, c.valid).Some?
  }

  lemma RunBase(c: Chain, w: World, i: nat, m: AccountMutation?)
    requires Runnable(c, w, Base(i), m)
    ensures Rejects(c, w, i, m) ==> Run(c, w, Base(i), m) == (w, false)
    ensures !Rejects(c, w, i, m) ==>
      && i < |w.specs| == |w.nodes| == |c.builders| && Fits(c, Filled(w, i, c.builders[i], m))
      && (var (after, ok) := RunRest(c, Filled(w, i, c.builders[i], m), i);
          && m in after.held && |after.specs| == |after.nodes| == |c.builders|
          && Run(c, w, Base(i), m) == (if ok then Completed(after, i, m) else after, ok))
  {
    hide Fits, Check, SpecOf, NodeOf, Completed, RunRest, Filled;
    if !Rejects(c, w, i, m) {
      FillFits(c, w, i, m);
      OwnerFits(c, w, i);
      var after := RunRest(c, Filled(w, i, c.builders[i], m), i).0;
      OwnerFits(c, after, i);
      FilledHeld(w, i, c.builders[i], m);
    }
  }

  lemma FilledIs(w: World, i: nat, b: AccountCreate, m: AccountMutation, r: World)
    requires i < |w.specs| == |w.nodes| && m in w.held
    requires r.held == w.held && r.owner == w.owner[b := m] && r.finished == w.finished && r.writes == w.writes
    requires r.specs == w.specs[i := Some(SpecOf(w.held[m].data))] && r.nodes == w.nodes[i := Some(NodeOf(w.held[m].data))]
    ensures r == Filled(w, i, b, m)
  {
    hide SpecOf, NodeOf;
  }

  lemma FilledHeld(w: World, i: nat, b: AccountCreate, m: AccountMutation)
    requires i < |w.specs| == |w.nodes| && m in w.held
    ensures Filled(w, i, b, m).held == w.held
  {
  }

  ghost predicate RestFits(c: Chain, w: World, i: nat, m: AccountMutation) {
    && i < |c.builders| && Fits(c, w)
    && (var after := RunRest(c, w, i).0; i < |after.specs| == |after.nodes| && m in after.held)
  }

  /** The rest of the chain, and builder `i`'s completion if it succeeded. */
  ghost function Rest(c: Chain, w: World, i: nat, m: AccountMutation): (World, bool)
    requires RestFits(c, w, i, m)
  {
    var (after, ok) := RunRest(c, w, i);
    (if ok then Completed(after, i, m) else after, ok)
  }

  lemma RestHasSlot(c: Chain, w: World, i: nat, m: AccountMutation)
    requires i < |c.builders| && Fits(c, w) && m in w.held
    ensures RestFits(c, w, i, m)
  {
    hide Fits, RunRest;
    OwnerFits(c, RunRest(c, w, i).0, i);
  }

  lemma RestIs(c: Chain, w: World, i: nat, m: AccountMutation)
    requires RestFits(c, w, i, m)
    ensures i < |c.builders| && Fits(c, w)
    ensures var (after, ok) := RunRest(c, w, i);
      i < |after.specs| == |after.nodes| && m in after.held
      && Rest(c, w, i, m) == (if ok then Completed(after, i, m) else after, ok)
  {
    hide Fits, RunRest, Completed;
  }

  lemma RunBaseRest(c: Chain, w: World, i: nat, m: AccountMutation?)
    requires Runnable(c, w, Base(i), m)
    ensures !Rejects(c, w, i, m) ==>
      && i < |w.specs| == |w.nodes| == |c.builders| && RestFits(c, Filled(w, i, c.builders[i], m), i, m)
      && Run(c, w, Base(i), m) == Rest(c, Filled(w, i, c.builders[i], m), i, m)
  {
    RunBase(c, w, i, m);
    hide Fits, RunRest, Run, Rejects, Filled, Completed;
  }

  /** After builder `i`: either the next builder's mutator runs on its current mutation, or everything is written. */
  lemma RunRestIs(c: Chain, w: World, i: nat)
    requires Fits(c, w) && i < |c.builders|
    ensures i + 1 < |c.builders| ==>
      && i + 1 < |c.mutators| && c.builders[i + 1] in w.owner && Index(c.mutators[i + 1]) == i + 1
      && Runnable(c, w, c.mutators[i + 1], w.owner[c.builders[i + 1]])
      && RunRest(c, w, i) == Run(c, w, c.mutators[i + 1], w.owner[c.builders[i + 1]])
    ensures i + 1 == |c.builders| ==> RunRest(c, w, i) == Written(w, c.insert)
  {
    hide Fits, Targets;
    if i + 1 < |c.builders| {
      OwnerFits(c, w, i + 1);
    }
  }

  // ---- What reaches each builder's own mutator ----

  /** Every hook around the mutator calls the next one. */
  predicate Calls(mut: Mutator) {
    match mut
    case Base(_) => true
    case Wrapped(hook, inner) => hook.Next? && Calls(inner)
  }

  /** What decides how far a run gets: the data of every mutation there is, and the builders' current mutations. */
  datatype Front = Front(data: map<AccountMutation, Mutation>, owner: map<AccountCreate, AccountMutation>)

  function FrontOf(w: World): Front {
    Front(map m | m in w.held :: w.held[m].data, w.owner)
  }

  function EditedFront(f: Front, m: AccountMutation?, edit: Mutation -> Mutation): Front {
    if m == null || m !in f.data then f else f.(data := f.data[m := edit(f.data[m])])
  }

  /** A stack of hooks that call the next one: the front after their edits, and the mutation the last one passes on. */
  function Descend(f: Front, mut: Mutator, m: AccountMutation?): (Front, AccountMutation?)
    decreases mut
  {
    match mut
    case Wrapped(Next(edit, pass, _, _), inner) => Descend(EditedFront(f, m, edit), inner, Passed(pass, m))
    case _ => (f, m)
  }

  /** The own mutator of builder `i` accepts `m`: it is an account mutation, and the one the builder holds passes its
      check. */
  predicate Accepts(c: Chain, f: Front, i: nat, m: AccountMutation?) {
    && i < |c.builders| && m != null && m in f.data && c.builders[i] in f.owner && f.owner[c.builders[i]] in f.data
    && Check(f.data[f.owner[c.builders[i]]], c.valid).None?
  }

  /** Builder `i` accepts `m` and calls the next builder's mutator: the front then, and the mutation it is called with. */
  function Handover(c: Chain, f: Front, i: nat, m: AccountMutation?): Option<(Front, AccountMutation?)> {
    if !Accepts(c, f, i, m) || i + 1 >= |c.builders| then None
    else
      var owner := f.owner[c.builders[i] := m];
      if c.builders[i + 1] in owner then Some((f.(owner := owner), owner[c.builders[i + 1]])) else None
  }

  /** The front in which the own mutator of builder `k` is called, and with which mutation. It is called if the stacks
      from `mut` on call it, and every builder before it accepts. */
  function Arrival(c: Chain, f: Front, mut: Mutator, m: AccountMutation?, k: nat): Option<(Front, AccountMutation?)>
    requires WellFormed(c)
    decreases |c.mutators| - Index(mut)
  {
    var i := Index(mut);
    if !Calls(mut) then None
    else
      var (f1, m1) := Descend(f, mut, m);
      if k <= i then Some((f1, m1))
      else match Handover(c, f1, i, m1)
        case Some((f2, m2)) => Arrival(c, f2, c.mutators[i + 1], m2, k)
        case None => None
  }

  /** The own mutator of builder `k` is called, and accepts. */
  predicate Accepted(c: Chain, f: Front, mut: Mutator, m: AccountMutation?, k: nat)
    requires WellFormed(c)
  {
    var a := Arrival(c, f, mut, m, k);
    a.Some? && Accepts(c, a.value.0, k, a.value.1)
  }

  function Passes(c: Chain, f: Front, mut: Mutator, m: AccountMutation?): seq<bool>
    requires WellFormed(c)
  {
    seq(|c.mutators|, k requires 0 <= k < |c.mutators| => Index(mut) <= k && Accepted(c, f, mut, m, k))
  }

  /** The specification of the mutation that is passed to builder `k`, as it then is. */
  function SpecAt(c: Chain, f: Front, mut: Mutator, m: AccountMutation?, k: nat): Option<Spec>
    requires WellFormed(c)
  {
    match Arrival(c, f, mut, m, k)
    case Some((f1, m1)) => if m1 != null && m1 in f1.data then Some(SpecOf(f1.data[m1])) else None
    case None => None
  }

  /** What a write gets: the slots filled before, and the specifications of the mutations passed on from `mut` on. */
  function Args(c: Chain, w: World, mut: Mutator, m: AccountMutation?): (args: seq<Option<Spec>>)
    requires WellFormed(c)
    ensures |args| == |c.builders|
  {
    seq(|c.builders|, k requires 0 <= k < |c.builders| =>
      if k < Index(mut) && k < |w.specs| then w.specs[k] else SpecAt(c, FrontOf(w), mut, m, k))
  }

  lemma AcceptedIs(c: Chain, f: Front, mut: Mutator, m: AccountMutation?, k: nat)
    requires WellFormed(c)
    ensures Accepted(c, f, mut, m, k) <==>
      Arrival(c, f, mut, m, k).Some? && Accepts(c, Arrival(c, f, mut, m, k).value.0, k, Arrival(c, f, mut, m, k).value.1)
  {
    hide Arrival, Accepts, WellFormed;
  }

  lemma PassesAt(c: Chain, f: Front, mut: Mutator, m: AccountMutation?)
    requires WellFormed(c)
    ensures |Passes(c, f, mut, m)| == |c.mutators|
    ensures forall k | Index(mut) <= k < |c.mutators| :: Passes(c, f, mut, m)[k] <==> Accepted(c, f, mut, m, k)
  {
    hide Accepted, WellFormed;
  }

  lemma FrontEdited(w: World, m: AccountMutation?, edit: Mutation -> Mutation)
    requires m != null ==> m in w.held
    ensures FrontOf(Edited(w, m, edit)) == EditedFront(FrontOf(w), m, edit)
  {
  }

  lemma FrontFilled(w: World, i: nat, b: AccountCreate, m: AccountMutation)
    requires i < |w.specs| == |w.nodes| && m in w.held
    ensures var w1 := Filled(w, i, b, m);
      && FrontOf(w1) == FrontOf(w).(owner := w.owner[b := m]) && m in FrontOf(w).data
      && w1.finished == w.finished && w1.writes == w.writes
      && |w1.specs| == |w.specs| && w1.specs[i] == Some(SpecOf(FrontOf(w).data[m])) && w1.owner == w.owner[b := m]
      && forall k | 0 <= k < |w.specs| && k != i :: w1.specs[k] == w.specs[k]
  {
    hide SpecOf, NodeOf;
  }

  lemma ArrivalNext(c: Chain, f: Front, mut: Mutator, m: AccountMutation?, k: nat)
    requires WellFormed(c) && mut.Wrapped? && mut.hook.Next?
    ensures Arrival(c, f, mut, m, k) == Arrival(c, EditedFront(f, m, mut.hook.edit), mut.inner, Passed(mut.hook.pass, m), k)
  {
    hide Accepts, EditedFront;
  }

  lemma ArrivalStep(c: Chain, f: Front, mut: Mutator, m: AccountMutation?, k: nat)
    requires WellFormed(c)
    ensures !Calls(mut) ==> Arrival(c, f, mut, m, k).None?
    ensures Calls(mut) && k <= Index(mut) ==> Arrival(c, f, mut, m, k) == Some(Descend(f, mut, m))
    ensures Calls(mut) && k > Index(mut) ==>
      var i, (f1, m1) := Index(mut), Descend(f, mut, m);
      match Handover(c, f1, i, m1)
      case Some((f2, m2)) => i + 1 < |c.mutators| && Index(c.mutators[i + 1]) == i + 1
                             && Arrival(c, f, mut, m, k) == Arrival(c, f2, c.mutators[i + 1], m2, k)
      case None => Arrival(c, f, mut, m, k).None?
  {
    hide Accepts, Descend, Calls;
    assert Descend(f, mut, m) == (Descend(f, mut, m).0, Descend(f, mut, m).1);
  }

  /** A handover lets only builder `i` take another mutation. */
  lemma HandoverKeeps(c: Chain, f: Front, i: nat, m: AccountMutation?)
    requires Handover(c, f, i, m).Some?
    ensures var (f2, m2) := Handover(c, f, i, m).value;
      && Accepts(c, f, i, m) && i + 1 < |c.builders| && f2.data == f.data && c.builders[i] in f2.owner
      && m2 != null && c.builders[i + 1] in f2.owner && f2.owner[c.builders[i + 1]] == m2 && f2.owner[c.builders[i]] == m
      && f2.owner.Keys == f.owner.Keys && m in f.data
      && forall b | b in f.owner && b != c.builders[i] :: f2.owner[b] == f.owner[b]
  {
    hide Check;
  }

  lemma ArrivalBase(c: Chain, f: Front, i: nat, m: AccountMutation?, k: nat)
    requires WellFormed(c)
    ensures k <= i ==> Arrival(c, f, Base(i), m, k) == Some((f, m))
    ensures k > i && !Accepts(c, f, i, m) ==> Arrival(c, f, Base(i), m, k) == None
    ensures k > i && Accepts(c, f, i, m) && i + 1 < |c.builders| && c.builders[i + 1] in f.owner ==>
      var owner := f.owner[c.builders[i] := m];
      Arrival(c, f, Base(i), m, k) == Arrival(c, f.(owner := owner), c.mutators[i + 1], owner[c.builders[i + 1]], k)
  {
    hide Check;
  }

  // ---- The course of a run ----

  /** What the hooks around a mutator report when it reports `inner`. */
  function Verdict(mut: Mutator, inner: bool): bool {
    match mut
    case Base(_) => inner
    case Wrapped(Stop(ok), _) => ok
    case Wrapped(Next(_, _, onOk, onErr), rest) => if Verdict(rest, inner) then onOk else onErr
  }

  /** Its hooks never report a success that did not happen. */
  predicate Honest(mut: Mutator) {
    !Verdict(mut, false)
  }

  datatype Course = Course(finished: seq<nat>, ok: bool, wrote: bool)

  ghost predicate Numbered(mutators: seq<Mutator>) {
    forall k | 0 <= k < |mutators| :: Index(mutators[k]) == k
  }

  /** The builders that finish, in order, given which builders' own mutators accept and whether the insert succeeds. */
  ghost function Outcome(mutators: seq<Mutator>, mut: Mutator, passes: seq<bool>, inserted: bool): Course
    requires Numbered(mutators) && |passes| == |mutators| && Index(mut) < |mutators|
    decreases |mutators| - Index(mut)
  {
    var i := Index(mut);
    if !Calls(mut) || !passes[i] then Course([], Verdict(mut, false), false)
    else
      var rest := if i + 1 < |mutators| then Outcome(mutators, mutators[i + 1], passes, inserted) else Course([], inserted, true);
      Course(if rest.ok then rest.finished + [i] else rest.finished, Verdict(mut, rest.ok), rest.wrote)
  }

  lemma OutcomeLocal(mutators: seq<Mutator>, mut: Mutator, p: seq<bool>, q: seq<bool>, inserted: bool)
    requires Numbered(mutators) && |p| == |q| == |mutators| && Index(mut) < |mutators|
    requires forall k | Index(mut) <= k < |mutators| :: p[k] == q[k]
    ensures Outcome(mutators, mut, p, inserted) == Outcome(mutators, mut, q, inserted)
    decreases |mutators| - Index(mut)
  {
    var i := Index(mut);
    if i + 1 < |mutators| {
      OutcomeLocal(mutators, mutators[i + 1], p, q, inserted);
    }
  }

  ghost predicate Follows(w: World, r: (World, bool), o: Course, args: seq<Option<Spec>>) {
    r.0.finished == w.finished + o.finished && r.1 == o.ok && r.0.writes == if o.wrote then w.writes + [args] else w.writes
  }

  lemma FollowsIs(w: World, r: (World, bool), o: Course, args: seq<Option<Spec>>)
    requires Follows(w, r, o, args)
    ensures r.0.finished == w.finished + o.finished && r.1 == o.ok && r.0.writes == if o.wrote then w.writes + [args] else w.writes
  {
  }

  /** The course that the hooks, the checks and the insert of a run determine. */
  ghost function CourseOf(c: Chain, w: World, mut: Mutator, m: AccountMutation?): Course
    requires WellFormed(c) && Index(mut) < |c.builders|
  {
    Outcome(c.mutators, mut, Passes(c, FrontOf(w), mut, m), c.insert(Args(c, w, mut, m)).Some?)
  }

  /** For any hooks of this kind: a run finishes builders, reports, and writes as its own checks, each on what the
      builder holds when it is reached, and its one insert determine; and the write gets the specifications of the
      mutations passed on. */
  lemma {:induction false} RunFollows(c: Chain, w: World, mut: Mutator, m: AccountMutation?)
    requires Runnable(c, w, mut, m)
    ensures WellFormed(c) && Follows(w, Run(c, w, mut, m), CourseOf(c, w, mut, m), Args(c, w, mut, m))
    decreases |c.builders| - Index(mut), Depth(mut)
  {
    FitsNumbered(c, w);
    hide Run, RunRest, Fits, Targets, Follows, Runnable, Filled, Edited, Passed, Rejects, CourseOf, Args;
    match mut
    case Wrapped(Stop(ok), inner) =>
      StopFollows(c, w, mut, m);
    case Wrapped(Next(edit, pass, onOk, onErr), inner) =>
      RunNext(c, w, mut, m);
      RunFollows(c, Edited(w, m, edit), inner, Passed(pass, m));
      NextFollows(c, w, mut, m);
    case Base(i) =>
      BaseFollows(c, w, i, m);
  }

  lemma StopFollows(c: Chain, w: World, mut: Mutator, m: AccountMutation?)
    requires Runnable(c, w, mut, m) && mut.Wrapped? && mut.hook.Stop? && WellFormed(c)
    ensures Follows(w, Run(c, w, mut, m), CourseOf(c, w, mut, m), Args(c, w, mut, m))
  {
    RunStop(c, w, mut, m);
    hide Run, Runnable, Passes, Args;
    assert w.finished + [] == w.finished;
  }

  lemma NextFollows(c: Chain, w: World, mut: Mutator, m: AccountMutation?)
    requires Runnable(c, w, mut, m) && mut.Wrapped? && mut.hook.Next? && WellFormed(c) && Index(mut) < |c.builders|
    requires var w1, m1 := Edited(w, m, mut.hook.edit), Passed(mut.hook.pass, m);
      Runnable(c, w1, mut.inner, m1) && Follows(w1, Run(c, w1, mut.inner, m1), CourseOf(c, w1, mut.inner, m1), Args(c, w1, mut.inner, m1))
    ensures Follows(w, Run(c, w, mut, m), CourseOf(c, w, mut, m), Args(c, w, mut, m))
  {
    var w1, m1 := Edited(w, m, mut.hook.edit), Passed(mut.hook.pass, m);
    RunNext(c, w, mut, m);
    SameArrivals(c, w, mut, m);
    OutcomeNext(c.mutators, mut, Passes(c, FrontOf(w), mut, m), c.insert(Args(c, w, mut, m)).Some?);
    hide Run, Runnable, Passes, Args, Outcome;
  }

  lemma SameArrivals(c: Chain, w: World, mut: Mutator, m: AccountMutation?)
    requires WellFormed(c) && mut.Wrapped? && mut.hook.Next? && (m != null ==> m in w.held)
    ensures var w1, m1 := Edited(w, m, mut.hook.edit), Passed(mut.hook.pass, m);
      && Passes(c, FrontOf(w1), mut.inner, m1) == Passes(c, FrontOf(w), mut, m)
      && Args(c, w1, mut.inner, m1) == Args(c, w, mut, m)
  {
    var w1, m1 := Edited(w, m, mut.hook.edit), Passed(mut.hook.pass, m);
    assert w1.specs == w.specs && Index(mut.inner) == Index(mut);
    hide Arrival, FrontOf, Edited, Passed, Accepted, SpecAt, WellFormed, Index;
    FrontEdited(w, m, mut.hook.edit);
    forall k: nat
      ensures Accepted(c, FrontOf(w1), mut.inner, m1, k) <==> Accepted(c, FrontOf(w), mut, m, k)
      ensures SpecAt(c, FrontOf(w1), mut.inner, m1, k) == SpecAt(c, FrontOf(w), mut, m, k)
    {
      ArrivalNext(c, FrontOf(w), mut, m, k);
      SameAt(c, FrontOf(w), mut, m, FrontOf(w1), mut.inner, m1, k);
    }
  }

  lemma SameAt(c: Chain, f: Front, mut: Mutator, m: AccountMutation?, g: Front, mut': Mutator, m': AccountMutation?, k: nat)
    requires WellFormed(c) && Arrival(c, f, mut, m, k) == Arrival(c, g, mut', m', k)
    ensures Accepted(c, f, mut, m, k) <==> Accepted(c, g, mut', m', k)
    ensures SpecAt(c, f, mut, m, k) == SpecAt(c, g, mut', m', k)
  {
    hide Arrival, Accepts, SpecOf, WellFormed;
  }

  lemma OutcomeNext(mutators: seq<Mutator>, mut: Mutator, passes: seq<bool>, inserted: bool)
    requires Numbered(mutators) && |passes| == |mutators| && Index(mut) < |mutators| && mut.Wrapped? && mut.hook.Next?
    ensures var o := Outcome(mutators, mut.inner, passes, inserted);
      Outcome(mutators, mut, passes, inserted) == o.(ok := if o.ok then mut.hook.onOk else mut.hook.onErr)
  {
  }

  lemma {:induction false} BaseFollows(c: Chain, w: World, i: nat, m: AccountMutation?)
    requires Runnable(c, w, Base(i), m)
    ensures WellFormed(c) && i < |c.builders|
    ensures Follows(w, Run(c, w, Base(i), m), CourseOf(c, w, Base(i), m), Args(c, w, Base(i), m))
    decreases |c.builders| - i, 0
  {
    hide *;
    BaseFacts(c, w, i, m);
    RunBase(c, w, i, m);
    FitsNumbered(c, w);
    if Rejects(c, w, i, m) {
      RejectedFollows(c, w, i, m);
    } else {
      var w1 := Filled(w, i, c.builders[i], m);
      RunRestIs(c, w1, i);
      if i + 1 < |c.builders| {
        RunFollows(c, w1, c.mutators[i + 1], w1.owner[c.builders[i + 1]]);
      }
      AcceptedFollows(c, w, i, m, RunRest(c, w1, i));
    }
  }

  lemma RejectedFollows(c: Chain, w: World, i: nat, m: AccountMutation?)
    requires WellFormed(c) && i < |c.builders| && !Accepts(c, FrontOf(w), i, m)
    ensures Follows(w, (w, false), CourseOf(c, w, Base(i), m), Args(c, w, Base(i), m))
  {
    hide Args, Accepts;
    ArrivalBase(c, FrontOf(w), i, m, i);
    assert w.finished + [] == w.finished;
  }

  lemma AcceptedFollows(c: Chain, w: World, i: nat, m: AccountMutation, r: (World, bool))
    requires WellFormed(c) && i < |c.builders| == |w.specs| == |w.nodes| && m in w.held && Accepts(c, FrontOf(w), i, m)
    requires i < |r.0.specs| == |r.0.nodes| && m in r.0.held
    requires i + 1 < |c.builders| ==> c.builders[i + 1] in w.owner && c.builders[i + 1] in Filled(w, i, c.builders[i], m).owner
    requires var w1 := Filled(w, i, c.builders[i], m);
      if i + 1 < |c.builders| then
        var mut, next := c.mutators[i + 1], w1.owner[c.builders[i + 1]];
        Index(mut) == i + 1 && Follows(w1, r, CourseOf(c, w1, mut, next), Args(c, w1, mut, next))
      else r == Written(w1, c.insert)
    ensures Follows(w, (if r.1 then Completed(r.0, i, m) else r.0, r.1), CourseOf(c, w, Base(i), m), Args(c, w, Base(i), m))
  {
    var w1 := Filled(w, i, c.builders[i], m);
    var passes, args := Passes(c, FrontOf(w), Base(i), m), Args(c, w, Base(i), m);
    hide *;
    FrontFilled(w, i, c.builders[i], m);
    NumberedFacts(c);
    AcceptedCourse(c, w, i, m);
    CourseIs(c, w, Base(i), m);
    OutcomeBase(c.mutators, i, passes, c.insert(args).Some?);
    var o := if i + 1 < |c.builders| then CourseOf(c, w1, c.mutators[i + 1], w1.owner[c.builders[i + 1]])
             else Course([], c.insert(args).Some?, true);
    if i + 1 == |c.builders| {
      WriteFollows(w1, c.insert);
    }
    CompletedFollows(w, w1, r, o, args, i, m);
  }

  lemma NumberedFacts(c: Chain)
    requires WellFormed(c)
    ensures Numbered(c.mutators) && |c.mutators| == |c.builders| && forall k | 0 <= k < |c.mutators| :: Index(c.mutators[k]) == k
    ensures forall i: nat :: Index(Base(i)) == i
  {
  }

  lemma CourseIs(c: Chain, w: World, mut: Mutator, m: AccountMutation?)
    requires WellFormed(c) && Index(mut) < |c.builders|
    ensures var passes := Passes(c, FrontOf(w), mut, m);
      |passes| == |c.mutators| && Numbered(c.mutators)
      && CourseOf(c, w, mut, m) == Outcome(c.mutators, mut, passes, c.insert(Args(c, w, mut, m)).Some?)
  {
    hide Accepted, FrontOf, Args, Outcome;
  }

  /** After builder `i` accepts, the rest of the chain sees the same answers and gathers the same specifications. */
  lemma AcceptedCourse(c: Chain, w: World, i: nat, m: AccountMutation)
    requires WellFormed(c) && i < |c.builders| == |w.specs| == |w.nodes| && m in w.held && Accepts(c, FrontOf(w), i, m)
    requires i + 1 < |c.builders| ==> c.builders[i + 1] in w.owner && c.builders[i + 1] in Filled(w, i, c.builders[i], m).owner
    ensures var w1 := Filled(w, i, c.builders[i], m);
      var passes, args := Passes(c, FrontOf(w), Base(i), m), Args(c, w, Base(i), m);
      && |passes| == |c.mutators| == |c.builders| && passes[i] && Numbered(c.mutators)
      && (if i + 1 < |c.builders| then
            var mut, next := c.mutators[i + 1], w1.owner[c.builders[i + 1]];
            && Args(c, w1, mut, next) == args && Index(mut) == i + 1
            && CourseOf(c, w1, mut, next) == Outcome(c.mutators, mut, passes, c.insert(args).Some?)
          else w1.specs == args)
  {
    hide *;
    NumberedFacts(c);
    OwnArrival(c, w, i, m);
    if i + 1 < |c.builders| {
      LaterCourse(c, w, i, m);
    } else {
      assert Filled(w, i, c.builders[i], m).specs == Args(c, w, Base(i), m);
    }
  }

  lemma LaterCourse(c: Chain, w: World, i: nat, m: AccountMutation)
    requires WellFormed(c) && i + 1 < |c.builders| == |w.specs| == |w.nodes| && m in w.held && Accepts(c, FrontOf(w), i, m)
    requires c.builders[i + 1] in w.owner && c.builders[i + 1] in Filled(w, i, c.builders[i], m).owner
    ensures var w1 := Filled(w, i, c.builders[i], m);
      var mut, next := c.mutators[i + 1], w1.owner[c.builders[i + 1]];
      var passes, args := Passes(c, FrontOf(w), Base(i), m), Args(c, w, Base(i), m);
      && Args(c, w1, mut, next) == args && Index(mut) == i + 1 && |passes| == |c.mutators| && Numbered(c.mutators)
      && CourseOf(c, w1, mut, next) == Outcome(c.mutators, mut, passes, c.insert(args).Some?)
  {
    hide *;
    NumberedFacts(c);
    var w1 := Filled(w, i, c.builders[i], m);
    var mut, next := c.mutators[i + 1], w1.owner[c.builders[i + 1]];
    var passes, args := Passes(c, FrontOf(w), Base(i), m), Args(c, w, Base(i), m);
    LaterArrivals(c, w, i, m);
    CourseIs(c, w1, mut, next);
    OutcomeLocal(c.mutators, mut, Passes(c, FrontOf(w1), mut, next), passes, c.insert(args).Some?);
  }

  lemma OwnArrival(c: Chain, w: World, i: nat, m: AccountMutation)
    requires WellFormed(c) && i < |c.builders| == |w.specs| == |w.nodes| && m in w.held && Accepts(c, FrontOf(w), i, m)
    ensures var w1, args := Filled(w, i, c.builders[i], m), Args(c, w, Base(i), m);
      && |Passes(c, FrontOf(w), Base(i), m)| == |c.builders| == |args| == |w1.specs| && Passes(c, FrontOf(w), Base(i), m)[i]
      && forall k | 0 <= k <= i :: args[k] == w1.specs[k]
  {
    hide *;
    FrontFilled(w, i, c.builders[i], m);
    NumberedFacts(c);
    ArrivalBase(c, FrontOf(w), i, m, i);
    AcceptedIs(c, FrontOf(w), Base(i), m, i);
    PassesAt(c, FrontOf(w), Base(i), m);
    var args := Args(c, w, Base(i), m);
    forall k | 0 <= k <= i ensures args[k] == Filled(w, i, c.builders[i], m).specs[k] {
      ArgsAt(c, w, Base(i), m, k);
      SpecArrived(c, FrontOf(w), Base(i), m, k);
    }
  }

  lemma SpecArrived(c: Chain, f: Front, mut: Mutator, m: AccountMutation?, k: nat)
    requires WellFormed(c)
    ensures var a := Arrival(c, f, mut, m, k);
      a.Some? && a.value.1 != null && a.value.1 in a.value.0.data ==> SpecAt(c, f, mut, m, k) == Some(SpecOf(a.value.0.data[a.value.1]))
  {
    hide Arrival, SpecOf, WellFormed;
  }

  lemma LaterArrivals(c: Chain, w: World, i: nat, m: AccountMutation)
    requires WellFormed(c) && i + 1 < |c.builders| == |w.specs| == |w.nodes| && m in w.held && Accepts(c, FrontOf(w), i, m)
    requires c.builders[i + 1] in w.owner && c.builders[i + 1] in Filled(w, i, c.builders[i], m).owner
    ensures var w1 := Filled(w, i, c.builders[i], m);
      var mut, next := c.mutators[i + 1], w1.owner[c.builders[i + 1]];
      var passes, later := Passes(c, FrontOf(w), Base(i), m), Passes(c, FrontOf(w1), mut, next);
      && Args(c, w1, mut, next) == Args(c, w, Base(i), m) && |passes| == |later| == |c.builders|
      && forall k | i < k < |c.builders| :: passes[k] == later[k]
  {
    hide *;
    NumberedFacts(c);
    var w1 := Filled(w, i, c.builders[i], m);
    var mut, next := c.mutators[i + 1], w1.owner[c.builders[i + 1]];
    OwnArrival(c, w, i, m);
    PassesAt(c, FrontOf(w1), mut, next);
    forall k | 0 <= k < |c.builders|
      ensures k > i ==> Passes(c, FrontOf(w), Base(i), m)[k] == Passes(c, FrontOf(w1), mut, next)[k]
      ensures Args(c, w1, mut, next)[k] == Args(c, w, Base(i), m)[k]
    {
      SameAnswer(c, w, i, m, k);
    }
  }

  lemma SameAnswer(c: Chain, w: World, i: nat, m: AccountMutation, k: nat)
    requires WellFormed(c) && i + 1 < |c.builders| == |w.specs| == |w.nodes| && m in w.held && Accepts(c, FrontOf(w), i, m)
    requires c.builders[i + 1] in w.owner && c.builders[i + 1] in Filled(w, i, c.builders[i], m).owner && k < |c.builders|
    ensures var w1 := Filled(w, i, c.builders[i], m);
      var mut, next := c.mutators[i + 1], w1.owner[c.builders[i + 1]];
      && |Passes(c, FrontOf(w), Base(i), m)| == |Passes(c, FrontOf(w1), mut, next)| == |c.builders|
      && (k > i ==> Passes(c, FrontOf(w), Base(i), m)[k] == Passes(c, FrontOf(w1), mut, next)[k])
      && Args(c, w1, mut, next)[k] == Args(c, w, Base(i), m)[k]
  {
    hide *;
    NumberedFacts(c);
    var w1 := Filled(w, i, c.builders[i], m);
    var mut, next := c.mutators[i + 1], w1.owner[c.builders[i + 1]];
    FrontFilled(w, i, c.builders[i], m);
    OwnArrival(c, w, i, m);
    PassesAt(c, FrontOf(w1), mut, next);
    ArgsAt(c, w1, mut, next, k);
    if k > i {
      PassesAt(c, FrontOf(w), Base(i), m);
      ArgsAt(c, w, Base(i), m, k);
      SameLater(c, w, i, m, k);
    }
  }

  lemma SameLater(c: Chain, w: World, i: nat, m: AccountMutation, k: nat)
    requires WellFormed(c) && i + 1 < |c.builders| == |w.specs| == |w.nodes| && m in w.held && Accepts(c, FrontOf(w), i, m)
    requires c.builders[i + 1] in w.owner && c.builders[i + 1] in Filled(w, i, c.builders[i], m).owner && k > i
    ensures var f, g := FrontOf(w), FrontOf(Filled(w, i, c.builders[i], m));
      var mut, next := c.mutators[i + 1], Filled(w, i, c.builders[i], m).owner[c.builders[i + 1]];
      && (Accepted(c, f, Base(i), m, k) <==> Accepted(c, g, mut, next, k))
      && SpecAt(c, f, Base(i), m, k) == SpecAt(c, g, mut, next, k)
  {
    hide *;
    FrontFilled(w, i, c.builders[i], m);
    FrontOwner(w);
    NumberedFacts(c);
    ArrivalBase(c, FrontOf(w), i, m, k);
    var w1 := Filled(w, i, c.builders[i], m);
    SameAt(c, FrontOf(w), Base(i), m, FrontOf(w1), c.mutators[i + 1], w1.owner[c.builders[i + 1]], k);
  }

  lemma FrontOwner(w: World)
    ensures FrontOf(w).owner == w.owner
  {
  }

  lemma WriteFollows(w: World, insert: Insert)
    ensures Follows(w, Written(w, insert), Course([], insert(w.specs).Some?, true), w.specs)
  {
    assert w.finished + [] == w.finished;
  }

  lemma CompletedFollows(w: World, w1: World, r: (World, bool), o: Course, args: seq<Option<Spec>>, i: nat, m: AccountMutation)
    requires w1.finished == w.finished && w1.writes == w.writes
    requires Follows(w1, r, o, args) && i < |r.0.specs| == |r.0.nodes| && m in r.0.held
    ensures Follows(w, (if r.1 then Completed(r.0, i, m) else r.0, r.1),
      Course(if o.ok then o.finished + [i] else o.finished, o.ok, o.wrote), args)
  {
    hide Identified;
    assert w.finished + o.finished + [i] == w.finished + (o.finished + [i]);
  }

  lemma OutcomeBase(mutators: seq<Mutator>, i: nat, passes: seq<bool>, inserted: bool)
    requires Numbered(mutators) && |passes| == |mutators| && i < |mutators| && passes[i]
    requires forall k: nat :: Index(Base(k)) == k
    ensures var o := if i + 1 < |mutators| && Index(mutators[i + 1]) == i + 1
                     then Outcome(mutators, mutators[i + 1], passes, inserted) else Course([], inserted, true);
      Outcome(mutators, Base(i), passes, inserted) == Course(if o.ok then o.finished + [i] else o.finished, o.ok, o.wrote)
  {
  }

  lemma RunStop(c: Chain, w: World, mut: Mutator, m: AccountMutation?)
    requires Runnable(c, w, mut, m) && mut.Wrapped? && mut.hook.Stop?
    ensures Run(c, w, mut, m) == (w, mut.hook.ok)
  {
    hide Fits, Targets, Check;
  }

  lemma FitsNumbered(c: Chain, w: World)
    requires Fits(c, w)
    ensures WellFormed(c) && Numbered(c.mutators) && |c.mutators| == |c.builders|
  {
  }

  lemma OwnerFits(c: Chain, w: World, i: nat)
    requires Fits(c, w) && i < |c.builders|
    ensures c.builders[i] in w.owner && w.owner[c.builders[i]] in w.held && Index(c.mutators[i]) == i
    ensures |w.specs| == |w.nodes| == |c.builders| == |c.mutators| && Targets(c.mutators[i], w.held.Keys)
  {
    assert c.mutators[i] in c.mutators;
  }

  lemma BaseFacts(c: Chain, w: World, i: nat, m: AccountMutation?)
    requires Runnable(c, w, Base(i), m)
    ensures i < |c.builders| == |c.mutators| == |w.specs| == |w.nodes| && (m != null ==> m in w.held) && Fits(c, w) && WellFormed(c)
    ensures c.builders[i] in w.owner && w.owner[c.builders[i]] in w.held
    ensures i + 1 < |c.builders| ==> c.builders[i + 1] in w.owner
    ensures Rejects(c, w, i, m) <==> m == null || Check(w.held[w.owner[c.builders[i]]].data, c.valid).Some?
    ensures Rejects(c, w, i, m) <==> !Accepts(c, FrontOf(w), i, m)
  {
    hide *;
    BaseRunnable(c, w, i, m);
    OwnerFits(c, w, i);
    FitsNumbered(c, w);
    if i + 1 < |c.builders| {
      OwnerFits(c, w, i + 1);
    }
    RejectsIs(c, w, i, m);
  }

  lemma BaseRunnable(c: Chain, w: World, i: nat, m: AccountMutation?)
    requires Runnable(c, w, Base(i), m)
    ensures Fits(c, w) && i < |c.builders| && (m != null ==> m in w.held)
  {
    hide Fits, Targets;
  }

  lemma RejectsIs(c: Chain, w: World, i: nat, m: AccountMutation?)
    requires Fits(c, w) && i < |c.builders| && (m != null ==> m in w.held)
    ensures c.builders[i] in w.owner && w.owner[c.builders[i]] in w.held
    ensures Rejects(c, w, i, m) <==> m == null || Check(w.held[w.owner[c.builders[i]]].data, c.valid).Some?
    ensures Rejects(c, w, i, m) <==> !Accepts(c, FrontOf(w), i, m)
  {
    OwnerFits(c, w, i);
    hide Check, Fits;
  }

  // ---- One write, or none ----

  /** The write happens exactly if every hook from here on calls the next mutator and every own mutator accepts. */
  lemma {:induction false} WritesIff(mutators: seq<Mutator>, mut: Mutator, passes: seq<bool>, inserted: bool)
    requires Numbered(mutators) && |passes| == |mutators| && Index(mut) < |mutators|
    ensures Outcome(mutators, mut, passes, inserted).wrote <==>
      && Calls(mut) && passes[Index(mut)]
      && forall j | Index(mut) < j < |mutators| :: Calls(mutators[j]) && passes[j]
    decreases |mutators| - Index(mut)
  {
    var i := Index(mut);
    if i + 1 < |mutators| {
      WritesIff(mutators, mutators[i + 1], passes, inserted);
    }
  }

  /** From `mut` on, every hook calls the next mutator, and every own mutator accepts. */
  ghost predicate AllAccept(c: Chain, f: Front, mut: Mutator, m: AccountMutation?)
    requires WellFormed(c)
  {
    && Calls(mut) && (forall j | Index(mut) < j < |c.mutators| :: Calls(c.mutators[j]))
    && forall k | Index(mut) <= k < |c.mutators| :: Accepted(c, f, mut, m, k)
  }

  /** For any hooks of this kind, and any mutations, shared or not: a run writes exactly if every hook from here on calls
      the next mutator and every builder's own mutator, with what its builder holds when it is reached, accepts. It then
      writes once, and gets the specifications of the mutations that were passed on, in builder order. */
  lemma WritesExactly(c: Chain, w: World, mut: Mutator, m: AccountMutation?)
    requires Runnable(c, w, mut, m)
    ensures WellFormed(c)
    ensures Run(c, w, mut, m).0.writes == if AllAccept(c, FrontOf(w), mut, m) then w.writes + [Args(c, w, mut, m)] else w.writes
  {
    hide Run, RunRest, Fits, Targets, Calls, Accepted, Args, Outcome, Index, FrontOf, CourseOf, AllAccept, Follows;
    RunnableFacts(c, w, mut, m);
    RunFollows(c, w, mut, m);
    CourseWrites(c, w, mut, m);
    FollowsIs(w, Run(c, w, mut, m), CourseOf(c, w, mut, m), Args(c, w, mut, m));
  }

  lemma CourseWrites(c: Chain, w: World, mut: Mutator, m: AccountMutation?)
    requires WellFormed(c) && Index(mut) < |c.builders| == |c.mutators|
    ensures CourseOf(c, w, mut, m).wrote <==> AllAccept(c, FrontOf(w), mut, m)
  {
    hide *;
    var passes := Passes(c, FrontOf(w), mut, m);
    CourseIs(c, w, mut, m);
    WritesIff(c.mutators, mut, passes, c.insert(Args(c, w, mut, m)).Some?);
    AllAcceptIs(c, FrontOf(w), mut, m);
  }

  lemma RunnableFacts(c: Chain, w: World, mut: Mutator, m: AccountMutation?)
    requires Runnable(c, w, mut, m)
    ensures WellFormed(c) && |c.mutators| == |c.builders| && Index(mut) < |c.builders|
  {
  }

  ghost predicate WritesFilled(w: World, r: World, upTo: nat)
    requires upTo <= |w.specs|
  {
    r.writes != w.writes ==>
      && |r.writes| == |w.writes| + 1 && r.writes[..|w.writes|] == w.writes
      && (var args := r.writes[|w.writes|];
          |args| == |w.specs| && args[..upTo] == w.specs[..upTo] && forall k | 0 <= k < |args| :: args[k].Some?)
  }

  /** For any hooks of this kind, a run attempts at most one write; it gets one specification per builder, in builder
      order, with no slot empty. */
  lemma OneFullWrite(c: Chain, w: World, mut: Mutator, m: AccountMutation?)
    requires Runnable(c, w, mut, m) && |w.specs| == |c.builders|
    requires forall k | 0 <= k < Index(mut) :: w.specs[k].Some?
    ensures WritesFilled(w, Run(c, w, mut, m).0, Index(mut))
  {
    RunnableFacts(c, w, mut, m);
    hide *;
    WritesExactly(c, w, mut, m);
    if AllAccept(c, FrontOf(w), mut, m) {
      ArgsAreFull(c, w, mut, m);
    }
    FullWrite(w, Run(c, w, mut, m).0, Args(c, w, mut, m), Index(mut));
  }

  lemma ArgsAreFull(c: Chain, w: World, mut: Mutator, m: AccountMutation?)
    requires WellFormed(c) && |w.specs| == |c.builders| == |c.mutators| && Index(mut) < |c.mutators|
    requires AllAccept(c, FrontOf(w), mut, m) && forall k | 0 <= k < Index(mut) :: w.specs[k].Some?
    ensures var args := Args(c, w, mut, m);
      && |args| == |w.specs| && (forall k | 0 <= k < |args| :: args[k].Some?)
      && forall k | 0 <= k < Index(mut) :: args[k] == w.specs[k]
  {
    AllAcceptIs(c, FrontOf(w), mut, m);
    hide *;
    var args := Args(c, w, mut, m);
    forall k | 0 <= k < |args| ensures args[k].Some? && (k < Index(mut) ==> args[k] == w.specs[k]) {
      ArgsAt(c, w, mut, m, k);
    }
  }

  lemma AllAcceptIs(c: Chain, f: Front, mut: Mutator, m: AccountMutation?)
    requires WellFormed(c) && Index(mut) < |c.mutators|
    ensures AllAccept(c, f, mut, m) ==> forall k | Index(mut) <= k < |c.mutators| :: Accepted(c, f, mut, m, k)
    ensures |Passes(c, f, mut, m)| == |c.mutators|
    ensures AllAccept(c, f, mut, m) <==>
      && Calls(mut) && Passes(c, f, mut, m)[Index(mut)]
      && forall j | Index(mut) < j < |c.mutators| :: Calls(c.mutators[j]) && Passes(c, f, mut, m)[j]
  {
    hide Accepted, Calls, WellFormed, Index;
    var passes := Passes(c, f, mut, m);
    assert forall k | Index(mut) <= k < |c.mutators| :: passes[k] <==> Accepted(c, f, mut, m, k);
  }

  lemma ArgsAt(c: Chain, w: World, mut: Mutator, m: AccountMutation?, k: nat)
    requires WellFormed(c) && k < |c.builders| == |w.specs|
    ensures if k < Index(mut) then Args(c, w, mut, m)[k] == w.specs[k]
            else Args(c, w, mut, m)[k] == SpecAt(c, FrontOf(w), mut, m, k)
    ensures Accepted(c, FrontOf(w), mut, m, k) ==> SpecAt(c, FrontOf(w), mut, m, k).Some?
  {
    hide Arrival, SpecOf, FrontOf, Check, WellFormed;
  }

  lemma FullWrite(w: World, r: World, args: seq<Option<Spec>>, upTo: nat)
    requires upTo <= |w.specs| && (r.writes == w.writes || r.writes == w.writes + [args])
    requires r.writes != w.writes ==> |args| == |w.specs| && forall k | 0 <= k < |args| :: args[k].Some?
    requires r.writes != w.writes ==> forall k | 0 <= k < upTo :: args[k] == w.specs[k]
    ensures WritesFilled(w, r, upTo)
  {
    if r.writes != w.writes {
      assert args[..upTo] == w.specs[..upTo];
    }
  }

  // ---- The whole save ----

  /** `Save`, once the defaults are in. */
  ghost function SaveRun(c: Chain, w: World): (World, bool)
    requires Fits(c, w)
  {
    if c.builders == [] then (w, true)
    else
      OwnerFits(c, w, 0);
      Run(c, w, c.mutators[0], w.owner[c.builders[0]])
  }

  lemma SaveRunIs(c: Chain, w: World)
    requires Fits(c, w)
    ensures |c.mutators| == |c.builders|
    ensures c.builders == [] ==> SaveRun(c, w) == (w, true)
    ensures c.builders != [] ==>
      && c.builders[0] in w.owner && Runnable(c, w, c.mutators[0], w.owner[c.builders[0]])
      && SaveRun(c, w) == Run(c, w, c.mutators[0], w.owner[c.builders[0]])
  {
    FitsNumbered(c, w);
    if c.builders != [] {
      OwnerFits(c, w, 0);
    }
    hide Fits, Run, Targets;
  }

  /** In this save, the own mutator of builder `k` is called, and accepts. */
  ghost predicate Agrees(c: Chain, w: World, k: nat)
    requires Fits(c, w)
  {
    c.builders != [] && (OwnerFits(c, w, 0); Accepted(c, FrontOf(w), c.mutators[0], w.owner[c.builders[0]], k))
  }

  /** In this save, the mutator of builder `k` is called: every builder before it let the chain through and accepted. */
  ghost predicate Started(c: Chain, w: World, k: nat)
    requires Fits(c, w)
  {
    forall j | 0 <= j < k :: Agrees(c, w, j)
  }

  /** In builder order. */
  ghost function SaveArgs(c: Chain, w: World): (args: seq<Option<Spec>>)
    requires Fits(c, w)
    ensures |args| == |c.builders|
  {
    if c.builders == [] then []
    else
      OwnerFits(c, w, 0);
      Args(c, w, c.mutators[0], w.owner[c.builders[0]])
  }

  ghost function Answers(c: Chain, w: World): (passes: seq<bool>)
    requires Fits(c, w)
    ensures |passes| == |c.builders|
  {
    seq(|c.builders|, k requires 0 <= k < |c.builders| => Agrees(c, w, k))
  }

  /** The course of a save. */
  lemma SaveFollows(c: Chain, w: World)
    requires Fits(c, w) && c.builders != []
    ensures Numbered(c.mutators) && |c.mutators| == |c.builders|
    ensures Follows(w, SaveRun(c, w), Outcome(c.mutators, c.mutators[0], Answers(c, w), c.insert(SaveArgs(c, w)).Some?), SaveArgs(c, w))
  {
    FirstCall(c, w);
    hide *;
    FitsNumbered(c, w);
    SaveRunIs(c, w);
    var m := w.owner[c.builders[0]];
    RunFollows(c, w, c.mutators[0], m);
    CourseIs(c, w, c.mutators[0], m);
  }

  lemma FirstCall(c: Chain, w: World)
    requires Fits(c, w) && c.builders != []
    ensures WellFormed(c) && |c.mutators| == |c.builders| && c.builders[0] in w.owner && Index(c.mutators[0]) == 0
    ensures var m := w.owner[c.builders[0]];
      Answers(c, w) == Passes(c, FrontOf(w), c.mutators[0], m) && SaveArgs(c, w) == Args(c, w, c.mutators[0], m)
  {
    FitsNumbered(c, w);
    OwnerFits(c, w, 0);
    hide Fits, Accepted, FrontOf, Args;
  }

  /** For any hooks of this kind: a save writes exactly if every own mutator is called, through hooks that all call the
      next one, and accepts. It then writes once, and gets the specifications of the mutations that were passed on. */
  lemma SaveWritesExactly(c: Chain, w: World)
    requires Fits(c, w) && c.builders != []
    ensures |c.mutators| == |c.builders|
    ensures SaveRun(c, w).0.writes == if Started(c, w, |c.builders|) then w.writes + [SaveArgs(c, w)] else w.writes
    ensures Started(c, w, |c.builders|) ==> forall k | 0 <= k < |c.builders| :: Calls(c.mutators[k])
  {
    hide *;
    var n, inserted := |c.builders|, c.insert(SaveArgs(c, w)).Some?;
    SaveFollows(c, w);
    FitsFacts(c, w);
    ReachedIsStarted(c, w, n);
    ReachedIs(c.mutators, Answers(c, w));
    WritesIff(c.mutators, c.mutators[0], Answers(c, w), inserted);
    FollowsIs(w, SaveRun(c, w), Outcome(c.mutators, c.mutators[0], Answers(c, w), inserted), SaveArgs(c, w));
  }

  lemma FitsFacts(c: Chain, w: World)
    requires Fits(c, w)
    ensures |c.mutators| == |c.builders| && forall k | 0 <= k < |c.mutators| :: Index(c.mutators[k]) == k
  {
    hide Targets, Index;
  }

  lemma ReachedIs(mutators: seq<Mutator>, passes: seq<bool>)
    requires |passes| == |mutators|
    ensures Reached(mutators, passes, 0, |mutators|) <==> forall j | 0 <= j < |mutators| :: Calls(mutators[j]) && passes[j]
  {
    hide Calls;
  }

  /** The mutations that hooks may pass on, and the ones the builders hold, are all there. */
  ghost predicate Known(c: Chain, f: Front) {
    (forall mut | mut in c.mutators :: Targets(mut, f.data.Keys)) && forall b | b in f.owner :: f.owner[b] in f.data
  }

  lemma {:induction false} DescendKeeps(f: Front, mut: Mutator, m: AccountMutation?)
    requires Targets(mut, f.data.Keys) && (m != null ==> m in f.data)
    ensures var (f1, m1) := Descend(f, mut, m);
      f1.owner == f.owner && f1.data.Keys == f.data.Keys && (m1 != null ==> m1 in f1.data)
    decreases mut
  {
    if mut.Wrapped? && mut.hook.Next? {
      InnerTargets(mut, f.data.Keys);
      var f1 := EditedFront(f, m, mut.hook.edit);
      assert f1.data.Keys == f.data.Keys;
      hide Targets, EditedFront;
      DescendKeeps(f1, mut.inner, Passed(mut.hook.pass, m));
    }
  }

  lemma KnownOnward(c: Chain, f: Front, f2: Front, i: nat, m: AccountMutation)
    requires WellFormed(c) && Distinct(c.builders) && i + 1 < |c.builders| && Known(c, f) && f2.data.Keys == f.data.Keys
    requires c.builders[i] in f2.owner && f2.owner[c.builders[i]] == m && m in f.data && f2.owner.Keys == f.owner.Keys
    requires forall b | b in f.owner && b != c.builders[i] :: f2.owner[b] == f.owner[b]
    ensures Known(c, f2) && Targets(c.mutators[i + 1], f2.data.Keys) && Index(c.mutators[i + 1]) == i + 1
    ensures forall k | i < k < |c.builders| && c.builders[k] in f.owner :: f2.owner[c.builders[k]] == f.owner[c.builders[k]]
    ensures |c.mutators| == |c.builders| && forall b | b in f2.owner :: f2.owner[b] in f2.data
  {
    hide Targets, Index;
    assert c.mutators[i + 1] in c.mutators;
  }

  /** A builder that is reached still holds the mutation it started with. */
  lemma {:induction false} ArrivalKeeps(c: Chain, f: Front, mut: Mutator, m: AccountMutation?, k: nat)
    requires WellFormed(c) && Distinct(c.builders) && Index(mut) <= k < |c.builders| && Arrival(c, f, mut, m, k).Some?
    requires Known(c, f) && Targets(mut, f.data.Keys) && (m != null ==> m in f.data)
    ensures var (f1, m1) := Arrival(c, f, mut, m, k).value;
      && f1.data.Keys == f.data.Keys && (m1 != null ==> m1 in f1.data) && f1.owner.Keys == f.owner.Keys
      && (c.builders[k] in f.owner ==> f1.owner[c.builders[k]] == f.owner[c.builders[k]])
    decreases |c.mutators| - Index(mut)
  {
    hide *;
    ArrivalStep(c, f, mut, m, k);
    DescendKeeps(f, mut, m);
    var i := Index(mut);
    var f1, m1 := Descend(f, mut, m).0, Descend(f, mut, m).1;
    if k > i {
      HandoverKeeps(c, f1, i, m1);
      var f2, m2 := Handover(c, f1, i, m1).value.0, Handover(c, f1, i, m1).value.1;
      KnownOnward(c, f, f2, i, m1);
      ArrivalKeeps(c, f2, c.mutators[i + 1], m2, k);
    }
  }

  /** The front in which, in this save, the own mutator of builder `k` is called, and with which mutation. */
  ghost function CalledWith(c: Chain, w: World, k: nat): Option<(Front, AccountMutation?)>
    requires Fits(c, w) && c.builders != []
  {
    OwnerFits(c, w, 0);
    Arrival(c, FrontOf(w), c.mutators[0], w.owner[c.builders[0]], k)
  }

  /** With distinct builders, the own mutator of builder `k` accepts exactly if it is called with an account mutation and
      the mutation that the builder has held from the start, with the data it has by then, passes its check. */
  lemma AgreesIff(c: Chain, w: World, k: nat)
    requires Fits(c, w) && Distinct(c.builders) && k < |c.builders|
    ensures Agrees(c, w, k) <==>
      && CalledWith(c, w, k).Some? && CalledWith(c, w, k).value.1 != null
      && (var data := CalledWith(c, w, k).value.0.data;
          OwnerOf(c, w, k) in data && Check(data[OwnerOf(c, w, k)], c.valid).None?)
  {
    FitsNumbered(c, w);
    OwnerFits(c, w, 0);
    OwnerFits(c, w, k);
    assert FrontOf(w).data.Keys == w.held.Keys && FrontOf(w).owner == w.owner;
    if CalledWith(c, w, k).Some? {
      ArrivalKeeps(c, FrontOf(w), c.mutators[0], w.owner[c.builders[0]], k);
    }
    hide Arrival, Check, FrontOf, Targets, Index;
  }

  // ---- The finished builders form a suffix ----

  /** n - 1, n - 2, down to k. */
  function DownTo(n: nat, k: nat): (r: seq<nat>)
    requires k <= n
    ensures |r| == n - k && forall j | 0 <= j < n - k :: r[j] == n - 1 - j
    decreases n - k
  {
    if k == n then [] else DownTo(n, k + 1) + [k]
  }

  predicate AllOrNone(finished: seq<nat>, n: nat) {
    finished == [] || finished == DownTo(n, 0)
  }

  ghost predicate IsSuffix(finished: seq<nat>, n: nat) {
    exists k | 0 <= k <= n :: finished == DownTo(n, k)
  }

  /** From builder `i` on, the chain gets as far as the mutator of builder `k`. */
  predicate Reached(mutators: seq<Mutator>, passes: seq<bool>, i: nat, k: nat)
    requires |passes| == |mutators|
  {
    forall j | i <= j < k && j < |mutators| :: Calls(mutators[j]) && passes[j]
  }

  lemma {:induction false} HonestSuffix(mutators: seq<Mutator>, i: nat, passes: seq<bool>, inserted: bool) returns (k: nat)
    requires Numbered(mutators) && |passes| == |mutators| && i < |mutators|
    requires forall j | i < j < |mutators| && Reached(mutators, passes, i, j) :: Honest(mutators[j])
    ensures i <= k <= |mutators|
    ensures var o := Outcome(mutators, mutators[i], passes, inserted);
      && o.finished == DownTo(|mutators|, k)
      && (o.ok && Honest(mutators[i]) ==> k == i)
      && (k < |mutators| ==> o.wrote && inserted)
      && (k == |mutators| ==> o.ok == Verdict(mutators[i], false))
    decreases |mutators| - i
  {
    var n, mut := |mutators|, mutators[i];
    if !Calls(mut) || !passes[i] {
      k := n;
    } else if i + 1 < n {
      assert Reached(mutators, passes, i, i + 1);
      forall j | i + 1 < j < n && Reached(mutators, passes, i + 1, j) ensures Honest(mutators[j]) {
        assert Reached(mutators, passes, i, j);
      }
      k := HonestSuffix(mutators, i + 1, passes, inserted);
      if Outcome(mutators, mutators[i + 1], passes, inserted).ok {
        k := i;
      }
    } else {
      k := if inserted then i else n;
    }
  }

  /** When a builder that is reached has hooks that claim a success that did not happen, and the insert fails, then the
      first builder to finish is not the last one. */
  lemma {:induction false} FalseSuccess(mutators: seq<Mutator>, i: nat, k: nat, passes: seq<bool>)
    requires Numbered(mutators) && |passes| == |mutators| && i < k < |mutators|
    requires Reached(mutators, passes, i, k) && !Honest(mutators[k])
    ensures var o := Outcome(mutators, mutators[i], passes, false);
      o.finished != [] && o.finished[0] < |mutators| - 1
    decreases |mutators| - i
  {
    ReachedOnward(mutators, passes, i, k);
    OutcomeStep(mutators, i, passes, false);
    hide *;
    if j :| i + 1 < j < |mutators| && Reached(mutators, passes, i + 1, j) && !Honest(mutators[j]) {
      FalseSuccess(mutators, i + 1, j, passes);
    } else {
      var n := HonestSuffix(mutators, i + 1, passes, false);
      HonestIs(mutators[i + 1]);
    }
  }

  lemma HonestIs(mut: Mutator)
    ensures Honest(mut) <==> !Verdict(mut, false)
  {
  }

  lemma ReachedOnward(mutators: seq<Mutator>, passes: seq<bool>, i: nat, k: nat)
    requires |passes| == |mutators| && i < k < |mutators| && Reached(mutators, passes, i, k)
    ensures Calls(mutators[i]) && passes[i] && Reached(mutators, passes, i + 1, k)
  {
    hide Calls;
  }

  lemma OutcomeStep(mutators: seq<Mutator>, i: nat, passes: seq<bool>, inserted: bool)
    requires Numbered(mutators) && |passes| == |mutators| && i + 1 < |mutators| && Calls(mutators[i]) && passes[i]
    ensures Index(mutators[i + 1]) == i + 1 && Index(mutators[i]) == i
    ensures var rest := Outcome(mutators, mutators[i + 1], passes, inserted);
      Outcome(mutators, mutators[i], passes, inserted)
        == Course(if rest.ok then rest.finished + [i] else rest.finished, Verdict(mutators[i], rest.ok), rest.wrote)
  {
    hide Calls, Verdict;
  }

  lemma ReachedIsStarted(c: Chain, w: World, k: nat)
    requires Fits(c, w) && k <= |c.builders| && c.builders != []
    ensures |c.mutators| == |c.builders|
    ensures Started(c, w, k) ==> Reached(c.mutators, Answers(c, w), 0, k)
    ensures Reached(c.mutators, Answers(c, w), 0, k) ==> Started(c, w, k)
  {
    FitsNumbered(c, w);
    OwnerFits(c, w, 0);
    hide Fits, Accepts, FrontOf;
    if Started(c, w, k) {
      forall j | 0 <= j < k ensures Calls(c.mutators[j]) && Answers(c, w)[j] {
        assert Agrees(c, w, j);
        AcceptedCalls(c, FrontOf(w), c.mutators[0], w.owner[c.builders[0]], j);
      }
    }
    if Reached(c.mutators, Answers(c, w), 0, k) {
      forall j | 0 <= j < k ensures Agrees(c, w, j) {
        assert Answers(c, w)[j];
      }
    }
  }

  /** A mutator is only called through hooks that call it. */
  lemma {:induction false} AcceptedCalls(c: Chain, f: Front, mut: Mutator, m: AccountMutation?, k: nat)
    requires WellFormed(c) && Index(mut) <= k < |c.mutators| && Arrival(c, f, mut, m, k).Some?
    ensures Calls(if k == Index(mut) then mut else c.mutators[k])
    decreases |c.mutators| - Index(mut)
  {
    hide *;
    ArrivalStep(c, f, mut, m, k);
    var i := Index(mut);
    if k > i {
      var call := Handover(c, Descend(f, mut, m).0, i, Descend(f, mut, m).1).value;
      AcceptedCalls(c, call.0, c.mutators[i + 1], call.1, k);
    }
  }

  /** A save with the database answering as `insert` does. */
  ghost function SaveWith(c: Chain, w: World, insert: Insert): (World, bool)
    requires Fits(c, w)
  {
    InsertFits(c, w, insert);
    SaveRun(c.(insert := insert), w)
  }

  lemma InsertFits(c: Chain, w: World, insert: Insert)
    requires Fits(c, w)
    ensures Fits(c.(insert := insert), w)
  {
    hide Targets, Index;
  }

  /** Who is called and accepts does not depend on the database. */
  lemma AnswersAnyInsert(c: Chain, w: World, insert: Insert)
    requires Fits(c, w)
    ensures var d := c.(insert := insert); Fits(d, w) && Answers(d, w) == Answers(c, w) && SaveArgs(d, w) == SaveArgs(c, w)
  {
    InsertFits(c, w, insert);
    var d := c.(insert := insert);
    if c.builders != [] {
      OwnerFits(c, w, 0);
      OwnerFits(d, w, 0);
      FitsNumbered(c, w);
      FitsNumbered(d, w);
      var mut, m := c.mutators[0], w.owner[c.builders[0]];
      forall k: nat ensures Arrival(d, FrontOf(w), mut, m, k) == Arrival(c, FrontOf(w), mut, m, k) {
        ArrivalAnyInsert(c, d, FrontOf(w), mut, m, k);
      }
      hide Fits, Arrival, FrontOf, SpecOf, Check;
      assert forall k: nat :: Agrees(d, w, k) <==> Agrees(c, w, k);
      assert SaveArgs(d, w) == SaveArgs(c, w);
    }
  }

  lemma {:induction false} ArrivalAnyInsert(c: Chain, d: Chain, f: Front, mut: Mutator, m: AccountMutation?, k: nat)
    requires WellFormed(c) && WellFormed(d) && d == c.(insert := d.insert)
    ensures Arrival(d, f, mut, m, k) == Arrival(c, f, mut, m, k)
    decreases |c.mutators| - Index(mut)
  {
    hide Check, Descend;
    var i := Index(mut);
    var (f1, m1) := Descend(f, mut, m);
    if Calls(mut) && k > i {
      assert Handover(d, f1, i, m1) == Handover(c, f1, i, m1);
      if Handover(c, f1, i, m1).Some? {
        var (f2, m2) := Handover(c, f1, i, m1).value;
        ArrivalAnyInsert(c, d, f2, c.mutators[i + 1], m2, k);
      }
    }
  }

  /** The finished builders of a save, from empty slots, with any insert. */
  lemma SaveWithFollows(c: Chain, w: World, insert: Insert)
    requires Fits(c, w) && c.builders != [] && w.finished == []
    ensures Numbered(c.mutators) && |c.mutators| == |c.builders|
    ensures SaveWith(c, w, insert).0.finished
         == Outcome(c.mutators, c.mutators[0], Answers(c, w), insert(SaveArgs(c, w)).Some?).finished
  {
    var d := c.(insert := insert);
    AnswersAnyInsert(c, w, insert);
    SaveFollows(d, w);
    FitsNumbered(c, w);
    hide Fits, Outcome, Answers, SaveArgs, SaveRun, Numbered;
  }

  /** No builder after the first whose mutator is called in this save has hooks that claim a success that did not
      happen. */
  ghost predicate HonestWhereCalled(c: Chain, w: World)
    requires Fits(c, w)
  {
    |c.mutators| == |c.builders| && forall k | 1 <= k < |c.builders| && Started(c, w, k) :: Honest(c.mutators[k])
  }

  lemma HonestWhereReached(c: Chain, w: World)
    requires Fits(c, w) && c.builders != []
    ensures |c.mutators| == |c.builders|
    ensures HonestWhereCalled(c, w) <==>
      forall k | 1 <= k < |c.builders| && Reached(c.mutators, Answers(c, w), 0, k) :: Honest(c.mutators[k])
  {
    FitsFacts(c, w);
    hide Fits, Reached, Started, Honest, Answers;
    forall k | 0 <= k <= |c.builders| ensures Started(c, w, k) <==> Reached(c.mutators, Answers(c, w), 0, k) {
      ReachedIsStarted(c, w, k);
    }
  }

  /** For any builders, hooks of this kind, validators and mutations: the builders that finish form a suffix, whatever
      the database answers, exactly if no builder after the first whose mutator is called has hooks that claim a success
      that did not happen. */
  lemma SuffixIff(c: Chain, w: World)
    requires Fits(c, w) && w.finished == []
    ensures (forall insert: Insert :: IsSuffix(SaveWith(c, w, insert).0.finished, |c.builders|)) <==> HonestWhereCalled(c, w)
  {
    if c.builders == [] {
      FitsFacts(c, w);
      hide Fits, SaveWith, Started;
      NothingToSave(c, w);
    } else {
      hide *;
      HonestWhereReached(c, w);
      if HonestWhereCalled(c, w) {
        forall insert: Insert ensures IsSuffix(SaveWith(c, w, insert).0.finished, |c.builders|) {
          HonestSave(c, w, insert);
        }
      } else {
        FalseSave(c, w);
      }
    }
  }

  lemma NothingToSave(c: Chain, w: World)
    requires Fits(c, w) && w.finished == [] && c.builders == []
    ensures forall insert: Insert :: SaveWith(c, w, insert).0.finished == [] && IsSuffix(SaveWith(c, w, insert).0.finished, 0)
  {
    assert DownTo(0, 0) == [];
  }

  lemma HonestSave(c: Chain, w: World, insert: Insert)
    requires Fits(c, w) && w.finished == [] && c.builders != [] && |c.mutators| == |c.builders|
    requires forall k | 1 <= k < |c.builders| && Reached(c.mutators, Answers(c, w), 0, k) :: Honest(c.mutators[k])
    ensures IsSuffix(SaveWith(c, w, insert).0.finished, |c.builders|)
  {
    SaveWithFollows(c, w, insert);
    hide Fits, Outcome, Reached, Honest, Answers, SaveArgs, SaveWith, Numbered;
    var k := HonestSuffix(c.mutators, 0, Answers(c, w), insert(SaveArgs(c, w)).Some?);
  }

  /** The database that accepts nothing. */
  const NO_INSERT: Insert := _ => None

  lemma FalseSave(c: Chain, w: World)
    requires Fits(c, w) && w.finished == [] && c.builders != [] && !HonestWhereCalled(c, w)
    ensures !IsSuffix(SaveWith(c, w, NO_INSERT).0.finished, |c.builders|)
    ensures !AllOrNone(SaveWith(c, w, NO_INSERT).0.finished, |c.builders|)
  {
    NoInsert(SaveArgs(c, w));
    hide *;
    HonestWhereReached(c, w);
    SaveWithFollows(c, w, NO_INSERT);
    var k :| 1 <= k < |c.builders| && Reached(c.mutators, Answers(c, w), 0, k) && !Honest(c.mutators[k]);
    FalseSuccess(c.mutators, 0, k, Answers(c, w));
    NotASuffix(SaveWith(c, w, NO_INSERT).0.finished, |c.builders|);
  }

  lemma NoInsert(args: seq<Option<Spec>>)
    ensures NO_INSERT(args) == None
  {
  }

  lemma NotASuffix(finished: seq<nat>, n: nat)
    requires finished != [] && finished[0] < n - 1
    ensures !IsSuffix(finished, n) && !AllOrNone(finished, n)
  {
    assert forall k | 0 <= k < n :: DownTo(n, k)[0] == n - 1;
  }

  /** With hooks that are honest wherever a mutator is called: the builders that finish form a suffix, finishing from the
      last one back; any that finishes does so after the insert succeeded; and if the first builder's hooks are honest
      too, a successful save has finished them all. */
  lemma SaveFinishesSuffix(c: Chain, w: World) returns (k: nat)
    requires Fits(c, w) && HonestWhereCalled(c, w)
    ensures k <= |c.builders|
    ensures var (r, ok) := SaveRun(c, w);
      && r.finished == w.finished + DownTo(|c.builders|, k)
      && (k < |c.builders| ==> r.writes == w.writes + [SaveArgs(c, w)] && c.insert(SaveArgs(c, w)).Some?)
      && (ok && (c.mutators != [] ==> Honest(c.mutators[0])) ==> k == 0)
  {
    if c.builders == [] {
      k := 0;
      SaveRunIs(c, w);
      assert w.finished + [] == w.finished;
    } else {
      hide *;
      SaveFollows(c, w);
      HonestWhereReached(c, w);
      var inserted := c.insert(SaveArgs(c, w)).Some?;
      FollowsIs(w, SaveRun(c, w), Outcome(c.mutators, c.mutators[0], Answers(c, w), inserted), SaveArgs(c, w));
      k := HonestSuffix(c.mutators, 0, Answers(c, w), c.insert(SaveArgs(c, w)).Some?);
    }
  }

  // ---- All builders finish, or none ----

  /** Once all builders accept, no builder after the first has hooks that turn a success into an error. */
  ghost predicate KeepsSuccess(c: Chain, w: World)
    requires Fits(c, w)
  {
    |c.mutators| == |c.builders| && (Started(c, w, |c.builders|) ==> forall k | 1 <= k < |c.builders| :: Verdict(c.mutators[k], true))
  }

  /** For any builders, hooks of this kind, validators and mutations: all builders finish or none does, whatever the
      database answers, exactly if no builder after the first has hooks that claim a success that did not happen where
      its mutator is called, or hooks that turn a success into an error where all builders accept. */
  lemma AllOrNoneIff(c: Chain, w: World)
    requires Fits(c, w) && w.finished == []
    ensures (forall insert: Insert :: AllOrNone(SaveWith(c, w, insert).0.finished, |c.builders|))
       <==> HonestWhereCalled(c, w) && KeepsSuccess(c, w)
  {
    if c.builders == [] {
      FitsFacts(c, w);
      hide Fits, SaveWith, Started;
      NothingToSave(c, w);
    } else {
      hide *;
      HonestWhereReached(c, w);
      KeepsWhereReached(c, w);
      if !HonestWhereCalled(c, w) {
        FalseSave(c, w);
      } else if !KeepsSuccess(c, w) {
        InterruptedSave(c, w);
      } else {
        forall insert: Insert ensures AllOrNone(SaveWith(c, w, insert).0.finished, |c.builders|) {
          UninterruptedSave(c, w, insert);
        }
      }
    }
  }

  lemma KeepsWhereReached(c: Chain, w: World)
    requires Fits(c, w) && c.builders != []
    ensures |c.mutators| == |c.builders|
    ensures KeepsSuccess(c, w) <==>
      (Reached(c.mutators, Answers(c, w), 0, |c.builders|) ==> forall k | 1 <= k < |c.builders| :: Verdict(c.mutators[k], true))
  {
    FitsFacts(c, w);
    ReachedIsStarted(c, w, |c.builders|);
    hide Fits, Reached, Started, Verdict, Answers;
  }

  /** The database that inserts everything and tells no ids. */
  const ANY_INSERT: Insert := _ => Some([])

  lemma InterruptedSave(c: Chain, w: World)
    requires Fits(c, w) && w.finished == [] && c.builders != [] && HonestWhereCalled(c, w) && !KeepsSuccess(c, w)
    ensures !AllOrNone(SaveWith(c, w, ANY_INSERT).0.finished, |c.builders|)
  {
    AnyInsert(SaveArgs(c, w));
    hide *;
    HonestWhereReached(c, w);
    KeepsWhereReached(c, w);
    SaveWithFollows(c, w, ANY_INSERT);
    AllHonest(c.mutators, Answers(c, w));
    var k :| 1 <= k < |c.builders| && !Verdict(c.mutators[k], true);
    Interrupted(c.mutators, 0, k, Answers(c, w));
    NotAll(SaveWith(c, w, ANY_INSERT).0.finished, |c.builders|);
  }

  lemma AllHonest(mutators: seq<Mutator>, passes: seq<bool>)
    requires |passes| == |mutators| && Reached(mutators, passes, 0, |mutators|)
    requires forall k | 1 <= k < |mutators| && Reached(mutators, passes, 0, k) :: Honest(mutators[k])
    ensures forall j | 0 <= j < |mutators| :: Calls(mutators[j]) && passes[j]
    ensures forall j | 1 <= j < |mutators| :: Honest(mutators[j])
  {
    hide Calls, Honest;
    forall j | 1 <= j < |mutators| ensures Honest(mutators[j]) {
      assert Reached(mutators, passes, 0, j);
    }
  }

  lemma NotAll(finished: seq<nat>, n: nat)
    requires n > 0 && finished != [] && 0 !in finished
    ensures !AllOrNone(finished, n)
  {
    assert DownTo(n, 0)[n - 1] == 0;
  }

  lemma AnyInsert(args: seq<Option<Spec>>)
    ensures ANY_INSERT(args).Some?
  {
  }

  lemma UninterruptedSave(c: Chain, w: World, insert: Insert)
    requires Fits(c, w) && w.finished == [] && c.builders != [] && HonestWhereCalled(c, w) && KeepsSuccess(c, w)
    ensures AllOrNone(SaveWith(c, w, insert).0.finished, |c.builders|)
  {
    HonestWhereReached(c, w);
    KeepsWhereReached(c, w);
    SaveWithFollows(c, w, insert);
    FromStart(c.mutators, Answers(c, w));
    hide *;
    Uninterrupted(c.mutators, 0, Answers(c, w), insert(SaveArgs(c, w)).Some?);
    AllOrNoneIs(SaveWith(c, w, insert).0.finished, |c.builders|);
  }

  lemma FromStart(mutators: seq<Mutator>, passes: seq<bool>)
    requires |passes| == |mutators|
    ensures Reached(mutators, passes, 0, 0)
  {
  }

  lemma AllOrNoneIs(finished: seq<nat>, n: nat)
    requires finished in {[], DownTo(n, 0)}
    ensures AllOrNone(finished, n)
  {
  }

  /** A hook stack that fails after its inner success leaves every builder before it unfinished. */
  lemma {:induction false} Interrupted(mutators: seq<Mutator>, i: nat, k: nat, passes: seq<bool>)
    requires Numbered(mutators) && |passes| == |mutators| && i <= k < |mutators|
    requires forall j | 0 <= j < |mutators| :: Calls(mutators[j]) && passes[j]
    requires forall j | 1 <= j < |mutators| :: Honest(mutators[j])
    requires k >= 1 && !Verdict(mutators[k], true)
    ensures var o := Outcome(mutators, mutators[i], passes, true);
      && o.finished != [] && (i < k ==> i !in o.finished) && (i >= 1 ==> !o.ok)
      && forall j | j in o.finished :: j >= i
    decreases |mutators| - i
  {
    if i < k {
      Interrupted(mutators, i + 1, k, passes);
    } else {
      FinishesLast(mutators, i, passes);
    }
  }

  lemma {:induction false} FinishesLast(mutators: seq<Mutator>, i: nat, passes: seq<bool>)
    requires Numbered(mutators) && |passes| == |mutators| && i < |mutators|
    requires forall j | 0 <= j < |mutators| :: Calls(mutators[j]) && passes[j]
    ensures var o := Outcome(mutators, mutators[i], passes, true);
      o.finished != [] && forall j | j in o.finished :: j >= i
    decreases |mutators| - i
  {
    if i + 1 < |mutators| {
      FinishesLast(mutators, i + 1, passes);
    }
  }

  lemma {:induction false} Uninterrupted(mutators: seq<Mutator>, i: nat, passes: seq<bool>, inserted: bool)
    requires Numbered(mutators) && |passes| == |mutators| && i < |mutators| && Reached(mutators, passes, 0, i)
    requires forall k | 1 <= k < |mutators| && Reached(mutators, passes, 0, k) :: Honest(mutators[k])
    requires Reached(mutators, passes, 0, |mutators|) ==> forall k | 1 <= k < |mutators| :: Verdict(mutators[k], true)
    ensures var o := Outcome(mutators, mutators[i], passes, inserted);
      && o.finished in {[], DownTo(|mutators|, i)}
      && (o.finished != [] ==> forall j | i <= j < |mutators| :: Calls(mutators[j]) && passes[j])
      && (i >= 1 ==> (o.ok <==> o.finished != []))
    decreases |mutators| - i
  {
    var n, mut := |mutators|, mutators[i];
    if Calls(mut) && passes[i] {
      assert Reached(mutators, passes, 0, i + 1);
      if i + 1 < n {
        Uninterrupted(mutators, i + 1, passes, inserted);
      }
    }
  }

  // ---- Hooks that pass their mutation on: what is written, and when ----

  predicate Plain(mut: Mutator) {
    match mut
    case Base(_) => true
    case Wrapped(hook, inner) => (hook.Next? ==> hook.pass.Same?) && Plain(inner)
  }

  /** All the hooks' edits, from the outermost in. */
  function EditAll(mut: Mutator, d: Mutation): Mutation {
    match mut
    case Wrapped(Next(edit, _, _, _), inner) => EditAll(inner, edit(d))
    case _ => d
  }

  /** Builder `k`'s mutation once its hooks have edited it. */
  ghost function Final(c: Chain, w: World, k: nat): Mutation
    requires Fits(c, w) && k < |c.builders|
  {
    OwnerFits(c, w, k);
    EditAll(c.mutators[k], w.held[w.owner[c.builders[k]]].data)
  }

  /** From builder `i` on, no two builders share a mutation. */
  ghost predicate Apart(c: Chain, w: World, i: nat)
    requires Fits(c, w)
  {
    forall j, k | i <= j < k < |c.builders| :: OwnerOf(c, w, j) != OwnerOf(c, w, k)
  }

  ghost function OwnerOf(c: Chain, w: World, k: nat): (m: AccountMutation)
    requires Fits(c, w) && k < |c.builders|
    ensures m in w.held
  {
    OwnerFits(c, w, k);
    w.owner[c.builders[k]]
  }

  function SetData(w: World, m: AccountMutation, d: Mutation): World
    requires m in w.held
  {
    w.(held := w.held[m := w.held[m].(data := d)])
  }

  /** A stack of hooks that all pass their mutation on edits it and hands it to the builder's own mutator. */
  lemma {:induction false} PlainStack(c: Chain, w: World, mut: Mutator, m: AccountMutation)
    requires Runnable(c, w, mut, m) && Plain(mut) && Calls(mut)
    ensures var w1 := SetData(w, m, EditAll(mut, w.held[m].data));
      && Runnable(c, w1, Base(Index(mut)), m)
      && var (after, ok) := Run(c, w1, Base(Index(mut)), m);
         Run(c, w, mut, m) == (after, Verdict(mut, ok))
    decreases Depth(mut)
  {
    hide Run, Fits, Targets;
    if mut.Base? {
      SetSame(w, m);
    } else {
      RunNext(c, w, mut, m);
      PlainStack(c, Edited(w, m, mut.hook.edit), mut.inner, m);
      SetTwice(w, m, mut.hook.edit, EditAll(mut, w.held[m].data));
    }
  }

  lemma SetSame(w: World, m: AccountMutation)
    requires m in w.held
    ensures SetData(w, m, w.held[m].data) == w
  {
    assert w.held[m := w.held[m]] == w.held;
  }

  lemma SetTwice(w: World, m: AccountMutation, edit: Mutation -> Mutation, d: Mutation)
    requires m in w.held
    ensures m in Edited(w, m, edit).held && SetData(Edited(w, m, edit), m, d) == SetData(w, m, d)
    ensures Edited(w, m, edit).held[m].data == edit(w.held[m].data)
  {
    assert Edited(w, m, edit).held[m := w.held[m].(data := d)] == w.held[m := w.held[m].(data := d)];
  }

  /** A stack that stops early leaves no trace but edits. */
  lemma {:induction false} PlainStopped(c: Chain, w: World, mut: Mutator, m: AccountMutation)
    requires Runnable(c, w, mut, m) && Plain(mut) && !Calls(mut)
    ensures var r := Run(c, w, mut, m).0;
      && r.writes == w.writes && r.specs == w.specs && r.nodes == w.nodes && r.finished == w.finished && r.owner == w.owner
      && forall o | o in w.held :: o in r.held && (o != m ==> r.held[o] == w.held[o]) && r.held[o].done == w.held[o].done
    decreases Depth(mut)
  {
    hide Run, Fits, Targets;
    if mut.hook.Stop? {
      RunStop(c, w, mut, m);
    } else {
      RunNext(c, w, mut, m);
      PlainStopped(c, Edited(w, m, mut.hook.edit), mut.inner, m);
    }
  }

  ghost predicate Good(c: Chain, w: World, k: nat)
    requires Fits(c, w) && k < |c.builders|
  {
    k < |c.mutators| && Calls(c.mutators[k]) && Check(Final(c, w, k), c.valid).None?
  }

  /** One more write than before, of the slots below `i` as they were and of every later builder's edited mutation. */
  ghost predicate WroteFinals(c: Chain, w: World, i: nat, writes: seq<seq<Option<Spec>>>)
    requires Fits(c, w)
  {
    && |writes| == |w.writes| + 1 && writes[..|w.writes|] == w.writes
    && (var args := writes[|w.writes|];
        && |args| == |c.builders| == |w.specs|
        && (forall k | 0 <= k < i && k < |args| :: args[k] == w.specs[k])
        && (forall k | i <= k < |args| :: args[k] == Some(SpecOf(Final(c, w, k)))))
  }

  /** The world in which builder `i` hands over to the next one. */
  ghost function Onward(c: Chain, w: World, i: nat): World
    requires Fits(c, w) && i < |c.builders|
  {
    var m := OwnerOf(c, w, i);
    var w1 := SetData(w, m, Final(c, w, i));
    OwnerFits(c, w, i);
    Filled(w1, i, c.builders[i], m)
  }

  lemma OnwardFits(c: Chain, w: World, i: nat)
    requires Fits(c, w) && i < |c.builders|
    ensures Fits(c, Onward(c, w, i)) && Onward(c, w, i).owner == w.owner && Onward(c, w, i).writes == w.writes
    ensures Onward(c, w, i).specs == w.specs[i := Some(SpecOf(Final(c, w, i)))]
    ensures Onward(c, w, i).nodes == w.nodes[i := Some(NodeOf(Final(c, w, i)))]
    ensures Onward(c, w, i).finished == w.finished && Onward(c, w, i).held.Keys == w.held.Keys
    ensures forall o | o in w.held && o != OwnerOf(c, w, i) :: Onward(c, w, i).held[o] == w.held[o]
    ensures forall o | o in w.held :: Onward(c, w, i).held[o].done == w.held[o].done
  {
    hide *;
    var m, d := OwnerOf(c, w, i), Final(c, w, i);
    OwnerFits(c, w, i);
    OwnerIs(c, w, i);
    SetFits(c, w, m, d);
    OnwardIs(c, w, i);
    FillFits(c, SetData(w, m, d), i, m);
    FilledSet(w, i, c.builders[i], m, d);
  }

  lemma OnwardIs(c: Chain, w: World, i: nat)
    requires Fits(c, w) && i < |c.builders|
    ensures var m := OwnerOf(c, w, i);
      && i < |w.specs| == |w.nodes| && m in w.held && m in SetData(w, m, Final(c, w, i)).held
      && i < |SetData(w, m, Final(c, w, i)).specs| == |SetData(w, m, Final(c, w, i)).nodes|
      && Onward(c, w, i) == Filled(SetData(w, m, Final(c, w, i)), i, c.builders[i], m)
  {
    OwnerFits(c, w, i);
    hide Fits, OwnerOf, Final, Filled;
  }

  lemma FilledSet(w: World, i: nat, b: AccountCreate, m: AccountMutation, d: Mutation)
    requires i < |w.specs| == |w.nodes| && m in w.held && b in w.owner && w.owner[b] == m
    requires m in SetData(w, m, d).held && i < |SetData(w, m, d).specs| == |SetData(w, m, d).nodes|
    ensures var r := Filled(SetData(w, m, d), i, b, m);
      && r.owner == w.owner && r.writes == w.writes && r.finished == w.finished && r.held.Keys == w.held.Keys
      && r.specs == w.specs[i := Some(SpecOf(d))] && r.nodes == w.nodes[i := Some(NodeOf(d))]
      && (forall o | o in w.held && o != m :: r.held[o] == w.held[o])
      && (forall o | o in w.held :: r.held[o].done == w.held[o].done)
  {
    hide SpecOf, NodeOf;
    assert w.owner[b := m] == w.owner;
  }

  lemma SetFits(c: Chain, w: World, m: AccountMutation, d: Mutation)
    requires Fits(c, w) && m in w.held
    ensures Fits(c, SetData(w, m, d)) && SetData(w, m, d).held.Keys == w.held.Keys
  {
    hide Targets, Index;
    assert SetData(w, m, d).held.Keys == w.held.Keys;
  }

  /** A later builder's final mutation is not touched by an earlier one. */
  lemma FinalOnward(c: Chain, w: World, i: nat, k: nat)
    requires Fits(c, w) && i < k < |c.builders| && Apart(c, w, i)
    ensures Fits(c, Onward(c, w, i)) && Final(c, Onward(c, w, i), k) == Final(c, w, k)
    ensures OwnerOf(c, Onward(c, w, i), k) == OwnerOf(c, w, k)
  {
    OnwardFits(c, w, i);
    OwnerFits(c, w, k);
    hide Fits, Onward;
    assert OwnerOf(c, w, i) != OwnerOf(c, w, k);
  }

  lemma ApartOnward(c: Chain, w: World, i: nat)
    requires Fits(c, w) && i < |c.builders| && Apart(c, w, i)
    ensures Fits(c, Onward(c, w, i)) && Apart(c, Onward(c, w, i), i + 1)
  {
    OnwardFits(c, w, i);
    hide Fits, Onward;
    forall j, k | i + 1 <= j < k < |c.builders| ensures OwnerOf(c, Onward(c, w, i), j) != OwnerOf(c, Onward(c, w, i), k) {
      FinalOnward(c, w, i, j);
      FinalOnward(c, w, i, k);
    }
  }

  /** A builder with a good plain stack: its mutator runs on the edited mutation, fills its slot and goes on. */
  lemma GoodStep(c: Chain, w: World, i: nat)
    requires Fits(c, w) && i < |c.builders| && Plain(c.mutators[i]) && Calls(c.mutators[i])
    ensures Runnable(c, w, c.mutators[i], OwnerOf(c, w, i)) && Fits(c, Onward(c, w, i))
    ensures var r := Run(c, w, c.mutators[i], OwnerOf(c, w, i));
      if Good(c, w, i) then
        var (after, ok) := RunRest(c, Onward(c, w, i), i);
        && i < |after.specs| == |after.nodes| && OwnerOf(c, w, i) in after.held
        && r == (if ok then Completed(after, i, OwnerOf(c, w, i)) else after, Verdict(c.mutators[i], ok))
      else
        r == (SetData(w, OwnerOf(c, w, i), Final(c, w, i)), Verdict(c.mutators[i], false))
  {
    OwnerFits(c, w, i);
    OnwardFits(c, w, i);
    var m := OwnerOf(c, w, i);
    PlainStack(c, w, c.mutators[i], m);
    var w1 := SetData(w, m, Final(c, w, i));
    RunBase(c, w1, i, m);
    hide Run, RunRest, Targets, Check, Completed, EditAll, Calls, Plain, Verdict;
    assert w1.owner[c.builders[i]] == m && w1.held[m].data == Final(c, w, i);
  }

  /** For hooks that pass their mutation on, and builders with mutations of their own: the write happens exactly if
      every hook of every builder calls the next one and every edited mutation passes its check, and it then gets the
      specification of every builder's edited mutation, in builder order. */
  lemma {:induction false} PlainWrites(c: Chain, w: World, i: nat)
    requires Fits(c, w) && i < |c.builders| && Apart(c, w, i)
    requires forall k | i <= k < |c.mutators| :: Plain(c.mutators[k])
    ensures Runnable(c, w, c.mutators[i], OwnerOf(c, w, i))
    ensures var writes := Run(c, w, c.mutators[i], OwnerOf(c, w, i)).0.writes;
      if forall k | i <= k < |c.builders| :: Good(c, w, k) then WroteFinals(c, w, i, writes) else writes == w.writes
    decreases |c.builders| - i
  {
    hide Fits, Run, RunRest, Targets, SpecOf, NodeOf, Check, EditAll, Calls, Plain, Verdict, Apart, Onward, Good, WroteFinals, Final,
      OwnerOf, SetData;
    OwnerFits(c, w, i);
    OwnerIs(c, w, i);
    var mut, m := c.mutators[i], OwnerOf(c, w, i);
    if !Calls(mut) {
      PlainStopped(c, w, mut, m);
      StoppedIsNotGood(c, w, i);
    } else {
      GoodStep(c, w, i);
      SetKeepsFlags(w, m, Final(c, w, i));
      if Good(c, w, i) {
        var w1 := Onward(c, w, i);
        OnwardFits(c, w, i);
        RunRestIs(c, w1, i);
        GoodOnward(c, w, i);
        if i + 1 < |c.builders| {
          ApartOnward(c, w, i);
          OwnerIs(c, w1, i + 1);
          PlainWrites(c, w1, i + 1);
        }
        if forall k | i < k < |c.builders| :: Good(c, w, k) {
          WritesOnward(c, w, i, RunRest(c, w1, i).0.writes);
        }
      }
    }
  }

  lemma StoppedIsNotGood(c: Chain, w: World, i: nat)
    requires Fits(c, w) && i < |c.builders| == |c.mutators| && !Calls(c.mutators[i])
    ensures !Good(c, w, i)
  {
  }

  lemma GoodOnward(c: Chain, w: World, i: nat)
    requires Fits(c, w) && i < |c.builders| && Apart(c, w, i)
    ensures Fits(c, Onward(c, w, i))
    ensures forall k | i < k < |c.builders| :: Good(c, Onward(c, w, i), k) <==> Good(c, w, k)
  {
    OnwardFits(c, w, i);
    hide Fits, Onward, Final, Check, Apart;
    forall k | i < k < |c.builders| ensures Good(c, Onward(c, w, i), k) <==> Good(c, w, k) {
      FinalOnward(c, w, i, k);
    }
  }

  lemma WritesOnward(c: Chain, w: World, i: nat, writes: seq<seq<Option<Spec>>>)
    requires Fits(c, w) && i < |c.builders| && Apart(c, w, i) && Fits(c, Onward(c, w, i))
    requires if i + 1 < |c.builders| then WroteFinals(c, Onward(c, w, i), i + 1, writes)
      else writes == w.writes + [Onward(c, w, i).specs]
    ensures WroteFinals(c, w, i, writes)
  {
    hide Fits, Onward, Final, Apart, SpecOf, NodeOf, OwnerOf;
    OnwardFits(c, w, i);
    OwnerFits(c, w, i);
    forall k | i < k < |c.builders| ensures Final(c, Onward(c, w, i), k) == Final(c, w, k) {
      FinalOnward(c, w, i, k);
    }
  }

  // ---- Hooks that pass their mutation on: completion flags and results ----

  type Holdings = map<AccountMutation, Held>

  /** From builder `i` on, a mutation is flagged exactly if its builder finished in this run, and no mutation of
      anything but these builders is touched. */
  ghost predicate Flagged(own: seq<AccountMutation>, i: nat, held: Holdings, finished: seq<nat>, held': Holdings, finished': seq<nat>) {
    && held.Keys <= held'.Keys && (forall o | o in own :: o in held)
    && |finished| <= |finished'| && finished'[..|finished|] == finished
    && (forall k | k in finished'[|finished|..] :: i <= k < |own|)
    && (forall k | i <= k < |own| :: held'[own[k]].done <==> held[own[k]].done || k in finished'[|finished|..])
    && (forall o | o in held && forall k | i <= k < |own| :: own[k] != o :: held'[o] == held[o])
  }

  /** The builders' current mutations. */
  ghost function Owners(c: Chain, w: World): (own: seq<AccountMutation>)
    requires Fits(c, w)
    ensures |own| == |c.builders| && forall k | 0 <= k < |own| :: own[k] == OwnerOf(c, w, k)
  {
    seq(|c.builders|, k requires 0 <= k < |c.builders| => OwnerOf(c, w, k))
  }

  lemma {:induction false} PlainFlags(c: Chain, w: World, i: nat)
    requires Fits(c, w) && i < |c.builders| && Apart(c, w, i)
    requires forall k | i <= k < |c.mutators| :: Plain(c.mutators[k])
    ensures Runnable(c, w, c.mutators[i], OwnerOf(c, w, i))
    ensures var r := Run(c, w, c.mutators[i], OwnerOf(c, w, i)).0;
      Flagged(Owners(c, w), i, w.held, w.finished, r.held, r.finished)
    decreases |c.builders| - i
  {
    hide Fits, Run, RunRest, Targets, SpecOf, NodeOf, Check, EditAll, Calls, Plain, Verdict, Apart, Onward, Good, Final, Flagged, Completed,
      OwnerOf, Owners, SetData;
    OwnerFits(c, w, i);
    OwnerIs(c, w, i);
    var mut, m := c.mutators[i], OwnerOf(c, w, i);
    if !Calls(mut) {
      PlainStopped(c, w, mut, m);
      UnfinishedFlags(c, w, i, Run(c, w, mut, m).0);
    } else {
      GoodStep(c, w, i);
      if Good(c, w, i) {
        var w1 := Onward(c, w, i);
        OnwardFits(c, w, i);
        RunRestIs(c, w1, i);
        var after, ok := RunRest(c, w1, i).0, RunRest(c, w1, i).1;
        if i + 1 < |c.builders| {
          ApartOnward(c, w, i);
          OwnerIs(c, w1, i + 1);
          PlainFlags(c, w1, i + 1);
        } else {
          WrittenFlags(c, w1, i + 1);
        }
        OnwardFlags(c, w, i, after, ok);
      } else {
        SetKeepsFlags(w, m, Final(c, w, i));
        UnfinishedFlags(c, w, i, SetData(w, m, Final(c, w, i)));
      }
    }
  }

  lemma OwnerIs(c: Chain, w: World, i: nat)
    requires Fits(c, w) && i < |c.builders|
    ensures c.builders[i] in w.owner && OwnerOf(c, w, i) == w.owner[c.builders[i]]
  {
    OwnerFits(c, w, i);
  }

  lemma SetKeepsFlags(w: World, m: AccountMutation, d: Mutation)
    requires m in w.held
    ensures var r := SetData(w, m, d);
      && r.finished == w.finished && r.writes == w.writes
      && forall o | o in w.held :: o in r.held && (o != m ==> r.held[o] == w.held[o]) && r.held[o].done == w.held[o].done
  {
  }

  lemma UnfinishedFlags(c: Chain, w: World, i: nat, r: World)
    requires Fits(c, w) && i < |c.builders| && r.finished == w.finished
    requires forall o | o in w.held :: o in r.held && (o != OwnerOf(c, w, i) ==> r.held[o] == w.held[o]) && r.held[o].done == w.held[o].done
    ensures Flagged(Owners(c, w), i, w.held, w.finished, r.held, r.finished)
  {
    hide Fits;
  }

  lemma WrittenFlags(c: Chain, w: World, i: nat)
    requires Fits(c, w) && i == |c.builders|
    ensures Flagged(Owners(c, w), i, w.held, w.finished, Written(w, c.insert).0.held, Written(w, c.insert).0.finished)
  {
    hide Fits;
  }

  lemma OnwardFlags(c: Chain, w: World, i: nat, after: World, ok: bool)
    requires Fits(c, w) && i < |c.builders| && Apart(c, w, i) && Fits(c, Onward(c, w, i))
    requires Flagged(Owners(c, Onward(c, w, i)), i + 1, Onward(c, w, i).held, w.finished, after.held, after.finished)
    requires i < |after.specs| == |after.nodes| && OwnerOf(c, w, i) in after.held
    ensures var r := if ok then Completed(after, i, OwnerOf(c, w, i)) else after;
      Flagged(Owners(c, w), i, w.held, w.finished, r.held, r.finished)
  {
    var w1 := Onward(c, w, i);
    OnwardFits(c, w, i);
    OwnersOnward(c, w, i);
    hide Fits, Onward, Flagged, Apart, OwnerOf;
    FlagStep(Owners(c, w), i, w.held, w1.held, w.finished, after.held, after.finished);
  }

  lemma OwnersOnward(c: Chain, w: World, i: nat)
    requires Fits(c, w) && i < |c.builders| && Apart(c, w, i) && Fits(c, Onward(c, w, i))
    ensures Owners(c, Onward(c, w, i)) == Owners(c, w)
    ensures forall k | i < k < |c.builders| :: Owners(c, w)[k] != Owners(c, w)[i]
  {
    OnwardFits(c, w, i);
    hide Fits, Onward;
  }

  lemma FlagStep(own: seq<AccountMutation>, i: nat, held: Holdings, held1: Holdings, finished: seq<nat>, held2: Holdings, finished2: seq<nat>)
    requires i < |own| && own[i] in held && (forall k | i < k < |own| :: own[k] != own[i])
    requires held1.Keys == held.Keys && forall o | o in held :: (o != own[i] ==> held1[o] == held[o]) && held1[o].done == held[o].done
    requires Flagged(own, i + 1, held1, finished, held2, finished2)
    ensures own[i] in held2 && Flagged(own, i, held, finished, held2, finished2)
    ensures Flagged(own, i, held, finished, held2[own[i] := held2[own[i]].(id := Some(i), done := true)], finished2 + [i])
  {
    assert held2[own[i]] == held1[own[i]];
    assert (finished2 + [i])[|finished|..] == finished2[|finished|..] + [i];
  }

  // ---- A successful bulk save ----

  /** From builder `i` on, the builders' edited mutations. */
  ghost predicate FinalsAre(c: Chain, w: World, i: nat, finals: seq<Mutation>)
    requires Fits(c, w)
  {
    |finals| == |c.builders| && forall k | i <= k < |finals| :: finals[k] == Final(c, w, k)
  }

  /** What the write gets: the slots below `i` as they are, then the specifications of the edited mutations. */
  ghost predicate ArgsAre(specs: seq<Option<Spec>>, i: nat, finals: seq<Mutation>, args: seq<Option<Spec>>) {
    && |args| == |finals| == |specs|
    && (forall k | 0 <= k < i && k < |args| :: args[k] == specs[k])
    && (forall k | i <= k < |args| :: args[k] == Some(SpecOf(finals[k])))
  }

  ghost predicate Succeeded(w: World, i: nat, finals: seq<Mutation>, args: seq<Option<Spec>>, ids: seq<Option<int>>, r: World) {
    && i <= |finals| == |w.nodes| == |r.nodes| == |args|
    && r.finished == w.finished + DownTo(|finals|, i) && r.writes == w.writes + [args] && r.specs == WithIds(args, ids)
    && (forall k | 0 <= k < i :: r.nodes[k] == w.nodes[k])
    && (forall k | i <= k < |finals| :: r.nodes[k] == Identified(Some(NodeOf(finals[k])), WithIds(args, ids)[k]))
  }

  lemma {:induction false} PlainSuccess(c: Chain, w: World, i: nat, finals: seq<Mutation>, args: seq<Option<Spec>>, ids: seq<Option<int>>)
    requires Fits(c, w) && i < |c.builders| && Apart(c, w, i) && |c.mutators| == |c.builders|
    requires forall k | i <= k < |c.builders| :: Plain(c.mutators[k]) && Good(c, w, k)
    requires forall k | i < k < |c.builders| :: Verdict(c.mutators[k], true)
    requires FinalsAre(c, w, i, finals) && ArgsAre(w.specs, i, finals, args) && c.insert(args) == Some(ids)
    ensures Runnable(c, w, c.mutators[i], OwnerOf(c, w, i))
    ensures var (r, ok) := Run(c, w, c.mutators[i], OwnerOf(c, w, i));
      ok == Verdict(c.mutators[i], true) && Succeeded(w, i, finals, args, ids, r)
    decreases |c.builders| - i
  {
    hide Fits, Run, RunRest, Targets, SpecOf, NodeOf, Check, EditAll, Calls, Plain, Verdict, Apart, Onward, Good, Final, Completed,
      ArgsAre, FinalsAre, Succeeded, Written;
    OwnerFits(c, w, i);
    GoodCalls(c, w, i);
    GoodStep(c, w, i);
    OnwardFits(c, w, i);
    var w1 := Onward(c, w, i);
    RunRestIs(c, w1, i);
    GoodOnward(c, w, i);
    FinalsOnward(c, w, i, finals);
    FinalsLength(c, w, i, finals);
    ArgsStep(w.specs, i, finals, args);
    if i + 1 < |c.builders| {
      ApartOnward(c, w, i);
      PlainSuccess(c, w1, i + 1, finals, args, ids);
    } else {
      WriteSucceeds(c, w1, finals, args, ids);
    }
    SuccessOnward(w, w1, i, OwnerOf(c, w, i), finals, args, ids, RunRest(c, w1, i).0);
  }

  lemma GoodCalls(c: Chain, w: World, i: nat)
    requires Fits(c, w) && i < |c.builders| && Good(c, w, i)
    ensures i < |c.mutators| && Calls(c.mutators[i])
  {
  }

  lemma FinalsOnward(c: Chain, w: World, i: nat, finals: seq<Mutation>)
    requires Fits(c, w) && i < |c.builders| && Apart(c, w, i) && FinalsAre(c, w, i, finals)
    ensures Fits(c, Onward(c, w, i)) && FinalsAre(c, Onward(c, w, i), i + 1, finals)
    ensures Onward(c, w, i).specs == w.specs[i := Some(SpecOf(finals[i]))]
    ensures Onward(c, w, i).nodes == w.nodes[i := Some(NodeOf(finals[i]))]
  {
    OnwardFits(c, w, i);
    hide Fits, Onward, Final, SpecOf, NodeOf, Apart;
    forall k | i < k < |c.builders| ensures finals[k] == Final(c, Onward(c, w, i), k) {
      FinalOnward(c, w, i, k);
    }
  }

  lemma FinalsLength(c: Chain, w: World, i: nat, finals: seq<Mutation>)
    requires Fits(c, w) && FinalsAre(c, w, i, finals)
    ensures |finals| == |c.builders| == |w.nodes| == |w.specs|
  {
  }

  lemma ArgsStep(specs: seq<Option<Spec>>, i: nat, finals: seq<Mutation>, args: seq<Option<Spec>>)
    requires i < |specs| && ArgsAre(specs, i, finals, args)
    ensures ArgsAre(specs[i := Some(SpecOf(finals[i]))], i + 1, finals, args)
  {
    hide SpecOf;
  }

  lemma WriteSucceeds(c: Chain, w: World, finals: seq<Mutation>, args: seq<Option<Spec>>, ids: seq<Option<int>>)
    requires |w.specs| == |w.nodes| == |finals| && ArgsAre(w.specs, |finals|, finals, args) && c.insert(args) == Some(ids)
    ensures Written(w, c.insert).1 && Succeeded(w, |finals|, finals, args, ids, Written(w, c.insert).0)
  {
    hide SpecOf, NodeOf;
    assert w.specs == args;
    assert w.finished + [] == w.finished;
  }

  lemma SuccessOnward(w: World, w1: World, i: nat, m: AccountMutation, finals: seq<Mutation>, args: seq<Option<Spec>>,
                      ids: seq<Option<int>>, after: World)
    requires i < |finals| == |w.nodes| && w1.nodes == w.nodes[i := Some(NodeOf(finals[i]))]
    requires w1.finished == w.finished && w1.writes == w.writes
    requires Succeeded(w1, i + 1, finals, args, ids, after)
    requires i < |after.specs| == |after.nodes| && m in after.held
    ensures Succeeded(w, i, finals, args, ids, Completed(after, i, m))
  {
    hide SpecOf, NodeOf, Identified, WithIds;
    assert w.finished + DownTo(|finals|, i + 1) + [i] == w.finished + DownTo(|finals|, i);
  }

  /** A bulk save of good builders whose hooks pass on their mutations and every success: if the insert gives every row
      an id, it writes once, finishes every builder, and returns, for each, the account under the id of its row, which
      is also what reading the stored row back would give. */
  lemma BulkRoundTrip(c: Chain, w: World, finals: seq<Mutation>, args: seq<Option<Spec>>, ids: seq<int>, k: nat)
    requires Fits(c, w) && k < |c.builders| == |c.mutators| == |ids| && Apart(c, w, 0)
    requires forall j | 0 <= j < |c.builders| :: Plain(c.mutators[j]) && Good(c, w, j) && Verdict(c.mutators[j], true)
    requires FinalsAre(c, w, 0, finals) && ArgsAre(w.specs, 0, finals, args)
    requires c.insert(args) == Some(seq(|ids|, j requires 0 <= j < |ids| => Some(ids[j]))) && WellTyped(finals[k])
    ensures var (r, ok) := SaveRun(c, w);
      && ok && r.writes == w.writes + [args] && r.finished == w.finished + DownTo(|c.builders|, 0)
      && k < |r.nodes| && r.nodes[k].Some?
      && (var row := RowOf(SpecOf(finals[k]), ids[k]);
          TypedRow(Columns(), row) && AssignAll(Fresh(), Columns(), FillAll(Columns(), row)) == (r.nodes[k].value, None))
  {
    hide *;
    var given := seq(|ids|, j requires 0 <= j < |ids| => Some(ids[j]));
    OwnerFits(c, w, 0);
    FinalsLength(c, w, 0, finals);
    PlainSuccess(c, w, 0, finals, args, given);
    SaveIsRun(c, w);
    SucceededNode(w, finals, args, ids, given, SaveRun(c, w).0, k);
    RowRoundTrip(finals[k], ids[k]);
  }

  lemma SaveIsRun(c: Chain, w: World)
    requires Fits(c, w) && c.builders != []
    ensures Runnable(c, w, c.mutators[0], OwnerOf(c, w, 0)) && SaveRun(c, w) == Run(c, w, c.mutators[0], OwnerOf(c, w, 0))
  {
    OwnerFits(c, w, 0);
    hide Fits, Run;
  }

  lemma SucceededNode(w: World, finals: seq<Mutation>, args: seq<Option<Spec>>, ids: seq<int>, given: seq<Option<int>>, r: World, k: nat)
    requires k < |finals| == |ids| == |given| && given[k] == Some(ids[k])
    requires ArgsAre(w.specs, 0, finals, args) && Succeeded(w, 0, finals, args, given, r)
    ensures r.writes == w.writes + [args] && r.finished == w.finished + DownTo(|finals|, 0)
    ensures k < |r.nodes| && r.nodes[k] == Some(SetColumn(NodeOf(finals[k]), ID, Int(ids[k])))
  {
    hide SpecOf, NodeOf;
  }

  // ---- Flags of the builders that finish, for any hooks of this kind ----

  /** What a run from builder `i`'s mutator on keeps: flags stay set, earlier builders keep their mutations, and every
      builder that finishes holds a flagged mutation. */
  ghost predicate KeepsFlags(c: Chain, w: World, i: nat, r: World) {
    && (forall o | o in w.held :: o in r.held && (w.held[o].done ==> r.held[o].done))
    && (forall b | b in w.owner :: b in r.owner) && (forall b | b in r.owner :: r.owner[b] in r.held)
    && (forall k | 0 <= k < i && k < |c.builders| && c.builders[k] in w.owner :: r.owner[c.builders[k]] == w.owner[c.builders[k]])
    && |w.finished| <= |r.finished| && r.finished[..|w.finished|] == w.finished
    && (forall k | k in r.finished[|w.finished|..] ::
          i <= k < |c.builders| && c.builders[k] in r.owner && r.held[r.owner[c.builders[k]]].done)
  }

  lemma {:induction false} FinishedAreFlagged(c: Chain, w: World, mut: Mutator, m: AccountMutation?)
    requires Runnable(c, w, mut, m) && Distinct(c.builders)
    ensures KeepsFlags(c, w, Index(mut), Run(c, w, mut, m).0)
    decreases |c.builders| - Index(mut), Depth(mut)
  {
    hide Run, RunRest, Fits, Targets, KeepsFlags, Edited, Passed, Rejects, Filled, Completed, Distinct;
    match mut
    case Wrapped(Stop(ok), inner) =>
      RunStop(c, w, mut, m);
      FlagsSame(c, w, Index(mut), w);
    case Wrapped(Next(edit, pass, onOk, onErr), inner) =>
      RunNext(c, w, mut, m);
      FinishedAreFlagged(c, Edited(w, m, edit), inner, Passed(pass, m));
      FlagsEdited(c, w, m, edit, Index(mut), Run(c, w, mut, m).0);
    case Base(i) =>
      RunBase(c, w, i, m);
      if Rejects(c, w, i, m) {
        FlagsSame(c, w, i, w);
      } else {
        var w1 := Filled(w, i, c.builders[i], m);
        RunRestIs(c, w1, i);
        if i + 1 < |c.builders| {
          FinishedAreFlagged(c, w1, c.mutators[i + 1], w1.owner[c.builders[i + 1]]);
        } else {
          FlagsSame(c, w1, i + 1, Written(w1, c.insert).0);
        }
        FlagsCompleted(c, w, i, m, RunRest(c, w1, i).0, RunRest(c, w1, i).1);
      }
  }

  lemma FlagsSame(c: Chain, w: World, i: nat, r: World)
    requires Fits(c, w) && r.held == w.held && r.owner == w.owner && r.finished == w.finished
    ensures KeepsFlags(c, w, i, r)
  {
  }

  lemma FlagsEdited(c: Chain, w: World, m: AccountMutation?, edit: Mutation -> Mutation, i: nat, r: World)
    requires Fits(c, w) && (m != null ==> m in w.held) && KeepsFlags(c, Edited(w, m, edit), i, r)
    ensures KeepsFlags(c, w, i, r)
  {
    hide Fits;
  }

  lemma FlagsCompleted(c: Chain, w: World, i: nat, m: AccountMutation, after: World, ok: bool)
    requires Fits(c, w) && i < |c.builders| == |w.specs| == |w.nodes| && m in w.held && Distinct(c.builders)
    requires KeepsFlags(c, Filled(w, i, c.builders[i], m), i + 1, after)
    requires i < |after.specs| == |after.nodes| && m in after.held
    ensures KeepsFlags(c, w, i, if ok then Completed(after, i, m) else after)
  {
    OwnerFits(c, w, i);
    FlagsUnfilled(c, w, i, m, after);
    if ok {
      hide Fits, Filled;
      FlagAdded(c, w, i, m, after);
    }
  }

  lemma FlagsUnfilled(c: Chain, w: World, i: nat, m: AccountMutation, after: World)
    requires i < |c.builders| && i < |w.specs| == |w.nodes| && m in w.held && Distinct(c.builders)
    requires KeepsFlags(c, Filled(w, i, c.builders[i], m), i + 1, after)
    ensures KeepsFlags(c, w, i, after) && c.builders[i] in after.owner && after.owner[c.builders[i]] == m
  {
    hide SpecOf, NodeOf;
    var w1 := Filled(w, i, c.builders[i], m);
    assert w1.owner[c.builders[i]] == m;
  }

  lemma FlagAdded(c: Chain, w: World, i: nat, m: AccountMutation, after: World)
    requires KeepsFlags(c, w, i, after) && i < |c.builders| && c.builders[i] in after.owner && after.owner[c.builders[i]] == m
    requires i < |after.specs| == |after.nodes| && m in after.held
    ensures KeepsFlags(c, w, i, Completed(after, i, m))
  {
    var r := Completed(after, i, m);
    assert r.finished[|w.finished|..] == after.finished[|w.finished|..] + [i];
    assert r.owner == after.owner && forall o | o in after.held :: o in r.held && (after.held[o].done ==> r.held[o].done);
    assert r.held[m].done;
    hide Completed;
    forall k | k in r.finished[|w.finished|..]
      ensures i <= k < |c.builders| && c.builders[k] in r.owner && r.held[r.owner[c.builders[k]]].done
    {
      if k != i {
        assert k in after.finished[|w.finished|..];
      }
    }
  }

  /** For honest hooks that pass their mutations on, and builders with mutations of their own that were not flagged:
      the flagged builders are exactly a suffix. */
  lemma FlagsFormSuffix(c: Chain, w: World) returns (k: nat)
    requires Fits(c, w) && c.builders != [] && Apart(c, w, 0) && HonestWhereCalled(c, w)
    requires forall j | 0 <= j < |c.mutators| :: Plain(c.mutators[j])
    requires forall j | 0 <= j < |c.builders| :: !w.held[OwnerOf(c, w, j)].done
    ensures k <= |c.builders|
    ensures var r := SaveRun(c, w).0;
      forall j | 0 <= j < |c.builders| :: OwnerOf(c, w, j) in r.held && (r.held[OwnerOf(c, w, j)].done <==> j >= k)
  {
    k := SaveFinishesSuffix(c, w);
    PlainFlags(c, w, 0);
    SaveIsRun(c, w);
    var r, own, n := SaveRun(c, w).0, Owners(c, w), |c.builders|;
    hide Fits, Run, Apart, Plain, HonestWhereCalled, SaveRun, SaveArgs, OwnerOf;
    assert r.finished[|w.finished|..] == DownTo(n, k);
    forall j | 0 <= j < n ensures own[j] in r.held && (r.held[own[j]].done <==> j >= k) {
      InDownTo(n, k, j);
    }
  }

  lemma InDownTo(n: nat, k: nat, j: nat)
    requires k <= n
    ensures j in DownTo(n, k) <==> k <= j < n
  {
    if k <= j < n {
      assert DownTo(n, k)[n - 1 - j] == j;
    }
  }

  // ---- A mutation that a hook passes on in place of the builder's own is not checked ----

  /** The same, except for the data of one mutation. */
  ghost predicate SameBut(f: Front, g: Front, o: AccountMutation) {
    f.owner == g.owner && f.data.Keys == g.data.Keys && forall x | x in f.data && x != o :: f.data[x] == g.data[x]
  }

  lemma {:induction false} DescendSameBut(f: Front, g: Front, o: AccountMutation, mut: Mutator, m: AccountMutation?)
    requires SameBut(f, g, o)
    ensures SameBut(Descend(f, mut, m).0, Descend(g, mut, m).0, o) && Descend(f, mut, m).1 == Descend(g, mut, m).1
    ensures Descend(f, mut, m).0.owner == f.owner
    decreases mut
  {
    if mut.Wrapped? && mut.hook.Next? {
      DescendSameBut(EditedFront(f, m, mut.hook.edit), EditedFront(g, m, mut.hook.edit), o, mut.inner, Passed(mut.hook.pass, m));
    }
  }

  /** How far a chain gets, and with which mutations, does not depend on the data of a mutation that no builder holds. */
  lemma {:induction false} UnheldIsUnseen(c: Chain, f: Front, g: Front, o: AccountMutation, mut: Mutator, m: AccountMutation?, k: nat)
    requires WellFormed(c) && Distinct(c.builders) && SameBut(f, g, o) && Index(mut) <= k < |c.builders|
    requires forall j | Index(mut) <= j < |c.builders| && c.builders[j] in f.owner :: f.owner[c.builders[j]] != o
    ensures Arrival(c, f, mut, m, k).Some? <==> Arrival(c, g, mut, m, k).Some?
    ensures Arrival(c, f, mut, m, k).Some? ==> Arrival(c, f, mut, m, k).value.1 == Arrival(c, g, mut, m, k).value.1
    ensures Accepted(c, f, mut, m, k) <==> Accepted(c, g, mut, m, k)
    decreases |c.mutators| - Index(mut)
  {
    hide *;
    ArrivalStep(c, f, mut, m, k);
    ArrivalStep(c, g, mut, m, k);
    DescendSameBut(f, g, o, mut, m);
    AcceptedIs(c, f, mut, m, k);
    AcceptedIs(c, g, mut, m, k);
    var i := Index(mut);
    var f1, g1, m1 := Descend(f, mut, m).0, Descend(g, mut, m).0, Descend(f, mut, m).1;
    SameHandover(c, f1, g1, o, i, m1);
    if Calls(mut) && k > i && Handover(c, f1, i, m1).Some? {
      HandoverKeeps(c, f1, i, m1);
      var f2, m2 := Handover(c, f1, i, m1).value.0, Handover(c, f1, i, m1).value.1;
      DistinctFrom(c.builders, i);
      UnheldIsUnseen(c, f2, Handover(c, g1, i, m1).value.0, o, c.mutators[i + 1], m2, k);
      AcceptedIs(c, f2, c.mutators[i + 1], m2, k);
      AcceptedIs(c, Handover(c, g1, i, m1).value.0, c.mutators[i + 1], m2, k);
    }
  }

  lemma DistinctFrom<T>(xs: seq<T>, i: nat)
    requires Distinct(xs) && i < |xs|
    ensures forall j | i < j < |xs| :: xs[j] != xs[i]
  {
  }

  lemma SameHandover(c: Chain, f: Front, g: Front, o: AccountMutation, i: nat, m: AccountMutation?)
    requires SameBut(f, g, o) && i < |c.builders| && (c.builders[i] in f.owner ==> f.owner[c.builders[i]] != o)
    ensures Accepts(c, f, i, m) <==> Accepts(c, g, i, m)
    ensures Handover(c, f, i, m).Some? <==> Handover(c, g, i, m).Some?
    ensures Handover(c, f, i, m).Some? ==>
      && SameBut(Handover(c, f, i, m).value.0, Handover(c, g, i, m).value.0, o)
      && Handover(c, f, i, m).value.1 == Handover(c, g, i, m).value.1
  {
    hide Check;
  }

  /** The first builder has one hook, which passes `o` on. */
  ghost predicate PassesOn(c: Chain, o: AccountMutation) {
    c.mutators != [] && (
      var mut := c.mutators[0];
      mut.Wrapped? && mut.hook.Next? && mut.hook.pass == Replace(o) && mut.inner == Base(0))
  }

  /** In both saves, the own mutator of builder `k` is called with the same mutation. */
  ghost predicate SameCall(c: Chain, w: World, v: World, k: nat)
    requires Fits(c, w) && Fits(c, v) && c.builders != []
  {
    CalledWith(c, w, k).Some? && CalledWith(c, v, k).Some? && CalledWith(c, v, k).value.1 == CalledWith(c, w, k).value.1
  }

  /** The check is on the mutation a builder holds, the write is of the one its own mutator is passed. So for any hooks of
      this kind and distinct builders: nothing that a mutation no builder holds may contain decides whether the write
      happens, or which mutations are written; and where the first builder's hook puts such a mutation in place of the
      builder's own, its content is written. */
  lemma ReplacementIsUnchecked(c: Chain, w: World, o: AccountMutation, d: Mutation)
    requires Fits(c, w) && Distinct(c.builders) && c.builders != [] && o in w.held
    requires forall k | 0 <= k < |c.builders| :: OwnerOf(c, w, k) != o
    ensures var v := SetData(w, o, d);
      && Fits(c, v)
      && (forall k | 0 <= k < |c.builders| :: Agrees(c, v, k) <==> Agrees(c, w, k))
      && (SaveRun(c, v).0.writes != v.writes <==> SaveRun(c, w).0.writes != w.writes)
      && (forall k | 0 <= k < |c.builders| && Agrees(c, w, k) :: SameCall(c, w, v, k))
      && (PassesOn(c, o) ==> SaveArgs(c, v)[0] == Some(SpecOf(d)))
  {
    hide *;
    var v, n := SetData(w, o, d), |c.builders|;
    SetFits(c, w, o, d);
    SaveWritesExactly(c, w);
    SaveWritesExactly(c, v);
    forall k | 0 <= k < n
      ensures Agrees(c, v, k) <==> Agrees(c, w, k)
      ensures Agrees(c, w, k) ==> SameCall(c, w, v, k)
    {
      UnseenInSave(c, w, o, d, k);
    }
    StartedAlike(c, w, v, n);
    if PassesOn(c, o) {
      SetOwners(c, w, o, d);
      ReplacedArgs(c, v, o);
    }
  }

  lemma StartedAlike(c: Chain, w: World, v: World, n: nat)
    requires Fits(c, w) && Fits(c, v) && forall k | 0 <= k < n :: Agrees(c, v, k) <==> Agrees(c, w, k)
    ensures Started(c, v, n) <==> Started(c, w, n)
  {
    hide Agrees, Fits;
  }

  lemma SetOwners(c: Chain, w: World, o: AccountMutation, d: Mutation)
    requires Fits(c, w) && o in w.held && Fits(c, SetData(w, o, d)) && c.builders != []
    ensures OwnerOf(c, SetData(w, o, d), 0) == OwnerOf(c, w, 0)
    ensures o in SetData(w, o, d).held && SetData(w, o, d).held[o].data == d
  {
    hide Fits;
  }

  lemma UnseenInSave(c: Chain, w: World, o: AccountMutation, d: Mutation, k: nat)
    requires Fits(c, w) && o in w.held && Fits(c, SetData(w, o, d)) && Distinct(c.builders) && k < |c.builders|
    requires forall j | 0 <= j < |c.builders| :: OwnerOf(c, w, j) != o
    ensures var v := SetData(w, o, d);
      && (Agrees(c, v, k) <==> Agrees(c, w, k))
      && (Agrees(c, w, k) ==> SameCall(c, w, v, k))
  {
    var v := SetData(w, o, d);
    FitsNumbered(c, w);
    OwnerFits(c, w, 0);
    forall j | 0 <= j < |c.builders| ensures c.builders[j] in w.owner && w.owner[c.builders[j]] != o {
      OwnerFits(c, w, j);
      assert OwnerOf(c, w, j) != o;
    }
    assert SameBut(FrontOf(w), FrontOf(v), o);
    UnheldIsUnseen(c, FrontOf(w), FrontOf(v), o, c.mutators[0], w.owner[c.builders[0]], k);
    hide Fits, Arrival, FrontOf, Check;
  }

  lemma ReplacedArgs(c: Chain, w: World, o: AccountMutation)
    requires Fits(c, w) && c.builders != [] && o in w.held && OwnerOf(c, w, 0) != o && PassesOn(c, o)
    ensures SaveArgs(c, w)[0] == Some(SpecOf(w.held[o].data))
  {
    FirstReplaced(c, w, o);
    hide *;
    var mut, m := c.mutators[0], OwnerOf(c, w, 0);
    var f := EditedFront(FrontOf(w), m, mut.hook.edit);
    FirstArgs(c, w);
    ArrivalNext(c, FrontOf(w), mut, m, 0);
    ArrivalBase(c, f, 0, o, 0);
  }

  lemma FirstReplaced(c: Chain, w: World, o: AccountMutation)
    requires Fits(c, w) && c.builders != [] && o in w.held && OwnerOf(c, w, 0) != o && PassesOn(c, o)
    ensures c.mutators != [] && |c.mutators| == |c.builders|
    ensures var mut, m := c.mutators[0], OwnerOf(c, w, 0);
      && mut.Wrapped? && mut.hook.Next? && Passed(mut.hook.pass, m) == o && mut.inner == Base(0)
      && (var f := EditedFront(FrontOf(w), m, mut.hook.edit); o in f.data && f.data[o] == w.held[o].data)
  {
    FitsFacts(c, w);
    hide Fits, OwnerOf;
  }

  lemma FirstArgs(c: Chain, w: World)
    requires Fits(c, w) && c.builders != [] && |c.mutators| == |c.builders|
    ensures WellFormed(c) && Index(c.mutators[0]) == 0 && OwnerOf(c, w, 0) in w.held
    ensures var a := Arrival(c, FrontOf(w), c.mutators[0], OwnerOf(c, w, 0), 0);
      a.Some? && a.value.1 != null && a.value.1 in a.value.0.data ==> SaveArgs(c, w)[0] == Some(SpecOf(a.value.0.data[a.value.1]))
  {
    hide *;
    FirstCall(c, w);
    OwnerIs(c, w, 0);
    OwnerFits(c, w, 0);
    ArgsAt(c, w, c.mutators[0], OwnerOf(c, w, 0), 0);
    SpecArrived(c, FrontOf(w), c.mutators[0], OwnerOf(c, w, 0), 0);
  }

  // ---- A save that reports success and writes nothing ----

  /** The second builder's hook reports a success without calling next: the save succeeds, the first builder finishes
      alone, and nothing is written. */
  lemma SuccessWithoutWrite(c: Chain, w: World)
    requires Fits(c, w) && |c.builders| == 2 && c.mutators == [Base(0), Wrapped(Stop(true), Base(1))]
    requires Check(w.held[OwnerOf(c, w, 0)].data, c.valid).None?
    ensures var (r, ok) := SaveRun(c, w);
      && ok && r.finished == w.finished + [0] && r.writes == w.writes
      && !IsSuffix([0], 2) && Started(c, w, 1) && !Honest(c.mutators[1])
  {
    FirstAgrees(c, w);
    hide *;
    SaveFollows(c, w);
    FirstAnswers(c, w);
    StoppedCourse(c.mutators, Answers(c, w), c.insert(SaveArgs(c, w)).Some?);
    FollowsIs(w, SaveRun(c, w), Course([0], true, false), SaveArgs(c, w));
  }

  lemma FirstAnswers(c: Chain, w: World)
    requires Fits(c, w) && c.builders != [] && Agrees(c, w, 0)
    ensures Answers(c, w)[0] && Started(c, w, 1)
  {
    hide Fits, Agrees;
  }

  lemma FirstAgrees(c: Chain, w: World)
    requires Fits(c, w) && c.builders != [] && c.mutators != [] && c.mutators[0] == Base(0)
    requires Check(w.held[OwnerOf(c, w, 0)].data, c.valid).None?
    ensures Agrees(c, w, 0)
  {
    FirstAccepts(c, w);
    hide *;
    FirstCall(c, w);
    OwnerIs(c, w, 0);
    var f, m := FrontOf(w), OwnerOf(c, w, 0);
    ArrivalBase(c, f, 0, m, 0);
    AcceptedIs(c, f, Base(0), m, 0);
    AgreesIs(c, w, 0);
  }

  lemma AgreesIs(c: Chain, w: World, k: nat)
    requires Fits(c, w) && c.builders != []
    ensures WellFormed(c) && c.mutators != [] && c.builders[0] in w.owner
    ensures Agrees(c, w, k) <==> Accepted(c, FrontOf(w), c.mutators[0], w.owner[c.builders[0]], k)
  {
    FitsNumbered(c, w);
    OwnerFits(c, w, 0);
    hide Fits, Accepted, FrontOf, WellFormed;
  }

  lemma FirstAccepts(c: Chain, w: World)
    requires Fits(c, w) && c.builders != [] && Check(w.held[OwnerOf(c, w, 0)].data, c.valid).None?
    ensures Accepts(c, FrontOf(w), 0, OwnerOf(c, w, 0))
  {
    hide *;
    OwnerIs(c, w, 0);
    RejectsIs(c, w, 0, OwnerOf(c, w, 0));
  }

  lemma StoppedCourse(mutators: seq<Mutator>, passes: seq<bool>, inserted: bool)
    requires Numbered(mutators) && mutators == [Base(0), Wrapped(Stop(true), Base(1))] && |passes| == 2 && passes[0]
    ensures Outcome(mutators, mutators[0], passes, inserted) == Course([0], true, false) && !IsSuffix([0], 2) && !Honest(mutators[1])
  {
    assert Outcome(mutators, mutators[1], passes, inserted) == Course([], true, false);
    assert [] + [0] == [0];
    assert DownTo(2, 0)[0] == 1 && DownTo(2, 1)[0] == 1;
  }

  // ---- The builder of bulk creations, on the heap ----

  /** The database connection: it answers a batch insert and remembers what it was asked. */
  class Driver {
    const insert: Insert
    var writes: seq<seq<Option<Spec>>>

    constructor (insert: Insert)
      ensures this.insert == insert && writes == []
    {
      this.insert, writes := insert, [];
    }

    method BatchCreate(specs: seq<Option<Spec>>) returns (ids: Option<seq<Option<int>>>)
      modifies this`writes
      ensures writes == old(writes) + [specs] && ids == insert(specs)
    {
      writes := writes + [specs];
      ids := insert(specs);
    }
  }

  /** hooks[0] is outermost. */
  function WrapAll(hooks: seq<Hook>, mut: Mutator): Mutator {
    if hooks == [] then mut else Wrapped(hooks[0], WrapAll(hooks[1..], mut))
  }

  lemma {:induction false} WrapAllHooks(hooks: seq<Hook>, i: nat)
    ensures HooksOf(WrapAll(hooks, Base(i))) == hooks && Index(WrapAll(hooks, Base(i))) == i
  {
    if hooks != [] {
      WrapAllHooks(hooks[1..], i);
      assert hooks == [hooks[0]] + hooks[1..];
    }
  }

  /** Every builder's own mutator, under its hooks. */
  function MutatorsOf(builders: seq<AccountCreate>): (mutators: seq<Mutator>)
    ensures |mutators| == |builders|
    ensures forall k | 0 <= k < |mutators| :: mutators[k] == WrapAll(builders[k].hooks, Base(k))
  {
    if builders == [] then []
    else
      var n := |builders| - 1;
      MutatorsOf(builders[..n]) + [WrapAll(builders[n].hooks, Base(n))]
  }

  lemma MutatorsStep(builders: seq<AccountCreate>, i: nat)
    requires i < |builders|
    ensures MutatorsOf(builders[..i + 1]) == MutatorsOf(builders[..i]) + [WrapAll(builders[i].hooks, Base(i))]
  {
    assert builders[..i + 1][..i] == builders[..i];
  }

  /** Wrapping from the last hook to the first. */
  method Wrap(hooks: seq<Hook>, i: nat) returns (mut: Mutator)
    ensures mut == WrapAll(hooks, Base(i)) && HooksOf(mut) == hooks && Index(mut) == i
  {
    mut := Base(i);
    for j := |hooks| downto 0
      invariant mut == WrapAll(hooks[j..], Base(i))
    {
      assert hooks[j..][0] == hooks[j] && hooks[j..][1..] == hooks[j + 1..];
      mut := Wrapped(hooks[j], mut);
    }
    assert hooks[0..] == hooks;
    WrapAllHooks(hooks, i);
  }

  /** The world after one builder's defaults; an error leaves what was filled in before it, and is ignored. */
  function WithDefault(w: World, rt: Runtime, b: AccountCreate): (r: World)
    ensures r == w.(held := r.held) && r.held.Keys == w.held.Keys
  {
    if b in w.owner && w.owner[b] in w.held then
      var m := w.owner[b];
      w.(held := w.held[m := w.held[m].(data := Defaults(rt, w.held[m].data).0)])
    else w
  }

  /** The world after the builders' defaults, in order. */
  function WithDefaults(w: World, rt: Runtime, builders: seq<AccountCreate>): (r: World)
    ensures r == w.(held := r.held) && r.held.Keys == w.held.Keys
  {
    if builders == [] then w
    else
      var n := |builders| - 1;
      WithDefault(WithDefaults(w, rt, builders[..n]), rt, builders[n])
  }

  /** Slots to be filled. */
  function Slots<T>(n: nat): (r: seq<Option<T>>)
    ensures |r| == n && forall k | 0 <= k < n :: r[k] == None
  {
    seq(n, _ => None)
  }

  lemma DefaultsStep(w: World, rt: Runtime, builders: seq<AccountCreate>, i: nat)
    requires i < |builders|
    ensures WithDefaults(w, rt, builders[..i + 1]) == WithDefault(WithDefaults(w, rt, builders[..i]), rt, builders[i])
  {
    hide WithDefault;
    assert builders[..i + 1][..i] == builders[..i];
  }

  class AccountCreateBulk {
    const builders: seq<AccountCreate>
    const failed: bool
    const runtime: Runtime
    const valid: Validators
    const driver: Driver
    var specs: seq<Option<Spec>>
    var nodes: seq<Option<Fields>>
    ghost var finished: seq<nat>

    constructor (builders: seq<AccountCreate>, failed: bool, runtime: Runtime, valid: Validators, driver: Driver)
      ensures this.builders == builders && this.failed == failed && this.runtime == runtime
      ensures this.valid == valid && this.driver == driver
      ensures specs == [] && nodes == [] && finished == []
    {
      this.builders, this.failed, this.runtime, this.valid, this.driver := builders, failed, runtime, valid, driver;
      specs, nodes, finished := [], [], [];
    }

    ghost function ChainOf(mutators: seq<Mutator>): Chain {
      Chain(builders, mutators, valid, driver.insert)
    }

    ghost function Snapshot(known: set<AccountMutation>): World
      reads this`specs, this`nodes, this`finished, driver`writes, known, (set b | b in builders)`mutation
    {
      World(map m | m in known :: m.Holds(), map b | b in builders :: b.mutation, specs, nodes, finished, driver.writes)
    }

    method Edit(m: AccountMutation?, edit: Mutation -> Mutation, ghost known: set<AccountMutation>)
      requires m != null ==> m in known
      modifies known`data
      ensures Snapshot(known) == Edited(old(Snapshot(known)), m, edit)
    {
      if m != null {
        m.data := edit(m.data);
      }
      assert Snapshot(known).held == Edited(old(Snapshot(known)), m, edit).held;
    }

    method Fill(i: nat, builder: AccountCreate, m: AccountMutation, ghost known: set<AccountMutation>)
      requires m in known && i < |specs| == |nodes| && builder in builders
      modifies this`specs, this`nodes, builder`mutation
      ensures Snapshot(known) == Filled(old(Snapshot(known)), i, builder, m)
    {
      hide SpecOf, NodeOf;
      ghost var w := Snapshot(known);
      assert w.held[m].data == m.data;
      builder.mutation := m;
      var node, spec := CreateSpec(m.data);
      nodes, specs := nodes[i := Some(node)], specs[i := Some(spec)];
      ghost var r := Snapshot(known);
      assert r.held == w.held;
      assert r.owner == w.owner[builder := m];
      hide *;
      assert r.specs == w.specs[i := Some(SpecOf(w.held[m].data))] && r.nodes == w.nodes[i := Some(NodeOf(w.held[m].data))];
      FilledIs(w, i, builder, m, r);
    }

    method Write(ghost known: set<AccountMutation>) returns (ok: bool)
      modifies this`specs, driver`writes
      ensures (Snapshot(known), ok) == Written(old(Snapshot(known)), driver.insert)
    {
      var ids := driver.BatchCreate(specs);
      ok := ids.Some?;
      if ok {
        specs := WithIds(specs, ids.value);
      }
      assert Snapshot(known).held == old(Snapshot(known)).held && Snapshot(known).owner == old(Snapshot(known)).owner;
    }

    method Complete(i: nat, m: AccountMutation, ghost known: set<AccountMutation>)
      requires m in known && i < |specs| == |nodes|
      modifies this`nodes, this`finished, m`id, m`done
      ensures Snapshot(known) == Completed(old(Snapshot(known)), i, m)
    {
      m.id := Some(i);
      if nodes[i].Some? && specs[i].Some? && specs[i].value.id.Some? {
        nodes := nodes[i := Some(SetColumn(nodes[i].value, ID, Int(specs[i].value.id.value)))];
      }
      m.done := true;
      finished := finished + [i];
      assert nodes == old(nodes)[i := Identified(old(nodes[i]), specs[i])];
      assert Snapshot(known).held == Completed(old(Snapshot(known)), i, m).held;
    }

    /** A mutator at work: its hooks, its own check, its slot, the rest of the chain, and its completion flag. */
    method Mutate(mutators: seq<Mutator>, mut: Mutator, m: AccountMutation?, ghost known: set<AccountMutation>) returns (ok: bool)
      requires Runnable(ChainOf(mutators), Snapshot(known), mut, m)
      modifies this`specs, this`nodes, this`finished, driver`writes, (set b | b in builders)`mutation, known
      ensures Runnable(ChainOf(mutators), old(Snapshot(known)), mut, m)
      ensures (Snapshot(known), ok) == Run(ChainOf(mutators), old(Snapshot(known)), mut, m)
      decreases |builders| - Index(mut), Depth(mut)
    {
      ghost var c, w := ChainOf(mutators), Snapshot(known);
      assert w.held.Keys == known;
      hide Run, RunRest, Fits, Targets, AccountCreateBulk.Snapshot, Edited, Passed, Rejects;
      match mut
      case Wrapped(hook, inner) =>
        match hook {
          case Stop(result) =>
            RunStop(c, w, mut, m);
            ok := result;
          case Next(edit, pass, onOk, onErr) =>
            RunNext(c, w, mut, m);
            Edit(m, edit, known);
            var done := Mutate(mutators, inner, Passed(pass, m), known);
            ok := if done then onOk else onErr;
        }
      case Base(i) =>
        ok := MutateSelf(mutators, i, m, known);
    }

    /** The builder's own mutator. The check is on the mutation the builder holds, before it takes the one passed on. */
    method MutateSelf(mutators: seq<Mutator>, i: nat, m: AccountMutation?, ghost known: set<AccountMutation>) returns (ok: bool)
      requires Runnable(ChainOf(mutators), Snapshot(known), Base(i), m)
      modifies this`specs, this`nodes, this`finished, driver`writes, (set b | b in builders)`mutation, known
      ensures Runnable(ChainOf(mutators), old(Snapshot(known)), Base(i), m)
      ensures (Snapshot(known), ok) == Run(ChainOf(mutators), old(Snapshot(known)), Base(i), m)
      decreases |builders| - i, 0, 2
    {
      ghost var c, w := ChainOf(mutators), Snapshot(known);
      RunBase(c, w, i, m);
      RunBaseRest(c, w, i, m);
      BaseFacts(c, w, i, m);
      SnapshotFacts(known, i);
      hide *;
      if m == null {
        return false;
      }
      var builder := builders[i];
      var invalid := Check(builder.mutation.data, valid);
      if invalid.Some? {
        return false;
      }
      ok := MutateAccepted(mutators, i, builder, m, known);
    }

    /** Fills the slot, lets the rest of the chain run, and flags the mutation if that succeeded. */
    method MutateAccepted(mutators: seq<Mutator>, i: nat, builder: AccountCreate, m: AccountMutation, ghost known: set<AccountMutation>)
        returns (ok: bool)
      requires i < |builders| == |specs| == |nodes| && builder == builders[i] && m in known && m in Snapshot(known).held
      requires i < |Snapshot(known).specs| == |Snapshot(known).nodes|
      requires Fits(ChainOf(mutators), Filled(Snapshot(known), i, builder, m))
      modifies this`specs, this`nodes, this`finished, driver`writes, (set b | b in builders)`mutation, known
      ensures RestFits(ChainOf(mutators), Filled(old(Snapshot(known)), i, builder, m), i, m)
      ensures (Snapshot(known), ok) == Rest(ChainOf(mutators), Filled(old(Snapshot(known)), i, builder, m), i, m)
      decreases |builders| - i, 0, 1
    {
      ghost var c, w1 := ChainOf(mutators), Filled(Snapshot(known), i, builder, m);
      RestHasSlot(c, w1, i, m);
      RestIs(c, w1, i, m);
      hide *;
      Fill(i, builder, m, known);
      ok := MutateRest(mutators, i, known);
      if ok {
        SnapshotFacts(known, i);
        Complete(i, m, known);
      }
    }

    /** The next builder's mutator on its current mutation; after the last builder, the one batch write. */
    method MutateRest(mutators: seq<Mutator>, i: nat, ghost known: set<AccountMutation>) returns (ok: bool)
      requires i < |builders| && Fits(ChainOf(mutators), Snapshot(known))
      modifies this`specs, this`nodes, this`finished, driver`writes, (set b | b in builders)`mutation, known
      ensures Fits(ChainOf(mutators), old(Snapshot(known)))
      ensures (Snapshot(known), ok) == RunRest(ChainOf(mutators), old(Snapshot(known)), i)
      decreases |builders| - i, 0, 0
    {
      ghost var c, w := ChainOf(mutators), Snapshot(known);
      RunRestIs(c, w, i);
      OwnerFits(c, w, i);
      hide *;
      if i < |mutators| - 1 {
        SnapshotFacts(known, i + 1);
        ok := Mutate(mutators, mutators[i + 1], builders[i + 1].mutation, known);
      } else {
        ok := Write(known);
      }
    }

    /** The chain that `Save` sets up. */
    ghost function Plan(): Chain {
      ChainOf(MutatorsOf(builders))
    }

    /** The world `Save` starts its chain in: empty slots, and defaults filled in. */
    ghost function Start(w: World): World {
      WithDefaults(w.(specs := Slots(|builders|), nodes := Slots(|builders|), finished := []), runtime, builders)
    }

    /** The mutations the builders hold and the ones their hooks may pass on. */
    ghost predicate Knows(known: set<AccountMutation>)
      reads (set b | b in builders)`mutation
    {
      forall b | b in builders :: b.mutation in known && forall h | h in b.hooks && h.Next? && h.pass.Replace? :: h.pass.m in known
    }

    method DefaultOne(b: AccountCreate, ghost known: set<AccountMutation>)
      requires b in builders && b.mutation in known
      modifies b.mutation`data
      ensures Snapshot(known) == WithDefault(old(Snapshot(known)), runtime, b)
    {
      hide Defaults;
      ghost var w := Snapshot(known);
      var _ := b.FillDefaults(runtime);
      assert Snapshot(known).held == w.held[b.mutation := w.held[b.mutation].(data := b.mutation.data)];
      assert Snapshot(known).owner == w.owner;
    }

    /** Empties the slots, fills in the defaults, and sets up the mutators. */
    method SetUp(ghost known: set<AccountMutation>) returns (mutators: seq<Mutator>)
      requires Knows(known)
      modifies this, known`data
      ensures mutators == MutatorsOf(builders)
      ensures Snapshot(known) == Start(old(Snapshot(known)))
    {
      hide *;
      ghost var was := Snapshot(known);
      KnownMutations(known);
      ClearSlots(known);
      ghost var w := Snapshot(known);
      StartIs(was, w);
      mutators := PrepareAll(known, w);
    }

    method ClearSlots(ghost known: set<AccountMutation>)
      modifies this
      ensures Snapshot(known) == old(Snapshot(known)).(specs := Slots(|builders|), nodes := Slots(|builders|), finished := [])
    {
      specs, nodes, finished := Slots(|builders|), Slots(|builders|), [];
    }

    lemma StartIs(was: World, w: World)
      requires w == was.(specs := Slots(|builders|), nodes := Slots(|builders|), finished := [])
      ensures Start(was) == WithDefaults(w, runtime, builders)
    {
      hide WithDefaults;
    }

    lemma KnownMutations(known: set<AccountMutation>)
      requires Knows(known)
      ensures forall k | 0 <= k < |builders| :: builders[k] in builders && builders[k].mutation in known
    {
    }

    /** One turn of the loop: builder `i`'s defaults, and its mutator under its hooks. */
    method PrepareOne(i: nat, ghost known: set<AccountMutation>, ghost w: World) returns (mut: Mutator)
      requires i < |builders| && builders[i] in builders && builders[i].mutation in known
      requires Snapshot(known) == WithDefaults(w, runtime, builders[..i])
      modifies known`data
      ensures Snapshot(known) == WithDefaults(w, runtime, builders[..i + 1]) && mut == WrapAll(builders[i].hooks, Base(i))
    {
      hide *;
      DefaultsStep(w, runtime, builders, i);
      DefaultOne(builders[i], known);
      mut := Wrap(builders[i].hooks, i);
    }

    /** The loop over the builders: their defaults, and their mutators under their hooks. */
    method PrepareAll(ghost known: set<AccountMutation>, ghost w: World) returns (mutators: seq<Mutator>)
      requires Snapshot(known) == w && forall k | 0 <= k < |builders| :: builders[k] in builders && builders[k].mutation in known
      modifies known`data
      ensures mutators == MutatorsOf(builders)
      ensures Snapshot(known) == WithDefaults(w, runtime, builders)
    {
      mutators := [];
      assert WithDefaults(w, runtime, builders[..0]) == w && mutators == MutatorsOf(builders[..0]);
      hide *;
      for i := 0 to |builders|
        invariant Snapshot(known) == WithDefaults(w, runtime, builders[..i]) && mutators == MutatorsOf(builders[..i])
      {
        var mut := PrepareOne(i, known, w);
        MutatorsStep(builders, i);
        mutators := mutators + [mut];
      }
      assert builders[..|builders|] == builders;
    }

    /** Creates all the accounts, or reports an error. */
    method Save(ghost known: set<AccountMutation>) returns (created: Option<seq<Option<Fields>>>)
      requires Knows(known)
      modifies this, driver`writes, (set b | b in builders)`mutation, known
      ensures failed ==> created.None? && Snapshot(known) == old(Snapshot(known))
      ensures Fits(Plan(), Start(old(Snapshot(known))))
      ensures !failed ==>
        var (after, ok) := SaveRun(Plan(), Start(old(Snapshot(known))));
        Snapshot(known) == after && created == if ok then Some(after.nodes) else None
    {
      ghost var w := Snapshot(known);
      StartFits(known);
      hide *;
      created := None;
      if !failed {
        created := SaveAll(known);
      }
    }

    method SaveAll(ghost known: set<AccountMutation>) returns (created: Option<seq<Option<Fields>>>)
      requires Knows(known)
      requires Fits(Plan(), Start(Snapshot(known)))
      modifies this, driver`writes, (set b | b in builders)`mutation, known
      ensures var (after, ok) := SaveRun(Plan(), Start(old(Snapshot(known))));
        Snapshot(known) == after && created == if ok then Some(after.nodes) else None
    {
      ghost var w := Start(Snapshot(known));
      hide *;
      var mutators := SetUp(known);
      SaveRunIs(Plan(), w);
      PlanIs();
      var ok := true;
      if |mutators| > 0 {
        SnapshotFacts(known, 0);
        ok := Mutate(mutators, mutators[0], builders[0].mutation, known);
      }
      SlotsShown(known);
      created := if ok then Some(nodes) else None;
    }

    lemma PlanIs()
      ensures Plan() == ChainOf(MutatorsOf(builders)) && Plan().builders == builders && Plan().mutators == MutatorsOf(builders)
    {
    }

    lemma Shown(known: set<AccountMutation>)
      ensures Snapshot(known).writes == driver.writes && Snapshot(known).finished == finished
    {
    }

    lemma SlotsShown(known: set<AccountMutation>)
      ensures Snapshot(known).nodes == nodes
    {
    }

    /** Whatever the builders are, the chain that `Save` sets up fits the world it starts in. */
    lemma StartFits(known: set<AccountMutation>)
      requires Knows(known)
      ensures Fits(Plan(), Start(Snapshot(known)))
    {
      hide Defaults;
      var c, w := Plan(), Start(Snapshot(known));
      assert w.held.Keys == known && w.owner == Snapshot(known).owner && |w.specs| == |w.nodes| == |builders|;
      assert forall b | b in w.owner :: w.owner[b] in w.held;
      forall k | 0 <= k < |builders| ensures Index(c.mutators[k]) == k && Targets(c.mutators[k], known) {
        WrapAllHooks(builders[k].hooks, k);
        assert builders[k] in builders;
      }
    }

    lemma SnapshotFacts(known: set<AccountMutation>, i: nat)
      requires i < |builders|
      ensures var w := Snapshot(known);
        && builders[i] in w.owner && w.owner[builders[i]] == builders[i].mutation
        && w.specs == specs && w.nodes == nodes && w.held.Keys == known
        && (builders[i].mutation in known ==> w.held[builders[i].mutation].data == builders[i].mutation.data)
    {
    }
  }

  // ---- A bulk save on the heap that reports success and writes nothing ----

  /** A mutation with a value in every column. */
  function Full(): Mutation {
    Mutation(map c | c in Columns() :: Text("x"), [], None, None, None, [], [])
  }

  lemma FullPasses(rt: Runtime, valid: Validators)
    requires forall c, v :: valid(c, v)
    ensures Check(Defaults(rt, Full()).0, valid).None?
  {
    var d := Defaults(rt, Full()).0;
    DefaultsFromGets(rt, Full(), Defaulted());
    CheckDecides(d, valid);
    hide Columns, DefaultValue, DefaultsFrom, Check, Defaulted;
    forall c ensures CheckPasses(d, valid, c) {
      if Required(c) {
        ColumnsAreAll(c);
      }
    }
  }

  /** Two builders with a full mutation each, the second under a hook that reports a success without calling next. */
  ghost predicate StoppedPair(bulk: AccountCreateBulk, w: World, first: AccountMutation, second: AccountMutation) {
    && |bulk.builders| == 2 && bulk.builders[0] != bulk.builders[1] && first != second
    && bulk.builders[0].hooks == [] && bulk.builders[1].hooks == [Stop(true)] && !bulk.failed
    && w.owner == map[bulk.builders[0] := first, bulk.builders[1] := second] && w.finished == [] && w.writes == []
    && w.held == map[first := Held(Full(), None, false), second := Held(Full(), None, false)]
    && forall c, v :: bulk.valid(c, v)
  }

  lemma StoppedPlan(bulk: AccountCreateBulk, w: World, first: AccountMutation, second: AccountMutation)
    requires StoppedPair(bulk, w, first, second)
    ensures bulk.Plan().builders == bulk.builders && bulk.Plan().mutators == [Base(0), Wrapped(Stop(true), Base(1))]
    ensures bulk.Plan().valid == bulk.valid && |bulk.builders| == 2
  {
    hide Full;
    var hooks := bulk.builders[1].hooks;
    assert hooks[1..] == [];
    assert WrapAll(hooks, Base(1)) == Wrapped(Stop(true), WrapAll(hooks[1..], Base(1)));
  }

  lemma StoppedStart(bulk: AccountCreateBulk, w: World, first: AccountMutation, second: AccountMutation)
    requires StoppedPair(bulk, w, first, second)
    ensures var s := bulk.Start(w);
      && s.owner == w.owner && |bulk.builders| == 2 && bulk.builders[0] in s.owner && s.owner[bulk.builders[0]] == first
      && s.finished == [] && s.writes == [] && first in s.held && s.held[first].data == Defaults(bulk.runtime, Full()).0
  {
    hide Defaults, Full;
    var v := w.(specs := Slots(2), nodes := Slots(2), finished := []);
    var one := bulk.builders[..1];
    assert one[..0] == [] && bulk.builders[..2] == bulk.builders;
    DefaultsStep(v, bulk.runtime, bulk.builders, 0);
    DefaultsStep(v, bulk.runtime, bulk.builders, 1);
    assert WithDefaults(v, bulk.runtime, bulk.builders[..0]) == v;
  }

  method TwoBuilders(insert: Insert, rt: Runtime)
      returns (bulk: AccountCreateBulk, ghost first: AccountMutation, ghost second: AccountMutation)
    ensures fresh(bulk) && fresh(bulk.driver) && bulk.driver.insert == insert && fresh(first) && fresh(second)
    ensures forall b | b in bulk.builders :: fresh(b)
    ensures bulk.Knows({first, second}) && StoppedPair(bulk, bulk.Snapshot({first, second}), first, second)
  {
    hide Full;
    var m := new AccountMutation(Full());
    var n := new AccountMutation(Full());
    var a := new AccountCreate(m, []);
    var b := new AccountCreate(n, [Stop(true)]);
    var driver := new Driver(insert);
    bulk := new AccountCreateBulk([a, b], false, rt, (c, v) => true, driver);
    first, second := m, n;
    PairShown(bulk, first, second);
  }

  lemma PairShown(bulk: AccountCreateBulk, first: AccountMutation, second: AccountMutation)
    requires |bulk.builders| == 2 && bulk.builders[0] != bulk.builders[1] && first != second && !bulk.failed
    requires bulk.builders[0].hooks == [] && bulk.builders[1].hooks == [Stop(true)]
    requires bulk.builders[0].mutation == first && bulk.builders[1].mutation == second
    requires first.Holds() == second.Holds() == Held(Full(), None, false)
    requires bulk.finished == [] && bulk.driver.writes == [] && forall c, v :: bulk.valid(c, v)
    ensures bulk.Knows({first, second}) && StoppedPair(bulk, bulk.Snapshot({first, second}), first, second)
  {
    hide Full;
    var w := bulk.Snapshot({first, second});
    assert w.owner == map[bulk.builders[0] := first, bulk.builders[1] := second];
    assert w.held == map[first := Held(Full(), None, false), second := Held(Full(), None, false)];
  }

  /** The save returns the accounts of a success, the first builder has finished alone, and the database was never
      asked. */
  method SaveUnderLyingHook(insert: Insert, rt: Runtime) returns (bulk: AccountCreateBulk, created: Option<seq<Option<Fields>>>)
    ensures fresh(bulk) && fresh(bulk.driver) && bulk.driver.insert == insert && |bulk.builders| == 2
    ensures created.Some? && bulk.driver.writes == [] && bulk.finished == [0] && !IsSuffix(bulk.finished, 2)
  {
    hide *;
    ghost var first, second;
    bulk, first, second := TwoBuilders(insert, rt);
    ghost var known := {first, second};
    ghost var w := bulk.Snapshot(known);
    ghost var c, s := bulk.Plan(), bulk.Start(w);
    StoppedPlan(bulk, w, first, second);
    StoppedStart(bulk, w, first, second);
    Unfailed(bulk, w, first, second);
    FullPasses(bulk.runtime, bulk.valid);
    created := bulk.Save(known);
    OwnerIs(c, s, 0);
    SuccessWithoutWrite(c, s);
    bulk.Shown(known);
    assert s.finished + [0] == [0];
  }

  lemma Unfailed(bulk: AccountCreateBulk, w: World, first: AccountMutation, second: AccountMutation)
    requires StoppedPair(bulk, w, first, second)
    ensures !bulk.failed && forall c, v :: bulk.valid(c, v)
  {
    hide Full;
  }
}
