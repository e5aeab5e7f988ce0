/** The lease-counted mount registry as a transition system: one step per critical
    section of extension/registry.go and extension/notification_dispatcher.go, so a run
    is any interleaving of the goroutines that take those sections. */
module Lifecycle {
  import opened Options

  type Handle = nat

  const NOTIFICATION_QUEUE_SIZE: nat := 128

  datatype Path = ByRollback | ByClose

  /** One call of one deferred cleanup; `pass` numbers the close passes of a mount. */
  datatype EffectRun = EffectRun(path: Path, pass: nat, index: nat, ok: bool)

  datatype Phase = Staged | Committed | RolledBack

  /** `done` is the source's flag per effect; `rollbackAt` and `closeAt` say how many effects
      a running pass has still to visit, `closeAt` being set while cleanMu is held. */
  datatype Effects = Effects(
    phase: Phase, done: seq<bool>, rollbackAt: nat, closeAt: Option<nat>, pass: nat, log: seq<EffectRun>)

  /** A preparation and, once committed, the mount made of it. `closes` counts the calls of
      close(drained): a second one would panic. */
  datatype Mount = Mount(id: string, active: bool, refs: nat, closes: nat, fx: Effects)

  /** `leases` are the mount references the plan still owes a release for, `entries` the
      mounts that own a planned callback; a queued task is a retained mount, or None for a
      Flush marker; `retaining` is an enqueue that has retained and not yet sent, and so
      still owns the plan's notification lock. */
  datatype Plan = Plan(
    entries: set<Handle>, leases: set<Handle>, closed: bool,
    queue: seq<Option<Handle>>, running: seq<Option<Handle>>, retaining: Option<Handle>)

  datatype State = State(mounts: seq<Mount>, table: map<string, Handle>, plans: seq<Plan>)

  const INITIAL: State := State([], map[], [])

  datatype Step =
    | Prepare(id: string, effects: nat)
    | PrepareFails(id: string, effects: nat)
    | Commit(h: Handle)
    | Rollback(h: Handle)
    | RollbackEffect(h: Handle, ok: bool)
    | Snapshot(leased: set<Handle>, entries: set<Handle>)
    | Retain(p: nat, h: Handle)
    | Send(p: nat)
    | Drop(p: nat)
    | FlushMarker(p: nat)
    | Take(p: nat)
    | Finish(p: nat)
    | ClosePlan(p: nat)
    | ReleaseLease(p: nat, h: Handle)
    | Deactivate(h: Handle)
    | BeginClose(h: Handle)
    | CloseEffect(h: Handle, ok: bool)
    | EndClose(h: Handle)

  // ----- the sections that change one mount

  function Prepared(id: string, effects: nat): Mount {
    Mount(id, false, 0, 0, Effects(Staged, seq(effects, _ => false), 0, None, 0, []))
  }

  function FailedMount(id: string, effects: nat): Mount {
    var m := Prepared(id, effects);
    m.(fx := m.fx.(phase := RolledBack, rollbackAt := effects))
  }

  function Published(m: Mount): Mount { m.(active := true, fx := m.fx.(phase := Committed)) }

  function Retained(m: Mount): Mount { m.(refs := m.refs + 1) }

  function RetainAll(mounts: seq<Mount>, leased: set<Handle>): (r: seq<Mount>)
    ensures |r| == |mounts|
    ensures forall h | 0 <= h < |r| :: r[h] == if h in leased then Retained(mounts[h]) else mounts[h]
  {
    seq(|mounts|, h requires 0 <= h < |mounts| => if h in leased then Retained(mounts[h]) else mounts[h])
  }

  function Released(m: Mount): Mount {
    var refs := if m.refs > 0 then m.refs - 1 else m.refs;
    m.(refs := refs,
       closes := if refs == 0 && !m.active && m.closes == 0 then 1 else m.closes)
  }

  function Deactivated(m: Mount): Mount {
    if !m.active then m
    else m.(active := false, closes := if m.refs == 0 then m.closes + 1 else m.closes)
  }

  function RolledBackEffect(e: Effects, ok: bool): Effects
    requires e.rollbackAt > 0
  {
    e.(rollbackAt := e.rollbackAt - 1, log := e.log + [EffectRun(ByRollback, 0, e.rollbackAt - 1, ok)])
  }

  function BeginPass(e: Effects): Effects { e.(closeAt := Some(|e.done|)) }

  function EndPass(e: Effects): Effects { e.(closeAt := None, pass := e.pass + 1) }

  function ClosedEffect(e: Effects, ok: bool): Effects
    requires e.closeAt.Some? && 0 < e.closeAt.value <= |e.done|
  {
    var i := e.closeAt.value - 1;
    if e.done[i] then e.(closeAt := Some(i))
    else e.(closeAt := Some(i), done := e.done[i := ok], log := e.log + [EffectRun(ByClose, e.pass, i, ok)])
  }

  // ----- the transition system

  predicate HasMount(s: State, h: Handle) { h < |s.mounts| }

  predicate Enabled(s: State, step: Step) {
    match step
    case Prepare(_, _) => true
    case PrepareFails(_, _) => true
    case Commit(h) => HasMount(s, h) && s.mounts[h].fx.phase.Staged? && s.mounts[h].id !in s.table
    case Rollback(h) => HasMount(s, h) && s.mounts[h].fx.phase.Staged?
    case RollbackEffect(h, _) => HasMount(s, h) && s.mounts[h].fx.phase.RolledBack? && s.mounts[h].fx.rollbackAt > 0
    case Snapshot(leased, entries) => leased <= s.table.Values && entries <= leased
    case Retain(p, h) => p < |s.plans| && !s.plans[p].closed && s.plans[p].retaining.None? && h in s.plans[p].entries
    case Send(p) => p < |s.plans| && s.plans[p].retaining.Some? && |s.plans[p].queue| < NOTIFICATION_QUEUE_SIZE
    case Drop(p) => p < |s.plans| && s.plans[p].retaining.Some? && |s.plans[p].queue| >= NOTIFICATION_QUEUE_SIZE
    case FlushMarker(p) => p < |s.plans| && !s.plans[p].closed && s.plans[p].retaining.None?
        && |s.plans[p].queue| < NOTIFICATION_QUEUE_SIZE
    case Take(p) => p < |s.plans| && s.plans[p].running == [] && s.plans[p].queue != []
    case Finish(p) => p < |s.plans| && s.plans[p].running != []
    case ClosePlan(p) => p < |s.plans| && !s.plans[p].closed && s.plans[p].retaining.None?
    case ReleaseLease(p, h) => p < |s.plans| && s.plans[p].closed && h in s.plans[p].leases
    case Deactivate(h) => HasMount(s, h) && s.mounts[h].fx.phase.Committed?
    case BeginClose(h) => HasMount(s, h) && s.mounts[h].fx.phase.Committed? && s.mounts[h].closes > 0
        && s.mounts[h].fx.closeAt.None?
    case CloseEffect(h, _) => HasMount(s, h) && s.mounts[h].fx.closeAt.Some?
        && 0 < s.mounts[h].fx.closeAt.value <= |s.mounts[h].fx.done|
    case EndClose(h) => HasMount(s, h) && s.mounts[h].fx.closeAt == Some(0)
  }

  function WithMount(s: State, h: Handle, m: Mount): State
    requires HasMount(s, h)
  {
    s.(mounts := s.mounts[h := m])
  }

  function WithFx(s: State, h: Handle, fx: Effects): State
    requires HasMount(s, h)
  {
    WithMount(s, h, s.mounts[h].(fx := fx))
  }

  function WithPlan(s: State, p: nat, plan: Plan): State
    requires p < |s.plans|
  {
    s.(plans := s.plans[p := plan])
  }

  /** release(): a reference to a mount that does not exist cannot occur in a reachable state. */
  function ReleaseIn(s: State, h: Handle): State {
    if HasMount(s, h) then WithMount(s, h, Released(s.mounts[h])) else s
  }

  function Apply(s: State, step: Step): State
    requires Enabled(s, step)
  {
    match step
    case Prepare(id, n) => s.(mounts := s.mounts + [Prepared(id, n)])
    case PrepareFails(id, n) => s.(mounts := s.mounts + [FailedMount(id, n)])
    case Commit(h) => WithMount(s, h, Published(s.mounts[h])).(table := s.table[s.mounts[h].id := h])
    case Rollback(h) => WithFx(s, h, s.mounts[h].fx.(phase := RolledBack, rollbackAt := |s.mounts[h].fx.done|))
    case RollbackEffect(h, ok) => WithFx(s, h, RolledBackEffect(s.mounts[h].fx, ok))
    case Snapshot(leased, entries) =>
      State(RetainAll(s.mounts, leased), s.table, s.plans + [Plan(entries, leased, false, [], [], None)])
    case Retain(p, h) =>
      var t := WithPlan(s, p, s.plans[p].(retaining := Some(h)));
      if HasMount(s, h) then WithMount(t, h, Retained(s.mounts[h])) else t
    case Send(p) => WithPlan(s, p, s.plans[p].(queue := s.plans[p].queue + [s.plans[p].retaining], retaining := None))
    case Drop(p) => ReleaseIn(WithPlan(s, p, s.plans[p].(retaining := None)), s.plans[p].retaining.value)
    case FlushMarker(p) => WithPlan(s, p, s.plans[p].(queue := s.plans[p].queue + [None]))
    case Take(p) => WithPlan(s, p, s.plans[p].(queue := s.plans[p].queue[1..], running := [s.plans[p].queue[0]]))
    case Finish(p) =>
      var t := WithPlan(s, p, s.plans[p].(running := s.plans[p].running[1..]));
      if s.plans[p].running[0].Some? then ReleaseIn(t, s.plans[p].running[0].value) else t
    case ClosePlan(p) => WithPlan(s, p, s.plans[p].(closed := true))
    case ReleaseLease(p, h) => ReleaseIn(WithPlan(s, p, s.plans[p].(leases := s.plans[p].leases - {h})), h)
    case Deactivate(h) =>
      var t := WithMount(s, h, Deactivated(s.mounts[h]));
      if s.mounts[h].active then t.(table := s.table - {s.mounts[h].id}) else t
    case BeginClose(h) => WithFx(s, h, BeginPass(s.mounts[h].fx))
    case CloseEffect(h, ok) => WithFx(s, h, ClosedEffect(s.mounts[h].fx, ok))
    case EndClose(h) => WithFx(s, h, EndPass(s.mounts[h].fx))
  }

  /** A run: every step is enabled where it is taken, and states[k + 1] is its outcome. */
  ghost predicate IsRun(states: seq<State>, steps: seq<Step>) {
    && |states| == |steps| + 1
    && states[0] == INITIAL
    && forall k | 0 <= k < |steps| :: Enabled(states[k], steps[k]) && states[k + 1] == Apply(states[k], steps[k])
  }

  // ----- who holds a mount

  function Bit(b: bool): nat { if b then 1 else 0 }

  function Tasks(queue: seq<Option<Handle>>, h: Handle): nat {
    multiset(queue)[Some(h)]
  }

  function PlanHolds(p: Plan, h: Handle): nat {
    Bit(h in p.leases) + Tasks(p.queue, h) + Tasks(p.running, h) + Bit(p.retaining == Some(h))
  }

  /** Live plan leases plus queued, running and half-sent notifications on h. */
  function Holders(plans: seq<Plan>, h: Handle): nat {
    if plans == [] then 0 else PlanHolds(plans[0], h) + Holders(plans[1..], h)
  }

  lemma {:induction false} HoldersUpdate(plans: seq<Plan>, p: nat, plan: Plan, h: Handle)
    requires p < |plans|
    ensures Holders(plans[p := plan], h) == Holders(plans, h) - PlanHolds(plans[p], h) + PlanHolds(plan, h)
    ensures Holders(plans, h) >= PlanHolds(plans[p], h)
    decreases |plans|
  {
    var t := plans[p := plan];
    if p == 0 {
      assert t[1..] == plans[1..];
    } else {
      assert t[1..] == plans[1..][p - 1 := plan];
      HoldersUpdate(plans[1..], p - 1, plan, h);
    }
  }

  lemma {:induction false} HoldersAppend(plans: seq<Plan>, plan: Plan, h: Handle)
    ensures Holders(plans + [plan], h) == Holders(plans, h) + PlanHolds(plan, h)
  {
    var t := plans + [plan];
    if plans == [] {
      assert t[1..] == [];
    } else {
      assert t[1..] == plans[1..] + [plan];
      HoldersAppend(plans[1..], plan, h);
    }
  }

  // ----- the invariant

  /** The log tells the same story as the flags: only a rolled back preparation has rollback
      runs, only a committed mount has close runs, a success is final, and a pass walks down. */
  ghost predicate LogOk(e: Effects) {
    && (forall k | 0 <= k < |e.log| :: e.log[k].index < |e.done|)
    && (forall k | 0 <= k < |e.log| :: if e.phase.Committed? then e.log[k].path.ByClose? && e.log[k].pass <= e.pass
                                       else e.phase.RolledBack? && e.log[k].path.ByRollback?)
    && (e.phase.Staged? ==> e.log == [])
    && (e.phase.RolledBack? ==> e.rollbackAt <= |e.done| && |e.log| == |e.done| - e.rollbackAt)
    && (e.phase.RolledBack? ==> forall k | 0 <= k < |e.log| :: e.log[k].index == |e.done| - 1 - k)
    && (!e.phase.RolledBack? ==> forall i | 0 <= i < |e.done| :: e.done[i] <==> Succeeded(e.log, i))
    && (!e.phase.RolledBack? ==> SuccessIsFinal(e.log))
    && DownwardPasses(e.log)
    && (e.closeAt.Some? ==> e.phase.Committed? && e.closeAt.value <= |e.done|)
    && (e.closeAt.Some? ==> forall k | 0 <= k < |e.log| && e.log[k].pass == e.pass :: e.log[k].index >= e.closeAt.value)
    && (e.closeAt.None? && e.phase.Committed? ==> forall k | 0 <= k < |e.log| :: e.log[k].pass < e.pass)
  }

  ghost predicate Succeeded(log: seq<EffectRun>, i: nat) {
    exists k :: 0 <= k < |log| && log[k].index == i && log[k].ok
  }

  /** An effect that succeeded is not run again. */
  ghost predicate SuccessIsFinal(log: seq<EffectRun>) {
    forall j, k | 0 <= j < k < |log| && log[j].index == log[k].index :: !log[j].ok
  }

  /** Within a pass, effects run in reverse registration order. */
  ghost predicate DownwardPasses(log: seq<EffectRun>) {
    forall j, k | 0 <= j < k < |log| && log[j].path == log[k].path && log[j].pass == log[k].pass ::
        log[j].index > log[k].index
  }

  /** drained has been closed exactly when the mount is withdrawn and unreferenced. */
  ghost predicate MountOk(m: Mount) {
    && (!m.fx.phase.Committed? ==> !m.active && m.refs == 0 && m.closes == 0)
    && (m.fx.phase.Committed? ==> m.closes == Bit(!m.active && m.refs == 0))
    && (m.fx.closeAt.Some? ==> m.closes == 1)
    && LogOk(m.fx)
  }

  /** `mounts` is how many mounts exist: a plan never refers to one that does not. */
  ghost predicate PlanOk(mounts: nat, p: Plan) {
    && (!p.closed ==> p.entries <= p.leases)
    && (p.retaining.Some? ==> !p.closed && p.retaining.value in p.entries)
    && (forall h | h in p.leases :: h < mounts)
    && (forall t | t in p.queue + p.running && t.Some? :: t.value < mounts)
  }

  /** The table holds exactly the active mounts, each under its own instance id. */
  ghost predicate TableOk(mounts: seq<Mount>, table: map<string, Handle>) {
    && (forall id | id in table :: table[id] < |mounts| && mounts[table[id]].active && mounts[table[id]].id == id)
    && (forall h | 0 <= h < |mounts| && mounts[h].active :: mounts[h].id in table && table[mounts[h].id] == h)
  }

  /** A mount's reference count is the number of its holders. */
  ghost predicate CountOk(mounts: seq<Mount>, plans: seq<Plan>) {
    forall h | 0 <= h < |mounts| :: mounts[h].refs == Holders(plans, h)
  }

  ghost predicate MountsOk(mounts: seq<Mount>) {
    forall h | 0 <= h < |mounts| :: MountOk(mounts[h])
  }

  ghost predicate PlansOk(mounts: nat, plans: seq<Plan>) {
    forall p | 0 <= p < |plans| :: PlanOk(mounts, plans[p])
  }

  ghost predicate Inv(s: State) {
    TableOk(s.mounts, s.table) && CountOk(s.mounts, s.plans) && MountsOk(s.mounts) && PlansOk(|s.mounts|, s.plans)
  }

  lemma TableFrame(mounts: seq<Mount>, h: Handle, m: Mount, table: map<string, Handle>)
    requires TableOk(mounts, table) && h < |mounts| && m.id == mounts[h].id && m.active == mounts[h].active
    ensures TableOk(mounts[h := m], table)
  {
  }

  lemma TableInsert(mounts: seq<Mount>, h: Handle, m: Mount, table: map<string, Handle>)
    requires TableOk(mounts, table) && h < |mounts| && m.id == mounts[h].id && m.active && m.id !in table
    ensures TableOk(mounts[h := m], table[m.id := h])
  {
  }

  lemma TableRemove(mounts: seq<Mount>, h: Handle, m: Mount, table: map<string, Handle>)
    requires TableOk(mounts, table) && h < |mounts| && m.id == mounts[h].id && mounts[h].active && !m.active
    ensures TableOk(mounts[h := m], table - {m.id})
  {
  }

  lemma CountFrame(mounts: seq<Mount>, h: Handle, m: Mount, plans: seq<Plan>, p: nat, plan: Plan)
    requires CountOk(mounts, plans) && h < |mounts| && p < |plans|
    requires forall g: Handle | g != h :: PlanHolds(plan, g) == PlanHolds(plans[p], g)
    requires m.refs == mounts[h].refs - PlanHolds(plans[p], h) + PlanHolds(plan, h)
    ensures CountOk(mounts[h := m], plans[p := plan])
  {
    var mounts' := mounts[h := m];
    forall g | 0 <= g < |mounts'| ensures mounts'[g].refs == Holders(plans[p := plan], g) {
      HoldersUpdate(plans, p, plan, g);
    }
  }

  // ----- every step keeps the invariant

  lemma EffectsOnlyKeeps(s: State, h: Handle, fx: Effects)
    requires Inv(s) && HasMount(s, h) && MountOk(s.mounts[h].(fx := fx))
    ensures Inv(WithFx(s, h, fx))
  {
    TableFrame(s.mounts, h, s.mounts[h].(fx := fx), s.table);
  }

  lemma PlanOnlyKeeps(s: State, p: nat, plan: Plan)
    requires Inv(s) && p < |s.plans| && PlanOk(|s.mounts|, plan)
    requires forall h: Handle :: PlanHolds(plan, h) == PlanHolds(s.plans[p], h)
    ensures Inv(WithPlan(s, p, plan))
  {
    forall h | 0 <= h < |s.mounts| ensures s.mounts[h].refs == Holders(s.plans[p := plan], h) {
      HoldersUpdate(s.plans, p, plan, h);
    }
  }

  /** One plan and one mount change together, the count by what the plan now holds. */
  lemma HoldChangeKeeps(s: State, p: nat, plan: Plan, h: Handle, m: Mount)
    requires Inv(s) && p < |s.plans| && PlanOk(|s.mounts|, plan) && HasMount(s, h) && MountOk(m)
    requires m.id == s.mounts[h].id && m.active == s.mounts[h].active
    requires forall g: Handle | g != h :: PlanHolds(plan, g) == PlanHolds(s.plans[p], g)
    requires m.refs == s.mounts[h].refs - PlanHolds(s.plans[p], h) + PlanHolds(plan, h)
    ensures Inv(WithMount(WithPlan(s, p, plan), h, m))
  {
    TableFrame(s.mounts, h, m, s.table);
    CountFrame(s.mounts, h, m, s.plans, p, plan);
  }

  lemma HeldIsCommitted(s: State, p: nat, h: Handle)
    requires Inv(s) && p < |s.plans| && HasMount(s, h) && PlanHolds(s.plans[p], h) > 0
    ensures s.mounts[h].refs >= PlanHolds(s.plans[p], h)
    ensures s.mounts[h].fx.phase.Committed? && s.mounts[h].closes == 0 && s.mounts[h].fx.closeAt.None?
  {
    HoldersUpdate(s.plans, p, s.plans[p], h);
    assert MountOk(s.mounts[h]);
  }

  /** A release given back by the plan that held it finds the count positive, and the
      count and the drained channel stay in step. */
  lemma ReleaseKeeps(s: State, p: nat, plan: Plan, h: Handle)
    requires Inv(s) && p < |s.plans| && PlanOk(|s.mounts|, plan) && HasMount(s, h)
    requires PlanHolds(plan, h) + 1 == PlanHolds(s.plans[p], h)
    requires forall g: Handle | g != h :: PlanHolds(plan, g) == PlanHolds(s.plans[p], g)
    ensures s.mounts[h].refs > 0
    ensures Inv(ReleaseIn(WithPlan(s, p, plan), h))
  {
    HeldIsCommitted(s, p, h);
    HoldChangeKeeps(s, p, plan, h, Released(s.mounts[h]));
  }

  /** A plan that has not been closed still owns its leases, so what it retains is referenced
      and its drained channel is open. */
  lemma RetainKeeps(s: State, p: nat, h: Handle)
    requires Inv(s) && Enabled(s, Retain(p, h))
    ensures HasMount(s, h) && s.mounts[h].refs > 0 && s.mounts[h].closes == 0
    ensures Inv(Apply(s, Retain(p, h)))
  {
    assert PlanOk(|s.mounts|, s.plans[p]);
    assert h in s.plans[p].leases;
    HeldIsCommitted(s, p, h);
    HoldChangeKeeps(s, p, s.plans[p].(retaining := Some(h)), h, Retained(s.mounts[h]));
  }

  lemma LeasedAreActive(s: State, leased: set<Handle>, h: Handle)
    requires TableOk(s.mounts, s.table) && leased <= s.table.Values && h in leased
    ensures HasMount(s, h) && s.mounts[h].active
  {
    assert h in s.table.Values;
    var id :| id in s.table && s.table[id] == h;
  }

  lemma SnapshotKeeps(s: State, leased: set<Handle>, entries: set<Handle>)
    requires Inv(s) && Enabled(s, Snapshot(leased, entries))
    ensures Inv(Apply(s, Snapshot(leased, entries)))
  {
    var plan := Plan(entries, leased, false, [], [], None);
    var t := Apply(s, Snapshot(leased, entries));
    forall h | h in leased ensures h < |s.mounts| && s.mounts[h].active {
      LeasedAreActive(s, leased, h);
    }
    assert PlanOk(|s.mounts|, plan);
    assert TableOk(t.mounts, t.table);
    forall h | 0 <= h < |t.mounts| ensures t.mounts[h].refs == Holders(t.plans, h) && MountOk(t.mounts[h]) {
      HoldersAppend(s.plans, plan, h);
      assert MountOk(s.mounts[h]);
    }
  }

  lemma {:induction false} FreshHandleUnheld(plans: seq<Plan>, h: Handle)
    requires forall p | 0 <= p < |plans| :: PlanOk(h, plans[p])
    ensures Holders(plans, h) == 0
  {
    if plans != [] {
      assert PlanOk(h, plans[0]);
      assert Some(h) !in plans[0].queue + plans[0].running;
      FreshHandleUnheld(plans[1..], h);
    }
  }

  lemma PrepareKeeps(s: State, m: Mount)
    requires Inv(s) && MountOk(m) && !m.fx.phase.Committed?
    ensures Inv(s.(mounts := s.mounts + [m]))
  {
    FreshHandleUnheld(s.plans, |s.mounts|);
    forall p | 0 <= p < |s.plans| ensures PlanOk(|s.mounts| + 1, s.plans[p]) {
      assert PlanOk(|s.mounts|, s.plans[p]);
    }
  }

  lemma PublishedOk(m: Mount)
    requires MountOk(m) && m.fx.phase.Staged?
    ensures MountOk(Published(m))
  {
  }

  lemma CommitKeeps(s: State, h: Handle)
    requires Inv(s) && Enabled(s, Commit(h))
    ensures Inv(Apply(s, Commit(h)))
  {
    PublishedOk(s.mounts[h]);
    TableInsert(s.mounts, h, Published(s.mounts[h]), s.table);
  }

  lemma DeactivatedOk(m: Mount)
    requires MountOk(m) && m.fx.phase.Committed?
    ensures MountOk(Deactivated(m))
  {
  }

  lemma DeactivateKeeps(s: State, h: Handle)
    requires Inv(s) && Enabled(s, Deactivate(h))
    ensures Inv(Apply(s, Deactivate(h)))
  {
    DeactivatedOk(s.mounts[h]);
    if s.mounts[h].active {
      TableRemove(s.mounts, h, Deactivated(s.mounts[h]), s.table);
    } else {
      TableFrame(s.mounts, h, Deactivated(s.mounts[h]), s.table);
    }
  }

  lemma RollbackEffectKeeps(e: Effects, ok: bool)
    requires LogOk(e) && e.phase.RolledBack? && e.rollbackAt > 0
    ensures LogOk(RolledBackEffect(e, ok))
  {
  }

  lemma PassBoundaryKeeps(e: Effects)
    requires LogOk(e) && e.phase.Committed?
    ensures e.closeAt.None? ==> LogOk(BeginPass(e))
    ensures e.closeAt == Some(0) ==> LogOk(EndPass(e))
  {
  }

  lemma CloseEffectKeeps(e: Effects, ok: bool)
    requires LogOk(e) && e.closeAt.Some? && 0 < e.closeAt.value <= |e.done|
    ensures LogOk(ClosedEffect(e, ok))
  {
    var i := e.closeAt.value - 1;
    if !e.done[i] {
      var n := ClosedEffect(e, ok);
      var last := EffectRun(ByClose, e.pass, i, ok);
      AppendRun(e.log, last);
      forall j | 0 <= j < |n.done| ensures n.done[j] <==> Succeeded(n.log, j) {
        AppendSucceeded(e.log, last, j);
      }
    }
  }

  lemma AppendRun(log: seq<EffectRun>, last: EffectRun)
    requires SuccessIsFinal(log) && DownwardPasses(log) && !Succeeded(log, last.index)
    requires forall k | 0 <= k < |log| && log[k].path == last.path && log[k].pass == last.pass ::
               log[k].index > last.index
    ensures SuccessIsFinal(log + [last]) && DownwardPasses(log + [last])
  {
  }

  lemma AppendSucceeded(log: seq<EffectRun>, last: EffectRun, i: nat)
    ensures Succeeded(log + [last], i) <==> Succeeded(log, i) || (last.index == i && last.ok)
  {
    var n := log + [last];
    if Succeeded(log, i) {
      var k :| 0 <= k < |log| && log[k].index == i && log[k].ok;
      assert n[k] == log[k];
    }
    if last.index == i && last.ok {
      assert n[|log|] == last;
    }
  }

  lemma RollbackKeeps(s: State, h: Handle)
    requires Inv(s) && Enabled(s, Rollback(h))
    ensures Inv(Apply(s, Rollback(h)))
  {
    var e := s.mounts[h].fx;
    assert MountOk(s.mounts[h]);
    EffectsOnlyKeeps(s, h, e.(phase := RolledBack, rollbackAt := |e.done|));
  }

  lemma RunRollbackKeeps(s: State, h: Handle, ok: bool)
    requires Inv(s) && Enabled(s, RollbackEffect(h, ok))
    ensures Inv(Apply(s, RollbackEffect(h, ok)))
  {
    var e := s.mounts[h].fx;
    assert MountOk(s.mounts[h]);
    RollbackEffectKeeps(e, ok);
    EffectsOnlyKeeps(s, h, RolledBackEffect(e, ok));
  }

  lemma BeginCloseKeeps(s: State, h: Handle)
    requires Inv(s) && Enabled(s, BeginClose(h))
    ensures Inv(Apply(s, BeginClose(h)))
  {
    var e := s.mounts[h].fx;
    assert MountOk(s.mounts[h]);
    PassBoundaryKeeps(e);
    EffectsOnlyKeeps(s, h, BeginPass(e));
  }

  lemma RunCloseKeeps(s: State, h: Handle, ok: bool)
    requires Inv(s) && Enabled(s, CloseEffect(h, ok))
    ensures Inv(Apply(s, CloseEffect(h, ok)))
  {
    var e := s.mounts[h].fx;
    assert MountOk(s.mounts[h]);
    CloseEffectKeeps(e, ok);
    EffectsOnlyKeeps(s, h, ClosedEffect(e, ok));
  }

  lemma EndCloseKeeps(s: State, h: Handle)
    requires Inv(s) && Enabled(s, EndClose(h))
    ensures Inv(Apply(s, EndClose(h)))
  {
    var e := s.mounts[h].fx;
    assert MountOk(s.mounts[h]);
    PassBoundaryKeeps(e);
    EffectsOnlyKeeps(s, h, EndPass(e));
  }

  lemma SendKeeps(s: State, p: nat)
    requires Inv(s) && Enabled(s, Send(p))
    ensures Inv(Apply(s, Send(p)))
  {
    var was := s.plans[p];
    assert PlanOk(|s.mounts|, was);
    PlanOnlyKeeps(s, p, was.(queue := was.queue + [was.retaining], retaining := None));
  }

  lemma DropKeeps(s: State, p: nat)
    requires Inv(s) && Enabled(s, Drop(p))
    ensures Inv(Apply(s, Drop(p)))
  {
    var was := s.plans[p];
    assert PlanOk(|s.mounts|, was);
    ReleaseKeeps(s, p, was.(retaining := None), was.retaining.value);
  }

  lemma FlushMarkerKeeps(s: State, p: nat)
    requires Inv(s) && Enabled(s, FlushMarker(p))
    ensures Inv(Apply(s, FlushMarker(p)))
  {
    var was := s.plans[p];
    assert PlanOk(|s.mounts|, was);
    PlanOnlyKeeps(s, p, was.(queue := was.queue + [None]));
  }

  lemma ClosePlanKeeps(s: State, p: nat)
    requires Inv(s) && Enabled(s, ClosePlan(p))
    ensures Inv(Apply(s, ClosePlan(p)))
  {
    var was := s.plans[p];
    assert PlanOk(|s.mounts|, was);
    PlanOnlyKeeps(s, p, was.(closed := true));
  }

  lemma ReleaseLeaseKeeps(s: State, p: nat, h: Handle)
    requires Inv(s) && Enabled(s, ReleaseLease(p, h))
    ensures Inv(Apply(s, ReleaseLease(p, h)))
  {
    var was := s.plans[p];
    assert PlanOk(|s.mounts|, was);
    ReleaseKeeps(s, p, was.(leases := was.leases - {h}), h);
  }

  lemma TakeKeeps(s: State, p: nat)
    requires Inv(s) && Enabled(s, Take(p))
    ensures Inv(Apply(s, Take(p)))
  {
    var was := s.plans[p];
    var plan := was.(queue := was.queue[1..], running := [was.queue[0]]);
    assert was.queue == [was.queue[0]] + was.queue[1..];
    assert PlanOk(|s.mounts|, was);
    assert forall t | t in plan.queue + plan.running :: t in was.queue + was.running;
    PlanOnlyKeeps(s, p, plan);
  }

  lemma FinishKeeps(s: State, p: nat)
    requires Inv(s) && Enabled(s, Finish(p))
    ensures Inv(Apply(s, Finish(p)))
  {
    var was := s.plans[p];
    var plan := was.(running := was.running[1..]);
    assert was.running == [was.running[0]] + was.running[1..];
    assert PlanOk(|s.mounts|, was);
    assert forall t | t in plan.queue + plan.running :: t in was.queue + was.running;
    if was.running[0].Some? {
      ReleaseKeeps(s, p, plan, was.running[0].value);
    } else {
      PlanOnlyKeeps(s, p, plan);
    }
  }

  /** Every critical section keeps the invariant. */
  lemma StepKeeps(s: State, step: Step)
    requires Inv(s) && Enabled(s, step)
    ensures Inv(Apply(s, step))
  {
    match step
    case Prepare(id, n) => PrepareKeeps(s, Prepared(id, n));
    case PrepareFails(id, n) => PrepareKeeps(s, FailedMount(id, n));
    case Commit(h) => CommitKeeps(s, h);
    case Rollback(h) => RollbackKeeps(s, h);
    case Snapshot(leased, entries) => SnapshotKeeps(s, leased, entries);
    case Retain(p, h) => RetainKeeps(s, p, h);
    case Take(p) => TakeKeeps(s, p);
    case Finish(p) => FinishKeeps(s, p);
    case Deactivate(h) => DeactivateKeeps(s, h);
    case Send(p) => SendKeeps(s, p);
    case Drop(p) => DropKeeps(s, p);
    case FlushMarker(p) => FlushMarkerKeeps(s, p);
    case ClosePlan(p) => ClosePlanKeeps(s, p);
    case ReleaseLease(p, h) => ReleaseLeaseKeeps(s, p, h);
    case RollbackEffect(h, ok) => RunRollbackKeeps(s, h, ok);
    case BeginClose(h) => BeginCloseKeeps(s, h);
    case CloseEffect(h, ok) => RunCloseKeeps(s, h, ok);
    case EndClose(h) => EndCloseKeeps(s, h);
  }
}
