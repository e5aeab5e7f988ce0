/** The critical sections of extension/registry.go and extension/notification_dispatcher.go
    as they update the objects; each is proved against the step of Lifecycle it performs. */
module Registry {
  import opened Options
  import opened Orders
  import opened Scopes
  import opened Lifecycle

  class MountState {
    const instanceID: string
    const entryScopes: seq<Scope>
    const selectionScopes: seq<Scope>
    var active: bool
    var refs: nat
    var drained: bool
    var done: array<bool>

    constructor (id: string, entries: seq<Scope>, selection: seq<Scope>, effects: nat)
      ensures instanceID == id && entryScopes == entries && selectionScopes == selection
      ensures !active && refs == 0 && !drained && fresh(done) && done.Length == effects
      ensures forall i | 0 <= i < effects :: !done[i]
    {
      instanceID, entryScopes, selectionScopes := id, entries, selection;
      active, refs, drained := false, 0, false;
      done := new bool[effects](_ => false);
    }

    /** The fields as a Lifecycle mount; the history of its effects is ghost. */
    ghost function View(fx: Effects): Mount
      reads this
    {
      Mount(instanceID, active, refs, Bit(drained), fx)
    }

    /** Published, and drained exactly when withdrawn and unreferenced. */
    ghost predicate Counted()
      reads this
    {
      drained <==> !active && refs == 0
    }

    /** close(drained) panics on a closed channel. */
    method CloseDrained()
      requires !drained
      modifies this`drained
      ensures drained
    {
      drained := true;
    }

    /** Close's cleanup pass under cleanMu, as the steps of one close pass on the effects fx.
        oks[i] is what cleanup i returns if it is called. */
    method CleanupPass(oks: seq<bool>, ghost fx: Effects) returns (ran: seq<nat>, failed: bool)
      requires |oks| == done.Length && fx.done == done[..]
      modifies done
      ensures ran == Undone(fx.done, 0)
      ensures done[..] == ClosePass(fx, oks).done
      ensures ClosePass(fx, oks).log == fx.log + RunsOf(ByClose, fx.pass, ran, oks)
      ensures failed <==> exists i :: 0 <= i < done.Length && !done[i]
    {
      ran, failed := RunPending(oks);
      ClosedDownIs(fx, oks, 0);
    }

    /** The loop of the pass: last registered first, skipping what succeeded before. */
    method RunPending(oks: seq<bool>) returns (ran: seq<nat>, failed: bool)
      requires |oks| == done.Length
      modifies done
      ensures ran == Undone(old(done[..]), 0)
      ensures forall i | 0 <= i < done.Length :: done[i] == (old(done[i]) || oks[i])
      ensures failed <==> exists i :: 0 <= i < done.Length && !done[i]
    {
      ran, failed := [], false;
      var index := done.Length;
      ghost var before := done[..];
      while index > 0
        invariant 0 <= index <= done.Length && ran == Undone(before, index)
        invariant forall i | 0 <= i < index :: done[i] == before[i]
        invariant forall i | index <= i < done.Length :: done[i] == (before[i] || oks[i])
        invariant failed <==> exists i :: index <= i < done.Length && !done[i]
      {
        index := index - 1;
        if !done[index] {
          ran := ran + [index];
          if oks[index] {
            done[index] := true;
          } else {
            failed := true;
            assert !done[index];
          }
        }
      }
    }
  }

  /** The effects from index i on that have not succeeded yet, last first. */
  function Undone(done: seq<bool>, i: nat): (r: seq<nat>)
    requires i <= |done|
    ensures forall k | 0 <= k < |r| :: i <= r[k] < |done| && !done[r[k]]
    ensures forall j, k | 0 <= j < k < |r| :: r[j] > r[k]
    decreases |done| - i
  {
    if i == |done| then [] else Undone(done, i + 1) + if done[i] then [] else [i]
  }

  /** What a close pass does to the flags and adds to the log. */
  lemma {:induction false} ClosedDownIs(fx: Effects, oks: seq<bool>, i: nat)
    requires i <= |oks| == |fx.done|
    ensures forall k | 0 <= k < |oks| :: ClosedDown(fx, oks, i).done[k] == (fx.done[k] || (i <= k && oks[k]))
    ensures ClosedDown(fx, oks, i).log == fx.log + RunsOf(ByClose, fx.pass, Undone(fx.done, i), oks)
    decreases |oks| - i
  {
    if i < |oks| {
      ClosedDownIs(fx, oks, i + 1);
      RunsOfSnoc(ByClose, fx.pass, Undone(fx.done, i + 1), oks, i);
    }
  }

  /** The log entries of one pass that ran these effects. */
  function RunsOf(path: Path, pass: nat, ran: seq<nat>, oks: seq<bool>): (r: seq<EffectRun>)
    requires forall k | 0 <= k < |ran| :: ran[k] < |oks|
    ensures |r| == |ran| && forall k | 0 <= k < |ran| :: r[k] == EffectRun(path, pass, ran[k], oks[ran[k]])
  {
    seq(|ran|, k requires 0 <= k < |ran| => EffectRun(path, pass, ran[k], oks[ran[k]]))
  }

  lemma RunsOfSnoc(path: Path, pass: nat, ran: seq<nat>, oks: seq<bool>, i: nat)
    requires i < |oks| && forall k | 0 <= k < |ran| :: ran[k] < |oks|
    ensures RunsOf(path, pass, ran + [i], oks) == RunsOf(path, pass, ran, oks) + [EffectRun(path, pass, i, oks[i])]
  {
  }

  /** A close pass that has visited the effects from index i on, last first. */
  function ClosedDown(fx: Effects, oks: seq<bool>, i: nat): (e: Effects)
    requires i <= |oks| == |fx.done|
    ensures e.closeAt == Some(i) && |e.done| == |fx.done| && e.pass == fx.pass
    decreases |oks| - i
  {
    if i == |oks| then BeginPass(fx) else ClosedEffect(ClosedDown(fx, oks, i + 1), oks[i])
  }

  function ClosePass(fx: Effects, oks: seq<bool>): Effects
    requires |oks| == |fx.done|
  {
    EndPass(ClosedDown(fx, oks, 0))
  }

  /** The loop of Close is the run BeginClose, CloseEffect for each effect from the last to the
      first, EndClose, each step enabled where it is taken. */
  lemma ClosePassIsARun(s: State, h: Handle, oks: seq<bool>, i: nat)
    requires HasMount(s, h) && |oks| == |s.mounts[h].fx.done| && i < |oks| && Enabled(s, BeginClose(h))
    ensures var fx := s.mounts[h].fx;
            && Apply(s, BeginClose(h)) == WithFx(s, h, ClosedDown(fx, oks, |oks|))
            && Enabled(WithFx(s, h, ClosedDown(fx, oks, i + 1)), CloseEffect(h, oks[i]))
            && Apply(WithFx(s, h, ClosedDown(fx, oks, i + 1)), CloseEffect(h, oks[i])) ==
               WithFx(s, h, ClosedDown(fx, oks, i))
            && Enabled(WithFx(s, h, ClosedDown(fx, oks, 0)), EndClose(h))
            && Apply(WithFx(s, h, ClosedDown(fx, oks, 0)), EndClose(h)) == WithFx(s, h, ClosePass(fx, oks))
  {
  }

  /** A rollback that has run the effects from index i on, last first. */
  function RolledBackDown(fx: Effects, oks: seq<bool>, i: nat): (e: Effects)
    requires i <= |oks| == fx.rollbackAt
    ensures e.rollbackAt == i && e.phase == fx.phase && e.done == fx.done
    decreases |oks| - i
  {
    if i == |oks| then fx else RolledBackEffect(RolledBackDown(fx, oks, i + 1), oks[i])
  }

  lemma RollbackIsARun(s: State, h: Handle, oks: seq<bool>, i: nat)
    requires HasMount(s, h) && s.mounts[h].fx.phase.RolledBack? && i < |oks| == s.mounts[h].fx.rollbackAt
    ensures var fx := s.mounts[h].fx;
            && Enabled(WithFx(s, h, RolledBackDown(fx, oks, i + 1)), RollbackEffect(h, oks[i]))
            && Apply(WithFx(s, h, RolledBackDown(fx, oks, i + 1)), RollbackEffect(h, oks[i])) ==
               WithFx(s, h, RolledBackDown(fx, oks, i))
  {
  }

  /** cleanupReverse, as the rollback steps on the effects fx: every effect, last registered
      first, whatever earlier ones returned. */
  method CleanupReverse(oks: seq<bool>, ghost fx: Effects) returns (ran: seq<nat>, failed: bool)
    requires fx.rollbackAt == |oks|
    ensures |ran| == |oks| && forall k | 0 <= k < |ran| :: ran[k] == |oks| - 1 - k
    ensures RolledBackDown(fx, oks, 0).log == fx.log + RunsOf(ByRollback, 0, ran, oks)
    ensures failed <==> false in oks
  {
    ran, failed := [], false;
    var index := |oks|;
    while index > 0
      invariant 0 <= index <= |oks| && |ran| == |oks| - index
      invariant forall k | 0 <= k < |ran| :: ran[k] == |oks| - 1 - k
      invariant RolledBackDown(fx, oks, index).log == fx.log + RunsOf(ByRollback, 0, ran, oks)
      invariant failed <==> false in oks[index..]
    {
      index := index - 1;
      assert oks[index..] == [oks[index]] + oks[index + 1..];
      RunsOfSnoc(ByRollback, 0, ran, oks, index);
      ran := ran + [index];
      if !oks[index] {
        failed := true;
      }
    }
  }

  class PreparedMount {
    const state: MountState
    var committed: bool
    var rolledBack: bool

    constructor (state: MountState)
      ensures this.state == state && CurrentPhase() == Staged
    {
      this.state, committed, rolledBack := state, false, false;
    }

    ghost function CurrentPhase(): Phase
      reads this
    {
      if committed then Committed else if rolledBack then RolledBack else Staged
    }

    /** Rollback's section under prepared.mu, as the step Rollback of the preparation h: at most
        one caller gets to run the effects. */
    method ClaimRollback(ghost s: State, ghost h: Handle) returns (claimed: bool)
      requires HasMount(s, h) && s.mounts[h].fx.phase == CurrentPhase()
      modifies this`rolledBack
      ensures claimed <==> Enabled(s, Step.Rollback(h))
      ensures claimed ==> CurrentPhase() == Apply(s, Step.Rollback(h)).mounts[h].fx.phase
      ensures !claimed ==> CurrentPhase() == old(CurrentPhase())
    {
      claimed := !committed && !rolledBack;
      if claimed {
        rolledBack := true;
      }
    }
  }

  class Registry {
    var mounts: map<string, MountState>

    constructor ()
      ensures mounts == map[]
    {
      mounts := map[];
    }

    ghost predicate Valid()
      reads this, mounts.Values
    {
      forall id | id in mounts :: mounts[id].instanceID == id && mounts[id].active && mounts[id].Counted()
    }

    /** The table as a state shows it, given each mount's handle. */
    ghost predicate Shows(s: State, handles: map<MountState, Handle>)
      reads this
    {
      && s.table.Keys == mounts.Keys
      && forall id | id in mounts :: mounts[id] in handles && s.table[id] == handles[mounts[id]]
    }

    /** CommitMount, as the step Commit of preparation h; checked says whether the scopes, the
        point definitions and the host's validator accept. */
    method Commit(prepared: PreparedMount, checked: bool, ghost s: State, ghost h: Handle, ghost fx: Effects,
                  ghost handles: map<MountState, Handle>)
      returns (ok: bool)
      requires Valid() && Shows(s, handles) && prepared.state in handles && handles[prepared.state] == h
      requires HasMount(s, h) && s.mounts[h] == prepared.state.View(fx) && fx.phase == prepared.CurrentPhase()
      requires !prepared.committed && !prepared.rolledBack ==>
                 !prepared.state.active && prepared.state.refs == 0 && !prepared.state.drained
      modifies this, prepared, prepared.state
      ensures ok <==> checked && old(prepared.CurrentPhase()).Staged? && prepared.state.instanceID !in old(mounts)
      ensures Valid() && prepared.rolledBack == old(prepared.rolledBack)
      ensures ok ==>
                prepared.CurrentPhase() == Committed
                    && mounts == old(mounts)[prepared.state.instanceID := prepared.state]
      ensures ok <==> checked && Enabled(s, Step.Commit(h))
      ensures ok ==> Shows(Apply(s, Step.Commit(h)), handles)
      ensures ok ==> Apply(s, Step.Commit(h)).mounts[h] == prepared.state.View(fx.(phase := Committed))
      ensures !ok ==> mounts == old(mounts) && unchanged(prepared) && unchanged(prepared.state)
    {
      var state := prepared.state;
      if prepared.committed || prepared.rolledBack || state.instanceID in mounts || !checked {
        return false;
      }
      state.active := true;
      mounts := mounts[state.instanceID := state];
      prepared.committed := true;
      return true;
    }

    /** deactivateLocked, as the step Deactivate: only an active mount leaves the table, and it
        leaves its own slot. */
    method DeactivateLocked(m: MountState, ghost s: State, ghost h: Handle, ghost fx: Effects,
                            ghost handles: map<MountState, Handle>)
      requires Valid() && m.Counted() && Shows(s, handles) && m in handles && handles[m] == h
      requires HasMount(s, h) && s.mounts[h] == m.View(fx) && fx.phase.Committed?
      requires m.active ==> m.instanceID in mounts && mounts[m.instanceID] == m
      modifies this, m
      ensures Valid() && m.Counted() && !m.active && m.refs == old(m.refs) && m.done == old(m.done)
      ensures Enabled(s, Deactivate(h)) && Shows(Apply(s, Deactivate(h)), handles)
      ensures Apply(s, Deactivate(h)).mounts[h] == m.View(fx)
      ensures mounts == if old(m.active) then old(mounts) - {m.instanceID} else old(mounts)
    {
      if !m.active {
        return;
      }
      m.active := false;
      mounts := mounts - {m.instanceID};
      if m.refs == 0 {
        m.CloseDrained();
      }
    }

    method Release(m: MountState)
      requires Valid() && m.Counted()
      modifies m
      ensures Valid() && m.Counted() && m.active == old(m.active) && m.done == old(m.done)
      ensures m.refs == if old(m.refs) > 0 then old(m.refs) - 1 else 0
      ensures forall fx: Effects :: m.View(fx) == Released(old(m.View(fx)))
    {
      if m.refs > 0 {
        m.refs := m.refs - 1;
      }
      if m.refs == 0 && !m.active {
        if !m.drained {
          m.CloseDrained();
        }
      }
    }

    /** The retain closure of a planned entry. */
    method Retain(m: MountState)
      requires Valid() && m.Counted() && !m.drained
      modifies m
      ensures Valid() && m.Counted() && m.active == old(m.active) && m.done == old(m.done)
      ensures m.refs == old(m.refs) + 1
      ensures forall fx: Effects :: m.View(fx) == Retained(old(m.View(fx)))
    {
      m.refs := m.refs + 1;
    }

    /** snapshot's locked part, as the step Snapshot on the mounts all[0], all[1], ...: one
        reference for every allowed active mount that a planned entry or a selection scope of
        its own brings to the target. */
    method Snapshot(target: Scope, allowed: Option<set<string>>, ghost all: seq<MountState>, ghost fxs: seq<Effects>,
                    ghost s: State)
      returns (leased: set<MountState>)
      requires Valid() && NoDuplicates(all) && |fxs| == |all| && s.mounts == Views(all, fxs)
      requires s.table.Keys == mounts.Keys && forall id | id in mounts :: InTable(all, s.table, id, mounts[id])
      modifies mounts.Values
      ensures Valid() && mounts == old(mounts)
      ensures leased <= mounts.Values
      ensures forall id | id in mounts :: mounts[id] in leased <==>
                && (allowed == None || id in allowed.value)
                && ((exists i :: 0 <= i < |mounts[id].entryScopes| && ScopeApplies(mounts[id].entryScopes[i], target))
                    || exists i :: 0 <= i < |mounts[id].selectionScopes|
                         && ScopeApplies(mounts[id].selectionScopes[i], target))
      ensures forall id | id in mounts :: mounts[id].refs == old(mounts[id].refs) + Bit(mounts[id] in leased)
      ensures var step := Step.Snapshot(Handles(all, leased), Planned(all, leased, target));
              Enabled(s, step) && Apply(s, step).mounts == Views(all, fxs)
    {
      leased := LeaseSelected(target, allowed, all, fxs);
      LeasedAreListed(all, mounts, s.table, leased);
    }

    /** Its loop over the mounts, in any order. */
    method LeaseSelected(target: Scope, allowed: Option<set<string>>, ghost all: seq<MountState>,
                         ghost fxs: seq<Effects>)
      returns (leased: set<MountState>)
      requires Valid() && NoDuplicates(all) && |fxs| == |all|
      modifies mounts.Values
      ensures Valid() && mounts == old(mounts)
      ensures leased == set id | id in mounts && Selected(mounts[id], target, allowed) :: mounts[id]
      ensures forall id | id in mounts ::
                mounts[id].active == old(mounts[id].active) && mounts[id].drained == old(mounts[id].drained)
      ensures forall id | id in mounts :: mounts[id].refs == old(mounts[id].refs) + Bit(mounts[id] in leased)
      ensures Views(all, fxs) == RetainAll(old(Views(all, fxs)), Handles(all, leased))
    {
      leased := {};
      var todo := mounts.Keys;
      while todo != {}
        invariant todo <= mounts.Keys && mounts == old(mounts)
        invariant leased == set id | id in mounts && id !in todo && Selected(mounts[id], target, allowed) :: mounts[id]
        invariant forall id | id in mounts :: mounts[id].instanceID == id
        invariant forall id | id in mounts ::
                    mounts[id].active == old(mounts[id].active) && mounts[id].drained == old(mounts[id].drained)
        invariant forall id | id in mounts :: mounts[id].refs == old(mounts[id].refs) + Bit(mounts[id] in leased)
      {
        var id :| id in todo;
        var m := mounts[id];
        assert m !in leased;
        if Selected(m, target, allowed) {
          m.refs := m.refs + 1;
          leased := leased + {m};
        }
        todo := todo - {id};
      }
      forall h: Handle | h < |all|
          ensures Views(all, fxs)[h] == RetainAll(old(Views(all, fxs)), Handles(all, leased))[h] {
        assert h in Handles(all, leased) <==> all[h] in leased;
        if m :| m in mounts.Values && m == all[h] {
          assert mounts[m.instanceID] == m;
        }
      }
    }
  }

  /** The objects as the mounts of a Lifecycle state. */
  ghost function Views(all: seq<MountState>, fxs: seq<Effects>): (r: seq<Mount>)
    requires |fxs| == |all|
    reads set h | 0 <= h < |all| :: all[h]
    ensures |r| == |all| && forall h | 0 <= h < |all| :: r[h] == all[h].View(fxs[h])
  {
    seq(|all|, h requires 0 <= h < |all| reads (set k | 0 <= k < |all| :: all[k]) => all[h].View(fxs[h]))
  }

  ghost function Handles(all: seq<MountState>, objects: set<MountState>): set<Handle> {
    set h: Handle | h < |all| && all[h] in objects
  }

  ghost predicate InTable(all: seq<MountState>, table: map<string, Handle>, id: string, m: MountState) {
    id in table && table[id] < |all| && all[table[id]] == m
  }

  /** The leased mounts that a planned entry brings to the target. */
  ghost function Planned(all: seq<MountState>, leased: set<MountState>, target: Scope): set<Handle> {
    set h: Handle | h < |all| && all[h] in leased
        && exists i :: 0 <= i < |all[h].entryScopes| && ScopeApplies(all[h].entryScopes[i], target)
  }

  lemma LeasedAreListed(all: seq<MountState>, mounts: map<string, MountState>, table: map<string, Handle>,
                        leased: set<MountState>)
    requires NoDuplicates(all) && leased <= mounts.Values
    requires forall id | id in mounts :: InTable(all, table, id, mounts[id])
    ensures Handles(all, leased) <= table.Values
  {
    forall h | h in Handles(all, leased) ensures h in table.Values {
      var id :| id in mounts && mounts[id] == all[h];
      assert InTable(all, table, id, mounts[id]);
    }
  }

  predicate Selected(m: MountState, target: Scope, allowed: Option<set<string>>) {
    && (allowed.None? || m.instanceID in allowed.value)
    && ((exists i :: 0 <= i < |m.entryScopes| && ScopeApplies(m.entryScopes[i], target))
        || (exists i :: 0 <= i < |m.selectionScopes| && ScopeApplies(m.selectionScopes[i], target)))
  }

  /** A plan's notification queue; None is a Flush marker. */
  class NotificationQueue {
    const registry: Registry
    var tasks: seq<Option<MountState>>
    var closed: bool

    constructor (registry: Registry)
      ensures this.registry == registry && tasks == [] && !closed
    {
      this.registry, tasks, closed := registry, [], false;
    }

    /** The queue as a Lifecycle plan's, given each mount's handle. */
    ghost function View(handles: map<MountState, Handle>): (r: seq<Option<Handle>>)
      reads this
      ensures |r| == |tasks| && forall i | 0 <= i < |tasks| :: r[i] == TaskOf(tasks[i], handles)
    {
      seq(|tasks|, i requires 0 <= i < |tasks| reads this => TaskOf(tasks[i], handles))
    }

    /** enqueueNotification, as the steps Retain and then Send or Drop of plan p in state s. */
    method Enqueue(m: MountState, ghost s: State, ghost p: nat, ghost h: Handle, ghost fx: Effects,
                   ghost handles: map<MountState, Handle>)
      returns (accepted: bool)
      requires registry.Valid() && m.Counted() && m.refs > 0 && m in handles && handles[m] == h
      requires p < |s.plans| && HasMount(s, h) && s.mounts[h] == m.View(fx) && h in s.plans[p].entries
      requires s.plans[p].queue == View(handles) && s.plans[p].closed == closed && s.plans[p].retaining.None?
      modifies this`tasks, m
      ensures registry.Valid() && m.Counted() && m.active == old(m.active) && m.drained == old(m.drained)
      ensures accepted <==> !closed && |old(tasks)| < NOTIFICATION_QUEUE_SIZE
      ensures tasks == if accepted then old(tasks) + [Some(m)] else old(tasks)
      ensures m.refs == old(m.refs) + Bit(accepted)
      ensures closed ==> !Enabled(s, Retain(p, h))
      ensures !closed ==> Enabled(s, Retain(p, h))
      ensures !closed ==>
                var kept := Apply(s, Retain(p, h));
                var last := if accepted then Send(p) else Drop(p);
                Enabled(kept, last) && Matches(Apply(kept, last), p, h, m, fx, handles)
    {
      if closed {
        return false;
      }
      registry.Retain(m);
      if |tasks| < NOTIFICATION_QUEUE_SIZE {
        tasks := tasks + [Some(m)];
        return true;
      }
      registry.Release(m);
      return false;
    }

    /** The queue and the mount as plan p and mount h of a state show them. */
    ghost predicate Matches(s: State, p: nat, h: Handle, m: MountState, fx: Effects, handles: map<MountState, Handle>)
      reads this, m
    {
      && p < |s.plans| && HasMount(s, h) && s.mounts[h] == m.View(fx)
      && s.plans[p].queue == View(handles) && s.plans[p].closed == closed && s.plans[p].retaining.None?
    }
  }

  ghost function TaskOf(task: Option<MountState>, handles: map<MountState, Handle>): Option<Handle> {
    if task.Some? && task.value in handles then Some(handles[task.value]) else None
  }
}
