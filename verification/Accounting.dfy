/** The registry's books, kept over the steps of a run alone: which effects a preparation has,
    what each mount's count is made of, which lease keeps a cleanup waiting, and in which order
    notifications are delivered (extension/registry.go, extension/notification_dispatcher.go). */
module Accounting {
  import opened Options
  import opened Lifecycle
  import opened Quiescence

  // ----- every effect of a preparation is run

  /** The step makes a preparation, whether its installer succeeded or not. */
  predicate Prepares(step: Step, id: string, n: nat) {
    step == Prepare(id, n) || step == PrepareFails(id, n)
  }

  lemma StepKeepsShape(s: State, step: Step, h: Handle)
    requires Enabled(s, step) && HasMount(s, h)
    ensures HasMount(Apply(s, step), h) && Apply(s, step).mounts[h].id == s.mounts[h].id
    ensures |Apply(s, step).mounts[h].fx.done| == |s.mounts[h].fx.done|
  {
  }

  /** The mount of a preparation keeps its instance id and its effects. */
  lemma {:induction false} PreparationStays(states: seq<State>, steps: seq<Step>, a: nat, k: nat, id: string, n: nat)
    requires IsRun(states, steps) && a < |steps| && Prepares(steps[a], id, n) && a < k < |states|
    ensures var h := |states[a].mounts|;
            HasMount(states[k], h) && states[k].mounts[h].id == id && |states[k].mounts[h].fx.done| == n
  {
    if a + 1 < k {
      PreparationStays(states, steps, a, k - 1, id, n);
      StepKeepsShape(states[k - 1], steps[k - 1], |states[a].mounts|);
    }
  }

  /** A rollback that has no effect left to visit has run each of the n effects of its
      preparation once, the last first, and nothing else was ever run. */
  lemma {:induction false} RollbackRunsAll(states: seq<State>, steps: seq<Step>, a: nat, k: nat, id: string, n: nat)
    requires IsRun(states, steps) && a < |steps| && Prepares(steps[a], id, n) && a < k < |states|
    requires var e := states[k].mounts; |states[a].mounts| < |e| && e[|states[a].mounts|].fx.phase.RolledBack?
    requires states[k].mounts[|states[a].mounts|].fx.rollbackAt == 0
    ensures var log := states[k].mounts[|states[a].mounts|].fx.log;
            |log| == n && forall i | 0 <= i < n :: log[i].index == n - 1 - i && log[i].path == ByRollback
  {
    PreparationStays(states, steps, a, k, id, n);
    EffectHistory(states, steps, k, |states[a].mounts|);
  }

  /** Effect i failed in the given pass. */
  ghost predicate FailedIn(log: seq<EffectRun>, pass: nat, i: nat) {
    exists k :: 0 <= k < |log| && log[k].pass == pass && log[k].index == i && !log[k].ok
  }

  /** The effects a running pass has visited are done, or have failed in it. */
  ghost predicate Visited(e: Effects) {
    e.closeAt.Some? ==>
      e.closeAt.value <= |e.done|
        && forall i: nat | e.closeAt.value <= i < |e.done| :: e.done[i] || FailedIn(e.log, e.pass, i)
  }

  lemma FailedInLonger(log: seq<EffectRun>, run: EffectRun, pass: nat, i: nat)
    ensures FailedIn(log, pass, i) ==> FailedIn(log + [run], pass, i)
    ensures run.pass == pass && run.index == i && !run.ok ==> FailedIn(log + [run], pass, i)
  {
    if FailedIn(log, pass, i) {
      var k :| 0 <= k < |log| && log[k].pass == pass && log[k].index == i && !log[k].ok;
      assert (log + [run])[k] == log[k];
    }
    assert (log + [run])[|log|] == run;
  }

  lemma ClosedEffectVisited(e: Effects, ok: bool)
    requires Visited(e) && e.closeAt.Some? && 0 < e.closeAt.value <= |e.done|
    ensures Visited(ClosedEffect(e, ok))
  {
    var c := e.closeAt.value - 1;
    var run := EffectRun(ByClose, e.pass, c, ok);
    var n := ClosedEffect(e, ok);
    forall i: nat | c <= i < |n.done| ensures n.done[i] || FailedIn(n.log, n.pass, i) {
      FailedInLonger(e.log, run, e.pass, i);
    }
  }

  lemma StepKeepsVisited(s: State, step: Step, h: Handle)
    requires Enabled(s, step) && HasMount(s, h) && Visited(s.mounts[h].fx) && LogOk(s.mounts[h].fx)
    ensures Visited(Apply(s, step).mounts[h].fx)
  {
    var e, n := s.mounts[h].fx, Apply(s, step).mounts[h].fx;
    if step.CloseEffect? && step.h == h {
      ClosedEffectVisited(e, step.ok);
    } else if !(step.BeginClose? && step.h == h) {
      assert n.closeAt.None? || (n.closeAt == e.closeAt && n.done == e.done && n.log == e.log && n.pass == e.pass);
    }
  }

  lemma FreshVisited(s: State, step: Step, h: Handle)
    requires Enabled(s, step) && !HasMount(s, h) && HasMount(Apply(s, step), h)
    ensures Visited(Apply(s, step).mounts[h].fx)
  {
  }

  lemma {:induction false} VisitedAlongRun(states: seq<State>, steps: seq<Step>, k: nat, h: Handle)
    requires IsRun(states, steps) && k < |states| && HasMount(states[k], h)
    ensures Visited(states[k].mounts[h].fx)
  {
    if k > 0 {
      if HasMount(states[k - 1], h) {
        VisitedAlongRun(states, steps, k - 1, h);
        InvAlongRun(states, steps, k - 1);
        assert MountOk(states[k - 1].mounts[h]);
        StepKeepsVisited(states[k - 1], steps[k - 1], h);
      } else {
        FreshVisited(states[k - 1], steps[k - 1], h);
      }
    }
  }

  /** When a close pass ends, each of the n effects of the preparation has succeeded, in this
      pass or an earlier one, or has failed in this pass. */
  lemma {:induction false} ClosePassRunsAll(states: seq<State>, steps: seq<Step>, a: nat, b: nat, id: string, n: nat,
                                            i: nat)
    requires IsRun(states, steps) && a < b < |steps| && Prepares(steps[a], id, n)
    requires steps[b] == EndClose(|states[a].mounts|) && i < n
    ensures var e := states[b].mounts[|states[a].mounts|].fx;
            Succeeded(e.log, i) || FailedIn(e.log, e.pass, i)
  {
    var h := |states[a].mounts|;
    PreparationStays(states, steps, a, b, id, n);
    VisitedAlongRun(states, steps, b, h);
    EffectHistory(states, steps, b, h);
    InvAlongRun(states, steps, b);
    assert MountOk(states[b].mounts[h]);
  }

  // ----- the reference count, step by step

  /** The references on h that a step takes. */
  function Gained(step: Step, h: Handle): nat {
    match step
    case Snapshot(leased, _) => Bit(h in leased)
    case Retain(_, g) => Bit(g == h)
    case _ => 0
  }

  function Lost(s: State, step: Step, h: Handle): nat
    requires Enabled(s, step)
  {
    Bit(ReleasedBy(s, step) == Some(h))
  }

  ghost function GainedTo(steps: seq<Step>, k: nat, h: Handle): nat
    requires k <= |steps|
  {
    if k == 0 then 0 else GainedTo(steps, k - 1, h) + Gained(steps[k - 1], h)
  }

  ghost function LostTo(states: seq<State>, steps: seq<Step>, k: nat, h: Handle): nat
    requires IsRun(states, steps) && k <= |steps|
  {
    if k == 0 then 0 else LostTo(states, steps, k - 1, h) + Lost(states[k - 1], steps[k - 1], h)
  }

  lemma NoGainUnknown(s: State, step: Step, h: Handle)
    requires Inv(s) && Enabled(s, step) && !HasMount(s, h)
    ensures Gained(step, h) == 0 && Lost(s, step, h) == 0
    ensures HasMount(Apply(s, step), h) ==> Apply(s, step).mounts[h].refs == 0
  {
    if step.Snapshot? && h in step.leased {
      LeasedAreActive(s, step.leased, h);
    } else if step.Retain? && step.h == h {
      RetainKeeps(s, step.p, h);
    } else if step.Drop? || step.Finish? || step.ReleaseLease? {
      var plan := s.plans[step.p];
      assert PlanOk(|s.mounts|, plan);
      assert step.Finish? ==> plan.running[0] in plan.queue + plan.running;
    }
  }

  lemma ReleaseRefs(s: State, step: Step, h: Handle)
    requires Inv(s) && Enabled(s, step) && HasMount(s, h) && ReleasedBy(s, step) == Some(h)
    ensures HasMount(Apply(s, step), h) && Apply(s, step).mounts[h].refs + 1 == s.mounts[h].refs
  {
    var p := step.p;
    assert PlanOk(|s.mounts|, s.plans[p]);
    assert step.Finish? ==> Some(h) in s.plans[p].queue + s.plans[p].running;
    HoldersUpdate(s.plans, p, s.plans[p], h);
  }

  lemma OtherRefs(s: State, step: Step, h: Handle)
    requires Enabled(s, step) && HasMount(s, h) && ReleasedBy(s, step) != Some(h)
    ensures HasMount(Apply(s, step), h) && Apply(s, step).mounts[h].refs == s.mounts[h].refs + Gained(step, h)
  {
  }

  lemma StepRefs(s: State, step: Step, h: Handle)
    requires Inv(s) && Enabled(s, step) && HasMount(s, h)
    ensures HasMount(Apply(s, step), h)
    ensures Apply(s, step).mounts[h].refs + Lost(s, step, h) == s.mounts[h].refs + Gained(step, h)
  {
    if ReleasedBy(s, step) == Some(h) {
      ReleaseRefs(s, step, h);
    } else {
      OtherRefs(s, step, h);
    }
  }

  /** A mount's count is the references taken by snapshots and enqueues minus those given back. */
  lemma {:induction false} RefsAreSteps(states: seq<State>, steps: seq<Step>, k: nat, h: Handle)
    requires IsRun(states, steps) && k < |states|
    ensures HasMount(states[k], h) ==>
              states[k].mounts[h].refs + LostTo(states, steps, k, h) == GainedTo(steps, k, h)
    ensures !HasMount(states[k], h) ==> GainedTo(steps, k, h) == 0 && LostTo(states, steps, k, h) == 0
  {
    if k > 0 {
      RefsAreSteps(states, steps, k - 1, h);
      InvAlongRun(states, steps, k - 1);
      if HasMount(states[k - 1], h) {
        StepRefs(states[k - 1], steps[k - 1], h);
      } else {
        NoGainUnknown(states[k - 1], steps[k - 1], h);
      }
    }
  }

  // ----- a lease keeps the cleanup waiting

  lemma StepKeepsLease(s: State, step: Step, p: nat, h: Handle)
    requires Enabled(s, step) && p < |s.plans| && h in s.plans[p].leases && step != ReleaseLease(p, h)
    ensures p < |Apply(s, step).plans| && h in Apply(s, step).plans[p].leases
  {
  }

  lemma {:induction false} LeaseStays(states: seq<State>, steps: seq<Step>, a: nat, k: nat, h: Handle)
    requires IsRun(states, steps) && a < |steps| && steps[a].Snapshot? && h in steps[a].leased && a < k < |states|
    requires ReleaseLease(|states[a].plans|, h) !in steps[a + 1..k]
    ensures var p := |states[a].plans|; p < |states[k].plans| && h in states[k].plans[p].leases
  {
    if a + 1 < k {
      var window := steps[a + 1..k];
      assert window[..k - a - 2] == steps[a + 1..k - 1];
      LeaseStays(states, steps, a, k - 1, h);
      assert steps[k - 1] in steps[a + 1..k];
      StepKeepsLease(states[k - 1], steps[k - 1], |states[a].plans|, h);
    }
  }

  /** Between a snapshot that leases a mount and the release of that very lease, no cleanup of
      the mount runs. */
  lemma {:induction false} LeaseBlocksCleanup(states: seq<State>, steps: seq<Step>, a: nat, b: nat, h: Handle)
    requires IsRun(states, steps) && a < b < |steps| && steps[a].Snapshot? && h in steps[a].leased
    requires steps[b].CloseEffect? && steps[b].h == h
    ensures ReleaseLease(|states[a].plans|, h) in steps[a + 1..b]
  {
    if ReleaseLease(|states[a].plans|, h) !in steps[a + 1..b] {
      var p := |states[a].plans|;
      LeaseStays(states, steps, a, b, h);
      CleanupIsQuiescent(states, steps, b, b);
      HoldersUpdate(states[b].plans, p, states[b].plans[p], h);
    }
  }

  // ----- notifications are delivered in the order they were sent, and none is lost

  /** The mount that plan p has retained and not yet sent or dropped. */
  function Sending(steps: seq<Step>, k: nat, p: nat): Option<Handle>
    requires k <= |steps|
  {
    if k == 0 then None
    else
      match steps[k - 1]
      case Retain(q, h) => if q == p then Some(h) else Sending(steps, k - 1, p)
      case Send(q) => if q == p then None else Sending(steps, k - 1, p)
      case Drop(q) => if q == p then None else Sending(steps, k - 1, p)
      case _ => Sending(steps, k - 1, p)
  }

  /** Everything sent to plan p's worker; None is a Flush marker. */
  function Sent(steps: seq<Step>, k: nat, p: nat): seq<Option<Handle>>
    requires k <= |steps|
  {
    if k == 0 then []
    else if steps[k - 1] == Send(p) then Sent(steps, k - 1, p) + [Sending(steps, k - 1, p)]
    else if steps[k - 1] == FlushMarker(p) then Sent(steps, k - 1, p) + [None]
    else Sent(steps, k - 1, p)
  }

  /** How many tasks plan p's worker has finished. */
  function Finished(steps: seq<Step>, k: nat, p: nat): nat
    requires k <= |steps|
  {
    if k == 0 then 0 else Finished(steps, k - 1, p) + if steps[k - 1] == Finish(p) then 1 else 0
  }

  ghost predicate InFlight(plan: Plan, sending: Option<Handle>, sent: seq<Option<Handle>>, finished: nat) {
    && plan.retaining == sending && |plan.running| <= 1
    && finished <= |sent| && sent[finished..] == plan.running + plan.queue
  }

  /** What a step makes of these three. */
  function SendingAfter(step: Step, p: nat, sending: Option<Handle>): Option<Handle> {
    match step
    case Retain(q, h) => if q == p then Some(h) else sending
    case Send(q) => if q == p then None else sending
    case Drop(q) => if q == p then None else sending
    case _ => sending
  }

  function SentAfter(step: Step, p: nat, sending: Option<Handle>, sent: seq<Option<Handle>>): seq<Option<Handle>> {
    if step == Send(p) then sent + [sending] else if step == FlushMarker(p) then sent + [None] else sent
  }

  /** A step of another plan, or one that touches neither queue nor worker. */
  lemma OtherInFlight(s: State, step: Step, p: nat)
    requires Enabled(s, step) && p < |s.plans|
    requires step !in {Send(p), Drop(p), FlushMarker(p), Take(p), Finish(p)}
    ensures p < |Apply(s, step).plans|
    ensures var plan, n := s.plans[p], Apply(s, step).plans[p];
            n.running == plan.running && n.queue == plan.queue
              && n.retaining == SendingAfter(step, p, plan.retaining)
  {
  }

  lemma QueueSteps(s: State, step: Step, p: nat)
    requires Enabled(s, step) && p < |s.plans| && step in {Send(p), Drop(p), FlushMarker(p), Take(p), Finish(p)}
    ensures p < |Apply(s, step).plans|
    ensures var plan, n := s.plans[p], Apply(s, step).plans[p];
            && n.retaining == SendingAfter(step, p, plan.retaining)
            && n.queue == (match step
                           case Send(_) => plan.queue + [plan.retaining]
                           case FlushMarker(_) => plan.queue + [None]
                           case Take(_) => plan.queue[1..]
                           case _ => plan.queue)
            && n.running == (match step
                             case Take(_) => [plan.queue[0]]
                             case Finish(_) => plan.running[1..]
                             case _ => plan.running)
  {
  }

  lemma {:induction false} StepInFlight(s: State, step: Step, p: nat, sending: Option<Handle>,
                                        sent: seq<Option<Handle>>, finished: nat)
    requires Enabled(s, step) && p < |s.plans| && InFlight(s.plans[p], sending, sent, finished)
    ensures p < |Apply(s, step).plans|
    ensures InFlight(Apply(s, step).plans[p], SendingAfter(step, p, sending), SentAfter(step, p, sending, sent),
                     if step == Finish(p) then finished + 1 else finished)
  {
    var plan := s.plans[p];
    if step !in {Send(p), Drop(p), FlushMarker(p), Take(p), Finish(p)} {
      OtherInFlight(s, step, p);
    } else {
      QueueSteps(s, step, p);
      if step == Finish(p) {
        assert plan.running == [plan.running[0]] && sent[finished + 1..] == sent[finished..][1..];
      } else if step == Take(p) {
        assert plan.queue == [plan.queue[0]] + plan.queue[1..];
      } else {
        var more := SentAfter(step, p, sending, sent);
        assert more[finished..] == sent[finished..] + more[|sent|..];
      }
    }
  }

  lemma UnknownPlan(s: State, step: Step, p: nat)
    requires Enabled(s, step) && p >= |s.plans|
    ensures step != Send(p) && step != Drop(p) && step != FlushMarker(p) && step != Finish(p)
    ensures step.Retain? ==> step.p != p
    ensures p < |Apply(s, step).plans| ==> InFlight(Apply(s, step).plans[p], None, [], 0)
  {
  }

  /** What the worker of plan p has finished, is running and has queued is what was sent to it,
      in that order. */
  lemma {:induction false} DeliveryIsInOrder(states: seq<State>, steps: seq<Step>, k: nat, p: nat)
    requires IsRun(states, steps) && k < |states|
    ensures p < |states[k].plans| ==>
              InFlight(states[k].plans[p], Sending(steps, k, p), Sent(steps, k, p), Finished(steps, k, p))
    ensures p >= |states[k].plans| ==>
              Sending(steps, k, p) == None && Sent(steps, k, p) == [] && Finished(steps, k, p) == 0
  {
    if k > 0 {
      DeliveryIsInOrder(states, steps, k - 1, p);
      if p < |states[k - 1].plans| {
        StepInFlight(states[k - 1], steps[k - 1], p, Sending(steps, k - 1, p), Sent(steps, k - 1, p),
                     Finished(steps, k - 1, p));
      } else {
        UnknownPlan(states[k - 1], steps[k - 1], p);
      }
    }
  }

  ghost predicate Bounded(s: State, p: nat) {
    p < |s.plans| ==> |s.plans[p].queue| <= NOTIFICATION_QUEUE_SIZE
  }

  lemma StepBoundsQueue(s: State, step: Step, p: nat)
    requires Enabled(s, step) && Bounded(s, p)
    ensures Bounded(Apply(s, step), p)
  {
  }

  lemma {:induction false} QueueAlongRun(states: seq<State>, steps: seq<Step>, k: nat, p: nat)
    requires IsRun(states, steps) && k < |states|
    ensures Bounded(states[k], p)
  {
    if k > 0 {
      QueueAlongRun(states, steps, k - 1, p);
      StepBoundsQueue(states[k - 1], steps[k - 1], p);
    }
  }

  /** A queue never holds more than 128 tasks, and a notification is dropped only if it holds
      exactly that many. */
  lemma {:induction false} QueueIsBounded(states: seq<State>, steps: seq<Step>, k: nat, p: nat)
    requires IsRun(states, steps) && k < |steps| && p < |states[k].plans|
    ensures |states[k].plans[p].queue| <= 128
    ensures steps[k] == Drop(p) ==> |states[k].plans[p].queue| == 128
    ensures steps[k] == Send(p) ==> |states[k].plans[p].queue| < 128
  {
    QueueAlongRun(states, steps, k, p);
    assert Enabled(states[k], steps[k]);
  }

  // ----- whatever holds a mount can let go of it

  /** How much a plan has still to do before it holds nothing. */
  function Work(plan: Plan): nat {
    3 * Bit(plan.retaining.Some?) + 2 * |plan.queue| + |plan.running| + Bit(!plan.closed) + |plan.leases|
  }

  /** The step by which a plan that holds h gets on. */
  function LettingGo(p: nat, plan: Plan, h: Handle): Step {
    if plan.retaining.Some? then (if |plan.queue| < NOTIFICATION_QUEUE_SIZE then Send(p) else Drop(p))
    else if plan.running != [] then Finish(p)
    else if plan.queue != [] then Take(p)
    else if !plan.closed then ClosePlan(p)
    else ReleaseLease(p, h)
  }

  lemma {:induction false} SomeoneHolds(plans: seq<Plan>, h: Handle) returns (p: nat)
    requires Holders(plans, h) > 0
    ensures p < |plans| && PlanHolds(plans[p], h) > 0
  {
    if PlanHolds(plans[0], h) > 0 {
      p := 0;
    } else {
      p := SomeoneHolds(plans[1..], h);
      p := p + 1;
    }
  }

  lemma LeaseSizes(leases: set<Handle>, h: Handle)
    requires h in leases
    ensures |leases - {h}| < |leases|
  {
    assert leases == (leases - {h}) + {h};
  }

  lemma LettingGoWorks(s: State, p: nat, h: Handle)
    requires p < |s.plans| && PlanHolds(s.plans[p], h) > 0 && |s.plans[p].running| <= 1
    ensures var step := LettingGo(p, s.plans[p], h);
            && Enabled(s, step) && p < |Apply(s, step).plans|
            && Work(Apply(s, step).plans[p]) < Work(s.plans[p])
  {
    var plan := s.plans[p];
    if LettingGo(p, plan, h).ReleaseLease? {
      LeaseSizes(plan.leases, h);
    }
  }

  /** No mount stays held for want of a step: in every reachable state a plan that holds it has
      one that is enabled and brings it closer to holding nothing. */
  lemma {:induction false} HolderCanLetGo(states: seq<State>, steps: seq<Step>, k: nat, h: Handle) returns (p: nat)
    requires IsRun(states, steps) && k < |states| && HasMount(states[k], h) && states[k].mounts[h].refs > 0
    ensures p < |states[k].plans| && PlanHolds(states[k].plans[p], h) > 0
    ensures var s, step := states[k], LettingGo(p, states[k].plans[p], h);
            && Enabled(s, step) && p < |Apply(s, step).plans|
            && Work(Apply(s, step).plans[p]) < Work(s.plans[p])
  {
    DrainedIsExact(states, steps, k, h);
    p := SomeoneHolds(states[k].plans, h);
    DeliveryIsInOrder(states, steps, k, p);
    LettingGoWorks(states[k], p, h);
  }

  /** A withdrawn mount that nothing holds can always go on being cleaned up. */
  lemma {:induction false} CloseCanGoOn(states: seq<State>, steps: seq<Step>, k: nat, h: Handle, ok: bool)
    requires IsRun(states, steps) && k < |states| && HasMount(states[k], h)
    requires states[k].mounts[h].fx.phase.Committed? && !states[k].mounts[h].active && states[k].mounts[h].refs == 0
    ensures match states[k].mounts[h].fx.closeAt
            case None => Enabled(states[k], BeginClose(h))
            case Some(c) => Enabled(states[k], if c == 0 then EndClose(h) else CloseEffect(h, ok))
  {
    InvAlongRun(states, steps, k);
    assert MountOk(states[k].mounts[h]);
    DrainedIsExact(states, steps, k, h);
  }
}
