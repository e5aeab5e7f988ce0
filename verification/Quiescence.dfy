/** What holds over whole runs of the mount registry, in every interleaving. */
module Quiescence {
  import opened Options
  import opened Lifecycle

  lemma {:induction false} InvAlongRun(states: seq<State>, steps: seq<Step>, k: nat)
    requires IsRun(states, steps) && k < |states|
    ensures Inv(states[k])
  {
    if k > 0 {
      InvAlongRun(states, steps, k - 1);
      StepKeeps(states[k - 1], steps[k - 1]);
    }
  }

  /** The reference count is exact; drained is closed at most once, and is closed exactly
      when a committed mount has been withdrawn and nothing holds it, so a waiting Close
      neither wakes early nor waits for ever. */
  lemma DrainedIsExact(states: seq<State>, steps: seq<Step>, k: nat, h: Handle)
    requires IsRun(states, steps) && k < |states| && HasMount(states[k], h)
    ensures states[k].mounts[h].refs == Holders(states[k].plans, h)
    ensures states[k].mounts[h].closes <= 1
    ensures states[k].mounts[h].closes == 1 <==>
              (states[k].mounts[h].fx.phase.Committed? && !states[k].mounts[h].active
                  && Holders(states[k].plans, h) == 0)
  {
    InvAlongRun(states, steps, k);
    assert MountOk(states[k].mounts[h]);
  }

  /** One step never forgets a mount, and leaves its log and its phase moving forward only. */
  lemma StepGrowsLog(s: State, step: Step, h: Handle)
    requires Enabled(s, step) && HasMount(s, h)
    ensures HasMount(Apply(s, step), h) && s.mounts[h].fx.log <= Apply(s, step).mounts[h].fx.log
    ensures !s.mounts[h].fx.phase.Staged? ==> Apply(s, step).mounts[h].fx.phase == s.mounts[h].fx.phase
  {
  }

  /** Once withdrawn, a mount is never active again and its channel never reopens. */
  lemma StepKeepsWithdrawn(s: State, step: Step, h: Handle)
    requires Enabled(s, step) && HasMount(s, h) && s.mounts[h].fx.phase.Committed? && !s.mounts[h].active
    ensures HasMount(Apply(s, step), h) && !Apply(s, step).mounts[h].active
    ensures Apply(s, step).mounts[h].closes >= s.mounts[h].closes
  {
  }

  lemma {:induction false} DrainedStays(states: seq<State>, steps: seq<Step>, i: nat, j: nat, h: Handle)
    requires IsRun(states, steps) && i <= j < |states|
    requires HasMount(states[i], h) && states[i].mounts[h].closes == 1
    ensures HasMount(states[j], h) && states[j].mounts[h].closes == 1
    ensures states[j].mounts[h].refs == 0 && Holders(states[j].plans, h) == 0
  {
    if i < j {
      DrainedStays(states, steps, i, j - 1, h);
      InvAlongRun(states, steps, j - 1);
      assert MountOk(states[j - 1].mounts[h]);
      StepKeepsWithdrawn(states[j - 1], steps[j - 1], h);
    }
    DrainedIsExact(states, steps, j, h);
  }

  /** A cleanup runs only when no plan, queued notification or running callback holds its
      mount, and none ever will again. */
  lemma CleanupIsQuiescent(states: seq<State>, steps: seq<Step>, k: nat, j: nat)
    requires IsRun(states, steps) && k < |steps| && steps[k].CloseEffect? && k <= j < |states|
    ensures HasMount(states[j], steps[k].h) && Holders(states[j].plans, steps[k].h) == 0
    ensures !states[j].mounts[steps[k].h].active
  {
    var h := steps[k].h;
    InvAlongRun(states, steps, k);
    assert MountOk(states[k].mounts[h]);
    DrainedStays(states, steps, k, j, h);
    DrainedIsExact(states, steps, j, h);
  }

  /** The mount whose reference a step gives back, if it gives one back. */
  function ReleasedBy(s: State, step: Step): Option<Handle>
    requires Enabled(s, step)
  {
    match step
    case Drop(p) => s.plans[p].retaining
    case Finish(p) => s.plans[p].running[0]
    case ReleaseLease(_, h) => Some(h)
    case _ => None
  }

  /** The guard in release() is never what keeps the count from going below zero. */
  lemma ReleaseFindsReference(states: seq<State>, steps: seq<Step>, k: nat, h: Handle)
    requires IsRun(states, steps) && k < |steps| && ReleasedBy(states[k], steps[k]) == Some(h)
    ensures HasMount(states[k], h) && states[k].mounts[h].refs > 0
    ensures states[k + 1].mounts[h].refs == states[k].mounts[h].refs - 1
  {
    var s, p := states[k], steps[k].p;
    InvAlongRun(states, steps, k);
    assert PlanOk(|s.mounts|, s.plans[p]);
    if steps[k].Finish? {
      assert Some(h) in s.plans[p].queue + s.plans[p].running;
    }
    HoldersUpdate(s.plans, p, s.plans[p], h);
  }

  /** Everything a run ever did with the deferred effects of one mount: all of it on one
      path; a rollback runs each effect once, last registered first; close passes run
      downwards too, and an effect that succeeded is never run again. */
  lemma EffectHistory(states: seq<State>, steps: seq<Step>, k: nat, h: Handle)
    requires IsRun(states, steps) && k < |states| && HasMount(states[k], h)
    ensures var e := states[k].mounts[h].fx;
            && (forall i | 0 <= i < |e.log| ::
               if e.phase.Committed? then e.log[i].path.ByClose? else e.log[i].path.ByRollback?)
            && (e.phase.RolledBack? ==> forall i | 0 <= i < |e.log| :: e.log[i].index == |e.done| - 1 - i)
            && (e.phase.RolledBack? && e.rollbackAt == 0 ==> |e.log| == |e.done|)
            && (e.phase.Committed? ==> SuccessIsFinal(e.log) && forall i | 0 <= i < |e.done| :: e.done[i] <==>
               Succeeded(e.log, i))
            && DownwardPasses(e.log)
  {
    InvAlongRun(states, steps, k);
    assert MountOk(states[k].mounts[h]);
  }

  /** The log only grows, so the last log of a run is its whole history. */
  lemma {:induction false} HistoryGrows(states: seq<State>, steps: seq<Step>, i: nat, j: nat, h: Handle)
    requires IsRun(states, steps) && i <= j < |states| && HasMount(states[i], h)
    ensures HasMount(states[j], h) && states[i].mounts[h].fx.log <= states[j].mounts[h].fx.log
    ensures states[i].mounts[h].fx.phase.Committed? ==> states[j].mounts[h].fx.phase.Committed?
    ensures states[i].mounts[h].fx.phase.RolledBack? ==> states[j].mounts[h].fx.phase.RolledBack?
  {
    if i < j {
      HistoryGrows(states, steps, i, j - 1, h);
      StepGrowsLog(states[j - 1], steps[j - 1], h);
    }
  }

  lemma StepKeepsOtherEntries(s: State, step: Step, id: string)
    requires TableOk(s.mounts, s.table) && Enabled(s, step) && id in s.table && step != Deactivate(s.table[id])
    ensures id in Apply(s, step).table && Apply(s, step).table[id] == s.table[id]
  {
    if step.Deactivate? && s.mounts[step.h].active {
      assert s.table[s.mounts[step.h].id] == step.h;
    }
  }

  /** An entry of the mount table disappears only by deactivating the very mount it names:
      a stale handle cannot withdraw a newer mount that reused its instance id. */
  lemma OnlyOwnDeactivationRemoves(states: seq<State>, steps: seq<Step>, k: nat, id: string)
    requires IsRun(states, steps) && k < |steps| && id in states[k].table
    requires steps[k] != Deactivate(states[k].table[id])
    ensures id in states[k + 1].table && states[k + 1].table[id] == states[k].table[id]
  {
    InvAlongRun(states, steps, k);
    StepKeepsOtherEntries(states[k], steps[k], id);
  }
}
