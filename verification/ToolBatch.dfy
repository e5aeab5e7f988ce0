/** Sibling tool calls of one assistant message: they start concurrently, execute in declared
    order, and stop after a fatal one (runtime/adk_execution.go). */
module ToolBatch {
  import opened Options
  import opened Orders

  // ----- the engine's tables

  class Channel {
    var closed: bool

    constructor ()
      ensures !closed
    {
      closed := false;
    }

    /** Closing a closed channel panics. */
    method Close()
      requires !closed
      modifies this
      ensures closed
    {
      closed := true;
    }
  }

  class Batches {
    var order: map<string, seq<string>>
    var done: map<string, Channel>
    var aborted: set<string>

    /** The channels still in the table are open and belong to one call each. */
    ghost predicate Valid()
      reads this, done.Values
    {
      && (forall id | id in done :: !done[id].closed)
      && (forall a, b | a in done && b in done && a != b :: done[a] != done[b])
    }

    /** The tables as a state of the protocol shows the batch of a message, chans being the
        channels its calls were registered with. */
    ghost predicate Shows(s: State, message: string, chans: seq<Channel>)
      reads this, chans
    {
      && message in order && |order[message]| == |s.phase| == |s.closed| == |chans|
      && NoDuplicates(order[message]) && NoDuplicates(chans)
      && (forall k: nat | k < |chans| :: order[message][k] in done <==> k !in s.settled)
      && (forall k: nat | k < |chans| && order[message][k] in done :: done[order[message][k]] == chans[k])
      && (forall k: nat | k < |chans| :: s.closed[k] == if chans[k].closed then 1 else 0)
      && (s.aborted <==> message in aborted)
    }

    constructor ()
      ensures Valid() && order == map[] && done == map[] && aborted == {}
    {
      order, done, aborted := map[], map[], {};
    }

    /** A registered batch starts as the protocol does. */
    method RegisterToolBatch(message: string, calls: seq<string>) returns (ghost chans: seq<Channel>)
      requires Valid()
      modifies this
      ensures Valid() && aborted == old(aborted)
      ensures |calls| < 2 ==> order == old(order) && done == old(done)
      ensures |calls| >= 2 ==> order == old(order)[message := calls]
      ensures |calls| >= 2 ==> done.Keys == old(done).Keys + (set id | id in calls)
      ensures forall id | id in done ::
                if |calls| >= 2 && id in calls then fresh(done[id]) else id in old(done) && done[id] == old(done)[id]
      ensures |calls| >= 2 && NoDuplicates(calls) && message !in aborted ==> Shows(Init(|calls|), message, chans)
    {
      chans := [];
      if |calls| >= 2 {
        RegisterChannels(message, calls);
        chans := seq(|calls|, k requires 0 <= k < |calls| && calls[k] in done reads this => done[calls[k]]);
      }
    }

    /** The locked section of registerToolBatch. */
    method RegisterChannels(message: string, calls: seq<string>)
      requires Valid()
      modifies this
      ensures Valid() && aborted == old(aborted) && order == old(order)[message := calls]
      ensures done.Keys == old(done).Keys + (set id | id in calls)
      ensures forall id | id in done ::
                if id in calls then fresh(done[id]) else id in old(done) && done[id] == old(done)[id]
    {
      order := order[message := calls];
      for i := 0 to |calls|
        invariant Valid() && aborted == old(aborted) && order == old(order)[message := calls]
        invariant done.Keys == old(done).Keys + (set id | id in calls[..i])
        invariant forall id | id in done ::
                    if id in calls[..i] then fresh(done[id]) else id in old(done) && done[id] == old(done)[id]
      {
        var channel := new Channel();
        done := done[calls[i] := channel];
      }
      assert calls[..|calls|] == calls;
    }

    /** The search loop of awaitToolTurn. */
    method Position(message: string, call: string) returns (at: int)
      ensures at == -1 <==> message !in order || call !in order[message]
      ensures at != -1 ==> 0 <= at < |order[message]| && order[message][at] == call && call !in order[message][..at]
    {
      if message !in order {
        return -1;
      }
      for i := 0 to |order[message]|
        invariant call !in order[message][..i]
      {
        if order[message][i] == call {
          return i;
        }
      }
      at := -1;
    }

    /** The wait that awaitToolTurn must do: the channel of the call declared before, if it is
        still in the table. */
    method WaitOn(message: string, call: string, ghost s: State, ghost i: nat, ghost chans: seq<Channel>)
      returns (channel: Option<Channel>)
      requires Valid()
      ensures channel.Some? ==> !channel.value.closed
      ensures channel.Some? <==>
                message in order && exists i :: Precedes(order[message], i, call) && order[message][i] in done
      ensures channel.Some? ==>
                exists i :: Precedes(order[message], i, call) && order[message][i] in done
                    && channel == Some(done[order[message][i]])
      ensures Shows(s, message, chans) && i < |chans| && order[message][i] == call ==>
                && (channel.Some? <==> Apply(s, Await(i)).phase[i] == Waiting)
                && (channel.Some? ==> i > 0 && channel.value == chans[i - 1])
    {
      var at := Position(message, call);
      if at <= 0 || order[message][at - 1] !in done {
        return None;
      }
      assert Precedes(order[message], at - 1, call);
      channel := Some(done[order[message][at - 1]]);
    }

    /** The last section of awaitToolTurn, as the step Check. */
    method Aborted(message: string, ghost s: State, ghost i: nat, ghost chans: seq<Channel>) returns (r: bool)
      ensures r <==> message in aborted
      ensures Shows(s, message, chans) && i < |chans| ==>
                Apply(s, Check(i)).phase[i] == if r then Interrupted else Cleared
    {
      r := message in aborted;
    }

    /** settleToolTurn, as the steps Settle and CloseDone. Settling twice is harmless: only the
        first finds the channel. */
    method SettleToolTurn(message: string, call: string, fatal: bool, ghost s: State, ghost i: nat,
                          ghost chans: seq<Channel>)
      requires Valid()
      modifies this, done.Values
      ensures Valid() && order == old(order) && done == old(done) - {call}
      ensures aborted == old(aborted) + if fatal then {message} else {}
      ensures call in old(done) ==> old(done)[call].closed
      ensures forall id | id in old(done) && id != call :: !old(done)[id].closed
      ensures old(Shows(s, message, chans)) && i < |chans| && order[message][i] == call
                && s.phase[i] == Leaving(fatal) ==>
                Shows(SettledAndClosed(s, i), message, chans)
    {
      ghost var shown := Shows(s, message, chans) && i < |chans| && order[message][i] == call
          && s.phase[i] == Leaving(fatal);
      if shown {
        SettledAndClosedIs(s, i, fatal);
      }
      SettleSection(message, call, fatal);
    }

    method SettleSection(message: string, call: string, fatal: bool)
      requires Valid()
      modifies this, done.Values
      ensures Valid() && order == old(order) && done == old(done) - {call}
      ensures aborted == old(aborted) + if fatal then {message} else {}
      ensures call in old(done) ==> old(done)[call].closed
      ensures forall c: Channel | c in old(done).Values && (call in old(done) ==> c != old(done)[call]) :: !c.closed
      ensures forall id | id in old(done) && id != call :: !old(done)[id].closed
    {
      if fatal {
        aborted := aborted + {message};
      }
      if call in done {
        var channel := done[call];
        done := done - {call};
        channel.Close();
      }
    }
  }

  /** Settling and, if the channel was still in the table, closing it. */
  function SettledAndClosed(s: State, i: nat): State
    requires WellFormed(s) && i < |s.phase|
  {
    var t := Apply(s, Settle(i));
    if t.phase[i] == Closing then Apply(t, CloseDone(i)) else t
  }

  lemma SettledAndClosedIs(s: State, i: nat, fatal: bool)
    requires WellFormed(s) && i < |s.phase| && s.phase[i] == Leaving(fatal)
    ensures var t := SettledAndClosed(s, i);
            && |t.phase| == |s.phase| && t.settled == s.settled + {i} && (t.aborted <==> s.aborted || fatal)
            && t.closed == s.closed[i := if i in s.settled then s.closed[i] else s.closed[i] + 1]
  {
  }

  /** call first stands right after position i. */
  predicate Precedes(order: seq<string>, i: int, call: string) {
    0 <= i < |order| - 1 && order[i + 1] == call && call !in order[..i + 1]
  }

  // ----- the protocol of one registered batch, one step per critical section

  /** Where a call stands: deciding whether it leaves before its turn, waiting for the call
      declared before it, about to read the abort flag, cleared to execute, executing,
      interrupted because the batch was aborted, leaving, about to close its channel, gone. */
  datatype Phase = Idle | Deciding | Waiting | Checking | Cleared | Executing | Interrupted | Leaving(fatal: bool)
      | Closing | Gone

  /** phase, settled, fatal and executed speak of positions in the declared order. */
  datatype State = State(phase: seq<Phase>, settled: set<nat>, fatal: set<nat>, executed: set<nat>, closed: seq<nat>,
      aborted: bool)

  datatype Step =
    | Start(i: nat)
    | LeaveEarly(i: nat, fatal: bool)
    | Await(i: nat)
    | Wake(i: nat)
    | Cancel(i: nat)
    | Check(i: nat)
    | ClaimFails(i: nat)
    | Execute(i: nat)
    | Finish(i: nat, fatal: bool)
    | Settle(i: nat)
    | CloseDone(i: nat)
    | SettleAgain(i: nat)

  function Init(n: nat): State {
    State(seq(n, _ => Idle), {}, {}, {}, seq(n, _ => 0), false)
  }

  predicate WellFormed(s: State) {
    |s.closed| == |s.phase|
  }

  /** early: the calls that may leave before their turn without a fatal mark (a terminal
      replay, the settlement of a crashed run, a durable pause). */
  predicate Enabled(early: set<nat>, s: State, step: Step)
    requires WellFormed(s)
  {
    && step.i < |s.phase|
    && var p := s.phase[step.i];
       match step
       case Start(_) => p == Idle
       case LeaveEarly(i, fatal) => p == Deciding && (fatal || i in early)
       case Await(_) => p == Deciding
       case Wake(i) => p == Waiting && i > 0 && s.closed[i - 1] > 0
       case Cancel(_) => p == Waiting
       case Check(_) => p == Checking
       case ClaimFails(_) => p == Cleared
       case Execute(_) => p == Cleared
       case Finish(_, _) => p == Executing || p == Interrupted
       case Settle(_) => p.Leaving?
       case CloseDone(_) => p == Closing
       case SettleAgain(_) => p == Gone
  }

  function Phased(s: State, i: nat, p: Phase): State
    requires i < |s.phase|
  {
    s.(phase := s.phase[i := p])
  }

  function Apply(s: State, step: Step): (s': State)
    requires WellFormed(s) && step.i < |s.phase|
    ensures WellFormed(s') && |s'.phase| == |s.phase|
  {
    match step
    case Start(i) => Phased(s, i, Deciding)
    case LeaveEarly(i, fatal) => Phased(s, i, Leaving(fatal))
    case Await(i) => Phased(s, i, if i > 0 && i - 1 !in s.settled then Waiting else Checking)
    case Wake(i) => Phased(s, i, Checking)
    case Cancel(i) => Phased(s, i, Leaving(true))
    case Check(i) => Phased(s, i, if s.aborted then Interrupted else Cleared)
    case ClaimFails(i) => Phased(s, i, Leaving(true))
    case Execute(i) => Phased(s, i, Executing).(executed := s.executed + {i})
    case Finish(i, fatal) => Phased(s, i, Leaving(fatal))
    case Settle(i) =>
      var f := s.phase[i].Leaving? && s.phase[i].fatal;
      Phased(s, i, if i in s.settled then Gone else Closing)
        .(settled := s.settled + {i}, fatal := if f then s.fatal + {i} else s.fatal, aborted := s.aborted || f)
    case CloseDone(i) => Phased(s, i, Gone).(closed := s.closed[i := s.closed[i] + 1])
    case SettleAgain(i) => Phased(s, i, Leaving(false))
  }

  /** The state after a run of n calls; None if the run takes a step that is not enabled. */
  function After(n: nat, early: set<nat>, steps: seq<Step>): (r: Option<State>)
    ensures r.Some? ==> WellFormed(r.value) && |r.value.phase| == n
  {
    if steps == [] then Some(Init(n))
    else
      var s := After(n, early, steps[..|steps| - 1]);
      if s.Some? && Enabled(early, s.value, steps[|steps| - 1]) then Some(Apply(s.value, steps[|steps| - 1])) else None
  }

  // ----- channels, in all interleavings

  /** A channel is closed once, after its call settled; whoever waits for it will get it. */
  ghost predicate ChannelOk(i: nat, p: Phase, settled: bool, closed: nat) {
    && closed == (if settled && p != Closing then 1 else 0)
    && (p == Closing || p == Gone ==> settled)
    && (p != Closing && p != Gone && p != Leaving(false) ==> !settled)
    && (p == Waiting ==> i > 0)
  }

  ghost predicate ChannelInv(s: State) {
    && WellFormed(s)
    && forall i: nat | i < |s.phase| :: ChannelOk(i, s.phase[i], i in s.settled, s.closed[i])
  }

  lemma ChannelStep(early: set<nat>, s: State, step: Step)
    requires ChannelInv(s) && Enabled(early, s, step)
    ensures ChannelInv(Apply(s, step))
  {
    var t := Apply(s, step);
    assert ChannelOk(step.i, s.phase[step.i], step.i in s.settled, s.closed[step.i]);
    forall j: nat | j < |t.phase| ensures ChannelOk(j, t.phase[j], j in t.settled, t.closed[j]) {
      assert ChannelOk(j, s.phase[j], j in s.settled, s.closed[j]);
    }
  }

  lemma {:induction false} ChannelsAlongRun(n: nat, early: set<nat>, steps: seq<Step>)
    requires After(n, early, steps).Some?
    ensures ChannelInv(After(n, early, steps).value)
  {
    if steps != [] {
      ChannelsAlongRun(n, early, steps[..|steps| - 1]);
      ChannelStep(early, After(n, early, steps[..|steps| - 1]).value, steps[|steps| - 1]);
    }
  }

  /** In every interleaving each channel closes at most once, and a call that is gone has
      closed its own, so its successor is not held back. */
  lemma {:induction false} ExitReleasesSuccessor(n: nat, early: set<nat>, steps: seq<Step>, i: nat)
    requires After(n, early, steps).Some? && i < n
    ensures var s := After(n, early, steps).value;
            && s.closed[i] <= 1
            && (s.phase[i] == Gone ==> s.closed[i] == 1)
            && (s.phase[i] == Gone && i + 1 < n && s.phase[i + 1] == Waiting ==> Enabled(early, s, Wake(i + 1)))
            && (s.phase[i] == Gone && i + 1 < n ==> Apply(s, Await(i + 1)).phase[i + 1] == Checking)
  {
    ChannelsAlongRun(n, early, steps);
  }

  /** How many protocol steps a call may still take. */
  function Rank(p: Phase): nat {
    match p
    case Idle => 8
    case Deciding => 7
    case Waiting => 6
    case Checking => 5
    case Cleared => 4
    case Executing => 3
    case Interrupted => 3
    case Leaving(_) => 2
    case Closing => 1
    case Gone => 0
  }

  function Total(phase: seq<Phase>): nat {
    if phase == [] then 0 else Total(phase[..|phase| - 1]) + Rank(phase[|phase| - 1])
  }

  lemma {:induction false} TotalUpdate(phase: seq<Phase>, i: nat, p: Phase)
    requires i < |phase|
    ensures Total(phase[i := p]) == Total(phase) - Rank(phase[i]) + Rank(p)
  {
    var last := |phase| - 1;
    if i == last {
      assert phase[i := p][..last] == phase[..last];
    } else {
      assert phase[i := p][..last] == phase[..last][i := p];
      TotalUpdate(phase[..last], i, p);
    }
  }

  lemma MovesOneCall(early: set<nat>, s: State, step: Step)
    requires WellFormed(s) && Enabled(early, s, step) && !step.SettleAgain?
    ensures var p := Apply(s, step).phase[step.i];
            Apply(s, step).phase == s.phase[step.i := p] && Rank(p) < Rank(s.phase[step.i])
  {
  }

  /** Every step but a repeated settlement brings the batch closer to its end. */
  lemma StepsRunOut(early: set<nat>, s: State, step: Step)
    requires WellFormed(s) && Enabled(early, s, step) && !step.SettleAgain?
    ensures Total(Apply(s, step).phase) < Total(s.phase)
  {
    MovesOneCall(early, s, step);
    TotalUpdate(s.phase, step.i, Apply(s, step).phase[step.i]);
  }

  /** The step a call can take when it is its turn. */
  function NextStep(i: nat, p: Phase): Step {
    match p
    case Idle => Start(i)
    case Deciding => Await(i)
    case Waiting => Wake(i)
    case Checking => Check(i)
    case Cleared => Execute(i)
    case Executing => Finish(i, false)
    case Interrupted => Finish(i, false)
    case Leaving(_) => Settle(i)
    case Closing => CloseDone(i)
    case Gone => SettleAgain(i)
  }

  /** No deadlock, even if nothing is ever cancelled: the first call that is not gone can move. */
  lemma {:induction false} NoDeadlock(n: nat, early: set<nat>, steps: seq<Step>, i: nat)
    requires After(n, early, steps).Some? && i < n
    requires var s := After(n, early, steps).value; s.phase[i] != Gone && forall j: nat | j < i :: s.phase[j] == Gone
    ensures var s := After(n, early, steps).value;
            Enabled(early, s, NextStep(i, s.phase[i])) && !NextStep(i, s.phase[i]).SettleAgain?
  {
    ChannelsAlongRun(n, early, steps);
  }

  // ----- order

  /** Every call declared before i has settled, none of them fatally. */
  ghost predicate AllBefore(settled: set<nat>, fatal: set<nat>, i: nat) {
    forall j: nat | j < i :: j in settled && j !in fatal
  }

  ghost predicate SettledBefore(settled: set<nat>, i: nat) {
    forall j: nat | j < i :: j in settled
  }

  /** Every execution so far began after all earlier-declared calls had settled non-fatally. */
  ghost predicate InOrder(s: State) {
    forall i | i in s.executed :: AllBefore(s.settled, s.fatal, i)
  }

  /** No call but the first and the last may leave early without a fatal mark. */
  ghost predicate OnlyEnds(n: nat, early: set<nat>) {
    forall i | i in early && i < n :: i == 0 || i == n - 1
  }

  /** What a call's phase tells about the calls before it. */
  ghost predicate PhaseOk(n: nat, p: Phase, i: nat, settled: set<nat>, fatal: set<nat>, aborted: bool) {
    match p
    case Checking => i == 0 || i - 1 in settled
    case Cleared => AllBefore(settled, fatal, i)
    case Executing => AllBefore(settled, fatal, i)
    case Interrupted => aborted
    case Leaving(f) => f || i == n - 1 || aborted || SettledBefore(settled, i)
    case _ => true
  }

  ghost predicate PhasesOk(n: nat, phase: seq<Phase>, settled: set<nat>, fatal: set<nat>, aborted: bool) {
    forall i: nat | i < |phase| :: PhaseOk(n, phase[i], i, settled, fatal, aborted)
  }

  ghost predicate FlagOk(fatal: set<nat>, settled: set<nat>, aborted: bool) {
    (aborted <==> fatal != {}) && fatal <= settled
  }

  ghost predicate PrefixOk(n: nat, settled: set<nat>, aborted: bool) {
    aborted || forall i | i in settled && i < n - 1 :: SettledBefore(settled, i)
  }

  ghost predicate OrderInv(n: nat, s: State) {
    && ChannelInv(s) && |s.phase| == n
    && PhasesOk(n, s.phase, s.settled, s.fatal, s.aborted)
    && FlagOk(s.fatal, s.settled, s.aborted) && PrefixOk(n, s.settled, s.aborted)
    && InOrder(s)
  }

  /** A call that finds the flag clear has all earlier calls settled behind it. */
  lemma ClearedByCheck(n: nat, s: State, i: nat)
    requires OrderInv(n, s) && i < n && s.phase[i] == Checking && !s.aborted
    ensures AllBefore(s.settled, s.fatal, i)
  {
    assert PhaseOk(n, s.phase[i], i, s.settled, s.fatal, s.aborted);
    if i > 0 {
      assert SettledBefore(s.settled, i - 1);
    }
  }

  lemma WokenBySettled(n: nat, s: State, i: nat)
    requires OrderInv(n, s) && 0 < i < n && s.closed[i - 1] > 0
    ensures i - 1 in s.settled
  {
  }

  lemma SettleKeepsOrder(n: nat, s: State, i: nat)
    requires OrderInv(n, s) && i < n && s.phase[i].Leaving?
    ensures OrderInv(n, Apply(s, Settle(i)))
  {
    var s' := Apply(s, Settle(i));
    ChannelStep({}, s, Settle(i));
    assert PhaseOk(n, s.phase[i], i, s.settled, s.fatal, s.aborted);
    assert s.phase[i].fatal ==> i !in s.settled;
    forall j: nat, k: nat | AllBefore(s.settled, s.fatal, k) && j < k ensures j in s'.settled && j !in s'.fatal {
    }
    forall k: nat | k < n ensures PhaseOk(n, s'.phase[k], k, s'.settled, s'.fatal, s'.aborted) {
      assert PhaseOk(n, s.phase[k], k, s.settled, s.fatal, s.aborted);
    }
  }

  /** The other steps change one phase, and perhaps record an execution. */
  lemma MoveKeepsOrder(n: nat, early: set<nat>, s: State, step: Step)
    requires OrderInv(n, s) && OnlyEnds(n, early) && Enabled(early, s, step) && !step.Settle?
    ensures OrderInv(n, Apply(s, step))
  {
    var s', i := Apply(s, step), step.i;
    ChannelStep(early, s, step);
    assert PhaseOk(n, s.phase[i], i, s.settled, s.fatal, s.aborted);
    if step.Check? && !s.aborted {
      ClearedByCheck(n, s, i);
    }
    if step.Wake? {
      WokenBySettled(n, s, i);
    }
    assert PhaseOk(n, s'.phase[i], i, s'.settled, s'.fatal, s'.aborted);
  }

  lemma {:induction false} OrderAlongRun(n: nat, early: set<nat>, steps: seq<Step>)
    requires OnlyEnds(n, early) && After(n, early, steps).Some?
    ensures OrderInv(n, After(n, early, steps).value)
  {
    if steps != [] {
      OrderAlongRun(n, early, steps[..|steps| - 1]);
      var s, step := After(n, early, steps[..|steps| - 1]).value, steps[|steps| - 1];
      if step.Settle? {
        SettleKeepsOrder(n, s, step.i);
      } else {
        MoveKeepsOrder(n, early, s, step);
      }
    }
  }

  /** A run in which call i leaves early between its neighbours: i + 1 executes at once. */
  function Overtaking(i: nat): seq<Step> {
    LeavingEarly(i) + [Start(i + 1)] + [Await(i + 1)] + [Check(i + 1)] + [Execute(i + 1)]
  }

  function LeavingEarly(i: nat): seq<Step> {
    [Start(i)] + [LeaveEarly(i, false)] + [Settle(i)] + [CloseDone(i)]
  }

  lemma {:induction false} RunsOn(n: nat, early: set<nat>, steps: seq<Step>, step: Step)
    requires After(n, early, steps).Some? && Enabled(early, After(n, early, steps).value, step)
    ensures After(n, early, steps + [step]) == Some(Apply(After(n, early, steps).value, step))
  {
    assert (steps + [step])[..|steps|] == steps;
  }

  /** Overtaking is a run, and breaks the order: call 0 has not even started. */
  lemma {:induction false} OvertakingBreaksOrder(n: nat, early: set<nat>, i: nat)
    requires 0 < i < n - 1 && i in early
    ensures After(n, early, Overtaking(i)).Some? && !OrderedRun(Overtaking(i))
  {
    OvertakingRuns(n, early, i);
    var o := Overtaking(i);
    assert o[7] == Execute(i + 1) && Settle(0) !in o[..7];
  }

  lemma {:induction false} OvertakingRuns(n: nat, early: set<nat>, i: nat)
    requires 0 < i < n - 1 && i in early
    ensures After(n, early, Overtaking(i)).Some?
  {
    LeftEarly(n, early, i);
    var left := LeavingEarly(i);
    RunsOn(n, early, left, Start(i + 1));
    RunsOn(n, early, left + [Start(i + 1)], Await(i + 1));
    RunsOn(n, early, left + [Start(i + 1)] + [Await(i + 1)], Check(i + 1));
    RunsOn(n, early, left + [Start(i + 1)] + [Await(i + 1)] + [Check(i + 1)], Execute(i + 1));
  }

  lemma {:induction false} LeftEarly(n: nat, early: set<nat>, i: nat)
    requires 0 < i < n - 1 && i in early
    ensures var r := After(n, early, LeavingEarly(i));
            r.Some? && r.value.settled == {i} && !r.value.aborted && r.value.phase[i + 1] == Idle
  {
    LeavesEarly(n, early, [], i);
    assert [] + [Start(i)] == [Start(i)];
  }

  lemma {:induction false} LeavesEarly(n: nat, early: set<nat>, steps: seq<Step>, i: nat)
    requires After(n, early, steps).Some? && i < n && i in early
    requires var s := After(n, early, steps).value; s.phase[i] == Idle && i !in s.settled
    ensures var s := After(n, early, steps).value;
            After(n, early, steps + [Start(i)] + [LeaveEarly(i, false)] + [Settle(i)] + [CloseDone(i)]) ==
              Some(s.(phase := s.phase[i := Gone], settled := s.settled + {i},
                      closed := s.closed[i := s.closed[i] + 1]))
  {
    var s := After(n, early, steps).value;
    RunsOn(n, early, steps, Start(i));
    RunsOn(n, early, steps + [Start(i)], LeaveEarly(i, false));
    RunsOn(n, early, steps + [Start(i)] + [LeaveEarly(i, false)], Settle(i));
    RunsOn(n, early, steps + [Start(i)] + [LeaveEarly(i, false)] + [Settle(i)], CloseDone(i));
    assert s.phase[i := Deciding][i := Leaving(false)][i := Closing][i := Gone] == s.phase[i := Gone];
  }

  // ----- the same over the steps of a run alone

  /** The steps by which a call ends with the fatal mark set. */
  predicate EndsFatally(step: Step, i: nat) {
    step == LeaveEarly(i, true) || step == Cancel(i) || step == ClaimFails(i) || step == Finish(i, true)
  }

  ghost predicate HasFatalEnd(steps: seq<Step>, i: nat) {
    exists a: nat :: a < |steps| && EndsFatally(steps[a], i)
  }

  /** Call i ended fatally and settled after that. */
  ghost predicate SettledFatally(steps: seq<Step>, i: nat) {
    exists b: nat :: b < |steps| && steps[b] == Settle(i) && HasFatalEnd(steps[..b], i)
  }

  lemma HasFatalEndStep(steps: seq<Step>, step: Step, i: nat)
    ensures HasFatalEnd(steps + [step], i) <==> HasFatalEnd(steps, i) || EndsFatally(step, i)
  {
    var all := steps + [step];
    if EndsFatally(step, i) {
      assert EndsFatally(all[|steps|], i);
    }
    if HasFatalEnd(steps, i) {
      var a: nat :| a < |steps| && EndsFatally(steps[a], i);
      assert EndsFatally(all[a], i);
    }
  }

  lemma SettledFatallyStep(steps: seq<Step>, step: Step, i: nat)
    ensures SettledFatally(steps + [step], i) <==>
              SettledFatally(steps, i) || (step == Settle(i) && HasFatalEnd(steps, i))
  {
    var all := steps + [step];
    assert forall b: nat | b <= |steps| :: all[..b] == steps[..b];
    assert steps[..|steps|] == steps;
    if SettledFatally(steps, i) {
      var b: nat :| b < |steps| && steps[b] == Settle(i) && HasFatalEnd(steps[..b], i);
      assert all[b] == Settle(i) && HasFatalEnd(all[..b], i);
    }
    if step == Settle(i) && HasFatalEnd(steps, i) {
      assert all[|steps|] == Settle(i) && HasFatalEnd(all[..|steps|], i);
    }
  }

  /** What the state remembers of call i is what its steps were. */
  ghost predicate Remembers(steps: seq<Step>, s: State, i: nat) {
    && WellFormed(s) && i < |s.phase|
    && (i in s.settled <==> Settle(i) in steps) && (i in s.executed <==> Execute(i) in steps)
    && (i in s.fatal <==> SettledFatally(steps, i)) && (i in s.fatal ==> i in s.settled)
    && (HasFatalEnd(steps, i) <==> s.phase[i] == Leaving(true) || i in s.fatal)
  }

  lemma RememberStep(early: set<nat>, steps: seq<Step>, s: State, step: Step, i: nat)
    requires ChannelInv(s) && Enabled(early, s, step) && Remembers(steps, s, i)
    ensures Remembers(steps + [step], Apply(s, step), i)
  {
    HasFatalEndStep(steps, step, i);
    SettledFatallyStep(steps, step, i);
    assert ChannelOk(i, s.phase[i], i in s.settled, s.closed[i]);
    assert forall x :: x in steps + [step] <==> x in steps || x == step;
  }

  /** In every run a call is settled, has executed or counts as fatal exactly if its steps say so. */
  lemma {:induction false} RunIsRemembered(n: nat, early: set<nat>, steps: seq<Step>, i: nat)
    requires After(n, early, steps).Some? && i < n
    ensures Remembers(steps, After(n, early, steps).value, i)
  {
    if steps != [] {
      var before, step := steps[..|steps| - 1], steps[|steps| - 1];
      RunIsRemembered(n, early, before, i);
      ChannelsAlongRun(n, early, before);
      RememberStep(early, before, After(n, early, before).value, step, i);
      assert steps == before + [step];
    }
  }

  lemma {:induction false} FlagAlongRun(n: nat, early: set<nat>, steps: seq<Step>)
    requires After(n, early, steps).Some?
    ensures var s := After(n, early, steps).value;
            (s.aborted <==> s.fatal != {}) && forall i | i in s.fatal :: i < n
  {
    if steps != [] {
      FlagAlongRun(n, early, steps[..|steps| - 1]);
    }
  }

  /** The batch is aborted exactly when some call ended fatally and has settled since. */
  lemma {:induction false} AbortIsExact(n: nat, early: set<nat>, steps: seq<Step>)
    requires After(n, early, steps).Some?
    ensures After(n, early, steps).value.aborted <==> exists i: nat :: i < n && SettledFatally(steps, i)
  {
    var s := After(n, early, steps).value;
    FlagAlongRun(n, early, steps);
    forall i: nat | i < n ensures i in s.fatal <==> SettledFatally(steps, i) {
      RunIsRemembered(n, early, steps, i);
    }
    if s.aborted {
      var i :| i in s.fatal;
      assert SettledFatally(steps, i);
    }
  }

  /** Each execution comes after the settlement of every call declared before, and none of
      those ever ends fatally. */
  ghost predicate OrderedRun(steps: seq<Step>) {
    forall b: nat, i: nat | b < |steps| && steps[b].Execute? && i < steps[b].i ::
        Settle(i) in steps[..b] && !HasFatalEnd(steps, i)
  }

  ghost predicate AllRunsOrdered(n: nat, early: set<nat>) {
    forall steps | After(n, early, steps).Some? :: OrderedRun(steps)
  }

  lemma {:induction false} PrefixOfRun(n: nat, early: set<nat>, steps: seq<Step>, k: nat)
    requires After(n, early, steps).Some? && k <= |steps|
    ensures After(n, early, steps[..k]).Some?
    ensures k < |steps| ==> Enabled(early, After(n, early, steps[..k]).value, steps[k])
    decreases |steps|
  {
    if k == |steps| {
      assert steps[..k] == steps;
    } else {
      var before := steps[..|steps| - 1];
      PrefixOfRun(n, early, before, k);
      assert before[..k] == steps[..k];
      assert k == |before| ==> before[..k] == before;
    }
  }

  /** A call that is about to execute has all earlier ones settled behind it. */
  lemma {:induction false} ExecutesAfterSettlement(n: nat, early: set<nat>, steps: seq<Step>, b: nat, i: nat)
    requires OnlyEnds(n, early) && After(n, early, steps).Some?
    requires b < |steps| && steps[b].Execute? && i < steps[b].i
    ensures Settle(i) in steps[..b] && !HasFatalEnd(steps, i)
  {
    PrefixOfRun(n, early, steps, b);
    var s, t := After(n, early, steps[..b]).value, After(n, early, steps).value;
    var j := steps[b].i;
    OrderAlongRun(n, early, steps[..b]);
    RunIsRemembered(n, early, steps[..b], i);
    assert PhaseOk(n, s.phase[j], j, s.settled, s.fatal, s.aborted);
    OrderAlongRun(n, early, steps);
    RunIsRemembered(n, early, steps, i);
    RunIsRemembered(n, early, steps, j);
    assert steps[b] in steps && AllBefore(t.settled, t.fatal, j);
    assert ChannelOk(i, t.phase[i], i in t.settled, t.closed[i]);
  }

  /** Every interleaving executes in declared order exactly when no call between the first and
      the last may leave early without a fatal mark. */
  lemma {:induction false} OrderIffNoEarlyExit(n: nat, early: set<nat>)
    ensures AllRunsOrdered(n, early) <==> OnlyEnds(n, early)
  {
    if OnlyEnds(n, early) {
      forall steps: seq<Step>, b: nat, i: nat | After(n, early, steps).Some? && b < |steps|
          && steps[b].Execute? && i < steps[b].i
        ensures Settle(i) in steps[..b] && !HasFatalEnd(steps, i) {
        ExecutesAfterSettlement(n, early, steps, b, i);
      }
    } else {
      var i :| i in early && i < n && i != 0 && i != n - 1;
      OvertakingBreaksOrder(n, early, i);
    }
  }

  /** Nothing declared after a call that ended fatally executes, before or after that end, and
      once such a call settles the flag is up. */
  lemma {:induction false} NothingAfterFatal(n: nat, early: set<nat>, steps: seq<Step>, a: nat, i: nat, j: nat)
    requires OnlyEnds(n, early) && After(n, early, steps).Some?
    requires a < |steps| && EndsFatally(steps[a], i) && i < j
    ensures Execute(j) !in steps
    ensures Settle(i) in steps[a + 1..] ==> After(n, early, steps).value.aborted
  {
    if Execute(j) in steps {
      var b: nat :| b < |steps| && steps[b] == Execute(j);
      ExecutesAfterSettlement(n, early, steps, b, i);
      assert HasFatalEnd(steps, i);
    }
    if Settle(i) in steps[a + 1..] {
      var b: nat :| a < b < |steps| && steps[b] == Settle(i);
      assert EndsFatally(steps[..b][a], i);
      PrefixOfRun(n, early, steps, b);
      AbortIsExact(n, early, steps);
      assert SettledFatally(steps, i) && i < n;
    }
  }

  ghost predicate PastExecuting(p: Phase) {
    p == Executing || p.Leaving? || p == Closing || p == Gone
  }

  lemma {:induction false} ExecutedIsPast(n: nat, early: set<nat>, steps: seq<Step>, i: nat)
    requires After(n, early, steps).Some? && i < n && Execute(i) in steps
    ensures PastExecuting(After(n, early, steps).value.phase[i])
  {
    var before, step := steps[..|steps| - 1], steps[|steps| - 1];
    assert steps == before + [step];
    if Execute(i) in before {
      ExecutedIsPast(n, early, before, i);
    }
  }

  /** No call executes twice, whoever leaves early. */
  lemma {:induction false} ExecutesOnce(n: nat, early: set<nat>, steps: seq<Step>, a: nat, b: nat)
    requires After(n, early, steps).Some? && a < b < |steps| && steps[a].Execute? && steps[b].Execute?
    ensures steps[a] != steps[b]
  {
    if steps[a] == steps[b] {
      PrefixOfRun(n, early, steps, b);
      assert steps[..b][a] == Execute(steps[b].i);
      ExecutedIsPast(n, early, steps[..b], steps[b].i);
    }
  }

  // ----- a batch in which nothing goes wrong executes whole

  function Turn(i: nat): seq<Step> {
    [Start(i), Await(i), Check(i), Execute(i), Finish(i, false), Settle(i), CloseDone(i)]
  }

  function Serial(k: nat): seq<Step> {
    if k == 0 then [] else Serial(k - 1) + Turn(k - 1)
  }

  ghost predicate DoneTo(s: State, n: nat, k: nat) {
    && WellFormed(s) && |s.phase| == n && !s.aborted
    && (forall i: nat | i < k && i < n :: i in s.settled && i in s.executed)
    && forall i: nat | k <= i < n :: s.phase[i] == Idle
  }

  /** The first half of a turn: the call gets to execute. */
  lemma {:induction false} TurnStarts(n: nat, early: set<nat>, steps: seq<Step>, i: nat)
    requires After(n, early, steps).Some? && i < n && DoneTo(After(n, early, steps).value, n, i)
    ensures var s := After(n, early, steps).value;
            After(n, early, steps + [Start(i)] + [Await(i)] + [Check(i)] + [Execute(i)]) ==
              Some(s.(phase := s.phase[i := Executing], executed := s.executed + {i}))
  {
    var s := After(n, early, steps).value;
    RunsOn(n, early, steps, Start(i));
    RunsOn(n, early, steps + [Start(i)], Await(i));
    RunsOn(n, early, steps + [Start(i)] + [Await(i)], Check(i));
    RunsOn(n, early, steps + [Start(i)] + [Await(i)] + [Check(i)], Execute(i));
    assert s.phase[i := Deciding][i := Checking][i := Cleared][i := Executing] == s.phase[i := Executing];
  }

  lemma {:induction false} TurnEnds(n: nat, early: set<nat>, steps: seq<Step>, i: nat)
    requires After(n, early, steps).Some? && i < n
    requires var s := After(n, early, steps).value; s.phase[i] == Executing && i !in s.settled
    ensures var s := After(n, early, steps).value;
            After(n, early, steps + [Finish(i, false)] + [Settle(i)] + [CloseDone(i)]) ==
              Some(s.(phase := s.phase[i := Gone], settled := s.settled + {i},
                      closed := s.closed[i := s.closed[i] + 1]))
  {
    var s := After(n, early, steps).value;
    RunsOn(n, early, steps, Finish(i, false));
    RunsOn(n, early, steps + [Finish(i, false)], Settle(i));
    RunsOn(n, early, steps + [Finish(i, false)] + [Settle(i)], CloseDone(i));
    assert s.phase[i := Leaving(false)][i := Closing][i := Gone] == s.phase[i := Gone];
  }

  lemma TurnInHalves(steps: seq<Step>, i: nat)
    ensures steps + Turn(i) ==
              steps + [Start(i)] + [Await(i)] + [Check(i)] + [Execute(i)] + [Finish(i, false)] + [Settle(i)]
                + [CloseDone(i)]
  {
  }

  lemma DoneToNext(s: State, n: nat, i: nat, t: State)
    requires DoneTo(s, n, i) && i < n && |t.closed| == n
    requires t.phase == s.phase[i := Gone] && t.settled == s.settled + {i} && t.executed == s.executed + {i}
    requires t.aborted == s.aborted
    ensures DoneTo(t, n, i + 1)
  {
  }

  lemma {:induction false} TurnRuns(n: nat, early: set<nat>, steps: seq<Step>, i: nat)
    requires After(n, early, steps).Some? && i < n && DoneTo(After(n, early, steps).value, n, i)
    ensures After(n, early, steps + Turn(i)).Some? && DoneTo(After(n, early, steps + Turn(i)).value, n, i + 1)
  {
    var s := After(n, early, steps).value;
    assert i !in s.settled by {
      ChannelsAlongRun(n, early, steps);
      assert ChannelOk(i, Idle, i in s.settled, s.closed[i]);
    }
    TurnStarts(n, early, steps, i);
    TurnEnds(n, early, steps + [Start(i)] + [Await(i)] + [Check(i)] + [Execute(i)], i);
    TurnInHalves(steps, i);
    var t := After(n, early, steps + Turn(i)).value;
    assert t.phase == s.phase[i := Executing][i := Gone] == s.phase[i := Gone];
    DoneToNext(s, n, i, t);
  }

  lemma {:induction false} SerialRuns(n: nat, early: set<nat>, k: nat)
    requires k <= n
    ensures After(n, early, Serial(k)).Some? && DoneTo(After(n, early, Serial(k)).value, n, k)
  {
    if k == 0 {
      assert Serial(k) == [];
    } else {
      SerialRuns(n, early, k - 1);
      SerialNext(n, early, Serial(k - 1), k - 1, Serial(k));
    }
  }

  lemma SerialNext(n: nat, early: set<nat>, steps: seq<Step>, i: nat, all: seq<Step>)
    requires After(n, early, steps).Some? && i < n && DoneTo(After(n, early, steps).value, n, i)
    requires all == steps + Turn(i)
    ensures After(n, early, all).Some? && DoneTo(After(n, early, all).value, n, i + 1)
  {
    TurnRuns(n, early, steps, i);
  }

  /** Calls that take their turns one after the other all execute. */
  lemma {:induction false} EveryCallCanExecute(n: nat, early: set<nat>, i: nat)
    requires i < n
    ensures After(n, early, Serial(n)).Some? && Execute(i) in Serial(n) && !After(n, early, Serial(n)).value.aborted
  {
    SerialRuns(n, early, n);
    RunIsRemembered(n, early, Serial(n), i);
  }

  /** Each way of ending fatally happens in some run of every batch, at every position. */
  lemma {:induction false} EveryFatalEndHappens(n: nat, early: set<nat>, i: nat)
    requires i < n
    ensures After(n, early, [Start(i)] + [LeaveEarly(i, true)]).Some?
    ensures i > 0 ==> After(n, early, [Start(i)] + [Await(i)] + [Cancel(i)]).Some?
    ensures After(n, early, Serial(i) + [Start(i)] + [Await(i)] + [Check(i)] + [ClaimFails(i)]).Some?
    ensures After(n, early, Serial(i) + [Start(i)] + [Await(i)] + [Check(i)] + [Execute(i)] + [Finish(i, true)]).Some?
  {
    RunsOn(n, early, [], Start(i));
    assert [] + [Start(i)] == [Start(i)];
    RunsOn(n, early, [Start(i)], LeaveEarly(i, true));
    RunsOn(n, early, [Start(i)], Await(i));
    if i > 0 {
      RunsOn(n, early, [Start(i)] + [Await(i)], Cancel(i));
    }
    SerialRuns(n, early, i);
    TurnStarts(n, early, Serial(i), i);
    var cleared := Serial(i) + [Start(i)] + [Await(i)] + [Check(i)];
    LastStep(n, early, cleared, Execute(i));
    RunsOn(n, early, cleared, ClaimFails(i));
    RunsOn(n, early, cleared + [Execute(i)], Finish(i, true));
  }

  lemma {:induction false} LastStep(n: nat, early: set<nat>, steps: seq<Step>, step: Step)
    requires After(n, early, steps + [step]).Some?
    ensures After(n, early, steps).Some? && Enabled(early, After(n, early, steps).value, step)
  {
    PrefixOfRun(n, early, steps + [step], |steps|);
    assert (steps + [step])[..|steps|] == steps;
  }

  /** A call that is gone may settle once more in any run, and nothing changes. */
  lemma {:induction false} SettlingAgainIsHarmless(n: nat, early: set<nat>, steps: seq<Step>, i: nat)
    requires After(n, early, steps).Some? && i < n && After(n, early, steps).value.phase[i] == Gone
    ensures After(n, early, steps + [SettleAgain(i)] + [Settle(i)]) == After(n, early, steps)
  {
    ChannelsAlongRun(n, early, steps);
    var s := After(n, early, steps).value;
    assert ChannelOk(i, s.phase[i], i in s.settled, s.closed[i]);
    RunsOn(n, early, steps, SettleAgain(i));
    RunsOn(n, early, steps + [SettleAgain(i)], Settle(i));
    assert s.phase[i := Leaving(false)][i := Gone] == s.phase && s.settled + {i} == s.settled;
  }
}
