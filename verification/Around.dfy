/** Around-callback chains (extension/dispatch.go): every callback may call proceed any number
    of times, from any goroutine, before or after it returns, and may fail. */
module Around {
  import opened Options

  datatype Failure =
    | TerminalFailed | OutputInvalid | CloneFailed | CalledTwice | NotCalled | CallbackFailed
    | Outlived(cause: Option<Failure>) | Joined(first: Failure, second: Failure)

  /** How a chain or its terminal ends. The terminal, the output validator and the input clone
      run outside any recover, so each of them can unwind into the callback before it. */
  datatype Outcome<O> = Returned(out: O, err: Option<Failure>) | Panicked

  /** What the output validator does with a value. */
  datatype Check = Accepts | Rejects | CheckPanics

  /** What cloning the input for a callback does. */
  datatype Clone = Cloned | CloneFails | ClonePanics

  /** What one level does, as the order in which its critical sections happen: proceed is
      entered (with what the rest of the chain does should it run), the running proceed
      leaves, the callback returns. `terminal` is used where the chain ends. */
  datatype Behaviour<O> = Behaviour(terminal: Outcome<O>, clone: Clone, events: seq<Event<O>>)

  datatype Event<O> = Enter(inner: Behaviour<O>) | Exit | Return(failed: bool)

  /** aroundInvocation and its surroundings: the lock-protected fields, the accepted proceeds,
      what the running one will deliver, the callback's return, and a count of terminal runs. */
  datatype Level<O> = Level(
    open: bool, calls: nat, active: bool, output: O, terminal: Option<Failure>,
    accepted: seq<Behaviour<O>>, pending: Option<Outcome<O>>,
    returned: Option<bool>, outlived: bool, terminals: nat)

  datatype Invocation<O> = Invocation(result: Option<Outcome<O>>, terminals: nat)

  function NewLevel<O>(zero: O): Level<O> {
    Level(true, 0, false, zero, None, [], None, None, false, 0)
  }

  /** proceed's first section: only the first call on an open invocation starts the rest. */
  predicate Admits<O>(s: Level<O>) { s.open && s.calls == 0 }

  function Entered<O>(s: Level<O>, inner: Behaviour<O>, run: Invocation<O>): Level<O> {
    if !s.open then s
    else if s.calls != 0 then s.(calls := s.calls + 1)
    else s.(calls := 1, active := true, accepted := s.accepted + [inner], pending := run.result,
            terminals := s.terminals + run.terminals)
  }

  /** proceed's deferred section; a panic of the rest leaves zero output and no error. */
  function Exited<O>(s: Level<O>, zero: O): Level<O> {
    if !s.active || s.pending.None? then s
    else if s.pending.value.Panicked? then s.(active := false, output := zero, terminal := None)
    else s.(active := false, output := s.pending.value.out, terminal := s.pending.value.err)
  }

  /** closeAndDrain's first section, once the callback is back. */
  function Closed<O>(s: Level<O>, failed: bool): Level<O> {
    if s.returned.Some? then s else s.(open := false, outlived := s.active, returned := Some(failed))
  }

  /** What invoke makes of a drained invocation; None while it still waits. */
  function Conclude<O>(s: Level<O>, zero: O): Option<Outcome<O>> {
    if s.returned.None? || s.active then None
    else if s.calls > 1 then Some(Returned(zero, Some(CalledTwice)))
    else if s.outlived then
      Some(Returned(zero,
          Some(if s.returned.value then Joined(Outlived(s.terminal), CallbackFailed) else Outlived(s.terminal))))
    else if !s.returned.value then
      if s.calls != 1 then Some(Returned(zero, Some(NotCalled))) else Some(Returned(s.output, s.terminal))
    else
      Some(Returned(s.output,
          Some(if s.terminal.Some? then Joined(s.terminal.value, CallbackFailed) else CallbackFailed)))
  }

  function RunEvents<O>(n: nat, index: nat, zero: O, check: O -> Check, events: seq<Event<O>>, s: Level<O>): Level<O>
    requires index < n
    decreases n - index, 0, |events|
  {
    if events == [] then s
    else
      var s' := match events[0]
                case Enter(inner) =>
                  Entered(s, inner, if Admits(s) then Invoke(n, index + 1, zero, check, inner) else Invocation(None, 0))
                case Exit => Exited(s, zero)
                case Return(failed) => Closed(s, failed);
      RunEvents(n, index, zero, check, events[1..], s')
  }

  /** The terminal and, if it reports no error, the validator on its output. */
  function Finished<O>(terminal: Outcome<O>, check: O -> Check): Outcome<O> {
    match terminal
    case Panicked => Panicked
    case Returned(out, err) =>
      if err.Some? then terminal
      else
        match check(out)
        case Accepts => terminal
        case Rejects => Returned(out, Some(OutputInvalid))
        case CheckPanics => Panicked
  }

  /** invoke(index): a chain of n callbacks, of which those from index on remain. */
  function Invoke<O>(n: nat, index: nat, zero: O, check: O -> Check, b: Behaviour<O>): Invocation<O>
    requires index <= n
    decreases n - index, 1, 0
  {
    if index == n then Invocation(Some(Finished(b.terminal, check)), 1)
    else
      match b.clone
      case CloneFails => Invocation(Some(Returned(zero, Some(CloneFailed))), 0)
      case ClonePanics => Invocation(Some(Panicked), 0)
      case Cloned =>
        var s := RunEvents(n, index, zero, check, b.events, NewLevel(zero));
        Invocation(Conclude(s, zero), s.terminals)
  }

  // ----- the guarantees

  /** What holds of a level at every moment: at most one proceed was accepted, it alone
      accounts for terminal runs, and what it delivered is what the rest of the chain made. */
  ghost predicate LevelOk<O(!new)>(n: nat, index: nat, zero: O, check: O -> Check, s: Level<O>) {
    && index < n
    && |s.accepted| == (if s.calls == 0 then 0 else 1)
    && (s.calls == 0 ==> s.terminals == 0 && !s.active && s.pending.None?)
    && (s.calls > 0 ==> var run := Invoke(n, index + 1, zero, check, s.accepted[0]);
                        s.pending == run.result && s.terminals == run.terminals)
    && (s.calls > 0 && !s.active ==> s.pending.Some?)
    && (s.calls > 0 && !s.active ==> s.output == if s.pending.value.Panicked? then zero else s.pending.value.out)
    && (s.calls > 0 && !s.active ==> s.terminal == if s.pending.value.Panicked? then None else s.pending.value.err)
    && (s.returned.Some? ==> !s.open)
  }

  lemma {:induction false} EventsKeepLevel<O(!new)>(
    n: nat, index: nat, zero: O, check: O -> Check, events: seq<Event<O>>, s: Level<O>)
    requires LevelOk(n, index, zero, check, s)
    ensures LevelOk(n, index, zero, check, RunEvents(n, index, zero, check, events, s))
    decreases |events|
  {
    if events != [] {
      var s' := match events[0]
                case Enter(inner) =>
                  Entered(s, inner, if Admits(s) then Invoke(n, index + 1, zero, check, inner) else Invocation(None, 0))
                case Exit => Exited(s, zero)
                case Return(failed) => Closed(s, failed);
      EventsKeepLevel(n, index, zero, check, events[1..], s');
    }
  }

  function Final<O>(n: nat, index: nat, zero: O, check: O -> Check, b: Behaviour<O>): Level<O>
    requires index < n
  {
    RunEvents(n, index, zero, check, b.events, NewLevel(zero))
  }

  lemma FinalOk<O(!new)>(n: nat, index: nat, zero: O, check: O -> Check, b: Behaviour<O>)
    requires index < n
    ensures LevelOk(n, index, zero, check, Final(n, index, zero, check, b))
  {
    EventsKeepLevel(n, index, zero, check, b.events, NewLevel(zero));
  }

  /** However the callbacks behave, and even if the chain never comes back, the terminal runs
      at most once. */
  lemma {:induction false} TerminalAtMostOnce<O(!new)>(n: nat, index: nat, zero: O, check: O -> Check, b: Behaviour<O>)
    requires index <= n
    ensures Invoke(n, index, zero, check, b).terminals <= 1
    decreases n - index
  {
    if index < n && b.clone.Cloned? {
      var s := Final(n, index, zero, check, b);
      FinalOk(n, index, zero, check, b);
      if s.calls > 0 {
        TerminalAtMostOnce(n, index + 1, zero, check, s.accepted[0]);
      }
    }
  }

  /** The callback at this level proceeded exactly once, was back before returning, and
      reported no failure. */
  ghost predicate ProceededOnce<O>(n: nat, index: nat, zero: O, check: O -> Check, b: Behaviour<O>)
    requires index < n
  {
    var s := Final(n, index, zero, check, b);
    b.clone.Cloned? && s.calls == 1 && !s.outlived && s.returned == Some(false) && |s.accepted| == 1
  }

  /** Every callback from index on proceeded exactly once, and the chain so opened ends in the
      terminal outcome t. */
  ghost predicate Proceeded<O>(n: nat, index: nat, zero: O, check: O -> Check, b: Behaviour<O>, t: Outcome<O>)
    requires index <= n
    decreases n - index
  {
    if index == n then t == b.terminal
    else
      && ProceededOnce(n, index, zero, check, b)
      && Proceeded(n, index + 1, zero, check, Final(n, index, zero, check, b).accepted[0], t)
  }

  /** Somewhere along the accepted proceeds a clone, the terminal or the validator unwinds. */
  ghost predicate Unwinds<O>(n: nat, index: nat, zero: O, check: O -> Check, b: Behaviour<O>)
    requires index <= n
    decreases n - index
  {
    if index == n then Finished(b.terminal, check).Panicked?
    else
      var s := Final(n, index, zero, check, b);
      b.clone.ClonePanics? || (b.clone.Cloned? && s.accepted != [] && Unwinds(n, index + 1, zero, check, s.accepted[0]))
  }

  /** A chain as a whole unwinds only at its own first step: the terminal and its validator if
      no callback remains, the clone otherwise; callbacks are recovered. */
  lemma PanicIsAtTheFront<O(!new)>(n: nat, index: nat, zero: O, check: O -> Check, b: Behaviour<O>)
    requires index <= n && Invoke(n, index, zero, check, b).result == Some(Panicked)
    ensures if index == n then Finished(b.terminal, check).Panicked? else b.clone.ClonePanics?
    ensures Unwinds(n, index, zero, check, b)
  {
  }

  /** What a nil error promises: every callback proceeded exactly once, the terminal ran once,
      and the output is the terminal's own, accepted by the validator. */
  ghost predicate Kept<O(!new)>(n: nat, index: nat, zero: O, check: O -> Check, b: Behaviour<O>, out: O)
    requires index <= n
  {
    && Proceeded(n, index, zero, check, b, Returned(out, None)) && check(out).Accepts?
    && Invoke(n, index, zero, check, b).terminals == 1
  }

  /** A nil error keeps its promise exactly when neither a clone, nor the terminal, nor the
      validator unwinds; when one does, the output is zero. */
  lemma {:induction false} NilErrorMeansProceeded<O(!new)>(
    n: nat, index: nat, zero: O, check: O -> Check, b: Behaviour<O>, out: O)
    requires index <= n
    requires Invoke(n, index, zero, check, b).result == Some(Returned(out, None))
    ensures Kept(n, index, zero, check, b, out) <==> !Unwinds(n, index, zero, check, b)
    ensures Unwinds(n, index, zero, check, b) ==> out == zero && index < n
    ensures index < n ==> ProceededOnce(n, index, zero, check, b)
    decreases n - index
  {
    if index < n {
      var s := Final(n, index, zero, check, b);
      FinalOk(n, index, zero, check, b);
      var inner := s.accepted[0];
      if Invoke(n, index + 1, zero, check, inner).result.value.Panicked? {
        PanicIsAtTheFront(n, index + 1, zero, check, inner);
        PanicKeepsNothing(n, index + 1, zero, check, inner, out);
      } else {
        NilErrorMeansProceeded(n, index + 1, zero, check, inner, out);
      }
    }
  }

  lemma PanicKeepsNothing<O(!new)>(n: nat, index: nat, zero: O, check: O -> Check, b: Behaviour<O>, out: O)
    requires index <= n && Invoke(n, index, zero, check, b).result == Some(Panicked)
    ensures !Kept(n, index, zero, check, b, out)
  {
  }

  /** A callback that enters proceed, recovers whatever unwinds, and returns. */
  function Recovering<O>(inner: Behaviour<O>): Behaviour<O> {
    Behaviour(Panicked, Cloned, [Enter(inner), Exit, Return(false)])
  }

  lemma RecoveredChain<O(!new)>(n: nat, index: nat, zero: O, check: O -> Check, inner: Behaviour<O>)
    requires index < n && Invoke(n, index + 1, zero, check, inner).result == Some(Panicked)
    ensures Invoke(n, index, zero, check, Recovering(inner)).result == Some(Returned(zero, None))
    ensures Invoke(n, index, zero, check, Recovering(inner)).terminals ==
              Invoke(n, index + 1, zero, check, inner).terminals
  {
    var events := [Enter(inner), Exit, Return(false)];
    var s0 := NewLevel(zero);
    var s1 := Entered(s0, inner, Invoke(n, index + 1, zero, check, inner));
    var s2 := Exited(s1, zero);
    assert events[1..] == [Exit, Return(false)] && events[1..][1..] == [Return(false)];
    assert RunEvents(n, index, zero, check, [Return(false)], s2) == Closed(s2, false);
    assert RunEvents(n, index, zero, check, [Exit, Return(false)], s1) == Closed(s2, false);
    assert RunEvents(n, index, zero, check, events, s0) == Closed(s2, false);
  }

  /** The other side: a terminal that panics inside a callback that recovers. The chain reports
      success with an output no terminal produced and the validator would have refused. */
  lemma SwallowedPanicLooksLikeSuccess()
    ensures var check := (x: int) => if x != 0 then Accepts else Rejects;
            Invoke(1, 0, 0, check, Recovering(Behaviour(Panicked, Cloned, []))).result == Some(Returned(0, None))
  {
    var check := (x: int) => if x != 0 then Accepts else Rejects;
    RecoveredChain(1, 0, 0, check, Behaviour(Panicked, Cloned, []));
  }

  /** The same for a validator that panics: the terminal returned 7, the chain returns 0. */
  lemma SwallowedCheckLosesTheOutput()
    ensures var check := (_: int) => CheckPanics;
            var inner := Behaviour(Returned(7, None), Cloned, []);
            Invoke(1, 0, 0, check, Recovering(inner)) == Invocation(Some(Returned(0, None)), 1)
  {
    var check := (_: int) => CheckPanics;
    var inner: Behaviour<int> := Behaviour(Returned(7, None), Cloned, []);
    assert Finished(inner.terminal, check) == Panicked;
    RecoveredChain(1, 0, 0, check, inner);
  }

  /** And for a clone that panics before the second callback: a success without any terminal. */
  lemma SwallowedCloneSkipsTheTerminal()
    ensures var check := (_: int) => Accepts;
            var inner := Behaviour(Returned(7, None), ClonePanics, []);
            Invoke(2, 0, 0, check, Recovering(inner)) == Invocation(Some(Returned(0, None)), 0)
  {
    RecoveredChain(2, 0, 0, (_: int) => Accepts, Behaviour(Returned(7, None), ClonePanics, []));
  }

  /** Callbacks that proceed once and return are transparent. */
  ghost predicate Transparent<O>(n: nat, index: nat, b: Behaviour<O>, t: Outcome<O>)
    requires index <= n
    decreases n - index
  {
    if index == n then b.terminal == t
    else b.clone.Cloned? && |b.events| == 3 && b.events[0].Enter? && b.events[1..] == [Exit, Return(false)]
         && Transparent(n, index + 1, b.events[0].inner, t)
  }

  lemma {:induction false} TransparentChain<O(!new)>(
    n: nat, index: nat, zero: O, check: O -> Check, b: Behaviour<O>, t: Outcome<O>)
    requires index <= n && Transparent(n, index, b, t) && Finished(t, check).Returned?
    ensures Invoke(n, index, zero, check, b) == Invocation(Some(Finished(t, check)), 1)
    decreases n - index
  {
    if index < n {
      var inner := b.events[0].inner;
      TransparentChain(n, index + 1, zero, check, inner, t);
      var s0 := NewLevel(zero);
      var s1 := Entered(s0, inner, Invoke(n, index + 1, zero, check, inner));
      var s2 := Exited(s1, zero);
      assert [Exit, Return(false)][1..] == [Event<O>.Return(false)];
      assert RunEvents(n, index, zero, check, [Return(false)], s2) == Closed(s2, false);
      assert RunEvents(n, index, zero, check, b.events[1..], s1) == Closed(s2, false);
    }
  }

  // ----- what a level reports, read off the order of its events

  /** How many times proceed was entered among the first k events. */
  function Enters<O>(events: seq<Event<O>>, k: nat): nat
    requires k <= |events|
  {
    if k == 0 then 0 else Enters(events, k - 1) + if events[k - 1].Enter? then 1 else 0
  }

  /** Where the callback returned, among the first k events. */
  function FirstReturn<O>(events: seq<Event<O>>, k: nat): (r: Option<nat>)
    requires k <= |events|
    ensures r.Some? ==> r.value < k && events[r.value].Return? && forall j | 0 <= j < r.value :: !events[j].Return?
    ensures r.None? ==> forall j | 0 <= j < k :: !events[j].Return?
  {
    if k == 0 then None
    else
      var r := FirstReturn(events, k - 1);
      if r.None? && events[k - 1].Return? then Some(k - 1) else r
  }

  /** Where proceed was first entered. */
  function FirstEnter<O>(events: seq<Event<O>>, k: nat): (e: Option<nat>)
    requires k <= |events|
    ensures e.Some? ==> e.value < k && events[e.value].Enter? && forall j | 0 <= j < e.value :: !events[j].Enter?
    ensures e.None? ==> forall j | 0 <= j < k :: !events[j].Enter?
    ensures e.None? <==> Enters(events, k) == 0
  {
    if k == 0 then None
    else
      var e := FirstEnter(events, k - 1);
      if e.None? && events[k - 1].Enter? then Some(k - 1) else e
  }

  /** The proceed entered at e was left before event k. */
  predicate LeftBefore<O>(events: seq<Event<O>>, e: nat, k: nat)
    requires k <= |events|
  {
    exists x | e < x < k :: events[x].Exit?
  }

  /** What the callbacks of a level and its rest, in this order of events, make of it. */
  function Report<O>(zero: O, events: seq<Event<O>>, inner: Behaviour<O> -> Option<Outcome<O>>): Option<Outcome<O>> {
    var r, e := FirstReturn(events, |events|), FirstEnter(events, |events|);
    if r.None? then None
    else
      var failed, calls := events[r.value].failed, Enters(events, r.value);
      if calls == 0 || e.None? then Some(Returned(zero, Some(if failed then CallbackFailed else NotCalled)))
      else
        var rest := inner(events[e.value].inner);
        if rest.None? || !LeftBefore(events, e.value, |events|) then None
        else if calls > 1 then Some(Returned(zero, Some(CalledTwice)))
        else
          var out := if rest.value.Returned? then rest.value.out else zero;
          var err := if rest.value.Returned? then rest.value.err else None;
          if !LeftBefore(events, e.value, r.value) then
            Some(Returned(zero, Some(if failed then Joined(Outlived(err), CallbackFailed) else Outlived(err))))
          else if !failed then Some(Returned(out, err))
          else Some(Returned(out, Some(if err.Some? then Joined(err.value, CallbackFailed) else CallbackFailed)))
  }

  function Next<O>(n: nat, index: nat, zero: O, check: O -> Check, s: Level<O>, event: Event<O>): Level<O>
    requires index < n
  {
    match event
    case Enter(inner) =>
      Entered(s, inner, if Admits(s) then Invoke(n, index + 1, zero, check, inner) else Invocation(None, 0))
    case Exit => Exited(s, zero)
    case Return(failed) => Closed(s, failed)
  }

  lemma {:induction false} RunsOn<O(!new)>(n: nat, index: nat, zero: O, check: O -> Check, events: seq<Event<O>>,
                                           s: Level<O>, event: Event<O>)
    requires index < n
    ensures RunEvents(n, index, zero, check, events + [event], s) ==
              Next(n, index, zero, check, RunEvents(n, index, zero, check, events, s), event)
    decreases |events|
  {
    if events == [] {
      assert events + [event] == [event] && [event][1..] == [];
    } else {
      assert (events + [event])[1..] == events[1..] + [event];
      RunsOn(n, index, zero, check, events[1..], Next(n, index, zero, check, s, events[0]), event);
    }
  }

  /** The proceed entered at e is still running at event k. */
  ghost predicate Running<O(!new)>(n: nat, index: nat, zero: O, check: O -> Check, events: seq<Event<O>>, e: nat,
                                   k: nat)
    requires index < n && e < k <= |events| && events[e].Enter?
  {
    Invoke(n, index + 1, zero, check, events[e].inner).result.None? || !LeftBefore(events, e, k)
  }

  /** The fields of a level after k events, on the events. */
  ghost predicate Reads<O(!new)>(n: nat, index: nat, zero: O, check: O -> Check, events: seq<Event<O>>, k: nat,
                                 s: Level<O>)
    requires index < n && k <= |events|
  {
    var r, e := FirstReturn(events, k), FirstEnter(events, k);
    && (s.open <==> r.None?) && s.returned == (if r.None? then None else Some(events[r.value].failed))
    && s.calls == Enters(events, if r.Some? then r.value else k)
    && (s.calls == 0 ==> !s.active && !s.outlived && s.output == zero && s.terminal == None)
    && (s.calls > 0 ==>
          && e.Some? && (r.Some? ==> e.value < r.value) && s.accepted == [events[e.value].inner]
          && (s.active <==> Running(n, index, zero, check, events, e.value, k))
          && (s.outlived <==> r.Some? && Running(n, index, zero, check, events, e.value, r.value)))
  }

  lemma {:induction false} EntersGrow<O>(events: seq<Event<O>>, j: nat, k: nat)
    requires j <= k <= |events|
    ensures Enters(events, j) <= Enters(events, k)
  {
    if j < k {
      EntersGrow(events, j, k - 1);
    }
  }

  lemma LeftBeforeNext<O>(events: seq<Event<O>>, e: nat, k: nat)
    requires k < |events|
    ensures LeftBefore(events, e, k + 1) <==> LeftBefore(events, e, k) || (e < k && events[k].Exit?)
  {
  }

  lemma {:induction false} ReadsEnter<O(!new)>(n: nat, index: nat, zero: O, check: O -> Check, events: seq<Event<O>>,
                                               k: nat, s: Level<O>)
    requires index < n && k < |events| && events[k].Enter? && LevelOk(n, index, zero, check, s)
    requires Reads(n, index, zero, check, events, k, s)
    ensures Reads(n, index, zero, check, events, k + 1, Next(n, index, zero, check, s, events[k]))
  {
    LeftBeforeNext(events, if FirstEnter(events, k).Some? then FirstEnter(events, k).value else k, k);
    if FirstReturn(events, k).Some? {
      EntersGrow(events, FirstReturn(events, k).value, k);
    }
  }

  lemma {:induction false} ReadsOther<O(!new)>(n: nat, index: nat, zero: O, check: O -> Check, events: seq<Event<O>>,
                                               k: nat, s: Level<O>)
    requires index < n && k < |events| && !events[k].Enter? && LevelOk(n, index, zero, check, s)
    requires Reads(n, index, zero, check, events, k, s)
    ensures Reads(n, index, zero, check, events, k + 1, Next(n, index, zero, check, s, events[k]))
  {
    if FirstEnter(events, k).Some? {
      LeftBeforeNext(events, FirstEnter(events, k).value, k);
    }
  }

  lemma {:induction false} ReadsAlong<O(!new)>(n: nat, index: nat, zero: O, check: O -> Check, events: seq<Event<O>>,
                                               k: nat)
    requires index < n && k <= |events|
    ensures var s := RunEvents(n, index, zero, check, events[..k], NewLevel(zero));
            LevelOk(n, index, zero, check, s) && Reads(n, index, zero, check, events, k, s)
  {
    EventsKeepLevel(n, index, zero, check, events[..k], NewLevel(zero));
    if k > 0 {
      ReadsAlong(n, index, zero, check, events, k - 1);
      var s := RunEvents(n, index, zero, check, events[..k - 1], NewLevel(zero));
      RunsOn(n, index, zero, check, events[..k - 1], NewLevel(zero), events[k - 1]);
      assert events[..k] == events[..k - 1] + [events[k - 1]];
      if events[k - 1].Enter? {
        ReadsEnter(n, index, zero, check, events, k - 1, s);
      } else {
        ReadsOther(n, index, zero, check, events, k - 1, s);
      }
    }
  }

  /** The whole verdict of a level, error cases included, from the order of its events: a
      chain that never comes back, a repeated, missing or outliving proceed, a failed callback. */
  lemma {:induction false} LevelReports<O(!new)>(n: nat, index: nat, zero: O, check: O -> Check, b: Behaviour<O>)
    requires index < n && b.clone.Cloned?
    ensures Invoke(n, index, zero, check, b).result ==
              Report(zero, b.events, (inner: Behaviour<O>) => Invoke(n, index + 1, zero, check, inner).result)
  {
    var events, k := b.events, |b.events|;
    ReadsAlong(n, index, zero, check, events, k);
    assert events[..k] == events;
    var s := Final(n, index, zero, check, b);
    var e := FirstEnter(events, k);
    if s.calls == 0 {
      assert s.returned.Some? ==> Enters(events, FirstReturn(events, k).value) == 0;
    } else {
      assert s.accepted == [events[e.value].inner];
      assert s.pending == Invoke(n, index + 1, zero, check, events[e.value].inner).result;
    }
  }

  /** The ends of a chain: a terminal is validated only if it reports no error, keeps its output
      even if refused, and is not reached past a clone that fails. */
  lemma ChainEnds<O(!new)>(n: nat, index: nat, zero: O, check: O -> Check, b: Behaviour<O>)
    requires index <= n
    ensures index == n ==> Invoke(n, index, zero, check, b).terminals == 1
    ensures index == n && b.terminal.Returned? && b.terminal.err.Some? ==>
              Invoke(n, index, zero, check, b).result == Some(b.terminal)
    ensures index == n && b.terminal.Returned? && b.terminal.err.None? ==>
              Invoke(n, index, zero, check, b).result ==
                match check(b.terminal.out)
                case Accepts => Some(Returned(b.terminal.out, None))
                case Rejects => Some(Returned(b.terminal.out, Some(OutputInvalid)))
                case CheckPanics => Some(Panicked)
    ensures index == n && b.terminal.Panicked? ==> Invoke(n, index, zero, check, b).result == Some(Panicked)
    ensures index < n && b.clone.CloneFails? ==>
              Invoke(n, index, zero, check, b) == Invocation(Some(Returned(zero, Some(CloneFailed))), 0)
    ensures index < n && b.clone.ClonePanics? ==> Invoke(n, index, zero, check, b) == Invocation(Some(Panicked), 0)
  {
  }

  // ----- the object

  /** aroundInvocation: proceed and closeAndDrain, one method per critical section. */
  class AroundInvocation<O> {
    var open: bool
    var calls: nat
    var active: bool
    var output: O
    var terminal: Option<Failure>
    var outlived: bool

    constructor (zero: O)
      ensures forall acc, pend, n ::
                View(acc, pend, None, n) == NewLevel(zero).(accepted := acc, pending := pend, terminals := n)
    {
      open, calls, active, output, terminal, outlived := true, 0, false, zero, None, false;
    }

    ghost function View(accepted: seq<Behaviour<O>>, pending: Option<Outcome<O>>, returned: Option<bool>,
                        terminals: nat): Level<O>
      reads this
    {
      Level(open, calls, active, output, terminal, accepted, pending, returned, outlived, terminals)
    }

    /** proceed's first section, as the step Entered. */
    method EnterProceed(ghost inner: Behaviour<O>, ghost run: Invocation<O>, ghost acc: seq<Behaviour<O>>,
                        ghost pend: Option<Outcome<O>>, ghost ret: Option<bool>, ghost n: nat)
      returns (err: Option<Failure>)
      modifies this`calls, this`active
      ensures err.None? <==> Admits(old(View(acc, pend, ret, n)))
      ensures err.Some? ==> err.value == if open then CalledTwice else Outlived(None)
      ensures var s := Entered(old(View(acc, pend, ret, n)), inner, run);
              View(s.accepted, s.pending, ret, s.terminals) == s
    {
      if !open {
        return Some(Outlived(None));
      }
      calls := calls + 1;
      if calls != 1 {
        return Some(CalledTwice);
      }
      active := true;
      return None;
    }

    /** proceed's deferred section; if the rest unwound, its results are still the zero ones. */
    method LeaveProceed(result: Outcome<O>, zero: O, ghost acc: seq<Behaviour<O>>, ghost ret: Option<bool>,
                        ghost n: nat)
      requires active
      modifies this`output, this`terminal, this`active
      ensures View(acc, Some(result), ret, n) == Exited(old(View(acc, Some(result), ret, n)), zero)
    {
      var out, err := zero, None;
      if result.Returned? {
        out, err := result.out, result.err;
      }
      output := out;
      terminal := err;
      active := false;
    }

    method CloseSection(failed: bool, ghost acc: seq<Behaviour<O>>, ghost pend: Option<Outcome<O>>, ghost n: nat)
      modifies this`open, this`outlived
      ensures View(acc, pend, Some(failed), n) == Closed(old(View(acc, pend, None, n)), failed)
    {
      open := false;
      outlived := active;
    }

    /** invoke's verdict on a drained invocation. */
    method Verdict(zero: O, failed: bool, ghost acc: seq<Behaviour<O>>, ghost pend: Option<Outcome<O>>, ghost n: nat)
      returns (out: O, err: Option<Failure>)
      requires !active
      ensures Conclude(View(acc, pend, Some(failed), n), zero) == Some(Returned(out, err))
    {
      if calls > 1 {
        return zero, Some(CalledTwice);
      }
      if outlived {
        return zero, Some(if failed then Joined(Outlived(terminal), CallbackFailed) else Outlived(terminal));
      }
      if !failed {
        if calls != 1 {
          return zero, Some(NotCalled);
        }
        return output, terminal;
      }
      return output, Some(if terminal.Some? then Joined(terminal.value, CallbackFailed) else CallbackFailed);
    }
  }
}
