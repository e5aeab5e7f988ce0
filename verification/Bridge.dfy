/** One AG-UI connection: its frame ledger and its terminal frame (agui/bridge.go). */
module Bridge {
  import opened Identities

  datatype FrameKind = ToolStart | ToolArgs | ToolEnd | ToolResult | TextEnd | ReasoningMessageEnd | ReasoningEnd
      | OtherFrame(name: nat)

  /** What the ledger is keyed by; live chunks carry an ordinal in the block. */
  datatype Key = Key(kind: FrameKind, owner: ID, block: nat)

  function ToolKey(kind: FrameKind, call: ID): Key {
    Key(kind, call, 0)
  }

  /** What reached the wire: a native frame written directly, a committed projection together
      with the native frames it brought, a terminal frame, or anything else. */
  datatype Act = Direct(key: Key) | Projected(keys: set<Key>) | Terminal | Plain

  // ----- the history of a connection

  function Ledger(history: seq<Act>): set<Key> {
    if history == [] then {}
    else
      var act := history[|history| - 1];
      Ledger(history[..|history| - 1]) + match act case Direct(key) => {key} case Projected(keys) => keys case _ => {}
  }

  function Terminals(history: seq<Act>): nat {
    if history == [] then 0
    else Terminals(history[..|history| - 1]) + if history[|history| - 1] == Terminal then 1 else 0
  }

  predicate NeedsStart(kind: FrameKind) {
    kind == ToolArgs || kind == ToolEnd || kind == ToolResult
  }

  predicate IsClose(kind: FrameKind) {
    kind == TextEnd || kind == ReasoningMessageEnd || kind == ReasoningEnd
  }

  /** A direct write is of a key the ledger does not hold yet; a tool call's args, end or result
      comes after its start is in the ledger. */
  predicate Allowed(ledger: set<Key>, act: Act) {
    act.Direct? ==> act.key !in ledger && (NeedsStart(act.key.kind) ==> ToolKey(ToolStart, act.key.owner) in ledger)
  }

  ghost predicate Lawful(history: seq<Act>) {
    history != [] ==>
      var n := |history| - 1;
      Lawful(history[..n]) && Allowed(Ledger(history[..n]), history[n])
  }

  lemma Extend(history: seq<Act>, act: Act)
    requires Lawful(history) && Allowed(Ledger(history), act)
    ensures Lawful(history + [act])
    ensures Ledger(history + [act]) == Ledger(history)
              + match act case Direct(key) => {key} case Projected(keys) => keys case _ => {}
    ensures Terminals(history + [act]) == Terminals(history) + if act == Terminal then 1 else 0
  {
    assert (history + [act])[..|history|] == history;
  }

  lemma {:induction false} LedgerGrows(history: seq<Act>, n: nat)
    requires n <= |history|
    ensures Ledger(history[..n]) <= Ledger(history)
  {
    if n < |history| {
      LedgerGrows(history[..|history| - 1], n);
      assert history[..|history| - 1][..n] == history[..n];
    } else {
      assert history[..n] == history;
    }
  }

  lemma {:induction false} LawfulPrefix(history: seq<Act>, n: nat)
    requires Lawful(history) && n < |history|
    ensures Allowed(Ledger(history[..n]), history[n])
  {
    if n < |history| - 1 {
      LawfulPrefix(history[..|history| - 1], n);
      assert history[..|history| - 1][..n] == history[..n];
    }
  }

  /** Each ledger key is directly written at most once. */
  lemma DirectAtMostOnce(history: seq<Act>, i: nat, j: nat)
    requires Lawful(history) && i < j < |history| && history[i].Direct?
    ensures history[j] != history[i]
  {
    LawfulPrefix(history, j);
    LedgerGrows(history[..j], i + 1);
    assert history[..j][..i + 1] == history[..i + 1] && history[..i + 1][..i] == history[..i];
    assert history[i].key in Ledger(history[..i + 1]);
  }

  /** Act i put the key on the wire, directly or by a projection. */
  ghost predicate Brings(history: seq<Act>, i: nat, key: Key) {
    i < |history| && (history[i] == Direct(key) || (history[i].Projected? && key in history[i].keys))
  }

  /** The ledger holds exactly the keys that some act put on the wire. */
  lemma {:induction false} LedgerIff(history: seq<Act>, key: Key)
    ensures key in Ledger(history) <==> exists i: nat :: Brings(history, i, key)
  {
    if history != [] {
      var n := |history| - 1;
      LedgerIff(history[..n], key);
      if i: nat :| Brings(history[..n], i, key) {
        assert Brings(history, i, key);
      }
      if i: nat :| Brings(history, i, key) {
        assert i < n ==> Brings(history[..n], i, key);
      }
      if key in Ledger(history) && key !in Ledger(history[..n]) {
        assert Brings(history, n, key);
      }
    }
  }

  lemma {:induction false} TerminalCounts(history: seq<Act>, i: nat)
    requires i < |history| && history[i] == Terminal
    ensures Terminals(history) >= Terminals(history[..i]) + 1
  {
    var n := |history| - 1;
    if i < n {
      TerminalCounts(history[..n], i);
      assert history[..n][..i] == history[..i];
    }
  }

  /** A count of at most one leaves room for one terminal frame on the wire. */
  lemma {:induction false} OneTerminal(history: seq<Act>, i: nat, j: nat)
    requires Terminals(history) <= 1 && i < j < |history| && history[i] == Terminal
    ensures history[j] != Terminal
  {
    if history[j] == Terminal {
      TerminalCounts(history, j);
      TerminalCounts(history[..j], i);
    }
  }

  /** A tool call's args, end or result is directly written only after its start was written,
      directly or by a projection. */
  lemma StartComesFirst(history: seq<Act>, j: nat) returns (i: nat)
    requires Lawful(history) && j < |history| && history[j].Direct?
    requires history[j].key.kind in {ToolArgs, ToolEnd, ToolResult}
    ensures i < j
    ensures Brings(history, i, ToolKey(ToolStart, history[j].key.owner))
  {
    var start := ToolKey(ToolStart, history[j].key.owner);
    LawfulPrefix(history, j);
    LedgerIff(history[..j], start);
    i :| Brings(history[..j], i, start);
  }

  // ----- the emitter

  /** What a write does while no error is latched: the frame is written, it fails and the error
      latches, or the emitter passes over it. A failed write leaves nothing on the wire. */
  datatype Outcome = Written | Failed | PassedOver

  class Emitter {
    var latched: bool
    var script: seq<Outcome>

    constructor (script: seq<Outcome>)
      ensures !latched && this.script == script
    {
      latched, this.script := false, script;
    }

    /** Nothing is passed over silently from here on. */
    predicate Faithful()
      reads this
    {
      forall i | 0 <= i < |script| :: script[i] != PassedOver
    }

    method Write() returns (written: bool)
      modifies this
      ensures old(latched) ==> !written && latched && script == old(script)
      ensures old(Faithful()) ==> Faithful() && (written || latched)
      ensures !old(latched) && old(script) == [] ==> written && !latched && script == []
      ensures !old(latched) && old(script) != [] ==> script == old(script)[1..]
      ensures !old(latched) && old(script) != [] ==>
                written == (old(script)[0] == Written) && latched == (old(script)[0] == Failed)
    {
      written := false;
      if !latched {
        if script == [] {
          written := true;
        } else {
          written, latched, script := script[0] == Written, script[0] == Failed, script[1..];
        }
      }
    }
  }

  // ----- the connection

  /** What a live chunk converts to: nothing, an error, or a native frame. */
  datatype Chunk = NoNative | Broken | Native(kind: nat)
  /** A tool_call_updated record: whether its payload decodes, the call named by the record and
      by the payload, and which parts the payload carries. */
  datatype ToolUpdate = ToolUpdate(decodes: bool, recordCall: ID, payloadCall: ID, named: bool, args: bool,
      finished: bool)
  /** What reloading a committed message gives. */
  datatype Reload = ReloadFails | NotVisible | Visible(keys: set<Key>)

  datatype Input =
    | RunStarted
    | MessageDelta(message: ID, correlated: bool, chunks: seq<Chunk>)
    | ToolCallUpdated(update: ToolUpdate)
    | MessageCommitted(message: ID, reload: Reload)
    | Lifecycle(valid: bool)
    | HistoricalRecord
    | RunFinished
    | Snapshot(message: ID, keys: set<Key>)
    | Terminate(benign: bool, fallback: seq<Outcome>)
    | ErrorCall
    | OtherCall

  class Connection {
    const emit: Emitter
    var nativeFrames: set<Key>
    var terminated: bool
    var textOpen: set<ID>
    var reasoning: map<ID, ID>
    var projected: set<ID>
    var streamed: set<ID>
    var ordinal: nat
    var liveErr: bool
    var misses: nat
    /** What reached the wire. */
    var history: seq<Act>

    constructor (script: seq<Outcome>, textOpen: set<ID>, reasoning: map<ID, ID>)
      ensures Valid() && fresh(emit) && !terminated && history == []
    {
      emit := new Emitter(script);
      nativeFrames, terminated, this.textOpen, this.reasoning := {}, false, textOpen, reasoning;
      projected, streamed, ordinal, liveErr, misses, history := {}, {}, 0, false, 0, [];
    }

    /** The ledger is what history put there, history is lawful, and a terminal frame is on the
        wire only if the connection knows it. */
    ghost predicate Valid()
      reads this
    {
      && nativeFrames == Ledger(history) && Lawful(history)
      && Terminals(history) <= if terminated then 1 else 0
    }

    /** deliverNative: at most one direct write per key, recorded only if it succeeds. */
    method DeliverNative(key: Key, e: Emitter) returns (ok: bool)
      requires Valid() && (NeedsStart(key.kind) ==> ToolKey(ToolStart, key.owner) in nativeFrames)
      modifies this`nativeFrames, this`history, e
      ensures Valid() && (old(e.latched) ==> e.latched) && (old(e.Faithful()) ==> e.Faithful())
      ensures ok ==> key !in old(nativeFrames) && !old(e.latched)
      ensures history == old(history) + if ok then [Direct(key)] else []
      ensures nativeFrames == old(nativeFrames) + if ok then {key} else {}
      ensures Terminals(history) == Terminals(old(history))
      ensures old(e.Faithful()) && !e.latched ==> key in nativeFrames
    {
      if key in nativeFrames || e.latched {
        return false;
      }
      ok := e.Write();
      if ok {
        Extend(history, Direct(key));
        nativeFrames, history := nativeFrames + {key}, history + [Direct(key)];
      }
    }

    method EnsureNative(key: Key, e: Emitter) returns (ok: bool)
      requires Valid() && !NeedsStart(key.kind)
      modifies this`nativeFrames, this`history, e
      ensures Valid() && (old(e.latched) ==> e.latched) && (old(e.Faithful()) ==> e.Faithful())
      ensures ok <==> key in nativeFrames
      ensures old(e.Faithful()) && !e.latched ==> ok
      ensures history == old(history) + if key in old(nativeFrames) || !ok then [] else [Direct(key)]
      ensures nativeFrames == old(nativeFrames) + if ok then {key} else {}
      ensures Terminals(history) == Terminals(old(history))
    {
      if key in nativeFrames {
        return true;
      }
      ok := DeliverNative(key, e);
    }

    /** Spans are closed once each; one that could not be closed stays open. */
    method CloseText(e: Emitter)
      requires Valid()
      modifies this`nativeFrames, this`history, this`textOpen, e
      ensures Valid() && old(history) <= history && Terminals(history) == Terminals(old(history))
      ensures old(nativeFrames) <= nativeFrames
      ensures forall k | k in nativeFrames && k !in old(nativeFrames) :: IsClose(k.kind)
      ensures textOpen <= old(textOpen) && (old(e.latched) ==> e.latched) && (old(e.Faithful()) ==> e.Faithful())
      ensures forall m | m in old(textOpen) :: m in textOpen <==> Key(TextEnd, m, 0) !in nativeFrames
      ensures old(e.Faithful()) && !e.latched ==> textOpen == {}
    {
      var todo := textOpen;
      while todo != {}
        invariant Valid() && old(history) <= history && Terminals(history) == Terminals(old(history))
        invariant old(nativeFrames) <= nativeFrames
        invariant forall k | k in nativeFrames && k !in old(nativeFrames) :: IsClose(k.kind)
        invariant todo <= textOpen <= old(textOpen) && (old(e.latched) ==> e.latched)
        invariant old(e.Faithful()) ==> e.Faithful()
        invariant forall m | m in old(textOpen) && m !in todo :: m in textOpen <==> Key(TextEnd, m, 0) !in nativeFrames
        invariant old(e.Faithful()) && !e.latched ==> textOpen == todo
        decreases |todo|
      {
        var m :| m in todo;
        todo := todo - {m};
        var ok := EnsureNative(Key(TextEnd, m, 0), e);
        if ok {
          textOpen := textOpen - {m};
        }
      }
    }

    method CloseReasoning(e: Emitter)
      requires Valid()
      modifies this`nativeFrames, this`history, this`reasoning, e
      ensures Valid() && old(history) <= history && Terminals(history) == Terminals(old(history))
      ensures old(nativeFrames) <= nativeFrames
      ensures forall k | k in nativeFrames && k !in old(nativeFrames) :: IsClose(k.kind)
      ensures reasoning.Keys <= old(reasoning).Keys && (old(e.latched) ==> e.latched)
      ensures old(e.Faithful()) ==> e.Faithful()
      ensures forall m | m in old(reasoning) && m !in reasoning ::
                Key(ReasoningMessageEnd, old(reasoning)[m], 0) in nativeFrames
                    && Key(ReasoningEnd, old(reasoning)[m], 0) in nativeFrames
      ensures old(e.Faithful()) && !e.latched ==> reasoning == map[]
    {
      var todo := reasoning.Keys;
      while todo != {}
        invariant Valid() && old(history) <= history && Terminals(history) == Terminals(old(history))
        invariant old(nativeFrames) <= nativeFrames
        invariant forall k | k in nativeFrames && k !in old(nativeFrames) :: IsClose(k.kind)
        invariant todo <= reasoning.Keys <= old(reasoning).Keys && (old(e.latched) ==> e.latched)
        invariant old(e.Faithful()) ==> e.Faithful()
        invariant forall m | m in reasoning :: reasoning[m] == old(reasoning)[m]
        invariant old(e.Faithful()) && !e.latched ==> reasoning.Keys == todo
        invariant forall m | m in old(reasoning) && m !in reasoning ::
                    Key(ReasoningMessageEnd, old(reasoning)[m], 0) in nativeFrames
                        && Key(ReasoningEnd, old(reasoning)[m], 0) in nativeFrames
        decreases |todo|
      {
        var m :| m in todo;
        todo := todo - {m};
        var id := reasoning[m];
        var ok := EndReasoning(id, e);
        if ok {
          reasoning := reasoning - {m};
        }
      }
    }

    method EndReasoning(id: ID, e: Emitter) returns (ok: bool)
      requires Valid()
      modifies this`nativeFrames, this`history, e
      ensures Valid() && old(history) <= history && Terminals(history) == Terminals(old(history))
      ensures old(nativeFrames) <= nativeFrames
      ensures forall k | k in nativeFrames && k !in old(nativeFrames) :: IsClose(k.kind)
      ensures (old(e.latched) ==> e.latched) && (old(e.Faithful()) ==> e.Faithful())
      ensures ok <==> Key(ReasoningMessageEnd, id, 0) in nativeFrames && Key(ReasoningEnd, id, 0) in nativeFrames
      ensures old(e.Faithful()) && !e.latched ==> ok
    {
      ok := EnsureNative(Key(ReasoningMessageEnd, id, 0), e);
      if ok {
        ok := EnsureNative(Key(ReasoningEnd, id, 0), e);
      }
    }

    method CloseOpen(e: Emitter)
      requires Valid()
      modifies this`nativeFrames, this`history, this`textOpen, this`reasoning, e
      ensures Valid() && old(history) <= history && Terminals(history) == Terminals(old(history))
      ensures old(nativeFrames) <= nativeFrames
      ensures forall k | k in nativeFrames && k !in old(nativeFrames) :: IsClose(k.kind)
      ensures old(e.Faithful()) && !e.latched ==> textOpen == {} && reasoning == map[]
      ensures textOpen <= old(textOpen) && reasoning.Keys <= old(reasoning).Keys && (old(e.latched) ==> e.latched)
      ensures old(e.Faithful()) ==> e.Faithful()
    {
      CloseText(e);
      CloseReasoning(e);
    }

    /** RunError or RunFinished on an emitter. */
    method WriteTerminal(e: Emitter)
      requires Valid() && Terminals(history) == 0
      modifies this`history, e
      ensures nativeFrames == Ledger(history) && Lawful(history) && Terminals(history) <= 1 && old(history) <= history
      ensures (old(e.latched) ==> e.latched) && (old(e.Faithful()) ==> e.Faithful())
      ensures e.latched ==> Terminals(history) == 0
      ensures old(e.Faithful()) && !e.latched ==> Terminals(history) == 1
    {
      var written := e.Write();
      if written {
        Extend(history, Terminal);
        history := history + [Terminal];
      }
    }

    method WritePlain(e: Emitter) returns (ok: bool)
      requires Valid()
      modifies this`history, e
      ensures Valid() && old(history) <= history && Terminals(history) == Terminals(old(history))
      ensures (old(e.latched) ==> e.latched) && (old(e.Faithful()) ==> e.Faithful())
    {
      ok := e.Write();
      if ok {
        Extend(history, Plain);
        history := history + [Plain];
      }
    }

    /** emitTerminalError: the one way every failure ends the stream on the primary emitter. */
    method EmitTerminalError() returns (ok: bool)
      requires Valid()
      modifies this`nativeFrames, this`history, this`textOpen, this`reasoning, this`terminated, emit
      ensures Valid() && old(history) <= history
      ensures old(terminated) ==> !ok && terminated && history == old(history)
      ensures ok ==> terminated && !emit.latched
      ensures forall k | k in nativeFrames && k !in old(nativeFrames) :: IsClose(k.kind)
      ensures ok && old(emit.Faithful()) ==> Terminals(history) == 1 && textOpen == {} && reasoning == map[]
      ensures !old(terminated) && !ok ==> !terminated && emit.latched && Terminals(history) == 0
    {
      if terminated {
        return false;
      }
      CloseOpen(emit);
      WriteTerminal(emit);
      ok := !emit.latched;
      if ok {
        terminated := true;
      }
    }

    /** Terminate: its own emitter on the same wire, since the primary one may have failed. */
    method TerminateStream(benign: bool, fallback: Emitter) returns (ok: bool)
      requires Valid() && !fallback.latched && fallback != emit
      modifies this`nativeFrames, this`history, this`textOpen, this`reasoning, this`terminated, fallback
      ensures Valid() && old(history) <= history
      ensures old(terminated) || benign ==> !ok && terminated == old(terminated) && history == old(history)
      ensures ok ==> terminated
      ensures ok && old(fallback.Faithful()) ==> Terminals(history) == 1 && textOpen == {} && reasoning == map[]
      ensures !old(terminated) && !benign && !ok ==> fallback.latched
      ensures !ok ==> terminated == old(terminated)
    {
      if terminated || benign {
        return false;
      }
      CloseOpen(fallback);
      WriteTerminal(fallback);
      ok := !fallback.latched;
      if ok {
        terminated := true;
      }
    }

    /** The run-finished case of Emit: later ones are ignored. */
    method FinishRun()
      requires Valid()
      modifies this`nativeFrames, this`history, this`textOpen, this`reasoning, this`terminated, emit
      ensures Valid() && old(history) <= history && terminated
      ensures old(terminated) ==> history == old(history)
      ensures !old(terminated) && old(emit.Faithful()) && !emit.latched ==>
                Terminals(history) == 1 && textOpen == {} && reasoning == map[]
    {
      if terminated {
        return;
      }
      terminated := true;
      CloseOpen(emit);
      WriteTerminal(emit);
    }

    method Fail()
      requires Valid()
      modifies this`nativeFrames, this`history, this`textOpen, this`reasoning, this`terminated, this`liveErr, emit
      ensures Valid() && old(history) <= history && liveErr && (terminated || emit.latched)
      ensures old(terminated) ==> history == old(history)
      ensures forall k | k in nativeFrames && k !in old(nativeFrames) :: IsClose(k.kind)
    {
      liveErr := true;
      var _ := EmitTerminalError();
    }

    /** emitToolCallUpdated: no part of a call is written before its start. */
    method UpdateToolCall(u: ToolUpdate)
      requires Valid()
      modifies this`nativeFrames, this`history, this`textOpen, this`reasoning, this`terminated, this`liveErr, emit
      ensures Valid() && old(history) <= history
      ensures liveErr ==
                (old(liveErr) || !u.decodes || CallOf(u) == NO_ID
                    || (!u.named && ToolKey(ToolStart, CallOf(u)) !in old(nativeFrames)))
      ensures forall k | k in nativeFrames && k !in old(nativeFrames) ::
                IsClose(k.kind) || (u.named && k == ToolKey(ToolStart, CallOf(u)))
                || (u.args && k == ToolKey(ToolArgs, CallOf(u)))
                || (u.finished && (k == ToolKey(ToolEnd, CallOf(u)) || k == ToolKey(ToolResult, CallOf(u))))
      ensures (liveErr == old(liveErr) == false) && old(emit.Faithful()) && !emit.latched ==>
                && ToolKey(ToolStart, CallOf(u)) in nativeFrames
                   && (u.args ==> ToolKey(ToolArgs, CallOf(u)) in nativeFrames)
                && (u.finished ==>
                   ToolKey(ToolEnd, CallOf(u)) in nativeFrames && ToolKey(ToolResult, CallOf(u)) in nativeFrames)
    {
      if !u.decodes {
        Fail();
        return;
      }
      var call := if u.recordCall != NO_ID then u.recordCall else u.payloadCall;
      if call == NO_ID {
        Fail();
        return;
      }
      CloseOpen(emit);
      var start := ToolKey(ToolStart, call);
      if u.named {
        var ok := EnsureNative(start, emit);
        if !ok {
          return;
        }
      }
      if start !in nativeFrames {
        Fail();
        return;
      }
      WriteParts(call, u.args, u.finished);
    }

    method WriteParts(call: ID, args: bool, finished: bool)
      requires Valid() && ToolKey(ToolStart, call) in nativeFrames
      modifies this`nativeFrames, this`history, emit
      ensures Valid() && old(history) <= history && old(nativeFrames) <= nativeFrames
      ensures old(emit.latched) ==> emit.latched
      ensures forall k | k in nativeFrames && k !in old(nativeFrames) ::
                (args && k == ToolKey(ToolArgs, call))
                    || (finished && (k == ToolKey(ToolEnd, call) || k == ToolKey(ToolResult, call)))
      ensures old(emit.Faithful()) && !emit.latched && args ==> ToolKey(ToolArgs, call) in nativeFrames
      ensures old(emit.Faithful()) && !emit.latched && finished ==>
                ToolKey(ToolEnd, call) in nativeFrames && ToolKey(ToolResult, call) in nativeFrames
    {
      if args {
        var _ := DeliverNative(ToolKey(ToolArgs, call), emit);
      }
      if finished {
        var _ := DeliverNative(ToolKey(ToolEnd, call), emit);
        var _ := DeliverNative(ToolKey(ToolResult, call), emit);
      }
    }

    /** emitTransientBlock: a live chunk, under a key of its own. */
    method EmitTransientBlock(message: ID, correlated: bool, chunk: Chunk)
      requires Valid()
      modifies this`nativeFrames, this`history, this`textOpen, this`reasoning, this`terminated, this`liveErr,
          this`ordinal, this`streamed, emit
      ensures Valid() && old(history) <= history
      ensures !correlated ==> history == old(history) && ordinal == old(ordinal)
      ensures streamed == old(streamed) || (streamed == old(streamed) + {message} && chunk.Native?)
      ensures correlated ==> ordinal == old(ordinal) + 1 && (chunk.Broken? ==> liveErr)
      ensures correlated && chunk.Native? ==>
                var key := Key(OtherFrame(chunk.kind), message, ordinal);
                || nativeFrames == old(nativeFrames)
                || (nativeFrames == old(nativeFrames) + {key} && history == old(history) + [Direct(key)]
                   && message in streamed)
      ensures correlated && chunk.Native? && old(emit.Faithful()) && !emit.latched ==>
                Key(OtherFrame(chunk.kind), message, ordinal) in nativeFrames
    {
      if !correlated {
        return;
      }
      ordinal := ordinal + 1;
      match chunk
      case NoNative =>
      case Broken => Fail();
      case Native(kind) =>
        var key := Key(OtherFrame(kind), message, ordinal);
        if key !in nativeFrames {
          var ok := emit.Write();
          if ok {
            Extend(history, Direct(key));
            nativeFrames, history, streamed := nativeFrames + {key}, history + [Direct(key)], streamed + {message};
          }
        }
    }

    /** emitMessageDelta: a message already projected on this connection is stale. */
    method EmitMessageDelta(message: ID, correlated: bool, chunks: seq<Chunk>)
      requires Valid()
      modifies this`nativeFrames, this`history, this`textOpen, this`reasoning, this`terminated, this`liveErr,
          this`ordinal, this`streamed, emit
      ensures Valid() && old(history) <= history
      ensures message in projected ==> history == old(history)
    {
      if message in projected {
        return;
      }
      for i := 0 to |chunks|
        invariant Valid() && old(history) <= history
      {
        EmitTransientBlock(message, correlated, chunks[i]);
      }
    }

    /** EmitCommittedProjection: the native frames are registered only when the projection
        brought them and the emitter accepted it. */
    method EmitCommittedProjection(keys: set<Key>, continuation: bool) returns (ok: bool)
      requires Valid()
      modifies this`nativeFrames, this`history, emit
      ensures Valid() && old(history) <= history && Terminals(history) == Terminals(old(history))
      ensures var custom := continuation || (keys != {} && keys <= old(nativeFrames));
              && nativeFrames == old(nativeFrames) + (if ok && !custom then keys else {})
              && history == old(history) + (if !ok then [] else if custom then [Plain] else [Projected(keys)])
      ensures old(emit.Faithful()) && !emit.latched ==> ok
    {
      var custom := continuation;
      if !custom && keys != {} && keys <= nativeFrames {
        custom := true;
      }
      ok := emit.Write();
      if ok {
        var act := if custom then Plain else Projected(keys);
        Extend(history, act);
        history := history + [act];
        if !custom {
          nativeFrames := nativeFrames + keys;
        }
      }
    }

    /** emitLiveMessageCommitted: each message is projected at most once per connection. */
    method CommitMessage(message: ID, reload: Reload)
      requires Valid()
      modifies this`nativeFrames, this`history, this`projected, this`liveErr, this`misses, emit
      ensures Valid() && old(history) <= history && Terminals(history) == Terminals(old(history))
      ensures message == NO_ID || message in old(projected) ==>
                history == old(history) && projected == old(projected) && misses == old(misses)
      ensures old(projected) <= projected <= old(projected) + {message}
      ensures message in projected - old(projected) ==> reload.Visible? && |history| == |old(history)| + 1
      ensures message != NO_ID && reload.Visible? && old(emit.Faithful()) && !emit.latched ==> message in projected
      ensures misses == old(misses) + if message != NO_ID && message !in old(projected) && reload.NotVisible? then 1
                else 0
    {
      if message == NO_ID || message in projected {
        return;
      }
      match reload
      case ReloadFails => liveErr := true;
      case NotVisible => misses := misses + 1;
      case Visible(keys) =>
        var ok := EmitCommittedProjection(keys, message in streamed);
        if ok {
          projected := projected + {message};
        }
    }

    /** Everything that can happen to a connection: an event, a snapshot projection of replay,
        or a call of the host. */
    method Handle(input: Input)
      requires Valid()
      modifies this, emit
      ensures Valid() && old(history) <= history
      ensures input.RunFinished? ==> terminated
      ensures input.Lifecycle? && !input.valid ==> liveErr
      ensures (input.Lifecycle? && !input.valid) || input.ErrorCall? ==> terminated || emit.latched
      ensures input.MessageDelta? && input.message in old(projected) ==> history == old(history)
      ensures input.HistoricalRecord?
                || (old(terminated) && (input.RunFinished? || input.ErrorCall? || input.Terminate?)) ==>
                   history == old(history)
    {
      match input
      case RunStarted =>
        var _ := WritePlain(emit);
      case MessageDelta(message, correlated, chunks) => EmitMessageDelta(message, correlated, chunks);
      case ToolCallUpdated(update) => UpdateToolCall(update);
      case MessageCommitted(message, reload) => CommitMessage(message, reload);
      case Lifecycle(valid) =>
        if valid {
          var ok := WritePlain(emit);
          if !ok && emit.latched {
            liveErr := true;
          }
        } else {
          Fail();
        }
      case HistoricalRecord =>
      case RunFinished => FinishRun();
      case Snapshot(message, keys) =>
        var ok := EmitCommittedProjection(keys, false);
        if ok {
          projected := projected + {message};
        }
      case Terminate(benign, script) =>
        var fallback := new Emitter(script);
        var _ := TerminateStream(benign, fallback);
      case ErrorCall =>
        var _ := EmitTerminalError();
      case OtherCall =>
        var _ := WritePlain(emit);
    }
  }

  function CallOf(u: ToolUpdate): ID {
    if u.recordCall != NO_ID then u.recordCall else u.payloadCall
  }

  ghost predicate AtMostOneTerminal(history: seq<Act>) {
    forall i, j | 0 <= i < j < |history| && history[i] == Terminal :: history[j] != Terminal
  }

  lemma {:induction false} TerminalsCount(history: seq<Act>)
    requires Terminals(history) <= 1
    ensures AtMostOneTerminal(history)
    ensures Terminals(history) == 0 ==> Terminal !in history
  {
    if history != [] {
      var n := |history| - 1;
      TerminalsCount(history[..n]);
      forall i, j | 0 <= i < j < |history| && history[i] == Terminal ensures history[j] != Terminal {
        assert history[i] == history[..n][i];
        if j < n {
          assert history[j] == history[..n][j];
        } else {
          assert history[..n][i] in history[..n];
        }
      }
    }
  }

  /** Over every sequence of events and calls, and whatever the emitters do: at most one
      terminal frame, and a lawful history of direct writes. */
  method Run(script: seq<Outcome>, textOpen: set<ID>, reasoning: map<ID, ID>, inputs: seq<Input>)
    returns (history: seq<Act>)
    ensures Lawful(history) && AtMostOneTerminal(history)
  {
    var c := new Connection(script, textOpen, reasoning);
    for i := 0 to |inputs|
      invariant c.Valid() && fresh(c) && fresh(c.emit)
    {
      c.Handle(inputs[i]);
    }
    history := c.history;
    TerminalsCount(history);
  }
}
