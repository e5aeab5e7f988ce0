/** Tracing a rewritten message list back to its durable baseline
    (runtime/adk_middleware_recipes.go, correlateDurableSubsequence). */
module Correlation {
  import opened Options
  import opened Selections

  /** A projected message: its address this cycle, and what a deep comparison sees. */
  datatype Msg = Msg(ptr: nat, content: string)

  /** A baseline slot: the durable id ("" if there is none) and the message's content. */
  datatype Slot = Slot(id: string, content: string)

  /** Pass 1's lookup: an absent or empty id is no id. */
  function PointerID(source: map<nat, string>, m: Msg): Option<string> {
    if m.ptr in source && source[m.ptr] != "" then Some(source[m.ptr]) else None
  }

  /** baselineIndexByID: the last slot that carries a non-empty id. */
  function SlotOfID(baseline: seq<Slot>, id: string): Option<nat> {
    if baseline == [] || id == "" then None
    else if baseline[|baseline| - 1].id == id then Some(|baseline| - 1)
    else SlotOfID(baseline[..|baseline| - 1], id)
  }

  /** The slots pass 1 has consumed after n messages. */
  function PointerSlots(ms: seq<Msg>, source: map<nat, string>, baseline: seq<Slot>, n: nat): set<nat>
    requires n <= |ms|
  {
    if n == 0 then {}
    else
      var id := PointerID(source, ms[n - 1]);
      var slot := if id.Some? then SlotOfID(baseline, id.value) else None;
      PointerSlots(ms, source, baseline, n - 1) + if slot.Some? then {slot.value} else {}
  }

  /** Pass 2 after n messages: the slots given out by content, and the moving cursor. */
  datatype Fallback = Fallback(slots: map<nat, nat>, consumed: set<nat>, cursor: nat)

  function Advance(consumed: set<nat>, cursor: nat, limit: nat): (c: nat)
    requires cursor <= limit
    ensures cursor <= c <= limit && (c < limit ==> c !in consumed) && forall k | cursor <= k < c :: k in consumed
    decreases limit - cursor
  {
    if cursor < limit && cursor in consumed then Advance(consumed, cursor + 1, limit) else cursor
  }

  function Pass2(ms: seq<Msg>, source: map<nat, string>, baseline: seq<Slot>, n: nat): (f: Fallback)
    requires n <= |ms|
    ensures f.cursor <= |baseline| && forall i | i in f.slots :: i < n && f.slots[i] < |baseline|
  {
    if n == 0 then Fallback(map[], PointerSlots(ms, source, baseline, |ms|), 0)
    else
      var f := Pass2(ms, source, baseline, n - 1);
      if PointerID(source, ms[n - 1]).Some? then f
      else
        var c := Advance(f.consumed, f.cursor, |baseline|);
        if c < |baseline| && ms[n - 1].content == baseline[c].content
        then Fallback(f.slots[n - 1 := c], f.consumed + {c}, c + 1)
        else f.(cursor := c)
  }

  /** The durable id found for message i, if one was. */
  function TagAt(ms: seq<Msg>, source: map<nat, string>, baseline: seq<Slot>, f: Fallback, i: nat): Option<string>
    requires i < |ms| && (i in f.slots ==> f.slots[i] < |baseline|)
  {
    if PointerID(source, ms[i]).Some? then PointerID(source, ms[i])
    else if i in f.slots then Some(baseline[f.slots[i]].id) else None
  }

  function Tags(ms: seq<Msg>, source: map<nat, string>, baseline: seq<Slot>, f: Fallback): (tags: seq<Option<string>>)
    requires forall i | i in f.slots :: f.slots[i] < |baseline|
    ensures |tags| == |ms| && forall i | 0 <= i < |ms| :: tags[i] == TagAt(ms, source, baseline, f, i)
  {
    seq(|ms|, i requires 0 <= i < |ms| => TagAt(ms, source, baseline, f, i))
  }

  /** The outcome: a tag per message, or None when a baseline slot was left unclaimed. */
  function Correlate(ms: seq<Msg>, source: map<nat, string>, baseline: seq<Slot>): Option<seq<Option<string>>> {
    var f := Pass2(ms, source, baseline, |ms|);
    if forall k | 0 <= k < |baseline| :: k in f.consumed then Some(Tags(ms, source, baseline, f)) else None
  }

  // ----- the code

  method IndexByID(baseline: seq<Slot>) returns (index: map<string, nat>)
    ensures forall id :: SlotOfID(baseline, id) == if id in index then Some(index[id]) else None
    ensures forall id | id in index :: index[id] < |baseline|
  {
    index := map[];
    for k := 0 to |baseline|
      invariant forall id :: SlotOfID(baseline[..k], id) == if id in index then Some(index[id]) else None
      invariant forall id | id in index :: index[id] < k
    {
      assert baseline[..k + 1][..k] == baseline[..k];
      if baseline[k].id != "" {
        index := index[baseline[k].id := k];
      }
    }
    assert baseline[..|baseline|] == baseline;
  }

  /** Pass 1: what the pointers alone consume. */
  method PointerPass(ms: seq<Msg>, source: map<nat, string>, baseline: seq<Slot>) returns (consumed: seq<bool>)
    ensures |consumed| == |baseline|
    ensures forall k | 0 <= k < |baseline| :: consumed[k] <==> k in PointerSlots(ms, source, baseline, |ms|)
  {
    var index := IndexByID(baseline);
    consumed := seq(|baseline|, _ => false);
    for i := 0 to |ms|
      invariant |consumed| == |baseline|
      invariant forall k | 0 <= k < |baseline| :: consumed[k] <==> k in PointerSlots(ms, source, baseline, i)
    {
      var id := PointerID(source, ms[i]);
      if id.Some? && id.value in index {
        consumed := consumed[index[id.value] := true];
      }
    }
  }

  ghost predicate SameFlags(flags: seq<bool>, s: set<nat>) {
    forall k | 0 <= k < |flags| :: flags[k] <==> k in s
  }

  /** One turn of pass 2: move the cursor over consumed slots, then compare. */
  method FallbackStep(m: Msg, baseline: seq<Slot>, consumed: seq<bool>, cursor: nat, ghost f: Fallback)
    returns (hit: bool, c: nat, consumed': seq<bool>)
    requires |consumed| == |baseline| && cursor == f.cursor <= |baseline| && SameFlags(consumed, f.consumed)
    ensures c == Advance(f.consumed, f.cursor, |baseline|)
    ensures hit <==> c < |baseline| && m.content == baseline[c].content
    ensures |consumed'| == |baseline| && SameFlags(consumed', if hit then f.consumed + {c} else f.consumed)
  {
    c := cursor;
    while c < |baseline| && consumed[c]
      invariant cursor <= c <= |baseline|
      invariant Advance(f.consumed, c, |baseline|) == Advance(f.consumed, f.cursor, |baseline|)
    {
      c := c + 1;
    }
    hit := c < |baseline| && m.content == baseline[c].content;
    consumed' := if hit then consumed[c := true] else consumed;
  }

  /** Pass 2 over the messages the pointers did not resolve. */
  method FallbackPass(ms: seq<Msg>, source: map<nat, string>, baseline: seq<Slot>)
    returns (slots: map<nat, nat>, ok: bool)
    ensures slots == Pass2(ms, source, baseline, |ms|).slots
    ensures ok <==> forall k | 0 <= k < |baseline| :: k in Pass2(ms, source, baseline, |ms|).consumed
  {
    var consumed := PointerPass(ms, source, baseline);
    var cursor: nat := 0;
    slots := map[];
    for i := 0 to |ms|
      invariant |consumed| == |baseline|
      invariant var f := Pass2(ms, source, baseline, i);
                cursor == f.cursor && slots == f.slots && SameFlags(consumed, f.consumed)
    {
      if PointerID(source, ms[i]).None? {
        var hit, c, consumed' := FallbackStep(ms[i], baseline, consumed, cursor, Pass2(ms, source, baseline, i));
        consumed := consumed';
        if hit {
          slots := slots[i := c];
          cursor := c + 1;
        } else {
          cursor := c;
        }
      }
    }
    ok := true;
    for k := 0 to |baseline|
      invariant ok <==> forall j | 0 <= j < k :: consumed[j]
    {
      if !consumed[k] {
        ok := false;
      }
    }
  }

  /** correlateDurableSubsequence: the source ids ("" where there is none), and the tagged
      positions in ascending order. */
  method CorrelateDurableSubsequence(ms: seq<Msg>, source: map<nat, string>, baseline: seq<Slot>)
    returns (ok: bool, ids: seq<string>, durable: seq<nat>)
    ensures ok <==> Correlate(ms, source, baseline).Some?
    ensures ok ==> ids == IDs(Correlate(ms, source, baseline).value)
    ensures ok ==> durable == Tagged(Correlate(ms, source, baseline).value, |ms|)
  {
    var slots;
    slots, ok := FallbackPass(ms, source, baseline);
    ids, durable :=
        CollectTags(ms, source, baseline, slots, Tags(ms, source, baseline, Pass2(ms, source, baseline, |ms|)));
  }

  /** The found ids and the positions they were found at. */
  method CollectTags(ms: seq<Msg>, source: map<nat, string>, baseline: seq<Slot>, slots: map<nat, nat>,
                     ghost tags: seq<Option<string>>)
    returns (ids: seq<string>, durable: seq<nat>)
    requires |tags| == |ms| && forall i | i in slots :: slots[i] < |baseline|
    requires forall i: nat | i < |ms| ::
               tags[i] == if PointerID(source, ms[i]).Some? then PointerID(source, ms[i])
                          else if i in slots then Some(baseline[slots[i]].id) else None
    ensures ids == IDs(tags) && durable == Tagged(tags, |tags|)
  {
    ids, durable := [], [];
    for i := 0 to |ms|
      invariant ids == IDs(tags)[..i] && durable == Tagged(tags, i)
    {
      var id := PointerID(source, ms[i]);
      if id.Some? {
        ids, durable := ids + [id.value], durable + [i];
      } else if i in slots {
        ids, durable := ids + [baseline[slots[i]].id], durable + [i];
      } else {
        ids := ids + [""];
      }
    }
  }

  function IDs(tags: seq<Option<string>>): seq<string> {
    seq(|tags|, i requires 0 <= i < |tags| => if tags[i].Some? then tags[i].value else "")
  }

  function Tagged(tags: seq<Option<string>>, n: nat): (r: seq<nat>)
    requires n <= |tags|
    ensures forall k | 0 <= k < |r| :: r[k] < n && tags[r[k]].Some?
  {
    if n == 0 then [] else Tagged(tags, n - 1) + if tags[n - 1].Some? then [n - 1] else []
  }

  // ----- what a successful correlation is

  /** Ids name slots, and pointers name ids: one message, one slot. */
  ghost predicate DistinctBaseline(baseline: seq<Slot>) {
    && (forall k | 0 <= k < |baseline| :: baseline[k].id != "")
    && (forall j, k | 0 <= j < k < |baseline| :: baseline[j].id != baseline[k].id)
  }

  ghost predicate DistinctPointers(ms: seq<Msg>) {
    forall i, j | 0 <= i < j < |ms| :: ms[i].ptr != ms[j].ptr
  }

  /** The cycle's pointer map: every entry leads to a baseline id, each id from one pointer. */
  ghost predicate SourceFor(source: map<nat, string>, baseline: seq<Slot>) {
    && (forall p | p in source :: exists k :: 0 <= k < |baseline| && baseline[k].id == source[p])
    && (forall p, q | p in source && q in source && p != q :: source[p] != source[q])
  }

  lemma {:induction false} SlotOfIDExact(baseline: seq<Slot>, k: nat)
    requires DistinctBaseline(baseline) && k < |baseline|
    ensures SlotOfID(baseline, baseline[k].id) == Some(k)
  {
    if k < |baseline| - 1 {
      SlotOfIDExact(baseline[..|baseline| - 1], k);
    }
  }

  lemma {:induction false} SlotInRange(baseline: seq<Slot>, id: string)
    ensures SlotOfID(baseline, id).Some? ==>
              SlotOfID(baseline, id).value < |baseline| && baseline[SlotOfID(baseline, id).value].id == id
  {
    if baseline != [] {
      SlotInRange(baseline[..|baseline| - 1], id);
    }
  }

  lemma {:induction false} InPointerSlots(ms: seq<Msg>, source: map<nat, string>, baseline: seq<Slot>, n: nat, k: nat)
    requires n <= |ms| && DistinctBaseline(baseline)
    ensures k in PointerSlots(ms, source, baseline, n) <==>
              k < |baseline| && exists i :: 0 <= i < n && PointerID(source, ms[i]) == Some(baseline[k].id)
  {
    if n > 0 {
      InPointerSlots(ms, source, baseline, n - 1, k);
      var id := PointerID(source, ms[n - 1]);
      if id.Some? {
        SlotInRange(baseline, id.value);
        if k < |baseline| && id.value == baseline[k].id {
          SlotOfIDExact(baseline, k);
        }
      }
    }
  }

  ghost predicate GivenOut(slots: map<nat, nat>, k: nat) {
    exists i :: i in slots && slots[i] == k
  }

  /** Pass 2 gives each slot out once, only slots no pointer claimed, and only on equal content. */
  ghost predicate FallbackOk(ms: seq<Msg>, source: map<nat, string>, baseline: seq<Slot>, f: Fallback) {
    var p := PointerSlots(ms, source, baseline, |ms|);
    && (forall i | i in f.slots :: i < |ms| && f.slots[i] < |baseline| && f.slots[i] !in p)
    && (forall i | i in f.slots :: PointerID(source, ms[i]).None? && ms[i].content == baseline[f.slots[i]].content)
    && (forall i, j | i in f.slots && j in f.slots && i != j :: f.slots[i] != f.slots[j])
    && (forall k :: k in f.consumed <==> k in p || GivenOut(f.slots, k))
  }

  lemma {:induction false} Pass2Facts(ms: seq<Msg>, source: map<nat, string>, baseline: seq<Slot>, n: nat)
    requires n <= |ms|
    ensures FallbackOk(ms, source, baseline, Pass2(ms, source, baseline, n))
  {
    if n > 0 {
      Pass2Facts(ms, source, baseline, n - 1);
      var f := Pass2(ms, source, baseline, n - 1);
      var c := Advance(f.consumed, f.cursor, |baseline|);
      if PointerID(source, ms[n - 1]).None? && c < |baseline| && ms[n - 1].content == baseline[c].content {
        GiveOut(ms, source, baseline, f, n - 1, c);
      }
    }
  }

  lemma GivenOutUpdate(slots: map<nat, nat>, i: nat, c: nat, k: nat)
    requires i !in slots
    ensures GivenOut(slots[i := c], k) <==> k == c || GivenOut(slots, k)
  {
    var slots' := slots[i := c];
    assert slots'[i] == c;
    if GivenOut(slots, k) {
      var j :| j in slots && slots[j] == k;
      assert slots'[j] == k;
    }
  }

  lemma GiveOut(ms: seq<Msg>, source: map<nat, string>, baseline: seq<Slot>, f: Fallback, i: nat, c: nat)
    requires FallbackOk(ms, source, baseline, f) && i < |ms| && PointerID(source, ms[i]).None? && i !in f.slots
    requires c < |baseline| && c !in f.consumed && ms[i].content == baseline[c].content
    ensures FallbackOk(ms, source, baseline, Fallback(f.slots[i := c], f.consumed + {c}, c + 1))
  {
    var g := Fallback(f.slots[i := c], f.consumed + {c}, c + 1);
    assert !GivenOut(f.slots, c);
    forall k ensures k in g.consumed <==> k in PointerSlots(ms, source, baseline, |ms|) || GivenOut(g.slots, k) {
      GivenOutUpdate(f.slots, i, c, k);
    }
  }

  /** Message i is tagged with slot k, by its pointer or by its content. */
  ghost predicate Claims(ms: seq<Msg>, source: map<nat, string>, baseline: seq<Slot>, tags: seq<Option<string>>,
                         i: int, k: int) {
    && 0 <= i < |ms| == |tags| && 0 <= k < |baseline| && tags[i] == Some(baseline[k].id)
    && (PointerID(source, ms[i]) == tags[i] || (PointerID(source, ms[i]).None? && ms[i].content == baseline[k].content))
  }

  ghost predicate SlotClaimed(ms: seq<Msg>, source: map<nat, string>, baseline: seq<Slot>, tags: seq<Option<string>>,
                              k: int) {
    exists i :: Claims(ms, source, baseline, tags, i, k)
  }

  ghost predicate TagClaims(ms: seq<Msg>, source: map<nat, string>, baseline: seq<Slot>, tags: seq<Option<string>>,
                            i: int) {
    exists k :: Claims(ms, source, baseline, tags, i, k)
  }

  lemma TagLeadsToSlot(ms: seq<Msg>, source: map<nat, string>, baseline: seq<Slot>, tags: seq<Option<string>>, i: nat)
    requires SourceFor(source, baseline) && Correlate(ms, source, baseline) == Some(tags) && i < |ms| && tags[i].Some?
    ensures TagClaims(ms, source, baseline, tags, i)
  {
    var f := Pass2(ms, source, baseline, |ms|);
    Pass2Facts(ms, source, baseline, |ms|);
    if PointerID(source, ms[i]).Some? {
      var k :| 0 <= k < |baseline| && baseline[k].id == source[ms[i].ptr];
      assert Claims(ms, source, baseline, tags, i, k);
    } else {
      assert Claims(ms, source, baseline, tags, i, f.slots[i]);
    }
  }

  lemma SlotIsClaimed(ms: seq<Msg>, source: map<nat, string>, baseline: seq<Slot>, tags: seq<Option<string>>, k: nat)
    requires DistinctBaseline(baseline) && Correlate(ms, source, baseline) == Some(tags) && k < |baseline|
    ensures SlotClaimed(ms, source, baseline, tags, k)
  {
    var f := Pass2(ms, source, baseline, |ms|);
    Pass2Facts(ms, source, baseline, |ms|);
    InPointerSlots(ms, source, baseline, |ms|, k);
    if k in PointerSlots(ms, source, baseline, |ms|) {
      var i :| 0 <= i < |ms| && PointerID(source, ms[i]) == Some(baseline[k].id);
      assert Claims(ms, source, baseline, tags, i, k);
    } else {
      var i :| i in f.slots && f.slots[i] == k;
      assert Claims(ms, source, baseline, tags, i, k);
    }
  }

  /** A successful correlation is a bijection between the tagged messages and the baseline
      slots: every slot is claimed, nothing claims two, and no slot is claimed twice. */
  lemma CorrelationIsBijection(ms: seq<Msg>, source: map<nat, string>, baseline: seq<Slot>, tags: seq<Option<string>>)
    requires DistinctBaseline(baseline) && DistinctPointers(ms) && SourceFor(source, baseline)
    requires Correlate(ms, source, baseline) == Some(tags)
    ensures |tags| == |ms|
    ensures forall i | 0 <= i < |ms| && tags[i].Some? :: TagClaims(ms, source, baseline, tags, i)
    ensures forall k | 0 <= k < |baseline| :: SlotClaimed(ms, source, baseline, tags, k)
    ensures forall i, j | 0 <= i < j < |ms| && tags[i].Some? :: tags[i] != tags[j]
  {
    forall i | 0 <= i < |ms| && tags[i].Some? ensures TagClaims(ms, source, baseline, tags, i) {
      TagLeadsToSlot(ms, source, baseline, tags, i);
    }
    forall k | 0 <= k < |baseline| ensures SlotClaimed(ms, source, baseline, tags, k) {
      SlotIsClaimed(ms, source, baseline, tags, k);
    }
    forall i, j | 0 <= i < j < |ms| && tags[i].Some? ensures tags[i] != tags[j] {
      TagsDiffer(ms, source, baseline, tags, i, j);
    }
  }

  lemma TagsDiffer(ms: seq<Msg>, source: map<nat, string>, baseline: seq<Slot>, tags: seq<Option<string>>, i: nat,
                   j: nat)
    requires DistinctBaseline(baseline) && DistinctPointers(ms) && SourceFor(source, baseline)
    requires Correlate(ms, source, baseline) == Some(tags) && i < j < |ms| && tags[i].Some?
    ensures tags[i] != tags[j]
  {
    var f := Pass2(ms, source, baseline, |ms|);
    Pass2Facts(ms, source, baseline, |ms|);
    if PointerID(source, ms[i]).None? {
      InPointerSlots(ms, source, baseline, |ms|, f.slots[i]);
    }
    if PointerID(source, ms[j]).None? && j in f.slots {
      InPointerSlots(ms, source, baseline, |ms|, f.slots[j]);
    }
  }

  // ----- when correlation must succeed

  /** The projection is the baseline in order, at positions e, each message kept under its own
      pointer or cloned; whatever else was inserted has no durable id of its own. */
  ghost predicate Aligned(ms: seq<Msg>, source: map<nat, string>, baseline: seq<Slot>, e: seq<nat>) {
    && DistinctBaseline(baseline) && |e| == |baseline|
    && Increasing(e)
    && (forall k | 0 <= k < |e| :: e[k] < |ms| && ms[e[k]].content == baseline[k].content)
    && (forall k | 0 <= k < |e| ::
       PointerID(source, ms[e[k]]).None? || PointerID(source, ms[e[k]]) == Some(baseline[k].id))
    && (forall i | 0 <= i < |ms| && i !in e :: PointerID(source, ms[i]).None?)
  }

  /** The messages at e, and no others, carry the baseline ids in order. */
  ghost predicate TagsAre(baseline: seq<Slot>, e: seq<nat>, tags: seq<Option<string>>) {
    && |e| == |baseline|
    && (forall k | 0 <= k < |e| :: e[k] < |tags| && tags[e[k]] == Some(baseline[k].id))
    && (forall i | 0 <= i < |tags| && i !in e :: tags[i].None?)
  }

  /** Slot k's message is a clone that pass 2 reaches only at message n or later. */
  ghost predicate Pending(ms: seq<Msg>, source: map<nat, string>, e: seq<nat>, n: nat, k: int) {
    0 <= k < |e| && n <= e[k] < |ms| && PointerID(source, ms[e[k]]).None?
  }

  /** The slot that pass 2 is looking for when it reaches message n. */
  ghost predicate FirstPending(ms: seq<Msg>, source: map<nat, string>, e: seq<nat>, n: nat, k: int) {
    Pending(ms, source, e, n, k) && forall j | 0 <= j < k :: !Pending(ms, source, e, n, j)
  }

  /** Message i was inserted, and has the content of the slot pass 2 is looking for. */
  ghost predicate Steals(ms: seq<Msg>, source: map<nat, string>, baseline: seq<Slot>, e: seq<nat>, i: nat, k: int) {
    i < |ms| && i !in e && 0 <= k < |baseline| && FirstPending(ms, source, e, i, k)
        && ms[i].content == baseline[k].content
  }

  /** No message before n steals a slot. */
  ghost predicate Unstolen(ms: seq<Msg>, source: map<nat, string>, baseline: seq<Slot>, e: seq<nat>, n: nat) {
    forall i: nat, k | i < n :: !Steals(ms, source, baseline, e, i, k)
  }

  /** Where pass 2 stands after n messages while nothing is stolen: the consumed slots are
      those whose message is kept or already passed, and the cursor has skipped no other. */
  ghost predicate OnTrack(ms: seq<Msg>, source: map<nat, string>, e: seq<nat>, n: nat, consumed: set<nat>,
                          cursor: nat) {
    && cursor <= |e|
    && (forall k: nat | k < |e| :: k in consumed <==> !Pending(ms, source, e, n, k))
    && (forall k: nat | k < cursor :: k in consumed)
  }

  /** Message n is the clone of slot k: the cursor stops at k. */
  lemma CloneStep(ms: seq<Msg>, source: map<nat, string>, e: seq<nat>, n: nat, f: Fallback, k: nat)
    requires Increasing(e) && OnTrack(ms, source, e, n, f.consumed, f.cursor)
    requires Pending(ms, source, e, n, k) && e[k] == n
    ensures Advance(f.consumed, f.cursor, |e|) == k
    ensures OnTrack(ms, source, e, n + 1, f.consumed + {k}, k + 1)
  {
    assert k !in f.consumed;
    forall j: nat | j < k ensures j in f.consumed {
      assert e[j] < e[k];
    }
    forall j: nat | j < |e| ensures Pending(ms, source, e, n + 1, j) <==> j != k && Pending(ms, source, e, n, j) {
      assert j < k ==> e[j] < e[k];
      assert j > k ==> e[k] < e[j];
    }
  }

  /** Message n is kept, or was inserted: nothing is given out. */
  lemma OtherStep(ms: seq<Msg>, source: map<nat, string>, e: seq<nat>, n: nat, f: Fallback)
    requires OnTrack(ms, source, e, n, f.consumed, f.cursor)
    requires forall k: nat | k < |e| && Pending(ms, source, e, n, k) :: e[k] != n
    ensures OnTrack(ms, source, e, n + 1, f.consumed, f.cursor)
    ensures OnTrack(ms, source, e, n + 1, f.consumed, Advance(f.consumed, f.cursor, |e|))
  {
    forall k: nat | k < |e| ensures Pending(ms, source, e, n + 1, k) <==> Pending(ms, source, e, n, k) {
    }
  }

  lemma {:induction false} StartOnTrack(ms: seq<Msg>, source: map<nat, string>, baseline: seq<Slot>, e: seq<nat>)
    requires Aligned(ms, source, baseline, e)
    ensures OnTrack(ms, source, e, 0, PointerSlots(ms, source, baseline, |ms|), 0)
  {
    forall k: nat | k < |e| ensures k in PointerSlots(ms, source, baseline, |ms|) <==> !Pending(ms, source, e, 0, k) {
      InPointerSlots(ms, source, baseline, |ms|, k);
      assert e[k] < |ms|;
      if k in PointerSlots(ms, source, baseline, |ms|) {
        var i :| 0 <= i < |ms| && PointerID(source, ms[i]) == Some(baseline[k].id);
        KeptAtItsPlace(ms, source, baseline, e, i, k);
      }
    }
  }

  lemma KeptAtItsPlace(ms: seq<Msg>, source: map<nat, string>, baseline: seq<Slot>, e: seq<nat>, i: nat, k: nat)
    requires Aligned(ms, source, baseline, e) && i < |ms| && k < |e| && PointerID(source, ms[i]) == Some(baseline[k].id)
    ensures e[k] == i
  {
    assert i in e;
    var j :| 0 <= j < |e| && e[j] == i;
    assert baseline[j].id == baseline[k].id;
  }

  /** What pass 2 gives out at message n: its own slot to a clone, nothing to any other. */
  ghost predicate OwnSlot(ms: seq<Msg>, source: map<nat, string>, e: seq<nat>, n: nat, slots: map<nat, nat>) {
    && (forall k | Pending(ms, source, e, n, k) && e[k] == n :: n in slots && slots[n] == k)
    && (n in slots ==> n in e)
  }

  /** Skipping consumed slots leads to the first pending one, if any is left. */
  lemma AdvanceToPending(ms: seq<Msg>, source: map<nat, string>, e: seq<nat>, n: nat, f: Fallback)
    requires OnTrack(ms, source, e, n, f.consumed, f.cursor)
    ensures var c := Advance(f.consumed, f.cursor, |e|);
            (c < |e| ==> FirstPending(ms, source, e, n, c)) && forall k | FirstPending(ms, source, e, n, k) :: k == c
  {
    var c := Advance(f.consumed, f.cursor, |e|);
    forall j: nat | j < c ensures !Pending(ms, source, e, n, j) {
      assert j in f.consumed;
    }
    if c < |e| {
      assert c !in f.consumed;
    }
  }

  lemma {:induction false} StepOnTrack(ms: seq<Msg>, source: map<nat, string>, baseline: seq<Slot>, e: seq<nat>, n: nat)
    requires Aligned(ms, source, baseline, e) && n < |ms| && forall k :: !Steals(ms, source, baseline, e, n, k)
    requires var f := Pass2(ms, source, baseline, n); OnTrack(ms, source, e, n, f.consumed, f.cursor)
    ensures var f := Pass2(ms, source, baseline, n + 1); OnTrack(ms, source, e, n + 1, f.consumed, f.cursor)
    ensures OwnSlot(ms, source, e, n, Pass2(ms, source, baseline, n + 1).slots)
  {
    var f := Pass2(ms, source, baseline, n);
    if k: nat :| Pending(ms, source, e, n, k) && e[k] == n {
      CloneOnTrack(ms, source, baseline, e, n, k);
    } else if PointerID(source, ms[n]).Some? {
      OtherStep(ms, source, e, n, f);
    } else {
      NotACopy(ms, source, baseline, e, n);
      AdvanceToPending(ms, source, e, n, f);
      assert !Steals(ms, source, baseline, e, n, Advance(f.consumed, f.cursor, |e|));
      OtherStep(ms, source, e, n, f);
    }
  }

  /** A message without a pointer that is no pending clone was inserted. */
  lemma NotACopy(ms: seq<Msg>, source: map<nat, string>, baseline: seq<Slot>, e: seq<nat>, n: nat)
    requires Aligned(ms, source, baseline, e) && n < |ms| && PointerID(source, ms[n]).None?
    requires forall k: nat | Pending(ms, source, e, n, k) :: e[k] != n
    ensures n !in e
  {
    forall k | 0 <= k < |e| ensures e[k] != n {
      assert e[k] == n ==> Pending(ms, source, e, n, k);
    }
  }

  lemma {:induction false} CloneOnTrack(ms: seq<Msg>, source: map<nat, string>, baseline: seq<Slot>, e: seq<nat>,
                                        n: nat, k: nat)
    requires Aligned(ms, source, baseline, e) && n < |ms| && Pending(ms, source, e, n, k) && e[k] == n
    requires var f := Pass2(ms, source, baseline, n); OnTrack(ms, source, e, n, f.consumed, f.cursor)
    ensures var f := Pass2(ms, source, baseline, n + 1); OnTrack(ms, source, e, n + 1, f.consumed, f.cursor)
    ensures OwnSlot(ms, source, e, n, Pass2(ms, source, baseline, n + 1).slots)
  {
    var f := Pass2(ms, source, baseline, n);
    CloneStep(ms, source, e, n, f, k);
    assert ms[n].content == baseline[k].content && PointerID(source, ms[n]).None?;
    Pass2Hit(ms, source, baseline, n, k);
    forall j: nat | Pending(ms, source, e, n, j) && e[j] == n ensures j == k {
      SamePlace(e, j, k);
    }
  }

  lemma {:induction false} Pass2Hit(ms: seq<Msg>, source: map<nat, string>, baseline: seq<Slot>, n: nat, k: nat)
    requires n < |ms| && k < |baseline| && PointerID(source, ms[n]).None? && ms[n].content == baseline[k].content
    requires var f := Pass2(ms, source, baseline, n); Advance(f.consumed, f.cursor, |baseline|) == k
    ensures var f := Pass2(ms, source, baseline, n);
            Pass2(ms, source, baseline, n + 1) == Fallback(f.slots[n := k], f.consumed + {k}, k + 1)
  {
  }

  lemma SamePlace(e: seq<nat>, j: nat, k: nat)
    requires Increasing(e) && j < |e| && k < |e| && e[j] == e[k]
    ensures j == k
  {
  }

  lemma {:induction false} StaysOnTrack(ms: seq<Msg>, source: map<nat, string>, baseline: seq<Slot>, e: seq<nat>,
                                        n: nat)
    requires Aligned(ms, source, baseline, e) && n <= |ms| && Unstolen(ms, source, baseline, e, n)
    ensures var f := Pass2(ms, source, baseline, n); OnTrack(ms, source, e, n, f.consumed, f.cursor)
  {
    if n == 0 {
      StartOnTrack(ms, source, baseline, e);
    } else {
      StaysOnTrack(ms, source, baseline, e, n - 1);
      StepOnTrack(ms, source, baseline, e, n - 1);
    }
  }

  lemma {:induction false} SlotsStay(ms: seq<Msg>, source: map<nat, string>, baseline: seq<Slot>, i: nat, n: nat)
    requires i < n <= |ms|
    ensures i in Pass2(ms, source, baseline, n).slots <==> i in Pass2(ms, source, baseline, i + 1).slots
    ensures i in Pass2(ms, source, baseline, n).slots ==>
              Pass2(ms, source, baseline, n).slots[i] == Pass2(ms, source, baseline, i + 1).slots[i]
  {
    if i + 1 < n {
      SlotsStay(ms, source, baseline, i, n - 1);
    }
  }

  lemma {:induction false} OwnSlotAtEnd(ms: seq<Msg>, source: map<nat, string>, baseline: seq<Slot>, e: seq<nat>,
                                        i: nat)
    requires Aligned(ms, source, baseline, e) && i < |ms| && Unstolen(ms, source, baseline, e, |ms|)
    ensures OwnSlot(ms, source, e, i, Pass2(ms, source, baseline, |ms|).slots)
  {
    StaysOnTrack(ms, source, baseline, e, i);
    StepOnTrack(ms, source, baseline, e, i);
    SlotsStay(ms, source, baseline, i, |ms|);
  }

  /** Every kept or cloned message gets exactly its own slot. */
  ghost predicate OwnTags(ms: seq<Msg>, source: map<nat, string>, baseline: seq<Slot>, e: seq<nat>) {
    Correlate(ms, source, baseline).Some? && TagsAre(baseline, e, Correlate(ms, source, baseline).value)
  }

  lemma {:induction false} UnstolenCorrelates(ms: seq<Msg>, source: map<nat, string>, baseline: seq<Slot>, e: seq<nat>)
    requires Aligned(ms, source, baseline, e) && Unstolen(ms, source, baseline, e, |ms|)
    ensures OwnTags(ms, source, baseline, e)
  {
    StaysOnTrack(ms, source, baseline, e, |ms|);
    var f := Pass2(ms, source, baseline, |ms|);
    var tags := Tags(ms, source, baseline, f);
    forall k | 0 <= k < |e| ensures k in f.consumed && tags[e[k]] == Some(baseline[k].id) {
      OwnSlotAtEnd(ms, source, baseline, e, e[k]);
      assert !Pending(ms, source, e, |ms|, k);
      assert PointerID(source, ms[e[k]]).None? ==> Pending(ms, source, e, e[k], k);
    }
    forall i | 0 <= i < |ms| && i !in e ensures tags[i].None? {
      OwnSlotAtEnd(ms, source, baseline, e, i);
    }
  }

  /** The first thief gets the slot. */
  lemma {:induction false} ThiefIsTagged(ms: seq<Msg>, source: map<nat, string>, baseline: seq<Slot>, e: seq<nat>,
                                         i: nat, k: nat)
    requires Aligned(ms, source, baseline, e) && Unstolen(ms, source, baseline, e, i)
    requires Steals(ms, source, baseline, e, i, k)
    ensures i in Pass2(ms, source, baseline, |ms|).slots && Pass2(ms, source, baseline, |ms|).slots[i] == k
  {
    StaysOnTrack(ms, source, baseline, e, i);
    AdvanceToPending(ms, source, e, i, Pass2(ms, source, baseline, i));
    Pass2Hit(ms, source, baseline, i, k);
    SlotsStay(ms, source, baseline, i, |ms|);
  }

  lemma {:induction false} FirstThief(ms: seq<Msg>, source: map<nat, string>, baseline: seq<Slot>, e: seq<nat>, n: nat)
    returns (i: nat, k: nat)
    requires !Unstolen(ms, source, baseline, e, n)
    ensures Steals(ms, source, baseline, e, i, k) && Unstolen(ms, source, baseline, e, i)
  {
    var x: nat, y :| x < n && Steals(ms, source, baseline, e, x, y);
    if Unstolen(ms, source, baseline, e, x) {
      i, k := x, y;
    } else {
      i, k := FirstThief(ms, source, baseline, e, x);
    }
  }

  /** Every kept or cloned message gets its own slot, and no other message gets one, exactly
      when no inserted message has the content of the slot pass 2 is then looking for. */
  lemma {:induction false} OwnTagsIffUnstolen(ms: seq<Msg>, source: map<nat, string>, baseline: seq<Slot>, e: seq<nat>)
    requires Aligned(ms, source, baseline, e)
    ensures OwnTags(ms, source, baseline, e) <==> Unstolen(ms, source, baseline, e, |ms|)
  {
    if Unstolen(ms, source, baseline, e, |ms|) {
      UnstolenCorrelates(ms, source, baseline, e);
    } else {
      var i, k := FirstThief(ms, source, baseline, e, |ms|);
      ThiefIsTagged(ms, source, baseline, e, i, k);
    }
  }

  /** What the two strict passes are for: while the pointers of all baseline messages are
      intact, no inserted message can take a slot, whatever its content. */
  lemma {:induction false} KeptPointersCorrelate(ms: seq<Msg>, source: map<nat, string>, baseline: seq<Slot>,
                                                 e: seq<nat>)
    requires Aligned(ms, source, baseline, e) && forall k | 0 <= k < |e| :: PointerID(source, ms[e[k]]).Some?
    ensures OwnTags(ms, source, baseline, e)
  {
    OwnTagsIffUnstolen(ms, source, baseline, e);
  }

  /** More generally, a duplicate is harmless if the owners of its content were kept. */
  lemma {:induction false} OnlyClonesCanLose(ms: seq<Msg>, source: map<nat, string>, baseline: seq<Slot>, e: seq<nat>)
    requires Aligned(ms, source, baseline, e)
    requires forall i, k | 0 <= i < |ms| && i !in e && 0 <= k < |e| && ms[i].content == baseline[k].content ::
               PointerID(source, ms[e[k]]).Some?
    ensures OwnTags(ms, source, baseline, e)
  {
    OwnTagsIffUnstolen(ms, source, baseline, e);
  }

  /** The case that is left: once the owner's pointer is lost too, a duplicate that
      comes first takes the slot, and no error is reported. */
  lemma DuplicateTakesSlot(content: string, id: string)
    requires id != ""
    ensures var ms := [Msg(1, content), Msg(2, content)];
            Correlate(ms, map[], [Slot(id, content)]) == Some([Some(id), None])
  {
    var ms, baseline := [Msg(1, content), Msg(2, content)], [Slot(id, content)];
    assert PointerID(map[], ms[0]).None? && PointerID(map[], ms[1]).None?;
    assert PointerSlots(ms, map[], baseline, 0) == {};
    assert PointerSlots(ms, map[], baseline, 1) == {};
    assert PointerSlots(ms, map[], baseline, 2) == {};
    assert Pass2(ms, map[], baseline, 0) == Fallback(map[], {}, 0);
    assert Advance({}, 0, 1) == 0;
    Pass2Hit(ms, map[], baseline, 0, 0);
    var f := Pass2(ms, map[], baseline, 1);
    assert f == Fallback(map[0 := 0], {0}, 1);
    assert Advance(f.consumed, f.cursor, 1) == 1;
    assert Pass2(ms, map[], baseline, 2) == f;
    assert Tags(ms, map[], baseline, f) == [Some(id), None];
  }
}
