/** What correlateDurableSubsequence computes, for every input and without its passes: pointers
    claim slots, and the slots left over are matched to the earliest messages that can have
    them in order (runtime/adk_middleware_recipes.go). */
module Embedding {
  import opened Options
  import opened Correlation

  // ----- pointers, on the fields

  /** The pointer map knows message i under a non-empty id. */
  ghost predicate Known(ms: seq<Msg>, source: map<nat, string>, i: nat) {
    i < |ms| && ms[i].ptr in source && source[ms[i].ptr] != ""
  }

  /** Slot k is the last with its non-empty id, and some message is known under it. */
  ghost predicate Claimed(ms: seq<Msg>, source: map<nat, string>, baseline: seq<Slot>, k: nat) {
    && k < |baseline| && (forall l | k < l < |baseline| :: baseline[l].id != baseline[k].id)
    && exists i: nat :: Known(ms, source, i) && source[ms[i].ptr] == baseline[k].id
  }

  lemma {:induction false} SlotOfIDIff(baseline: seq<Slot>, id: string, k: nat)
    ensures SlotOfID(baseline, id) == Some(k) <==>
              id != "" && k < |baseline| && baseline[k].id == id
                && forall l | k < l < |baseline| :: baseline[l].id != id
  {
    if baseline != [] && id != "" && baseline[|baseline| - 1].id != id {
      SlotOfIDIff(baseline[..|baseline| - 1], id, k);
    }
  }

  lemma {:induction false} PointerSlotsIff(ms: seq<Msg>, source: map<nat, string>, baseline: seq<Slot>, n: nat, k: nat)
    requires n <= |ms|
    ensures k in PointerSlots(ms, source, baseline, n) <==>
              && k < |baseline| && (forall l | k < l < |baseline| :: baseline[l].id != baseline[k].id)
              && exists i: nat :: i < n && Known(ms, source, i) && source[ms[i].ptr] == baseline[k].id
  {
    if n > 0 {
      PointerSlotsIff(ms, source, baseline, n - 1, k);
      var id := PointerID(source, ms[n - 1]);
      if id.Some? {
        SlotOfIDIff(baseline, id.value, k);
        assert Known(ms, source, n - 1);
      }
    }
  }

  lemma {:induction false} ClaimedIff(ms: seq<Msg>, source: map<nat, string>, baseline: seq<Slot>)
    ensures forall k: nat :: k in PointerSlots(ms, source, baseline, |ms|) <==> Claimed(ms, source, baseline, k)
  {
    forall k: nat ensures k in PointerSlots(ms, source, baseline, |ms|) <==> Claimed(ms, source, baseline, k) {
      PointerSlotsIff(ms, source, baseline, |ms|, k);
    }
  }

  // ----- embeddings

  /** The slots that the pointers leave over. */
  ghost function Free(ms: seq<Msg>, source: map<nat, string>, baseline: seq<Slot>): set<nat> {
    set k: nat | k < |baseline| && !Claimed(ms, source, baseline, k)
  }

  /** Every left-over slot has, at e, an unknown message of its content, in order. */
  ghost predicate Embeds(ms: seq<Msg>, source: map<nat, string>, baseline: seq<Slot>, e: seq<nat>) {
    && |e| == |baseline|
    && (forall k: nat | k in Free(ms, source, baseline) :: e[k] < |ms| && !Known(ms, source, e[k])
          && ms[e[k]].content == baseline[k].content)
    && forall j: nat, k: nat | j < k && j in Free(ms, source, baseline) && k in Free(ms, source, baseline) ::
         e[j] < e[k]
  }

  /** Pass 2 in step with its cursor: of the left-over slots those before it are consumed, and
      went to messages in order. */
  ghost predicate InStep(free: set<nat>, limit: nat, f: Fallback) {
    && f.cursor <= limit
    && (forall k: nat | k in free && k < limit :: k in f.consumed <==> k < f.cursor)
    && (forall k: nat | k < limit && k !in free :: k in f.consumed)
    && (forall i, j | i in f.slots && j in f.slots && i < j :: f.slots[i] < f.slots[j])
    && (forall i | i in f.slots :: f.slots[i] < f.cursor)
  }

  lemma MissInStep(free: set<nat>, limit: nat, f: Fallback)
    requires InStep(free, limit, f)
    ensures var c := Advance(f.consumed, f.cursor, limit);
            InStep(free, limit, f.(cursor := c)) && (c < limit ==> c in free)
  {
  }

  lemma HitInStep(free: set<nat>, limit: nat, f: Fallback, i: nat)
    requires InStep(free, limit, f) && forall j | j in f.slots :: j < i
    requires Advance(f.consumed, f.cursor, limit) < limit
    ensures var c := Advance(f.consumed, f.cursor, limit);
            InStep(free, limit, Fallback(f.slots[i := c], f.consumed + {c}, c + 1))
  {
    MissInStep(free, limit, f);
  }

  lemma {:induction false} StaysInStep(ms: seq<Msg>, source: map<nat, string>, baseline: seq<Slot>, n: nat)
    requires n <= |ms|
    ensures InStep(Free(ms, source, baseline), |baseline|, Pass2(ms, source, baseline, n))
  {
    if n == 0 {
      ClaimedIff(ms, source, baseline);
    } else {
      StaysInStep(ms, source, baseline, n - 1);
      var f := Pass2(ms, source, baseline, n - 1);
      MissInStep(Free(ms, source, baseline), |baseline|, f);
      if Advance(f.consumed, f.cursor, |baseline|) < |baseline| {
        HitInStep(Free(ms, source, baseline), |baseline|, f, n - 1);
      }
    }
  }

  /** If everything left over before k is consumed, k is next. */
  lemma NextIs(free: set<nat>, limit: nat, f: Fallback, k: nat)
    requires InStep(free, limit, f) && k in free && k < limit && k !in f.consumed
    requires forall j: nat | j < k && j in free :: j in f.consumed
    ensures Advance(f.consumed, f.cursor, limit) == k
  {
  }

  /** The slots whose messages come before n are consumed. */
  ghost predicate Passed(free: set<nat>, e: seq<nat>, n: nat, consumed: set<nat>) {
    forall k: nat | k in free && k < |e| && e[k] < n :: k in consumed
  }

  lemma EmbedsAt(ms: seq<Msg>, source: map<nat, string>, baseline: seq<Slot>, e: seq<nat>, k: nat)
    requires Embeds(ms, source, baseline, e) && k in Free(ms, source, baseline)
    ensures k < |e| && e[k] < |ms| && !Known(ms, source, e[k]) && ms[e[k]].content == baseline[k].content
    ensures forall j: nat | j < k && j in Free(ms, source, baseline) :: e[j] < e[k]
  {
  }

  lemma NonePassed(free: set<nat>, e: seq<nat>, consumed: set<nat>)
    ensures Passed(free, e, 0, consumed)
  {
  }

  /** Pass 2 is never behind an embedding. */
  lemma {:induction false} NeverBehind(ms: seq<Msg>, source: map<nat, string>, baseline: seq<Slot>, e: seq<nat>, n: nat)
    requires Embeds(ms, source, baseline, e) && n <= |ms|
    ensures Passed(Free(ms, source, baseline), e, n, Pass2(ms, source, baseline, n).consumed)
  {
    if n == 0 {
      NonePassed(Free(ms, source, baseline), e, Pass2(ms, source, baseline, n).consumed);
    } else {
      NeverBehind(ms, source, baseline, e, n - 1);
      AllPassed(ms, source, baseline, e, n - 1, n);
    }
  }

  lemma {:induction false} AllPassed(ms: seq<Msg>, source: map<nat, string>, baseline: seq<Slot>, e: seq<nat>, n: nat,
                                     next: nat)
    requires Embeds(ms, source, baseline, e) && next == n + 1 <= |ms|
    requires Passed(Free(ms, source, baseline), e, n, Pass2(ms, source, baseline, n).consumed)
    ensures Passed(Free(ms, source, baseline), e, next, Pass2(ms, source, baseline, next).consumed)
  {
    var free, consumed := Free(ms, source, baseline), Pass2(ms, source, baseline, next).consumed;
    forall k: nat | k in free && k < |e| && e[k] < next ensures k in consumed {
      StillPassed(ms, source, baseline, e, n, k);
    }
  }

  lemma {:induction false} StillPassed(ms: seq<Msg>, source: map<nat, string>, baseline: seq<Slot>, e: seq<nat>, n: nat,
                                       k: nat)
    requires Embeds(ms, source, baseline, e) && n < |ms| && k in Free(ms, source, baseline) && k < |e| && e[k] <= n
    requires Passed(Free(ms, source, baseline), e, n, Pass2(ms, source, baseline, n).consumed)
    ensures k in Pass2(ms, source, baseline, n + 1).consumed
  {
    if e[k] < n {
      ConsumedStays(ms, source, baseline, n, k);
    } else {
      EmbedsAt(ms, source, baseline, e, k);
      TakesNext(ms, source, baseline, n, k);
    }
  }

  lemma {:induction false} ConsumedStays(ms: seq<Msg>, source: map<nat, string>, baseline: seq<Slot>, n: nat, k: nat)
    requires n < |ms| && k in Pass2(ms, source, baseline, n).consumed
    ensures k in Pass2(ms, source, baseline, n + 1).consumed
  {
  }

  lemma {:induction false} TakesNext(ms: seq<Msg>, source: map<nat, string>, baseline: seq<Slot>, n: nat, k: nat)
    requires n < |ms| && k in Free(ms, source, baseline) && !Known(ms, source, n)
    requires ms[n].content == baseline[k].content
    requires forall j: nat | j < k && j in Free(ms, source, baseline) :: j in Pass2(ms, source, baseline, n).consumed
    ensures k in Pass2(ms, source, baseline, n + 1).consumed
  {
    var f := Pass2(ms, source, baseline, n);
    if k in f.consumed {
      ConsumedStays(ms, source, baseline, n, k);
    } else {
      StaysInStep(ms, source, baseline, n);
      NextIs(Free(ms, source, baseline), |baseline|, f, k);
      Pass2Hit(ms, source, baseline, n, k);
    }
  }

  /** The message that pass 2 gave a slot to. */
  ghost function HolderOf(slots: map<nat, nat>, k: nat): (i: nat)
    ensures GivenOut(slots, k) ==> i in slots && slots[i] == k
  {
    if GivenOut(slots, k) then var i :| i in slots && slots[i] == k; i else 0
  }

  ghost function Found(ms: seq<Msg>, source: map<nat, string>, baseline: seq<Slot>): (e: seq<nat>)
    ensures |e| == |baseline|
  {
    var f := Pass2(ms, source, baseline, |ms|);
    seq(|baseline|, k requires 0 <= k < |baseline| => HolderOf(f.slots, k))
  }

  lemma {:induction false} FoundHolds(ms: seq<Msg>, source: map<nat, string>, baseline: seq<Slot>, k: nat)
    requires k in Free(ms, source, baseline) && k in Pass2(ms, source, baseline, |ms|).consumed
    ensures var f, i := Pass2(ms, source, baseline, |ms|), Found(ms, source, baseline)[k];
            i in f.slots && f.slots[i] == k && i < |ms| && !Known(ms, source, i) && ms[i].content == baseline[k].content
  {
    Pass2Facts(ms, source, baseline, |ms|);
    ClaimedIff(ms, source, baseline);
    assert GivenOut(Pass2(ms, source, baseline, |ms|).slots, k);
  }

  lemma {:induction false} FoundInOrder(ms: seq<Msg>, source: map<nat, string>, baseline: seq<Slot>, j: nat, k: nat)
    requires Correlate(ms, source, baseline).Some? && j < k
    requires j in Free(ms, source, baseline) && k in Free(ms, source, baseline)
    ensures Found(ms, source, baseline)[j] < Found(ms, source, baseline)[k]
  {
    StaysInStep(ms, source, baseline, |ms|);
    FoundHolds(ms, source, baseline, j);
    FoundHolds(ms, source, baseline, k);
  }

  lemma {:induction false} FoundEmbeds(ms: seq<Msg>, source: map<nat, string>, baseline: seq<Slot>)
    requires Correlate(ms, source, baseline).Some?
    ensures Embeds(ms, source, baseline, Found(ms, source, baseline))
  {
    var e := Found(ms, source, baseline);
    forall k: nat | k in Free(ms, source, baseline) ensures e[k] < |ms| && !Known(ms, source, e[k])
        && ms[e[k]].content == baseline[k].content {
      FoundHolds(ms, source, baseline, k);
    }
    forall j: nat, k: nat | j < k && j in Free(ms, source, baseline) && k in Free(ms, source, baseline)
      ensures e[j] < e[k] {
      FoundInOrder(ms, source, baseline, j, k);
    }
  }

  /** Correlation succeeds exactly when the left-over slots can be embedded in the messages
      that the pointers do not know. */
  lemma {:induction false} CorrelatesIffEmbeds(ms: seq<Msg>, source: map<nat, string>, baseline: seq<Slot>)
    ensures Correlate(ms, source, baseline).Some? <==> exists e :: Embeds(ms, source, baseline, e)
  {
    if Correlate(ms, source, baseline).Some? {
      FoundEmbeds(ms, source, baseline);
    }
    if e :| Embeds(ms, source, baseline, e) {
      StaysInStep(ms, source, baseline, |ms|);
      NeverBehind(ms, source, baseline, e, |ms|);
      forall k: nat | k < |baseline| ensures k in Pass2(ms, source, baseline, |ms|).consumed {
        if k in Free(ms, source, baseline) {
          EmbedsAt(ms, source, baseline, e, k);
        }
      }
    }
  }

  /** No embedding places a slot earlier. */
  ghost predicate Earliest(ms: seq<Msg>, source: map<nat, string>, baseline: seq<Slot>, e: seq<nat>) {
    && Embeds(ms, source, baseline, e)
    && forall e', k: nat | Embeds(ms, source, baseline, e') && k in Free(ms, source, baseline) :: e[k] <= e'[k]
  }

  /** A slot goes to a message before which pass 2 had not consumed it. */
  lemma {:induction false} NotBeforeHolder(ms: seq<Msg>, source: map<nat, string>, baseline: seq<Slot>, i: nat, k: nat)
    requires i < |ms| && i in Pass2(ms, source, baseline, |ms|).slots
    requires Pass2(ms, source, baseline, |ms|).slots[i] == k
    ensures k !in Pass2(ms, source, baseline, i).consumed
  {
    SlotsStay(ms, source, baseline, i, |ms|);
    var f := Pass2(ms, source, baseline, i);
    assert i !in f.slots;
    assert k == Advance(f.consumed, f.cursor, |baseline|);
  }

  lemma {:induction false} FoundIsEarliest(ms: seq<Msg>, source: map<nat, string>, baseline: seq<Slot>)
    requires Correlate(ms, source, baseline).Some?
    ensures Earliest(ms, source, baseline, Found(ms, source, baseline))
  {
    var e := Found(ms, source, baseline);
    FoundEmbeds(ms, source, baseline);
    forall e', k: nat | Embeds(ms, source, baseline, e') && k in Free(ms, source, baseline) ensures e[k] <= e'[k] {
      FoundHolds(ms, source, baseline, k);
      NotBeforeHolder(ms, source, baseline, e[k], k);
      if e'[k] < e[k] {
        NeverBehind(ms, source, baseline, e', e[k]);
      }
    }
  }

  /** The tags: a known message carries its id, an unknown one that of the left-over slot placed
      there, if one is. */
  ghost predicate TagsFor(ms: seq<Msg>, source: map<nat, string>, baseline: seq<Slot>, e: seq<nat>,
                          tags: seq<Option<string>>) {
    && |e| == |baseline| && |tags| == |ms|
    && (forall i: nat | Known(ms, source, i) :: tags[i] == Some(source[ms[i].ptr]))
    && (forall k: nat | k in Free(ms, source, baseline) && e[k] < |ms| && !Known(ms, source, e[k]) ::
          tags[e[k]] == Some(baseline[k].id))
    && forall i: nat | i < |ms| && !Known(ms, source, i) && tags[i].Some? ::
         exists k: nat :: k in Free(ms, source, baseline) && e[k] == i
  }

  lemma {:induction false} FoundTags(ms: seq<Msg>, source: map<nat, string>, baseline: seq<Slot>)
    requires Correlate(ms, source, baseline).Some?
    ensures TagsFor(ms, source, baseline, Found(ms, source, baseline), Correlate(ms, source, baseline).value)
  {
    var e, f := Found(ms, source, baseline), Pass2(ms, source, baseline, |ms|);
    var tags := Correlate(ms, source, baseline).value;
    ClaimedIff(ms, source, baseline);
    Pass2Facts(ms, source, baseline, |ms|);
    forall k: nat | k in Free(ms, source, baseline) && e[k] < |ms| && !Known(ms, source, e[k])
      ensures tags[e[k]] == Some(baseline[k].id) {
      FoundHolds(ms, source, baseline, k);
    }
    forall i: nat | i < |ms| && !Known(ms, source, i) && tags[i].Some?
      ensures exists k: nat :: k in Free(ms, source, baseline) && e[k] == i {
      var k := f.slots[i];
      FoundHolds(ms, source, baseline, k);
      assert k in Free(ms, source, baseline) && e[k] == i;
    }
  }

  lemma {:induction false} TagsOnce(ms: seq<Msg>, source: map<nat, string>, baseline: seq<Slot>, e: seq<nat>,
                                    e': seq<nat>, tags: seq<Option<string>>, tags': seq<Option<string>>)
    requires Earliest(ms, source, baseline, e) && Earliest(ms, source, baseline, e')
    requires TagsFor(ms, source, baseline, e, tags) && TagsFor(ms, source, baseline, e', tags')
    ensures tags == tags'
  {
    forall k: nat | k in Free(ms, source, baseline) ensures e[k] == e'[k] {
      assert e[k] <= e'[k] && e'[k] <= e[k];
    }
    forall i: nat | i < |ms| ensures tags[i] == tags'[i] {
      if !Known(ms, source, i) {
        if tags[i].Some? {
          var k: nat :| k in Free(ms, source, baseline) && e[k] == i;
        }
        if tags'[i].Some? {
          var k: nat :| k in Free(ms, source, baseline) && e'[k] == i;
        }
      }
    }
  }

  /** The whole outcome, for all inputs: these tags and no others, by the earliest embedding. */
  lemma {:induction false} CorrelationIsEarliest(ms: seq<Msg>, source: map<nat, string>, baseline: seq<Slot>,
                                                 tags: seq<Option<string>>)
    ensures Correlate(ms, source, baseline) == Some(tags) <==>
              exists e :: Earliest(ms, source, baseline, e) && TagsFor(ms, source, baseline, e, tags)
  {
    CorrelatesIffEmbeds(ms, source, baseline);
    if Correlate(ms, source, baseline).Some? {
      FoundIsEarliest(ms, source, baseline);
      FoundTags(ms, source, baseline);
      forall e | Earliest(ms, source, baseline, e) && TagsFor(ms, source, baseline, e, tags)
        ensures tags == Correlate(ms, source, baseline).value {
        TagsOnce(ms, source, baseline, e, Found(ms, source, baseline), tags, Correlate(ms, source, baseline).value);
      }
    }
  }
}
