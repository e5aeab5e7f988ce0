/** Where a mid-turn compaction boundary sits among tool calls and results
    (runtime/adk_model.go), and the placeholder drop that runs before it is moved. */
module Boundary {
  import opened Options
  import opened Selections

  datatype Role = System | User | Assistant

  /** A content block settles or opens a call through whichever of its fields is set. */
  datatype Block = Block(call: Option<string>, result: Option<string>, search: Option<string>)

  datatype Message = Message(role: Role, blocks: seq<Block>)

  /** Captured provider state, addressed to a message by index. */
  datatype ProviderState = ProviderState(index: int, payload: string)

  datatype History = History(messages: seq<Message>, ids: seq<string>, state: seq<ProviderState>)

  // ----- the scans

  function OpenBlock(open: set<string>, b: Block): set<string> {
    var called := if b.call.Some? then open + {b.call.value} else open;
    var answered := if b.result.Some? then called - {b.result.value} else called;
    if b.search.Some? then answered - {b.search.value} else answered
  }

  /** recordToolCallAdjacency over one message. */
  function OpenBlocks(open: set<string>, blocks: seq<Block>): set<string>
    decreases |blocks|
  {
    if blocks == [] then open else OpenBlocks(OpenBlock(open, blocks[0]), blocks[1..])
  }

  function SettledBlocks(blocks: seq<Block>): set<string> {
    if blocks == [] then {}
    else (if blocks[0].result.Some? then {blocks[0].result.value} else {})
         + (if blocks[0].search.Some? then {blocks[0].search.value} else {}) + SettledBlocks(blocks[1..])
  }

  function CalledBlocks(blocks: seq<Block>): set<string> {
    if blocks == [] then {}
    else (if blocks[0].call.Some? then {blocks[0].call.value} else {}) + CalledBlocks(blocks[1..])
  }

  /** The calls still open after the first i messages. */
  function OpenAt(ms: seq<Message>, i: nat): set<string>
    requires i <= |ms|
  {
    if i == 0 then {} else OpenBlocks(OpenAt(ms, i - 1), ms[i - 1].blocks)
  }

  /** For every open call, the message since which it has been open. */
  function FirstAt(ms: seq<Message>, i: nat): map<string, nat>
    requires i <= |ms|
  {
    if i == 0 then map[]
    else
      var prev := FirstAt(ms, i - 1);
      map id | id in OpenAt(ms, i) :: if id in prev then prev[id] else i - 1
  }

  /** recordSettledCallIDs over the messages from i up to j. */
  function SettledIn(ms: seq<Message>, i: nat, j: nat): set<string>
    requires i <= j <= |ms|
    decreases j - i
  {
    if i == j then {} else SettledBlocks(ms[i].blocks) + SettledIn(ms, i + 1, j)
  }

  /** The calls a cut at p separates from a later result. */
  function SplitAt(ms: seq<Message>, p: nat): set<string>
    requires p <= |ms|
  {
    OpenAt(ms, p) * SettledIn(ms, p, |ms|)
  }

  /** How many messages the leading run of system messages has. */
  function SystemPrefix(ms: seq<Message>): (n: nat)
    ensures n <= |ms| && (forall i | 0 <= i < n :: ms[i].role == System) && (n < |ms| ==> ms[n].role != System)
  {
    if ms == [] || !ms[0].role.System? then 0 else 1 + SystemPrefix(ms[1..])
  }

  ghost predicate IsMin(ids: set<string>, first: map<string, nat>, bound: nat, t: nat) {
    && t <= bound
    && (forall id | id in ids && id in first :: t <= first[id])
    && (t == bound || exists id :: id in ids && id in first && first[id] == t)
  }

  // ----- what moving does

  /** One message taken from position b and put back before position t. */
  function Moved<T>(s: seq<T>, b: nat, t: nat): seq<T>
    requires t <= b < |s|
  {
    s[..t] + [s[b]] + s[t..b] + s[b + 1..]
  }

  function Without<T>(s: seq<T>, b: nat): seq<T>
    requires b < |s|
  {
    s[..b] + s[b + 1..]
  }

  /** Where a message at old position i is found afterwards. */
  function NewPlace(b: nat, t: nat, i: int): int {
    if i == b then t else if t <= i < b then i + 1 else i
  }

  /** Entries that address no message are carried over as they are. */
  function Readdressed(state: seq<ProviderState>, n: nat, b: nat, t: nat): (r: seq<ProviderState>)
    ensures |r| == |state|
    ensures forall k | 0 <= k < |r| :: r[k].payload == state[k].payload
    ensures forall k | 0 <= k < |r| ::
              r[k].index == if 0 <= state[k].index < n then NewPlace(b, t, state[k].index) else state[k].index
  {
    seq(|state|, k requires 0 <= k < |state| =>
      if 0 <= state[k].index < n then state[k].(index := NewPlace(b, t, state[k].index)) else state[k])
  }

  /** The boundary moved from b to t, everything else in step. */
  function MovedHistory(h: History, b: nat, t: nat): History
    requires |h.ids| == |h.messages| && t <= b < |h.messages|
  {
    History(Moved(h.messages, b, t), Moved(h.ids, b, t), Readdressed(h.state, |h.messages|, b, t))
  }

  lemma MovedPlaces<T>(s: seq<T>, b: nat, t: nat, i: nat)
    requires t <= b < |s| && i < |s|
    ensures |Moved(s, b, t)| == |s| && 0 <= NewPlace(b, t, i) < |s| && Moved(s, b, t)[NewPlace(b, t, i)] == s[i]
  {
  }

  lemma MovedLeavesRest<T>(s: seq<T>, b: nat, t: nat)
    requires t <= b < |s|
    ensures |Moved(s, b, t)| == |s| && Without(Moved(s, b, t), t) == Without(s, b)
  {
    var m := Moved(s, b, t);
    assert m[..t] == s[..t] && m[t + 1..] == s[t..b] + s[b + 1..];
    assert s[..b] == s[..t] + s[t..b];
  }

  /** All other messages keep their order, and every message is where the index map says. */
  lemma MovedKeepsAddresses<T>(s: seq<T>, b: nat, t: nat, i: nat)
    requires t <= b < |s| && i < |s|
    ensures |Moved(s, b, t)| == |s| && Without(Moved(s, b, t), t) == Without(s, b)
    ensures 0 <= NewPlace(b, t, i) < |s| && Moved(s, b, t)[NewPlace(b, t, i)] == s[i]
    ensures t == b ==> Moved(s, b, t) == s
  {
    MovedPlaces(s, b, t, i);
    MovedLeavesRest(s, b, t);
    if t == b {
      assert s == s[..b] + [s[b]] + s[b + 1..];
    }
  }

  // ----- the code

  /** Not ahead of the leading system messages, and never later. */
  function Floored(m: nat, prefix: nat, b: nat): nat {
    var t := if m < prefix then prefix else m;
    if t >= b then b else t
  }

  /** What the scans compute as the position the boundary at b is moved to; b if it stays. */
  ghost predicate IsScanned(ms: seq<Message>, b: nat, t: nat)
    requires b < |ms|
  {
    if SplitAt(ms, b) == {} then t == b
    else exists m: nat :: IsMin(SplitAt(ms, b), FirstAt(ms, b), b, m) && t == Floored(m, SystemPrefix(ms), b)
  }

  method FindBoundary(ids: seq<string>, id: string) returns (b: int)
    ensures if b < 0 then b == -1 && id !in ids else b < |ids| && ids[b] == id && id !in ids[..b]
  {
    for i := 0 to |ids|
      invariant id !in ids[..i]
    {
      if ids[i] == id {
        return i;
      }
    }
    return -1;
  }

  /** The loop over a message's blocks that updates the open set. */
  method RecordToolCallAdjacency(blocks: seq<Block>, before: set<string>) returns (open: set<string>)
    ensures open == OpenBlocks(before, blocks)
    ensures forall x :: x in open <==> CallsIn(blocks, x) || (x in before && !AnswersIn(blocks, x))
  {
    open := before;
    for i := 0 to |blocks|
      invariant OpenBlocks(open, blocks[i..]) == OpenBlocks(before, blocks)
    {
      var b := blocks[i];
      if b.call.Some? { open := open + {b.call.value}; }
      if b.result.Some? { open := open - {b.result.value}; }
      if b.search.Some? { open := open - {b.search.value}; }
    }
    forall x ensures x in open <==> CallsIn(blocks, x) || (x in before && !AnswersIn(blocks, x)) {
      OpenBlocksIff(before, blocks, x);
    }
  }

  method RecordSettledCallIDs(blocks: seq<Block>, before: set<string>) returns (settled: set<string>)
    ensures settled == before + SettledBlocks(blocks)
    ensures forall x :: x in settled <==> x in before || AnswersIn(blocks, x)
  {
    settled := before;
    for i := 0 to |blocks|
      invariant settled + SettledBlocks(blocks[i..]) == before + SettledBlocks(blocks)
    {
      if blocks[i].result.Some? { settled := settled + {blocks[i].result.value}; }
      if blocks[i].search.Some? { settled := settled + {blocks[i].search.value}; }
    }
    forall x ensures x in settled <==> x in before || AnswersIn(blocks, x) {
      SettledBlocksIff(blocks, x);
    }
  }

  /** The minimum over a map range, visited in any order. */
  method Earliest(ids: set<string>, first: map<string, nat>, bound: nat) returns (t: nat)
    requires ids <= first.Keys
    ensures IsMin(ids, first, bound, t)
  {
    t := bound;
    var todo := ids;
    while todo != {}
      invariant todo <= ids
      invariant IsMin(ids - todo, first, bound, t)
    {
      var id :| id in todo;
      if first[id] < t {
        t := first[id];
      }
      todo := todo - {id};
    }
    assert ids - todo == ids;
  }

  method ScanOpen(ms: seq<Message>, b: nat) returns (open: set<string>, first: map<string, nat>)
    requires b <= |ms|
    ensures open == OpenAt(ms, b) && first == FirstAt(ms, b)
  {
    open, first := {}, map[];
    for i := 0 to b
      invariant open == OpenAt(ms, i) && first == FirstAt(ms, i)
    {
      open := RecordToolCallAdjacency(ms[i].blocks, open);
      first := map id | id in open :: if id in first then first[id] else i;
    }
  }

  method ScanSettled(ms: seq<Message>, b: nat) returns (settled: set<string>)
    requires b <= |ms|
    ensures settled == SettledIn(ms, b, |ms|)
  {
    settled := {};
    for i := b to |ms|
      invariant settled + SettledIn(ms, i, |ms|) == SettledIn(ms, b, |ms|)
    {
      settled := RecordSettledCallIDs(ms[i].blocks, settled);
    }
  }

  method CountSystemPrefix(ms: seq<Message>) returns (n: nat)
    ensures n == SystemPrefix(ms)
  {
    n := 0;
    while n < |ms| && ms[n].role.System?
      invariant n <= |ms| && n + SystemPrefix(ms[n..]) == SystemPrefix(ms)
    {
      n := n + 1;
    }
  }

  /** The target on the scanned sets. */
  method Target(ms: seq<Message>, b: nat) returns (t: nat)
    requires b < |ms|
    ensures t <= b && IsScanned(ms, b, t)
  {
    t := b;
    var open, first := ScanOpen(ms, b);
    if open == {} {
      return;
    }
    var settled := ScanSettled(ms, b);
    open := open * settled;
    if open == {} {
      return;
    }
    var target := Earliest(open, first, b);
    ghost var earliest := target;
    var systemPrefix := CountSystemPrefix(ms);
    if target < systemPrefix {
      target := systemPrefix;
    }
    assert IsMin(SplitAt(ms, b), FirstAt(ms, b), b, earliest);
    if target < b {
      t := target;
    }
  }

  /** repositionMidTurnCompactionBoundary: b is where the boundary was found, t where it went. */
  method Reposition(h: History, boundaryID: string) returns (r: History, b: int, t: int)
    requires |h.ids| == |h.messages|
    ensures b < 0 ==> boundaryID !in h.ids && r == h
    ensures b >= 0 ==> b < |h.ids| && h.ids[b] == boundaryID && boundaryID !in h.ids[..b]
    ensures b >= 0 ==> 0 <= t <= b && IsTarget(h.messages, b, t)
    ensures b >= 0 ==> r == if t < b then MovedHistory(h, b, t) else h
  {
    b := FindBoundary(h.ids, boundaryID);
    r, t := h, b;
    if b < 0 {
      return;
    }
    t := Target(h.messages, b);
    ScannedIsTarget(h.messages, b, t);
    if t < b {
      var messages, sourceIDs, oldToNew := Reorder(h, b, t);
      var state := Readdress(h.state, oldToNew, b, t);
      r := History(messages, sourceIDs, state);
    }
  }

  /** The new order built by appending, and the old-to-new map that goes with it. */
  method Reorder(h: History, b: nat, target: nat) returns (messages: seq<Message>, ids: seq<string>, oldToNew: seq<int>)
    requires |h.ids| == |h.messages| && target < b < |h.messages|
    ensures messages == Moved(h.messages, b, target) && ids == Moved(h.ids, b, target)
    ensures |oldToNew| == |h.messages| && forall i | 0 <= i < |oldToNew| :: oldToNew[i] == NewPlace(b, target, i)
  {
    var n := |h.messages|;
    var order: seq<int> := [];
    for i := 0 to n
      invariant |order| == if i <= target then i else if i <= b then i + 1 else i
      invariant forall k | 0 <= k < |order| ::
                  order[k] == if k < target then k else if k == target then b else if k <= b then k - 1 else k
    {
      if i != b {
        if i == target {
          order := order + [b];
        }
        order := order + [i];
      }
    }
    messages := seq(n, k requires 0 <= k < n => h.messages[order[k]]);
    ids := seq(n, k requires 0 <= k < n => h.ids[order[k]]);
    oldToNew := seq(n, _ => 0);
    for k := 0 to n
      invariant |oldToNew| == n
      invariant forall j | 0 <= j < k :: oldToNew[order[j]] == j
    {
      oldToNew := oldToNew[order[k] := k];
    }
    forall i | 0 <= i < n ensures oldToNew[i] == NewPlace(b, target, i) {
      assert order[NewPlace(b, target, i)] == i;
    }
  }

  method Readdress(state: seq<ProviderState>, oldToNew: seq<int>, b: nat, target: nat) returns (r: seq<ProviderState>)
    requires forall i | 0 <= i < |oldToNew| :: oldToNew[i] == NewPlace(b, target, i)
    ensures r == Readdressed(state, |oldToNew|, b, target)
  {
    r := [];
    for k := 0 to |state|
      invariant |r| == k && r == Readdressed(state, |oldToNew|, b, target)[..k]
    {
      var s := state[k];
      if 0 <= s.index < |oldToNew| {
        s := s.(index := oldToNew[s.index]);
      }
      r := r + [s];
    }
  }

  // ----- what the scans mean

  lemma {:induction false} OpenBlocksFacts(open: set<string>, blocks: seq<Block>, id: string)
    ensures id in OpenBlocks(open, blocks) ==> id in open || id in CalledBlocks(blocks)
    ensures id in open && id !in SettledBlocks(blocks) ==> id in OpenBlocks(open, blocks)
    decreases |blocks|
  {
    if blocks != [] {
      OpenBlocksFacts(OpenBlock(open, blocks[0]), blocks[1..], id);
    }
  }

  /** A call open at i was opened by the message FirstAt names and has stayed open since. */
  lemma {:induction false} OpenSinceFirst(ms: seq<Message>, i: nat, id: string)
    requires i <= |ms| && id in OpenAt(ms, i)
    ensures id in FirstAt(ms, i) && FirstAt(ms, i)[id] < i
    ensures var t := FirstAt(ms, i)[id];
            id !in OpenAt(ms, t) && id in CalledBlocks(ms[t].blocks) && forall m: nat | t < m <= i ::
                id in OpenAt(ms, m)
  {
    OpenBlocksFacts(OpenAt(ms, i - 1), ms[i - 1].blocks, id);
    if id in OpenAt(ms, i - 1) {
      OpenSinceFirst(ms, i - 1, id);
    } else if i > 1 {
      FirstIsOpen(ms, i - 1);
    }
  }

  lemma {:induction false} FirstIsOpen(ms: seq<Message>, i: nat)
    requires i <= |ms|
    ensures FirstAt(ms, i).Keys == OpenAt(ms, i)
  {
  }

  lemma {:induction false} StaysOpen(ms: seq<Message>, t: nat, b: nat, id: string)
    requires t <= b <= |ms| && id in OpenAt(ms, t) && id !in SettledIn(ms, t, b)
    ensures forall m: nat | t <= m <= b :: id in OpenAt(ms, m)
    decreases b - t
  {
    if t < b {
      OpenBlocksFacts(OpenAt(ms, t), ms[t].blocks, id);
      StaysOpen(ms, t + 1, b, id);
    }
  }

  lemma {:induction false} SettledConcat(ms: seq<Message>, i: nat, j: nat, k: nat)
    requires i <= j <= k <= |ms|
    ensures SettledIn(ms, i, k) == SettledIn(ms, i, j) + SettledIn(ms, j, k)
    decreases j - i
  {
    if i < j {
      SettledConcat(ms, i + 1, j, k);
    }
  }

  // ----- calls and results, block by block

  /** The block is a result of the call, of either kind. */
  ghost predicate Answers(b: Block, x: string) { b.result == Some(x) || b.search == Some(x) }

  ghost predicate AnswersIn(blocks: seq<Block>, x: string) {
    exists j: nat :: j < |blocks| && Answers(blocks[j], x)
  }

  /** Block j makes the call, and neither it nor a later block of the message answers it. */
  ghost predicate CallsAt(blocks: seq<Block>, j: nat, x: string) {
    j < |blocks| && blocks[j].call == Some(x) && forall k: nat | j <= k < |blocks| :: !Answers(blocks[k], x)
  }

  ghost predicate CallsIn(blocks: seq<Block>, x: string) {
    exists j: nat :: CallsAt(blocks, j, x)
  }

  lemma {:induction false} OpenBlocksIff(open: set<string>, blocks: seq<Block>, x: string)
    ensures x in OpenBlocks(open, blocks) <==> CallsIn(blocks, x) || (x in open && !AnswersIn(blocks, x))
    decreases |blocks|
  {
    if blocks != [] {
      var rest := blocks[1..];
      OpenBlocksIff(OpenBlock(open, blocks[0]), rest, x);
      AnswersInFirst(blocks, x);
      CallsInFirst(blocks, x);
    }
  }

  lemma AnswersInFirst(blocks: seq<Block>, x: string)
    requires blocks != []
    ensures AnswersIn(blocks, x) <==> Answers(blocks[0], x) || AnswersIn(blocks[1..], x)
  {
    if j: nat :| j < |blocks[1..]| && Answers(blocks[1..][j], x) {
      assert Answers(blocks[j + 1], x);
    }
    if j: nat :| j < |blocks| && Answers(blocks[j], x) {
      assert j > 0 ==> Answers(blocks[1..][j - 1], x);
    }
  }

  lemma CallsInFirst(blocks: seq<Block>, x: string)
    requires blocks != []
    ensures CallsIn(blocks, x) <==>
              CallsIn(blocks[1..], x)
                || (blocks[0].call == Some(x) && !Answers(blocks[0], x) && !AnswersIn(blocks[1..], x))
  {
    var rest := blocks[1..];
    if j: nat :| CallsAt(rest, j, x) {
      forall k: nat | j + 1 <= k < |blocks| ensures !Answers(blocks[k], x) {
        assert !Answers(rest[k - 1], x);
      }
      assert CallsAt(blocks, j + 1, x);
    }
    if j: nat :| CallsAt(blocks, j, x) {
      if j > 0 {
        assert CallsAt(rest, j - 1, x);
      } else {
        assert forall k: nat | k < |rest| :: !Answers(rest[k], x) by {
          forall k: nat | k < |rest| ensures !Answers(rest[k], x) {
            assert rest[k] == blocks[k + 1];
          }
        }
      }
    }
    if blocks[0].call == Some(x) && !Answers(blocks[0], x) && !AnswersIn(rest, x) {
      forall k: nat | k < |blocks| ensures !Answers(blocks[k], x) {
        assert k > 0 ==> blocks[k] == rest[k - 1];
      }
      assert CallsAt(blocks, 0, x);
    }
  }

  lemma {:induction false} SettledBlocksIff(blocks: seq<Block>, x: string)
    ensures x in SettledBlocks(blocks) <==> AnswersIn(blocks, x)
  {
    if blocks != [] {
      SettledBlocksIff(blocks[1..], x);
      AnswersInFirst(blocks, x);
    }
  }

  /** Message a makes the call, and no message after it and before i answers it. */
  ghost predicate PendingFrom(ms: seq<Message>, a: nat, i: nat, x: string) {
    a < i <= |ms| && CallsIn(ms[a].blocks, x) && forall c: nat | a < c < i :: !AnswersIn(ms[c].blocks, x)
  }

  ghost predicate PendingAt(ms: seq<Message>, i: nat, x: string) {
    exists a: nat :: PendingFrom(ms, a, i, x)
  }

  /** Some message from i up to k answers the call. */
  ghost predicate AnsweredIn(ms: seq<Message>, i: nat, k: nat, x: string) {
    k <= |ms| && exists c: nat :: i <= c < k && AnswersIn(ms[c].blocks, x)
  }

  /** A call is open at i exactly if some message before i makes it and none since answers it,
      by a tool result or a tool-search result. */
  lemma {:induction false} OpenAtIff(ms: seq<Message>, i: nat, x: string)
    requires i <= |ms|
    ensures x in OpenAt(ms, i) <==> PendingAt(ms, i, x)
  {
    if i > 0 {
      OpenAtIff(ms, i - 1, x);
      OpenBlocksIff(OpenAt(ms, i - 1), ms[i - 1].blocks, x);
      if CallsIn(ms[i - 1].blocks, x) {
        assert PendingFrom(ms, i - 1, i, x);
      }
      if x in OpenAt(ms, i - 1) && !AnswersIn(ms[i - 1].blocks, x) {
        var a: nat :| PendingFrom(ms, a, i - 1, x);
        assert PendingFrom(ms, a, i, x);
      }
      if a: nat :| PendingFrom(ms, a, i, x) {
        if a < i - 1 {
          assert PendingFrom(ms, a, i - 1, x);
        }
      }
    }
  }

  /** A call is settled from i up to k exactly if some message there answers it. */
  lemma {:induction false} SettledInIff(ms: seq<Message>, i: nat, k: nat, x: string)
    requires i <= k <= |ms|
    ensures x in SettledIn(ms, i, k) <==> AnsweredIn(ms, i, k, x)
    decreases k - i
  {
    if i < k {
      SettledInIff(ms, i + 1, k, x);
      SettledBlocksIff(ms[i].blocks, x);
    }
  }

  /** A cut at p stands between a call and its first result: some message before p makes the
      call, none since answers it, and some message from p on does. */
  ghost predicate Separated(ms: seq<Message>, p: nat, x: string) {
    PendingAt(ms, p, x) && AnsweredIn(ms, p, |ms|, x)
  }

  lemma {:induction false} ScansAreBlocks(ms: seq<Message>)
    ensures forall i: nat, x | i <= |ms| :: x in OpenAt(ms, i) <==> PendingAt(ms, i, x)
    ensures forall i: nat, k: nat, x | i <= k <= |ms| :: x in SettledIn(ms, i, k) <==> AnsweredIn(ms, i, k, x)
  {
    forall i: nat, x | i <= |ms| ensures x in OpenAt(ms, i) <==> PendingAt(ms, i, x) {
      OpenAtIff(ms, i, x);
    }
    forall i: nat, k: nat, x | i <= k <= |ms| ensures x in SettledIn(ms, i, k) <==> AnsweredIn(ms, i, k, x) {
      SettledInIff(ms, i, k, x);
    }
  }

  lemma {:induction false} SplitIsSeparated(ms: seq<Message>, p: nat)
    requires p <= |ms|
    ensures forall x :: x in SplitAt(ms, p) <==> Separated(ms, p, x)
    ensures SplitAt(ms, p) == {} <==> forall x :: !Separated(ms, p, x)
  {
    forall x ensures x in SplitAt(ms, p) <==> Separated(ms, p, x) {
      OpenAtIff(ms, p, x);
      SettledInIff(ms, p, |ms|, x);
    }
    if SplitAt(ms, p) != {} {
      var x :| x in SplitAt(ms, p);
      assert Separated(ms, p, x);
    }
  }

  // ----- the boundary ignored

  /** A compaction boundary is a text message: it opens and settles nothing. */
  ghost predicate Silent(m: Message) { CalledBlocks(m.blocks) == {} && SettledBlocks(m.blocks) == {} }

  lemma {:induction false} PrefixScansAgree(ms: seq<Message>, b: nat, i: nat)
    requires i <= b < |ms|
    ensures OpenAt(Without(ms, b), i) == OpenAt(ms, i) && FirstAt(Without(ms, b), i) == FirstAt(ms, i)
  {
    if i > 0 {
      PrefixScansAgree(ms, b, i - 1);
      assert Without(ms, b)[i - 1] == ms[i - 1];
    }
  }

  lemma {:induction false} SuffixScansAgree(ms: seq<Message>, b: nat, i: nat)
    requires b <= i < |ms|
    ensures SettledIn(Without(ms, b), i, |ms| - 1) == SettledIn(ms, i + 1, |ms|)
    decreases |ms| - i
  {
    if i + 1 < |ms| {
      assert Without(ms, b)[i] == ms[i + 1];
      SuffixScansAgree(ms, b, i + 1);
    }
  }

  lemma {:induction false} SilentSettlesNothing(ms: seq<Message>, b: nat)
    requires b < |ms| && Silent(ms[b])
    ensures SettledIn(ms, b, |ms|) == SettledIn(ms, b + 1, |ms|)
  {
    assert SettledIn(ms, b, |ms|) == SettledBlocks(ms[b].blocks) + SettledIn(ms, b + 1, |ms|);
  }

  lemma {:induction false} SplitIgnoresBoundary(ms: seq<Message>, b: nat)
    requires b < |ms| && Silent(ms[b])
    ensures SplitAt(ms, b) == SplitAt(Without(ms, b), b) && FirstAt(ms, b) == FirstAt(Without(ms, b), b)
  {
    PrefixScansAgree(ms, b, b);
    SuffixScansAgree(ms, b, b);
    SilentSettlesNothing(ms, b);
  }

  // ----- when the boundary ends up between groups

  /** Call y is made at message t, stays unanswered up to b, and is answered from b on. */
  ghost predicate Spans(rs: seq<Message>, b: nat, t: nat, y: string) {
    && t < b <= |rs| && !PendingAt(rs, t, y) && AnsweredIn(rs, b, |rs|, y)
    && forall m: nat | t < m <= b :: PendingAt(rs, m, y)
  }

  /** While y is pending up to b, an earlier call x is answered between: the two groups cross. */
  ghost predicate Crosses(rs: seq<Message>, b: nat, t: nat, x: string, y: string) {
    Spans(rs, b, t, y) && PendingAt(rs, t, x) && AnsweredIn(rs, t, b, x)
  }

  ghost predicate NoCrossing(rs: seq<Message>) {
    forall b, t, x, y :: !Crosses(rs, b, t, x, y)
  }

  /** A crossing with the earliest call that spans b, that is, one no enclosing call hides. */
  ghost predicate ExposedCrossing(rs: seq<Message>, b: nat) {
    exists t, x, y :: Crosses(rs, b, t, x, y) && forall t', y' | Spans(rs, b, t', y') :: t <= t'
  }

  /** The calls of the leading system messages, which the boundary is never moved ahead of. */
  ghost predicate NoSystemCalls(ms: seq<Message>) {
    forall i | 0 <= i < SystemPrefix(ms) && i < |ms| :: CalledBlocks(ms[i].blocks) == {}
  }

  lemma SplitSpans(rs: seq<Message>, b: nat, y: string)
    requires b <= |rs|
    ensures y in SplitAt(rs, b) ==> y in FirstAt(rs, b) && Spans(rs, b, FirstAt(rs, b)[y], y)
    ensures forall t | Spans(rs, b, t, y) :: y in SplitAt(rs, b) && FirstAt(rs, b)[y] == t
  {
    ScansAreBlocks(rs);
    if y in OpenAt(rs, b) {
      OpenSinceFirst(rs, b, y);
    }
    forall t | Spans(rs, b, t, y) ensures y in SplitAt(rs, b) && FirstAt(rs, b)[y] == t {
      OpenSinceFirst(rs, b, y);
    }
  }

  /** Moving to the earliest spanning call leaves something split exactly when another group
      crosses that call. */
  lemma EarliestIsClean(rs: seq<Message>, b: nat, m: nat)
    requires b <= |rs| && SplitAt(rs, b) != {} && IsMin(SplitAt(rs, b), FirstAt(rs, b), b, m)
    ensures m < b && exists y :: y in SplitAt(rs, b) && Spans(rs, b, m, y)
    ensures SplitAt(rs, m) != {} <==> ExposedCrossing(rs, b)
  {
    var z :| z in SplitAt(rs, b);
    SplitSpans(rs, b, z);
    var y :| y in SplitAt(rs, b) && y in FirstAt(rs, b) && FirstAt(rs, b)[y] == m;
    SplitSpans(rs, b, y);
    forall t', y' | Spans(rs, b, t', y') ensures m <= t' {
      SplitSpans(rs, b, y');
    }
    SettledConcat(rs, m, b, |rs|);
    if SplitAt(rs, m) != {} {
      var x :| x in SplitAt(rs, m);
      if x !in SettledIn(rs, m, b) {
        StaysOpen(rs, m, b, x);
        OpenSinceFirst(rs, b, x);
        assert false;
      }
      OpenAtIff(rs, m, x);
      SettledInIff(rs, m, b, x);
      assert Crosses(rs, b, m, x, y);
    }
    if ExposedCrossing(rs, b) {
      var t, x, y' :| Crosses(rs, b, t, x, y') && forall t', y'' | Spans(rs, b, t', y'') :: t <= t';
      assert t == m;
      OpenAtIff(rs, m, x);
      SettledInIff(rs, m, b, x);
      assert x in SplitAt(rs, m);
    }
  }

  /** The earliest message that makes a call which the cut at b separates from its result. */
  ghost predicate EarliestSpan(ms: seq<Message>, b: nat, m: nat) {
    (exists y :: Spans(ms, b, m, y)) && forall t: nat, y | Spans(ms, b, t, y) :: m <= t
  }

  /** Where the boundary at b goes: ahead of the earliest call it separates from its result, but
      not ahead of the leading system messages nor later; it stays if it separates none. */
  ghost predicate IsTarget(ms: seq<Message>, b: nat, t: nat)
    requires b < |ms|
  {
    if forall x :: !Separated(ms, b, x) then t == b
    else exists m: nat :: EarliestSpan(ms, b, m) && t == Floored(m, SystemPrefix(ms), b)
  }

  lemma MinIsEarliest(ms: seq<Message>, b: nat, m: nat)
    requires b <= |ms| && SplitAt(ms, b) != {}
    ensures IsMin(SplitAt(ms, b), FirstAt(ms, b), b, m) <==> EarliestSpan(ms, b, m)
  {
    if IsMin(SplitAt(ms, b), FirstAt(ms, b), b, m) {
      EarliestIsClean(ms, b, m);
      forall t: nat, y | Spans(ms, b, t, y) ensures m <= t {
        SplitSpans(ms, b, y);
      }
    }
    if EarliestSpan(ms, b, m) {
      var y :| Spans(ms, b, m, y);
      SplitSpans(ms, b, y);
      forall id | id in SplitAt(ms, b) && id in FirstAt(ms, b) ensures m <= FirstAt(ms, b)[id] {
        SplitSpans(ms, b, id);
      }
    }
  }

  lemma ScannedIsTarget(ms: seq<Message>, b: nat, t: nat)
    requires b < |ms|
    ensures IsScanned(ms, b, t) <==> IsTarget(ms, b, t)
  {
    SplitIsSeparated(ms, b);
    if SplitAt(ms, b) != {} {
      forall m: nat ensures IsMin(SplitAt(ms, b), FirstAt(ms, b), b, m) <==> EarliestSpan(ms, b, m) {
        MinIsEarliest(ms, b, m);
      }
    }
  }

  /** A call of a leading system message is answered behind b; the floor keeps the boundary
      between the two. */
  ghost predicate SystemSpan(ms: seq<Message>, b: nat)
    requires b < |ms|
  {
    exists t: nat, y :: Spans(Without(ms, b), b, t, y) && t < SystemPrefix(ms)
  }

  /** A call that spans b also spans every later cut up to b. */
  lemma SpanSplitsBetween(rs: seq<Message>, b: nat, m: nat, t: nat, y: string)
    requires Spans(rs, b, m, y) && m < t <= b
    ensures y in SplitAt(rs, t)
  {
    ScansAreBlocks(rs);
    SettledConcat(rs, t, b, |rs|);
  }

  /** The repositioned boundary separates no call from its result exactly when no group
      crosses the earliest one it would have split and no leading system message's call is
      answered behind it; the rest of the history is unchanged. */
  lemma RepositionIsClean(ms: seq<Message>, b: nat, t: nat)
    requires b < |ms| && t <= b && Silent(ms[b]) && IsTarget(ms, b, t)
    ensures Without(Moved(ms, b, t), t) == Without(ms, b)
    ensures (forall x :: !Separated(Moved(ms, b, t), t, x)) <==>
              !ExposedCrossing(Without(ms, b), b) && !SystemSpan(ms, b)
    ensures (forall x :: !Separated(ms, b, x)) ==> t == b && Moved(ms, b, t) == ms
    ensures t < b ==> SystemPrefix(ms) <= t
  {
    SplitIsSeparated(ms, b);
    SplitIsSeparated(Moved(ms, b, t), t);
    ScannedIsTarget(ms, b, t);
    TargetIsClean(ms, b, t);
  }

  lemma TargetIsClean(ms: seq<Message>, b: nat, t: nat)
    requires b < |ms| && t <= b && Silent(ms[b]) && IsScanned(ms, b, t)
    ensures Without(Moved(ms, b, t), t) == Without(ms, b)
    ensures SplitAt(Moved(ms, b, t), t) == {} <==> !ExposedCrossing(Without(ms, b), b) && !SystemSpan(ms, b)
    ensures SplitAt(ms, b) == {} ==> t == b && Moved(ms, b, t) == ms
    ensures t < b ==> SystemPrefix(ms) <= t
  {
    var rs, moved := Without(ms, b), Moved(ms, b, t);
    MovedKeepsAddresses(ms, b, t, b);
    SplitIgnoresBoundary(ms, b);
    SplitIgnoresBoundary(moved, t);
    if SplitAt(ms, b) == {} {
      forall t', y | Spans(rs, b, t', y) ensures false {
        SplitSpans(rs, b, y);
      }
    } else {
      var m: nat :| IsMin(SplitAt(ms, b), FirstAt(ms, b), b, m) && t == Floored(m, SystemPrefix(ms), b);
      EarliestIsClean(rs, b, m);
      var y :| y in SplitAt(rs, b) && Spans(rs, b, m, y);
      if m < SystemPrefix(ms) {
        SpanSplitsBetween(rs, b, m, t, y);
      } else {
        forall t', y' | Spans(rs, b, t', y') ensures m <= t' {
          SplitSpans(rs, b, y');
        }
      }
    }
  }

  /** If no two groups cross once the boundary is ignored, a boundary found anywhere is left
      between groups, unless a leading system message's call is answered behind it. */
  lemma RepositionWithoutCrossing(ms: seq<Message>, b: nat, t: nat)
    requires b < |ms| && t <= b && Silent(ms[b]) && IsTarget(ms, b, t)
    requires NoCrossing(Without(ms, b))
    ensures (forall x :: !Separated(Moved(ms, b, t), t, x)) <==> !SystemSpan(ms, b)
  {
    RepositionIsClean(ms, b, t);
  }

  /** Which cannot happen while system messages are plain text. */
  lemma NoSystemCallsNoSpan(ms: seq<Message>, b: nat)
    requires b < |ms| && NoSystemCalls(ms)
    ensures !SystemSpan(ms, b)
  {
    var rs := Without(ms, b);
    ScansAreBlocks(rs);
    forall t: nat, y | Spans(rs, b, t, y) && t < SystemPrefix(ms) ensures false {
      assert y in OpenAt(rs, t + 1) && rs[t] == ms[t];
      OpenBlocksFacts(OpenAt(rs, t), rs[t].blocks, y);
    }
  }

  function CallBlock(id: string): Block { Block(Some(id), None, None) }
  function ResultBlock(id: string): Block { Block(None, Some(id), None) }

  /** Crossing groups are the exception: here the boundary splits only y, and is moved
      between x and the result of x. */
  lemma CrossingGroupsStaySplit()
    ensures var ms := [Message(Assistant, [CallBlock("x")]), Message(Assistant, [CallBlock("y")]),
                       Message(User, [ResultBlock("x")]), Message(System, []), Message(User, [ResultBlock("y")])];
            IsTarget(ms, 3, 1) && Separated(ms, 3, "y") && Separated(Moved(ms, 3, 1), 1, "x")
  {
    var ms := [Message(Assistant, [CallBlock("x")]), Message(Assistant, [CallBlock("y")]),
               Message(User, [ResultBlock("x")]), Message(System, []), Message(User, [ResultBlock("y")])];
    assert OpenAt(ms, 1) == {"x"};
    assert OpenAt(ms, 2) == {"x", "y"};
    assert OpenAt(ms, 3) == {"y"};
    assert SettledIn(ms, 4, 5) == {"y"};
    assert SettledIn(ms, 3, 5) == {"y"};
    assert FirstAt(ms, 1) == map["x" := 0];
    assert FirstAt(ms, 2) == map["x" := 0, "y" := 1];
    assert FirstAt(ms, 3) == map["y" := 1];
    assert SystemPrefix(ms) == 0;
    assert "y" in SplitAt(ms, 3) && FirstAt(ms, 3)["y"] == 1;
    assert IsMin(SplitAt(ms, 3), FirstAt(ms, 3), 3, 1);
    var moved := Moved(ms, 3, 1);
    assert moved == [ms[0], ms[3], ms[1], ms[2], ms[4]];
    assert OpenAt(moved, 1) == {"x"};
    assert SettledIn(moved, 4, 5) == {"y"};
    assert SettledIn(moved, 3, 5) == {"x", "y"};
    assert SettledIn(moved, 2, 5) == {"x", "y"};
    assert SettledIn(moved, 1, 5) == {"x", "y"};
    SplitIsSeparated(ms, 3);
    SplitIsSeparated(moved, 1);
    ScannedIsTarget(ms, 3, 1);
  }

  /** So are calls carried by a leading system message: the floor keeps the boundary in place. */
  lemma SystemCallStaysSplit()
    ensures var ms := [Message(System, [CallBlock("x")]), Message(System, []), Message(User, [ResultBlock("x")])];
            IsTarget(ms, 1, 1) && Separated(ms, 1, "x")
  {
    var ms := [Message(System, [CallBlock("x")]), Message(System, []), Message(User, [ResultBlock("x")])];
    assert OpenAt(ms, 1) == {"x"};
    assert SettledIn(ms, 2, 3) == {"x"};
    assert SettledIn(ms, 1, 3) == {"x"};
    assert FirstAt(ms, 1) == map["x" := 0];
    assert ms[1..] == [ms[1], ms[2]] && ms[1..][1..] == [ms[2]];
    assert SystemPrefix([ms[2]]) == 0 && SystemPrefix([ms[1], ms[2]]) == 1 && SystemPrefix(ms) == 2;
    assert "x" in SplitAt(ms, 1) && FirstAt(ms, 1)["x"] == 0;
    assert IsMin(SplitAt(ms, 1), FirstAt(ms, 1), 1, 0);
    SplitIsSeparated(ms, 1);
    ScannedIsTarget(ms, 1, 1);
  }

  /** After a move every provider-state entry still addresses the message it addressed. */
  lemma StateFollowsMessages(h: History, b: nat, t: nat, k: nat)
    requires |h.ids| == |h.messages| && t <= b < |h.messages| && k < |h.state|
    ensures var r := MovedHistory(h, b, t);
            && |r.state| == |h.state| && r.state[k].payload == h.state[k].payload
            && (0 <= h.state[k].index < |h.messages| ==>
                && 0 <= r.state[k].index < |r.messages| == |r.ids|
                && r.messages[r.state[k].index] == h.messages[h.state[k].index]
                && r.ids[r.state[k].index] == h.ids[h.state[k].index])
  {
    if 0 <= h.state[k].index < |h.messages| {
      MovedKeepsAddresses(h.messages, b, t, h.state[k].index);
      MovedKeepsAddresses(h.ids, b, t, h.state[k].index);
    }
  }

  // ----- dropping placeholders

  predicate IsPlaceholder(m: Message) { m.role.Assistant? && m.blocks == [] }

  /** paddedMessageSourceIDs: cut or filled with empty ids to n. */
  function Padded(ids: seq<string>, n: nat): (r: seq<string>)
    ensures |r| == n && forall i | 0 <= i < n :: r[i] == if i < |ids| then ids[i] else ""
  {
    if n <= |ids| then ids[..n] else ids + seq(n - |ids|, _ => "")
  }

  /** Which messages stay: all but an assistant's without blocks. */
  ghost function Stays(ms: seq<Message>): nat -> bool {
    (i: nat) => i < |ms| && (ms[i].role != Assistant || |ms[i].blocks| > 0)
  }

  /** remap leads from each listed position to its place in the list. */
  ghost predicate Remaps(remap: map<int, nat>, at: seq<nat>) {
    && (forall j | j in remap :: remap[j] < |at| && at[remap[j]] == j)
    && forall k | 0 <= k < |at| :: at[k] in remap
  }

  lemma RemapsNext(remap: map<int, nat>, at: seq<nat>, i: nat)
    requires Remaps(remap, at) && i !in remap
    ensures Remaps(remap[i := |at|], at + [i])
  {
  }

  /** The first loop of dropUnfinalizedAssistantPlaceholders. */
  method KeepMessages(ms: seq<Message>, ids: seq<string>)
    returns (kept: seq<Message>, keptIDs: seq<string>, remap: map<int, nat>, ghost at: seq<nat>)
    requires |ids| == |ms|
    ensures SelectsTo(ms, |ms|, Stays(ms), at, kept) && SelectsTo(ids, |ms|, Stays(ms), at, keptIDs)
    ensures Remaps(remap, at)
  {
    kept, keptIDs, remap, at := [], [], map[], [];
    for i := 0 to |ms|
      invariant SelectsTo(ms, i, Stays(ms), at, kept) && SelectsTo(ids, i, Stays(ms), at, keptIDs) && Remaps(remap, at)
    {
      SelectsNext(ms, i, Stays(ms), at, kept);
      SelectsNext(ids, i, Stays(ms), at, keptIDs);
      if !IsPlaceholder(ms[i]) {
        RemapsNext(remap, at, i);
        remap := remap[i := |kept|];
        kept := kept + [ms[i]];
        keptIDs := keptIDs + [ids[i]];
        at := at + [i];
      }
    }
  }

  /** Which entries stay: those of a message that does. */
  ghost function StateStays(state: seq<ProviderState>, at: seq<nat>): nat -> bool {
    (k: nat) => k < |state| && state[k].index in at
  }

  /** Each kept entry addresses in the new list the message it addressed in the old one. */
  ghost predicate Readdresses(was: seq<ProviderState>, at: seq<nat>, kept: seq<ProviderState>) {
    && |kept| == |was|
    && forall j | 0 <= j < |was| ::
         && kept[j].payload == was[j].payload && 0 <= kept[j].index < |at| && at[kept[j].index] == was[j].index
  }

  /** Its second loop. */
  method KeepState(state: seq<ProviderState>, remap: map<int, nat>, ghost at: seq<nat>)
    returns (kept: seq<ProviderState>, ghost was: seq<ProviderState>, ghost from: seq<nat>)
    requires Remaps(remap, at)
    ensures SelectsTo(state, |state|, StateStays(state, at), from, was) && Readdresses(was, at, kept)
  {
    kept, was, from := [], [], [];
    for k := 0 to |state|
      invariant SelectsTo(state, k, StateStays(state, at), from, was) && Readdresses(was, at, kept)
    {
      SelectsNext(state, k, StateStays(state, at), from, was);
      if state[k].index in remap {
        assert state[k].index in at;
        kept := kept + [state[k].(index := remap[state[k].index])];
        was := was + [state[k]];
        from := from + [k];
      }
    }
  }

  /** dropUnfinalizedAssistantPlaceholders: the messages that stay and their ids, in order; the
      state of those messages, re-addressed. If nothing is dropped, the state is left as it is. */
  method DropPlaceholders(ms: seq<Message>, sourceIDs: seq<string>, state: seq<ProviderState>)
    returns (r: History, ghost at: seq<nat>, ghost was: seq<ProviderState>)
    ensures SelectsTo(ms, |ms|, Stays(ms), at, r.messages)
    ensures |r.ids| == |at| && forall k | 0 <= k < |at| ::
              r.ids[k] == if at[k] < |sourceIDs| then sourceIDs[at[k]] else ""
    ensures |at| == |ms| ==> r.state == state
    ensures |at| < |ms| ==> Selects(state, StateStays(state, at), was) && Readdresses(was, at, r.state)
  {
    var padded := Padded(sourceIDs, |ms|);
    var kept, keptIDs, remap;
    kept, keptIDs, remap, at := KeepMessages(ms, padded);
    if |kept| == |ms| {
      WholeSelection(ms, Stays(ms), at, kept);
      was := [];
      r := History(ms, padded, state);
      return;
    }
    var keptState;
    ghost var from;
    keptState, was, from := KeepState(state, remap, at);
    r := History(kept, keptIDs, keptState);
  }
}
