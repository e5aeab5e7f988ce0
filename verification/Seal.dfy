/** The settlement seal: which rewrites of settled tool results may reach the model
    (runtime/adk_middleware.go). */
module Seal {
  import opened Options

  /** A content digest: 64 hexadecimal digits, so never the empty string of a missing entry. */
  type Digest = s: string | |s| == 64 witness seq(64, _ => '0')

  datatype BlockKind = FunctionToolResult | ToolSearchResult | OtherBlock
  datatype Block = Block(kind: BlockKind, call: string, digest: Digest)
  type Message = seq<Block>

  // ----- occurrences

  function InMessageTo(m: Message, kind: BlockKind, call: string, n: nat): seq<Digest>
    requires n <= |m|
  {
    if n == 0 then [] else InMessageTo(m, kind, call, n - 1) + Counted(m[n - 1], kind, call)
  }

  function Counted(block: Block, kind: BlockKind, call: string): seq<Digest> {
    if block.kind == kind && block.call == call && call != "" then [block.digest] else []
  }

  /** Every digest the first n messages hold for a call, in order. */
  function OccurrencesTo(ms: seq<Message>, kind: BlockKind, call: string, n: nat): seq<Digest>
    requires n <= |ms|
  {
    if n == 0 then [] else OccurrencesTo(ms, kind, call, n - 1) + InMessageTo(ms[n - 1], kind, call, |ms[n - 1]|)
  }

  function Occurrences(ms: seq<Message>, kind: BlockKind, call: string): seq<Digest> {
    OccurrencesTo(ms, kind, call, |ms|)
  }

  ghost predicate Holds(ms: seq<Message>, at: (nat, nat), kind: BlockKind, call: string) {
    at.0 < |ms| && at.1 < |ms[at.0]| && ms[at.0][at.1].kind == kind && ms[at.0][at.1].call == call
  }

  ghost predicate Earlier(a: (nat, nat), b: (nat, nat)) {
    a.0 < b.0 || (a.0 == b.0 && a.1 < b.1)
  }

  lemma {:induction false} InMessageAt(m: Message, kind: BlockKind, call: string, n: nat) returns (at: seq<nat>)
    requires n <= |m| && call != ""
    ensures |at| == |InMessageTo(m, kind, call, n)|
    ensures forall k | 0 <= k < |at| :: at[k] < n && m[at[k]] == Block(kind, call, InMessageTo(m, kind, call, n)[k])
    ensures forall k, l | 0 <= k < l < |at| :: at[k] < at[l]
    ensures forall j: nat | j < n && m[j].kind == kind && m[j].call == call :: j in at
  {
    at := [];
    if n > 0 {
      at := InMessageAt(m, kind, call, n - 1);
      if m[n - 1].kind == kind && m[n - 1].call == call {
        at := at + [n - 1];
      }
    }
  }

  lemma {:induction false} MessageAt(ms: seq<Message>, kind: BlockKind, call: string, i: nat)
    returns (at: seq<(nat, nat)>)
    requires i < |ms| && call != ""
    ensures |at| == |InMessageTo(ms[i], kind, call, |ms[i]|)|
    ensures forall k | 0 <= k < |at| :: at[k].0 == i && Holds(ms, at[k], kind, call)
                && ms[i][at[k].1].digest == InMessageTo(ms[i], kind, call, |ms[i]|)[k]
    ensures forall k, l | 0 <= k < l < |at| :: Earlier(at[k], at[l])
    ensures forall j: nat | Holds(ms, (i, j), kind, call) :: (i, j) in at
  {
    var here := InMessageAt(ms[i], kind, call, |ms[i]|);
    at := seq(|here|, k requires 0 <= k < |here| => (i, here[k]));
    forall j: nat | Holds(ms, (i, j), kind, call) ensures (i, j) in at {
      var k :| 0 <= k < |here| && here[k] == j;
      assert at[k] == (i, j);
    }
  }

  /** The positions of a call's blocks in the first n messages, in order. */
  ghost predicate ArePlaces(at: seq<(nat, nat)>, ms: seq<Message>, kind: BlockKind, call: string, n: nat) {
    && (forall k | 0 <= k < |at| :: at[k].0 < n && Holds(ms, at[k], kind, call))
    && (forall k, l | 0 <= k < l < |at| :: Earlier(at[k], at[l]))
    && forall i: nat, j: nat | i < n && Holds(ms, (i, j), kind, call) :: (i, j) in at
  }

  lemma PlacesJoin(before: seq<(nat, nat)>, here: seq<(nat, nat)>, ms: seq<Message>, kind: BlockKind, call: string,
                   i: nat)
    requires ArePlaces(before, ms, kind, call, i)
    requires forall k | 0 <= k < |here| :: here[k].0 == i && Holds(ms, here[k], kind, call)
    requires forall k, l | 0 <= k < l < |here| :: Earlier(here[k], here[l])
    requires forall j: nat | Holds(ms, (i, j), kind, call) :: (i, j) in here
    ensures ArePlaces(before + here, ms, kind, call, i + 1)
  {
  }

  lemma {:induction false} OccurrencesToAt(ms: seq<Message>, kind: BlockKind, call: string, n: nat)
    returns (at: seq<(nat, nat)>)
    requires n <= |ms| && call != ""
    ensures |at| == |OccurrencesTo(ms, kind, call, n)| && ArePlaces(at, ms, kind, call, n)
    ensures forall k | 0 <= k < |at| :: ms[at[k].0][at[k].1].digest == OccurrencesTo(ms, kind, call, n)[k]
  {
    at := [];
    if n > 0 {
      var before := OccurrencesToAt(ms, kind, call, n - 1);
      var here := MessageAt(ms, kind, call, n - 1);
      PlacesJoin(before, here, ms, kind, call, n - 1);
      at := before + here;
    }
  }

  /** The occurrences of a call are the digests of exactly the blocks of that kind and call, in
      the order of the messages. */
  lemma {:induction false} OccurrencesAreBlocks(ms: seq<Message>, kind: BlockKind, call: string)
    returns (at: seq<(nat, nat)>)
    requires call != ""
    ensures |at| == |Occurrences(ms, kind, call)| && ArePlaces(at, ms, kind, call, |ms|)
    ensures forall k | 0 <= k < |at| :: ms[at[k].0][at[k].1].digest == Occurrences(ms, kind, call)[k]
  {
    at := OccurrencesToAt(ms, kind, call, |ms|);
  }

  function Get(m: map<string, seq<Digest>>, call: string): seq<Digest> {
    if call in m then m[call] else []
  }

  ghost predicate NonEmpty(m: map<string, seq<Digest>>) {
    forall call | call in m :: m[call] != []
  }

  /** A map that lists, for every call that occurs and no other, all its digests. */
  ghost predicate ListsAll(m: map<string, seq<Digest>>, ms: seq<Message>, kind: BlockKind) {
    NonEmpty(m) && forall call :: Get(m, call) == Occurrences(ms, kind, call)
  }

  method AddBlock(m: map<string, seq<Digest>>, block: Block, kind: BlockKind) returns (m': map<string, seq<Digest>>)
    requires NonEmpty(m)
    ensures NonEmpty(m') && forall call :: Get(m', call) == Get(m, call) + Counted(block, kind, call)
  {
    m' := m;
    if block.kind == kind && block.call != "" {
      m' := m[block.call := Get(m, block.call) + [block.digest]];
    }
  }

  lemma AddStep(before: seq<Digest>, msg: Message, kind: BlockKind, call: string, i: nat)
    requires i < |msg|
    ensures before + InMessageTo(msg, kind, call, i + 1) == (before + InMessageTo(msg, kind, call, i))
              + Counted(msg[i], kind, call)
  {
  }

  method AddNext(ghost start: map<string, seq<Digest>>, m: map<string, seq<Digest>>, msg: Message, i: nat,
                 kind: BlockKind)
    returns (m': map<string, seq<Digest>>)
    requires NonEmpty(m) && i < |msg|
    requires forall call :: Get(m, call) == Get(start, call) + InMessageTo(msg, kind, call, i)
    ensures NonEmpty(m') && forall call :: Get(m', call) == Get(start, call) + InMessageTo(msg, kind, call, i + 1)
  {
    m' := AddBlock(m, msg[i], kind);
    forall call ensures Get(m', call) == Get(start, call) + InMessageTo(msg, kind, call, i + 1) {
      AddStep(Get(start, call), msg, kind, call, i);
    }
  }

  method AddMessage(m: map<string, seq<Digest>>, msg: Message, kind: BlockKind) returns (m': map<string, seq<Digest>>)
    requires NonEmpty(m)
    ensures NonEmpty(m') && forall call :: Get(m', call) == Get(m, call) + InMessageTo(msg, kind, call, |msg|)
  {
    m' := m;
    for i := 0 to |msg|
      invariant NonEmpty(m') && forall call :: Get(m', call) == Get(m, call) + InMessageTo(msg, kind, call, i)
    {
      m' := AddNext(m, m', msg, i, kind);
    }
  }

  method OccurrencesByCallID(ms: seq<Message>, kind: BlockKind) returns (m: map<string, seq<Digest>>)
    ensures ListsAll(m, ms, kind)
  {
    m := map[];
    for i := 0 to |ms|
      invariant NonEmpty(m) && forall call :: Get(m, call) == OccurrencesTo(ms, kind, call, i)
    {
      m := AddMessage(m, ms[i], kind);
    }
  }

  /** snapshotToolResultContent: the last digest of a call's function results, "" if none. */
  function Last(ms: seq<Message>, call: string): string {
    var occ := Occurrences(ms, FunctionToolResult, call);
    if occ == [] then "" else occ[|occ| - 1]
  }

  // ----- authorizations

  datatype HandlerKind = Reduction | PatchToolCalls | OtherKind(name: string)
  datatype Entry = Entry(kind: HandlerKind, digest: string)
  datatype Record = Record(handler: string, kind: HandlerKind, call: string, before: string, after: string)

  predicate AuthorityBindsToBaseline(kind: HandlerKind, base: seq<Digest>) {
    match kind
    case Reduction => |base| > 0
    case PatchToolCalls => |base| == 0
    case OtherKind(_) => false
  }

  /** Whether a recipe's step from before to after is granted authority over a call. */
  predicate Grants(kind: HandlerKind, baseline: seq<Message>, before: seq<Message>, after: seq<Message>, call: string) {
    var base := Occurrences(baseline, FunctionToolResult, call);
    && Occurrences(after, FunctionToolResult, call) != [] && Last(before, call) != Last(after, call)
    && AuthorityBindsToBaseline(kind, base)
    && (kind == Reduction ==> Last(before, call) in base)
  }

  /** The authorization in force for a call after a recipe's step. */
  function EntryAfter(entry: Option<Entry>, kind: HandlerKind, baseline: seq<Message>, before: seq<Message>,
                      after: seq<Message>, call: string): Option<Entry> {
    if Grants(kind, baseline, before, after, call) then Some(Entry(kind, Last(after, call))) else entry
  }

  class AuthorizedRewriteSet {
    var digests: map<string, Entry>
    var pending: seq<Record>

    constructor ()
      ensures digests == map[] && pending == []
    {
      digests, pending := map[], [];
    }

    function Lookup(call: string): Option<Entry>
      reads this
    {
      if call in digests then Some(digests[call]) else None
    }

    method RecordRewrite(handler: string, kind: HandlerKind, call: string, before: string, after: string)
      modifies this
      ensures call == "" ==> digests == old(digests) && pending == old(pending)
      ensures call != "" ==> digests == old(digests)[call := Entry(kind, after)]
      ensures call != "" ==> pending == old(pending) + [Record(handler, kind, call, before, after)]
    {
      if call == "" {
        return;
      }
      digests := digests[call := Entry(kind, after)];
      pending := pending + [Record(handler, kind, call, before, after)];
    }

    method ResetCycle()
      modifies this`digests
      ensures digests == map[]
    {
      digests := map[];
    }

    method DrainPending() returns (out: seq<Record>)
      modifies this`pending
      ensures out == old(pending) && pending == []
    {
      out := pending;
      pending := [];
    }

    /** BeforeModelRewriteState after the wrapped recipe returned: what is granted does not
        depend on the order in which the changed calls are visited. */
    method AuthorizeChanges(handler: string, kind: HandlerKind, baseline: seq<Message>, before: seq<Message>,
                            after: seq<Message>)
      returns (ghost added: seq<Record>)
      modifies this
      ensures forall call :: Lookup(call) == EntryAfter(old(Lookup(call)), kind, baseline, before, after, call)
      ensures pending == old(pending) + added
      ensures forall r :: r in added <==>
                Grants(kind, baseline, before, after, r.call) && r == RecordFor(handler, kind, before, after, r.call)
      ensures OncePerCall(added)
    {
      var was := OccurrencesByCallID(before, FunctionToolResult);
      var now := OccurrencesByCallID(after, FunctionToolResult);
      var base := OccurrencesByCallID(baseline, FunctionToolResult);
      NoEmptyCallTo(after, FunctionToolResult, |after|);
      assert Get(now, "") == [];
      added := AuthorizeCalls(handler, kind, was, now, base);
      forall call ensures MapGrants(kind, base, was, now, call) <==> Grants(kind, baseline, before, after, call)
                  ensures MapGrants(kind, base, was, now, call) ==> Tail(now, call) == Last(after, call) {
        Snapshots(kind, was, now, base, baseline, before, after, call);
      }
      SameRecords(handler, kind, was, now, base, baseline, before, after, added);
    }

    method AuthorizeCalls(handler: string, kind: HandlerKind,
                          was: map<string, seq<Digest>>, now: map<string, seq<Digest>>, base: map<string, seq<Digest>>)
      returns (ghost added: seq<Record>)
      requires NonEmpty(now) && "" !in now
      modifies this
      ensures forall call ::
                Lookup(call) == if MapGrants(kind, base, was, now, call) then Some(Entry(kind, Tail(now, call)))
                    else old(Lookup(call))
      ensures pending == old(pending) + added
      ensures forall r :: r in added <==>
                MapGrants(kind, base, was, now, r.call)
                    && r == Record(handler, kind, r.call, Tail(was, r.call), Tail(now, r.call))
      ensures OncePerCall(added)
    {
      added := VisitCalls(handler, kind, was, now, base, GrantMap(handler, kind, base, was, now));
    }

    /** The loop over the changed calls; grants holds the record due for each granted one. */
    method VisitCalls(handler: string, kind: HandlerKind, was: map<string, seq<Digest>>, now: map<string, seq<Digest>>,
                      base: map<string, seq<Digest>>,
                      ghost grants: map<string, Record>) returns (ghost added: seq<Record>)
      requires "" !in now && GrantsAre(grants, handler, kind, base, was, now)
      modifies this
      ensures forall call ::
                Lookup(call) == if call in grants then Some(Entry(kind, grants[call].after)) else old(Lookup(call))
      ensures pending == old(pending) + added && Audit(grants, {}, added)
    {
      added := [];
      var todo := now.Keys;
      while todo != {}
        invariant todo <= now.Keys && pending == old(pending) + added && Audit(grants, todo, added)
        invariant forall call ::
                    Lookup(call) == if call in grants && call !in todo then Some(Entry(kind, grants[call].after))
                        else old(Lookup(call))
        decreases |todo|
      {
        var call :| call in todo;
        assert todo - {call} + {call} == todo;
        todo := todo - {call};
        added := VisitCall(handler, kind, was, now, base, grants, todo, call, old(pending), added);
      }
    }

    method VisitCall(handler: string, kind: HandlerKind, was: map<string, seq<Digest>>, now: map<string, seq<Digest>>,
                     base: map<string, seq<Digest>>, ghost grants: map<string, Record>, ghost todo: set<string>,
                     call: string, ghost queued: seq<Record>, ghost added: seq<Record>)
      returns (ghost added': seq<Record>)
      requires GrantsAre(grants, handler, kind, base, was, now)
      requires call in now && call != "" && call !in todo && Audit(grants, todo + {call}, added)
      requires pending == queued + added
      modifies this
      ensures Audit(grants, todo, added') && pending == queued + added'
      ensures Lookup(call) == if call in grants then Some(Entry(kind, grants[call].after)) else old(Lookup(call))
      ensures forall other | other != call :: Lookup(other) == old(Lookup(other))
    {
      var _ := AuthorizeCall(handler, kind, was, now, base, call);
      AuditStep(grants, todo, call, added);
      added' := if call in grants then added + [grants[call]] else added;
    }

    method AuthorizeCall(handler: string, kind: HandlerKind,
                         was: map<string, seq<Digest>>, now: map<string, seq<Digest>>, base: map<string, seq<Digest>>,
                             call: string)
      returns (granted: bool)
      requires call in now && call != ""
      modifies this
      ensures granted == MapGrants(kind, base, was, now, call)
      ensures Lookup(call) == if granted then Some(Entry(kind, Tail(now, call))) else old(Lookup(call))
      ensures forall other | other != call :: Lookup(other) == old(Lookup(other))
      ensures pending == old(pending) + if granted then [Record(handler, kind, call, Tail(was, call), Tail(now, call))]
                else []
    {
      var content, prior := Tail(now, call), Tail(was, call);
      granted := false;
      if prior != content && AuthorityBindsToBaseline(kind, Get(base, call))
          && (kind != Reduction || prior in Get(base, call)) {
        RecordRewrite(handler, kind, call, prior, content);
        granted := true;
      }
    }
  }

  predicate MapGrants(kind: HandlerKind, base: map<string, seq<Digest>>, was: map<string, seq<Digest>>,
                      now: map<string, seq<Digest>>, call: string) {
    && call in now && Tail(was, call) != Tail(now, call)
    && AuthorityBindsToBaseline(kind, Get(base, call))
    && (kind == Reduction ==> Tail(was, call) in Get(base, call))
  }

  /** The record due for each granted call. */
  ghost function GrantMap(handler: string, kind: HandlerKind, base: map<string, seq<Digest>>,
                          was: map<string, seq<Digest>>,
                          now: map<string, seq<Digest>>): map<string, Record>
  {
    map call | call in now && MapGrants(kind, base, was, now, call) ::
        Record(handler, kind, call, Tail(was, call), Tail(now, call))
  }

  ghost predicate GrantsAre(grants: map<string, Record>, handler: string, kind: HandlerKind,
                            base: map<string, seq<Digest>>,
                            was: map<string, seq<Digest>>, now: map<string, seq<Digest>>)
  {
    && grants.Keys <= now.Keys
    && forall call {:trigger MapGrants(kind, base, was, now, call)} ::
       (call in grants <==> MapGrants(kind, base, was, now, call))
         && (call in grants ==> grants[call] == Record(handler, kind, call, Tail(was, call), Tail(now, call)))
  }

  /** The audit entries added for the calls already visited: one for each grant, and no other. */
  ghost predicate Audit(grants: map<string, Record>, todo: set<string>, added: seq<Record>) {
    OncePerCall(added) && forall r :: r in added <==> r.call in grants && r.call !in todo && r == grants[r.call]
  }

  lemma AuditStep(grants: map<string, Record>, todo: set<string>, call: string, added: seq<Record>)
    requires call !in todo && Audit(grants, todo + {call}, added) && (call in grants ==> grants[call].call == call)
    ensures Audit(grants, todo, if call in grants then added + [grants[call]] else added)
  {
    if call in grants {
      assert (added + [grants[call]])[..|added|] == added;
    }
  }

  /** The last listed digest, "" if there is none. */
  function Tail(m: map<string, seq<Digest>>, call: string): string {
    if Get(m, call) == [] then "" else Get(m, call)[|Get(m, call)| - 1]
  }

  function RecordFor(handler: string, kind: HandlerKind, before: seq<Message>, after: seq<Message>,
                     call: string): Record {
    Record(handler, kind, call, Last(before, call), Last(after, call))
  }

  lemma Snapshots(kind: HandlerKind, was: map<string, seq<Digest>>, now: map<string, seq<Digest>>,
                  base: map<string, seq<Digest>>,
                  baseline: seq<Message>, before: seq<Message>, after: seq<Message>, call: string)
    requires ListsAll(was, before, FunctionToolResult) && ListsAll(now, after, FunctionToolResult)
    requires ListsAll(base, baseline, FunctionToolResult)
    ensures Tail(was, call) == Last(before, call) && Tail(now, call) == Last(after, call)
    ensures MapGrants(kind, base, was, now, call) <==> Grants(kind, baseline, before, after, call)
  {
    assert Get(now, call) == Occurrences(after, FunctionToolResult, call) && (call in now ==> Get(now, call) != []);
    assert Get(was, call) == Occurrences(before, FunctionToolResult, call);
    assert Get(base, call) == Occurrences(baseline, FunctionToolResult, call);
  }

  lemma SameRecords(handler: string, kind: HandlerKind, was: map<string, seq<Digest>>, now: map<string, seq<Digest>>,
                    base: map<string, seq<Digest>>, baseline: seq<Message>, before: seq<Message>, after: seq<Message>,
                    added: seq<Record>)
    requires ListsAll(was, before, FunctionToolResult) && ListsAll(now, after, FunctionToolResult)
    requires ListsAll(base, baseline, FunctionToolResult)
    requires forall r :: r in added <==>
               MapGrants(kind, base, was, now, r.call)
                   && r == Record(handler, kind, r.call, Tail(was, r.call), Tail(now, r.call))
    ensures forall r :: r in added <==>
              Grants(kind, baseline, before, after, r.call) && r == RecordFor(handler, kind, before, after, r.call)
  {
    forall r ensures r in added <==>
        Grants(kind, baseline, before, after, r.call) && r == RecordFor(handler, kind, before, after, r.call) {
      Snapshots(kind, was, now, base, baseline, before, after, r.call);
    }
  }

  lemma {:induction false} NoEmptyCallIn(m: Message, kind: BlockKind, n: nat)
    requires n <= |m|
    ensures InMessageTo(m, kind, "", n) == []
  {
    if n > 0 {
      NoEmptyCallIn(m, kind, n - 1);
    }
  }

  lemma {:induction false} NoEmptyCallTo(ms: seq<Message>, kind: BlockKind, n: nat)
    requires n <= |ms|
    ensures OccurrencesTo(ms, kind, "", n) == []
  {
    if n > 0 {
      NoEmptyCallTo(ms, kind, n - 1);
      NoEmptyCallIn(ms[n - 1], kind, |ms[n - 1]|);
    }
  }

  // ----- the seal

  datatype Verdict = Accept | Fabricated | Diverged
  datatype Outcome = Sealed | Rejected(call: string, why: Verdict)

  /** The authorized digest, when the authorization still binds. */
  function Live(entry: Option<Entry>, base: seq<Digest>): Option<string> {
    if entry.Some? && AuthorityBindsToBaseline(entry.value.kind, base) then Some(entry.value.digest) else None
  }

  /** Either the authorized rewrite alone, or baseline content only and no more of it. */
  predicate Accepts(base: seq<Digest>, occ: seq<Digest>, live: Option<string>) {
    || (live.Some? && occ == [live.value])
    || (|occ| <= |base| && forall i | 0 <= i < |occ| :: occ[i] in base && Some(occ[i]) != live)
  }

  predicate Unmatched(base: seq<Digest>, occ: seq<Digest>, live: Option<string>) {
    exists i | 0 <= i < |occ| :: Some(occ[i]) != live && occ[i] !in base
  }

  function Judge(base: seq<Digest>, occ: seq<Digest>, live: Option<string>): Verdict {
    if Unmatched(base, occ, live) then (if base == [] then Fabricated else Diverged)
    else if Accepts(base, occ, live) then Accept else Diverged
  }

  /** What the seal accepts without an authorization never repeats a result more often than the
      baseline has it. */
  ghost predicate NeverRepeats(base: seq<Digest>) {
    forall occ | Accepts(base, occ, None) :: multiset(occ) <= multiset(base)
  }

  ghost predicate AllEqual(base: seq<Digest>) {
    forall i, j | 0 <= i < j < |base| :: base[i] == base[j]
  }

  lemma {:induction false} CountOfEqual(s: seq<Digest>, d: Digest)
    requires forall i | 0 <= i < |s| :: s[i] == d
    ensures multiset(s)[d] == |s| && forall x | x != d :: multiset(s)[x] == 0
  {
    if s != [] {
      assert s == s[..|s| - 1] + [s[|s| - 1]];
      CountOfEqual(s[..|s| - 1], d);
    }
  }

  lemma {:induction false} CountBelowLength(s: seq<Digest>, d: Digest, i: nat)
    requires i < |s| && s[i] != d
    ensures multiset(s)[d] < |s|
  {
    assert s == s[..i] + [s[i]] + s[i + 1..];
    assert multiset(s)[d] == multiset(s[..i])[d] + multiset(s[i + 1..])[d];
    CountAtMostLength(s[..i], d);
    CountAtMostLength(s[i + 1..], d);
  }

  lemma {:induction false} CountAtMostLength(s: seq<Digest>, d: Digest)
    ensures multiset(s)[d] <= |s|
  {
    if s != [] {
      assert s == s[..|s| - 1] + [s[|s| - 1]];
      CountAtMostLength(s[..|s| - 1], d);
    }
  }

  /** Copies of one settled result are kept out exactly when all results of the call are the
      same: the count is compared with the number of results, not digest by digest. */
  lemma NeverRepeatsIffAllEqual(base: seq<Digest>)
    ensures NeverRepeats(base) <==> AllEqual(base)
  {
    if AllEqual(base) {
      forall occ | Accepts(base, occ, None) ensures multiset(occ) <= multiset(base) {
        if base != [] {
          CountOfEqual(base, base[0]);
          CountOfEqual(occ, base[0]);
        }
      }
    } else {
      var i, j :| 0 <= i < j < |base| && base[i] != base[j];
      CopiesPass(base, base[i], j);
    }
  }

  /** Of two different settled results, the first can be shown twice and the second dropped. */
  lemma CopiesPass(base: seq<Digest>, d: Digest, j: nat)
    requires d in base && j < |base| && base[j] != d
    ensures var occ := seq(|base|, _ => d); Accepts(base, occ, None) && !(multiset(occ) <= multiset(base))
  {
    var occ: seq<Digest> := seq(|base|, _ => d);
    CountOfEqual(occ, d);
    CountBelowLength(base, d, j);
  }

  /** The counting loop of verifyOccurrenceKind for one call. */
  method CheckCall(base: seq<Digest>, occ: seq<Digest>, entry: Option<Entry>) returns (v: Verdict)
    requires occ != []
    ensures v == Judge(base, occ, Live(entry, base))
  {
    var live := Live(entry, base);
    var baseMatches, authorizedMatches := 0, 0;
    for i := 0 to |occ|
      invariant baseMatches + authorizedMatches == i && 0 <= baseMatches && 0 <= authorizedMatches
      invariant forall k | 0 <= k < i :: Some(occ[k]) == live || occ[k] in base
      invariant baseMatches == 0 <==> forall k | 0 <= k < i :: Some(occ[k]) == live
      invariant authorizedMatches == 0 <==> forall k | 0 <= k < i :: Some(occ[k]) != live
    {
      if live.Some? && occ[i] == live.value {
        authorizedMatches := authorizedMatches + 1;
      } else if occ[i] in base {
        baseMatches := baseMatches + 1;
      } else {
        return if |base| == 0 then Fabricated else Diverged;
      }
    }
    if authorizedMatches > 1 {
      return Diverged;
    }
    if baseMatches > |base| {
      return Diverged;
    }
    if authorizedMatches > 0 && baseMatches > 0 {
      return Diverged;
    }
    v := Accept;
  }

  /** What one pass over a block kind accepts; the tool-search pass has no authorizations. */
  ghost predicate PassAccepts(baseline: seq<Message>, input: seq<Message>, kind: BlockKind,
                              entries: map<string, Entry>) {
    forall call :: CallJudged(baseline, input, kind, entries, call) == Accept
  }

  function EntryOf(entries: map<string, Entry>, call: string): Option<Entry> {
    if call in entries then Some(entries[call]) else None
  }

  function CallJudged(baseline: seq<Message>, input: seq<Message>, kind: BlockKind, entries: map<string, Entry>,
                      call: string): Verdict {
    var base := Occurrences(baseline, kind, call);
    Judge(base, Occurrences(input, kind, call), Live(EntryOf(entries, call), base))
  }

  function MapJudged(base: map<string, seq<Digest>>, current: map<string, seq<Digest>>, entries: map<string, Entry>,
                     call: string): Verdict {
    Judge(Get(base, call), Get(current, call), Live(EntryOf(entries, call), Get(base, call)))
  }

  /** The loop of verifyOccurrenceKind; which offending call is reported depends on the visiting order. */
  method CheckCalls(base: map<string, seq<Digest>>, current: map<string, seq<Digest>>, entries: map<string, Entry>)
    returns (r: Outcome)
    requires NonEmpty(current)
    ensures r.Sealed? <==> forall call | call in current.Keys :: MapJudged(base, current, entries, call) == Accept
    ensures r.Rejected? ==> r.why == MapJudged(base, current, entries, r.call) != Accept
  {
    var todo := current.Keys;
    while todo != {}
      invariant todo <= current.Keys
      invariant forall call | call in current.Keys - todo :: MapJudged(base, current, entries, call) == Accept
      decreases |todo|
    {
      var call :| call in todo;
      todo := todo - {call};
      var v := CheckCall(Get(base, call), Get(current, call), EntryOf(entries, call));
      if v != Accept {
        return Rejected(call, v);
      }
    }
    r := Sealed;
  }

  lemma JudgedAlike(base: map<string, seq<Digest>>, current: map<string, seq<Digest>>, entries: map<string, Entry>,
                    baseline: seq<Message>, input: seq<Message>, kind: BlockKind, call: string)
    requires ListsAll(base, baseline, kind) && ListsAll(current, input, kind)
    ensures MapJudged(base, current, entries, call) == CallJudged(baseline, input, kind, entries, call)
    ensures call !in current ==> CallJudged(baseline, input, kind, entries, call) == Accept
  {
    assert Get(base, call) == Occurrences(baseline, kind, call) && Get(current, call) == Occurrences(input, kind, call);
  }

  method VerifyOccurrenceKind(baseline: seq<Message>, input: seq<Message>, kind: BlockKind, entries: map<string, Entry>)
    returns (r: Outcome)
    ensures r.Sealed? <==> PassAccepts(baseline, input, kind, entries)
    ensures r.Rejected? ==> r.why == CallJudged(baseline, input, kind, entries, r.call) != Accept
  {
    var base := OccurrencesByCallID(baseline, kind);
    var current := OccurrencesByCallID(input, kind);
    r := CheckCalls(base, current, entries);
    if r.Sealed? {
      forall call ensures CallJudged(baseline, input, kind, entries, call) == Accept {
        JudgedAlike(base, current, entries, baseline, input, kind, call);
      }
    } else {
      JudgedAlike(base, current, entries, baseline, input, kind, r.call);
    }
  }

  method VerifySettledToolResults(baseline: seq<Message>, input: seq<Message>, entries: map<string, Entry>)
    returns (r: Outcome)
    ensures r.Sealed? <==> SealAccepts(baseline, input, entries)
    ensures r.Rejected? ==> r.why != Accept
    ensures r.Rejected? ==>
              || r.why == CallJudged(baseline, input, FunctionToolResult, entries, r.call)
              || r.why == CallJudged(baseline, input, ToolSearchResult, map[], r.call)
  {
    r := VerifyOccurrenceKind(baseline, input, FunctionToolResult, entries);
    if r.Sealed? {
      r := VerifyOccurrenceKind(baseline, input, ToolSearchResult, map[]);
    }
  }

  ghost predicate SealAccepts(baseline: seq<Message>, input: seq<Message>, entries: map<string, Entry>) {
    PassAccepts(baseline, input, FunctionToolResult, entries) && PassAccepts(baseline, input, ToolSearchResult, map[])
  }

  // ----- a cycle: any chain of handlers between the reset and the dispatch

  /** A host handler may do anything to the messages; so may a recipe, whose changes are diffed. */
  datatype Step = Host(after: seq<Message>) | Recipe(handler: string, kind: HandlerKind, after: seq<Message>)

  /** The messages after n steps of a cycle that began from the baseline. */
  function MessagesAfter(baseline: seq<Message>, steps: seq<Step>, n: nat): seq<Message>
    requires n <= |steps|
  {
    if n == 0 then baseline else steps[n - 1].after
  }

  predicate Granted(baseline: seq<Message>, steps: seq<Step>, k: nat, call: string)
    requires k < |steps|
  {
    steps[k].Recipe? && Grants(steps[k].kind, baseline, MessagesAfter(baseline, steps, k), steps[k].after, call)
  }

  /** What each step of a cycle records for a call. */
  function Recorded(baseline: seq<Message>, steps: seq<Step>, call: string): (r: seq<Option<Entry>>)
    ensures |r| == |steps|
    ensures forall k: nat | k < |steps| ::
              r[k] == if Granted(baseline, steps, k, call) then Some(Entry(steps[k].kind, Last(steps[k].after, call)))
                  else None
  {
    seq(|steps|, k requires 0 <= k < |steps| =>
      if Granted(baseline, steps, k, call) then Some(Entry(steps[k].kind, Last(steps[k].after, call))) else None)
  }

  function Latest(recorded: seq<Option<Entry>>, n: nat): Option<Entry>
    requires n <= |recorded|
  {
    if n == 0 then None else if recorded[n - 1].Some? then recorded[n - 1] else Latest(recorded, n - 1)
  }

  /** A call's authorization after n steps, starting from the cycle's reset: the latest record. */
  function EntryAt(baseline: seq<Message>, steps: seq<Step>, n: nat, call: string): Option<Entry>
    requires n <= |steps|
  {
    Latest(Recorded(baseline, steps, call), n)
  }

  /** Step by step this is what AuthorizeChanges does to the set, and a host step leaves alone. */
  lemma EntryFollowsSteps(baseline: seq<Message>, steps: seq<Step>, n: nat, call: string)
    requires n < |steps|
    ensures EntryAt(baseline, steps, n + 1, call) ==
              match steps[n]
              case Host(_) => EntryAt(baseline, steps, n, call)
              case Recipe(_, kind, after) =>
                EntryAfter(EntryAt(baseline, steps, n, call), kind, baseline, MessagesAfter(baseline, steps, n), after,
                    call)
  {
  }

  /** Step k is a sanctioned one that rewrote the call's content to this: a reduction of
      baseline content, or a patch of a call that has no baseline result. */
  ghost predicate Produced(baseline: seq<Message>, steps: seq<Step>, k: int, call: string, digest: string) {
    && 0 <= k < |steps| && steps[k].Recipe?
    && var base := Occurrences(baseline, FunctionToolResult, call);
       var prior := Occurrences(MessagesAfter(baseline, steps, k), FunctionToolResult, call);
       var made := Occurrences(steps[k].after, FunctionToolResult, call);
       && made != [] && made[|made| - 1] == digest && (prior != [] ==> prior[|prior| - 1] != digest)
       && match steps[k].kind
          case Reduction => prior != [] && prior[|prior| - 1] in base
          case PatchToolCalls => base == []
          case OtherKind(_) => false
  }

  /** ... and no later one rewrote the call again. */
  ghost predicate LastProduct(baseline: seq<Message>, steps: seq<Step>, n: nat, k: int, call: string, digest: string) {
    k < n && Produced(baseline, steps, k, call, digest)
    && forall j, other | k < j < n :: !Produced(baseline, steps, j, call, other)
  }

  ghost predicate BaselineOnly(baseline: seq<Message>, input: seq<Message>, kind: BlockKind, call: string) {
    var base := Occurrences(baseline, kind, call);
    var occ := Occurrences(input, kind, call);
    |occ| <= |base| && forall i | 0 <= i < |occ| :: occ[i] in base
  }

  /** The call shows one result, the one its last sanctioned rewrite produced. */
  ghost predicate SanctionedOnly(baseline: seq<Message>, steps: seq<Step>, input: seq<Message>, call: string) {
    var occ := Occurrences(input, FunctionToolResult, call);
    |occ| == 1 && exists k :: LastProduct(baseline, steps, |steps|, k, call, occ[0])
  }

  /** The call shows no product of its last sanctioned rewrite. */
  ghost predicate Unrewritten(baseline: seq<Message>, steps: seq<Step>, input: seq<Message>, call: string) {
    forall k, digest | LastProduct(baseline, steps, |steps|, k, call, digest) ::
        digest !in Occurrences(input, FunctionToolResult, call)
  }

  /** A grant is what Produced says it is. */
  lemma GrantIsProduct(baseline: seq<Message>, steps: seq<Step>, k: nat, call: string)
    requires k < |steps|
    ensures Granted(baseline, steps, k, call) <==> Produced(baseline, steps, k, call, Last(steps[k].after, call))
    ensures forall digest | Produced(baseline, steps, k, call, digest) :: digest == Last(steps[k].after, call)
  {
    var prior := Occurrences(MessagesAfter(baseline, steps, k), FunctionToolResult, call);
    var made := Occurrences(steps[k].after, FunctionToolResult, call);
    assert made != [] ==> Last(steps[k].after, call) == made[|made| - 1];
    assert prior == [] ==> made != [] ==> Last(steps[k].after, call) != "";
  }

  lemma {:induction false} LatestIsRecorded(recorded: seq<Option<Entry>>, n: nat) returns (k: nat)
    requires n <= |recorded| && Latest(recorded, n).Some?
    ensures k < n && Latest(recorded, n) == recorded[k] && forall j | k < j < n :: recorded[j].None?
  {
    if recorded[n - 1].Some? {
      k := n - 1;
    } else {
      k := LatestIsRecorded(recorded, n - 1);
    }
  }

  lemma {:induction false} LatestNone(recorded: seq<Option<Entry>>, n: nat, k: nat)
    requires k < n <= |recorded| && Latest(recorded, n).None?
    ensures recorded[k].None?
  {
    if k < n - 1 {
      LatestNone(recorded, n - 1, k);
    }
  }

  /** Every authorization in force is the last sanctioned rewrite of its call. */
  lemma {:induction false} EntryHasProvenance(baseline: seq<Message>, steps: seq<Step>, n: nat, call: string)
    returns (k: nat)
    requires n <= |steps| && EntryAt(baseline, steps, n, call).Some?
    ensures LastProduct(baseline, steps, n, k, call, EntryAt(baseline, steps, n, call).value.digest)
    ensures EntryAt(baseline, steps, n, call).value.kind == steps[k].kind
  {
    k := LatestIsRecorded(Recorded(baseline, steps, call), n);
    GrantIsProduct(baseline, steps, k, call);
    forall j, other | k < j < n ensures !Produced(baseline, steps, j, call, other) {
      GrantIsProduct(baseline, steps, j, call);
    }
  }

  lemma ProductsAgree(baseline: seq<Message>, steps: seq<Step>, n: nat, k: int, l: int, call: string, d: string,
                      e: string)
    requires LastProduct(baseline, steps, n, k, call, d) && LastProduct(baseline, steps, n, l, call, e)
    ensures k == l && d == e
  {
  }

  /** ... and every last sanctioned rewrite is an authorization in force, which still binds at
      dispatch. */
  lemma {:induction false} ProductIsEntry(baseline: seq<Message>, steps: seq<Step>, n: nat, k: int, call: string,
                                          digest: string)
    requires n <= |steps| && LastProduct(baseline, steps, n, k, call, digest)
    ensures EntryAt(baseline, steps, n, call) == Some(Entry(steps[k].kind, digest))
    ensures Live(EntryAt(baseline, steps, n, call), Occurrences(baseline, FunctionToolResult, call)) == Some(digest)
  {
    GrantIsProduct(baseline, steps, k, call);
    if EntryAt(baseline, steps, n, call).None? {
      LatestNone(Recorded(baseline, steps, call), n, k);
    } else {
      var l := EntryHasProvenance(baseline, steps, n, call);
      ProductsAgree(baseline, steps, n, k, l, call, digest, EntryAt(baseline, steps, n, call).value.digest);
    }
  }

  ghost predicate EntriesAre(entries: map<string, Entry>, baseline: seq<Message>, steps: seq<Step>) {
    forall call :: EntryOf(entries, call) == EntryAt(baseline, steps, |steps|, call)
  }

  /** What a call may show: the last sanctioned rewrite alone, or baseline content, no more of it
      than there is, and none of the rewrite. */
  ghost predicate MayShow(baseline: seq<Message>, steps: seq<Step>, input: seq<Message>, call: string) {
    || SanctionedOnly(baseline, steps, input, call)
    || (BaselineOnly(baseline, input, FunctionToolResult, call) && Unrewritten(baseline, steps, input, call))
  }

  lemma CallPassesRewritten(baseline: seq<Message>, steps: seq<Step>, input: seq<Message>, call: string, k: int,
                            d: string)
    requires LastProduct(baseline, steps, |steps|, k, call, d)
    ensures var base := Occurrences(baseline, FunctionToolResult, call);
            Accepts(base, Occurrences(input, FunctionToolResult, call), Some(d)) <==>
              MayShow(baseline, steps, input, call)
  {
    var occ := Occurrences(input, FunctionToolResult, call);
    forall l, e | LastProduct(baseline, steps, |steps|, l, call, e) ensures e == d {
      ProductsAgree(baseline, steps, |steps|, k, l, call, d, e);
    }
    assert SanctionedOnly(baseline, steps, input, call) <==> occ == [d];
    assert Unrewritten(baseline, steps, input, call) <==> d !in occ;
  }

  lemma CallPassesUnrewritten(baseline: seq<Message>, steps: seq<Step>, input: seq<Message>, call: string)
    requires EntryAt(baseline, steps, |steps|, call).None?
    ensures var base := Occurrences(baseline, FunctionToolResult, call);
            Accepts(base, Occurrences(input, FunctionToolResult, call), None) <==>
              MayShow(baseline, steps, input, call)
  {
    forall k, d ensures !LastProduct(baseline, steps, |steps|, k, call, d) {
      if LastProduct(baseline, steps, |steps|, k, call, d) {
        ProductIsEntry(baseline, steps, |steps|, k, call, d);
      }
    }
  }

  lemma CallPasses(baseline: seq<Message>, steps: seq<Step>, entries: map<string, Entry>, input: seq<Message>,
                   call: string)
    requires EntriesAre(entries, baseline, steps)
    ensures CallJudged(baseline, input, FunctionToolResult, entries, call) == Accept <==>
              MayShow(baseline, steps, input, call)
  {
    var base := Occurrences(baseline, FunctionToolResult, call);
    var entry := EntryAt(baseline, steps, |steps|, call);
    assert EntryOf(entries, call) == entry;
    JudgedAccept(base, Occurrences(input, FunctionToolResult, call), Live(entry, base));
    if entry.Some? {
      var k := EntryHasProvenance(baseline, steps, |steps|, call);
      ProductIsEntry(baseline, steps, |steps|, k, call, entry.value.digest);
      CallPassesRewritten(baseline, steps, input, call, k, entry.value.digest);
    } else {
      CallPassesUnrewritten(baseline, steps, input, call);
    }
  }

  lemma JudgedAccept(base: seq<Digest>, occ: seq<Digest>, live: Option<string>)
    ensures Judge(base, occ, live) == Accept <==> Accepts(base, occ, live)
  {
  }

  /** Whatever the chain of handlers did, and whatever happened to the messages after it: the
      seal lets through exactly what every call may show. */
  lemma {:induction false} SealIsExact(baseline: seq<Message>, steps: seq<Step>, entries: map<string, Entry>,
                                       input: seq<Message>)
    requires EntriesAre(entries, baseline, steps)
    ensures SealAccepts(baseline, input, entries) <==>
              forall call ::
                  MayShow(baseline, steps, input, call) && BaselineOnly(baseline, input, ToolSearchResult, call)
  {
    forall call ensures CallJudged(baseline, input, FunctionToolResult, entries, call) == Accept <==>
        MayShow(baseline, steps, input, call) {
      CallPasses(baseline, steps, entries, input, call);
    }
    forall call ensures CallJudged(baseline, input, ToolSearchResult, map[], call) == Accept <==>
        BaselineOnly(baseline, input, ToolSearchResult, call) {
    }
  }

  /** A chain without sanctioned steps leaves the seal exactly the baseline test. */
  lemma {:induction false} NoRecipeNoAuthority(baseline: seq<Message>, steps: seq<Step>, n: nat, call: string)
    requires n <= |steps| && forall k | 0 <= k < n :: steps[k].Host?
    ensures EntryAt(baseline, steps, n, call).None?
  {
    if n > 0 {
      NoRecipeNoAuthority(baseline, steps, n - 1, call);
    }
  }

  lemma {:induction false} SealWithoutRecipes(baseline: seq<Message>, steps: seq<Step>, entries: map<string, Entry>,
                                              input: seq<Message>)
    requires EntriesAre(entries, baseline, steps) && forall k | 0 <= k < |steps| :: steps[k].Host?
    ensures SealAccepts(baseline, input, entries) <==>
              forall call ::
                  BaselineOnly(baseline, input, FunctionToolResult, call)
                      && BaselineOnly(baseline, input, ToolSearchResult, call)
  {
    forall call ensures CallJudged(baseline, input, FunctionToolResult, entries, call) == Accept <==>
        BaselineOnly(baseline, input, FunctionToolResult, call) {
      NoRecipeNoAuthority(baseline, steps, |steps|, call);
      assert EntryOf(entries, call) == EntryAt(baseline, steps, |steps|, call);
    }
    forall call ensures CallJudged(baseline, input, ToolSearchResult, map[], call) == Accept <==>
        BaselineOnly(baseline, input, ToolSearchResult, call) {
    }
  }

  lemma EntriesFollow(baseline: seq<Message>, steps: seq<Step>, n: nat)
    requires n < |steps|
    ensures forall call :: EntryAt(baseline, steps, n + 1, call) ==
              if steps[n].Host? then EntryAt(baseline, steps, n, call)
              else EntryAfter(EntryAt(baseline, steps, n, call), steps[n].kind, baseline,
                  MessagesAfter(baseline, steps, n), steps[n].after, call)
  {
    forall call ensures EntryAt(baseline, steps, n + 1, call) ==
              if steps[n].Host? then EntryAt(baseline, steps, n, call)
              else EntryAfter(EntryAt(baseline, steps, n, call), steps[n].kind, baseline,
                  MessagesAfter(baseline, steps, n), steps[n].after, call) {
      EntryFollowsSteps(baseline, steps, n, call);
    }
  }

  /** The audit record of a sanctioned rewrite by step k. */
  ghost predicate Documents(baseline: seq<Message>, steps: seq<Step>, k: int, r: Record) {
    && Produced(baseline, steps, k, r.call, r.after) && r.handler == steps[k].handler && r.kind == steps[k].kind
    && var prior := Occurrences(MessagesAfter(baseline, steps, k), FunctionToolResult, r.call);
       r.before == if prior == [] then "" else prior[|prior| - 1]
  }

  lemma RecordDocuments(baseline: seq<Message>, steps: seq<Step>, k: nat, r: Record)
    requires k < |steps| && steps[k].Recipe?
    ensures Documents(baseline, steps, k, r) <==>
              Granted(baseline, steps, k, r.call)
                && r == RecordFor(steps[k].handler, steps[k].kind, MessagesAfter(baseline, steps, k), steps[k].after,
                    r.call)
  {
    GrantIsProduct(baseline, steps, k, r.call);
  }

  function Joined(parts: seq<seq<Record>>): seq<Record> {
    if parts == [] then [] else Joined(parts[..|parts| - 1]) + parts[|parts| - 1]
  }

  ghost predicate OncePerCall(records: seq<Record>) {
    records != [] ==>
      var last := |records| - 1;
      OncePerCall(records[..last]) && forall r | r in records[..last] :: r.call != records[last].call
  }

  /** What each of the first n steps adds to the audit: one record per call it rewrote. */
  ghost predicate AuditOf(audit: seq<seq<Record>>, baseline: seq<Message>, steps: seq<Step>) {
    |audit| <= |steps| && forall k: nat | k < |audit| :: StepAudit(audit[k], baseline, steps, k)
  }

  ghost predicate StepAudit(added: seq<Record>, baseline: seq<Message>, steps: seq<Step>, k: nat) {
    OncePerCall(added) && forall r :: r in added <==> Documents(baseline, steps, k, r)
  }

  lemma AuditGrows(audit: seq<seq<Record>>, baseline: seq<Message>, steps: seq<Step>, added: seq<Record>)
    requires AuditOf(audit, baseline, steps) && |audit| < |steps| && StepAudit(added, baseline, steps, |audit|)
    ensures AuditOf(audit + [added], baseline, steps) && Joined(audit + [added]) == Joined(audit) + added
  {
    assert (audit + [added])[..|audit|] == audit;
  }

  /** Why a call keeps the input from the model: a result where none was settled, or one that
      is not the settled or rewritten content. */
  ghost predicate Offends(baseline: seq<Message>, steps: seq<Step>, input: seq<Message>, call: string, why: Verdict) {
    || (why == Fabricated && Fabricates(baseline, steps, input, call))
    || (why == Diverged && !Fabricates(baseline, steps, input, call) && !MayShow(baseline, steps, input, call))
    || (why == Fabricated && FabricatesSearch(baseline, input, call))
    || (why == Diverged && !FabricatesSearch(baseline, input, call)
        && !BaselineOnly(baseline, input, ToolSearchResult, call))
  }

  ghost predicate Fabricates(baseline: seq<Message>, steps: seq<Step>, input: seq<Message>, call: string) {
    && Occurrences(baseline, FunctionToolResult, call) == []
    && exists d | d in Occurrences(input, FunctionToolResult, call) ::
         forall k :: !LastProduct(baseline, steps, |steps|, k, call, d)
  }

  ghost predicate FabricatesSearch(baseline: seq<Message>, input: seq<Message>, call: string) {
    Occurrences(baseline, ToolSearchResult, call) == [] && Occurrences(input, ToolSearchResult, call) != []
  }

  lemma {:induction false} LiveIsProduct(baseline: seq<Message>, steps: seq<Step>, entries: map<string, Entry>,
                                         call: string, d: string)
    requires EntriesAre(entries, baseline, steps)
    ensures Live(EntryOf(entries, call), Occurrences(baseline, FunctionToolResult, call)) == Some(d) <==>
              exists k :: LastProduct(baseline, steps, |steps|, k, call, d)
  {
    assert EntryOf(entries, call) == EntryAt(baseline, steps, |steps|, call);
    if EntryAt(baseline, steps, |steps|, call).Some? {
      var k := EntryHasProvenance(baseline, steps, |steps|, call);
    }
    if k :| LastProduct(baseline, steps, |steps|, k, call, d) {
      ProductIsEntry(baseline, steps, |steps|, k, call, d);
    }
  }

  lemma {:induction false} FabricatesIff(baseline: seq<Message>, steps: seq<Step>, entries: map<string, Entry>,
                                         input: seq<Message>, call: string)
    requires EntriesAre(entries, baseline, steps)
    ensures CallJudged(baseline, input, FunctionToolResult, entries, call) == Fabricated <==>
              Fabricates(baseline, steps, input, call)
  {
    var base, occ := Occurrences(baseline, FunctionToolResult, call), Occurrences(input, FunctionToolResult, call);
    var live := Live(EntryOf(entries, call), base);
    forall d: string ensures live == Some(d) <==> exists k :: LastProduct(baseline, steps, |steps|, k, call, d) {
      LiveIsProduct(baseline, steps, entries, call, d);
    }
    if Unmatched(base, occ, live) {
      var i :| 0 <= i < |occ| && Some(occ[i]) != live && occ[i] !in base;
      var d: string := occ[i];
      assert live != Some(d);
      assert occ[i] in occ && forall k :: !LastProduct(baseline, steps, |steps|, k, call, occ[i]);
    }
    if Fabricates(baseline, steps, input, call) {
      var d :| d in occ && forall k :: !LastProduct(baseline, steps, |steps|, k, call, d);
      assert live != Some(d);
      var i :| 0 <= i < |occ| && occ[i] == d;
      assert Unmatched(base, occ, live);
    }
  }

  lemma {:induction false} RejectionOffends(baseline: seq<Message>, steps: seq<Step>, entries: map<string, Entry>,
                                            input: seq<Message>, call: string, why: Verdict)
    requires EntriesAre(entries, baseline, steps) && why != Accept
    requires why == CallJudged(baseline, input, FunctionToolResult, entries, call)
               || why == CallJudged(baseline, input, ToolSearchResult, map[], call)
    ensures Offends(baseline, steps, input, call, why)
  {
    if why == CallJudged(baseline, input, FunctionToolResult, entries, call) {
      CallPasses(baseline, steps, entries, input, call);
      FabricatesIff(baseline, steps, entries, input, call);
    } else {
      var occ := Occurrences(input, ToolSearchResult, call);
      assert EntryOf(map[], call) == None;
      if Occurrences(baseline, ToolSearchResult, call) == [] && occ != [] {
        assert occ[0] !in Occurrences(baseline, ToolSearchResult, call);
      }
    }
  }

  /** A whole cycle on the real set: the baseline handler's reset, every handler in turn, and the
      seal at dispatch over whatever reached it. */
  method DispatchCycle(rewrites: AuthorizedRewriteSet, baseline: seq<Message>, steps: seq<Step>, input: seq<Message>)
    returns (r: Outcome, ghost audit: seq<seq<Record>>)
    modifies rewrites
    ensures EntriesAre(rewrites.digests, baseline, steps)
    ensures r.Sealed? <==>
              forall call ::
                  MayShow(baseline, steps, input, call) && BaselineOnly(baseline, input, ToolSearchResult, call)
    ensures r.Rejected? ==> Offends(baseline, steps, input, r.call, r.why)
    ensures |audit| == |steps| && AuditOf(audit, baseline, steps)
    ensures rewrites.pending == old(rewrites.pending) + Joined(audit)
  {
    audit := RunHandlers(rewrites, baseline, steps);
    r := VerifySettledToolResults(baseline, input, rewrites.digests);
    SealIsExact(baseline, steps, rewrites.digests, input);
    if r.Rejected? {
      RejectionOffends(baseline, steps, rewrites.digests, input, r.call, r.why);
    }
  }

  method RunHandlers(rewrites: AuthorizedRewriteSet, baseline: seq<Message>, steps: seq<Step>)
    returns (ghost audit: seq<seq<Record>>)
    modifies rewrites
    ensures EntriesAre(rewrites.digests, baseline, steps)
    ensures |audit| == |steps| && AuditOf(audit, baseline, steps)
    ensures rewrites.pending == old(rewrites.pending) + Joined(audit)
  {
    rewrites.ResetCycle();
    audit := [];
    for i := 0 to |steps|
      invariant forall call :: rewrites.Lookup(call) == EntryAt(baseline, steps, i, call)
      invariant |audit| == i && AuditOf(audit, baseline, steps)
      invariant rewrites.pending == old(rewrites.pending) + Joined(audit)
    {
      ghost var added := RunHandler(rewrites, baseline, steps, i);
      AuditGrows(audit, baseline, steps, added);
      audit := audit + [added];
    }
    assert forall call :: EntryOf(rewrites.digests, call) == rewrites.Lookup(call);
  }

  method RunHandler(rewrites: AuthorizedRewriteSet, baseline: seq<Message>, steps: seq<Step>, i: nat)
    returns (ghost added: seq<Record>)
    requires i < |steps| && forall call :: rewrites.Lookup(call) == EntryAt(baseline, steps, i, call)
    modifies rewrites
    ensures forall call :: rewrites.Lookup(call) == EntryAt(baseline, steps, i + 1, call)
    ensures rewrites.pending == old(rewrites.pending) + added && StepAudit(added, baseline, steps, i)
  {
    added := [];
    EntriesFollow(baseline, steps, i);
    match steps[i]
    case Host(_) =>
    case Recipe(handler, kind, after) =>
      var before := if i == 0 then baseline else steps[i - 1].after;
      added := rewrites.AuthorizeChanges(handler, kind, baseline, before, after);
      forall r ensures r in added <==> Documents(baseline, steps, i, r) {
        RecordDocuments(baseline, steps, i, r);
      }
  }
}
