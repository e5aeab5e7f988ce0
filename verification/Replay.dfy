/** Reconnecting to a session: hydrating open pauses, replaying the durable log page by page,
    then following the live tail (agui/replay.go, and the paging of
    store/internal/sqlstore/events.go). */
module Replay {
  import opened Identities
  import opened Options
  import opened Selections

  datatype Kind = Paused | Resumed | Overflow | OtherKind
  /** validResume: whether the payload passes validation as a resume. */
  datatype Lifecycle = Lifecycle(pauseID: ID, resumedPauseID: ID, validResume: bool)
  /** payload: None if it does not decode as a lifecycle. */
  datatype Event = Event(id: ID, session: ID, kind: Kind, liveOnly: bool, payload: Option<Lifecycle>)

  // ----- the store: an ordered log, read in pages

  datatype Cursor = Cursor(after: ID, limit: int)
  datatype Batch = Batch(events: seq<Event>, next: Cursor)

  /** Ids are set and name one record each. */
  ghost predicate ValidLog(log: seq<Event>) {
    && (forall i | 0 <= i < |log| :: log[i].id != NO_ID)
    && (forall i, j :: SameID(log, i, j) ==> i == j)
  }

  predicate SameID(log: seq<Event>, i: int, j: int) {
    0 <= i < |log| && 0 <= j < |log| && log[i].id == log[j].id
  }

  /** The cursor that stands after n records. */
  ghost predicate CursorAt(log: seq<Event>, n: nat, cursor: Cursor) {
    n <= |log| && cursor.after == if n == 0 then NO_ID else log[n - 1].id
  }

  lemma CursorPlace(log: seq<Event>, n: nat, m: nat, cursor: Cursor)
    requires ValidLog(log) && CursorAt(log, n, cursor) && CursorAt(log, m, cursor)
    ensures n == m
  {
    if n > 0 && m > 0 {
      assert SameID(log, n - 1, m - 1);
    }
  }

  /** A page that begins at position a. */
  function PageFrom(log: seq<Event>, a: nat, limit: int): Batch
    requires a <= |log|
  {
    var size := if limit <= 0 then 100 else limit;
    if |log| - a > size then Batch(log[a..a + size], Cursor(log[a + size - 1].id, size))
    else Batch(log[a..], Cursor(NO_ID, 0))
  }

  /** What a page is to its caller: the records from a on, and either the end or where to go on. */
  lemma PageShape(log: seq<Event>, a: nat, limit: int)
    requires ValidLog(log) && a <= |log|
    ensures var b := PageFrom(log, a, limit);
            && a + |b.events| <= |log| && b.events == log[a..a + |b.events|]
            && (if b.next.after == NO_ID then a + |b.events| == |log|
                else b.events != [] && CursorAt(log, a + |b.events|, b.next))
            && |b.events| <= (if limit <= 0 then 100 else limit)
            && (b.next.after != NO_ID ==> |b.events| == if limit <= 0 then 100 else limit)
  {
  }

  /** The batch is the page after the cursor's event. */
  ghost predicate ReadAt(log: seq<Event>, cursor: Cursor, a: nat, b: Batch) {
    CursorAt(log, a, cursor) && b == PageFrom(log, a, cursor.limit)
  }

  ghost predicate IsRead(log: seq<Event>, cursor: Cursor, b: Batch) {
    exists a: nat :: ReadAt(log, cursor, a, b)
  }

  lemma PageIs(log: seq<Event>, n: nat, cursor: Cursor, b: Batch)
    requires ValidLog(log) && CursorAt(log, n, cursor) && IsRead(log, cursor, b)
    ensures n + |b.events| <= |log| && b.events == log[n..n + |b.events|]
    ensures if b.next.after == NO_ID then n + |b.events| == |log|
            else b.events != [] && CursorAt(log, n + |b.events|, b.next)
  {
    var a: nat :| ReadAt(log, cursor, a, b);
    CursorPlace(log, n, a, cursor);
    PageShape(log, n, cursor.limit);
  }

  ghost predicate Unknown(log: seq<Event>, id: ID) {
    id != NO_ID && forall k | 0 <= k < |log| :: log[k].id != id
  }

  /** What one read returns: a page, or an error for a cursor whose event does not exist or
      belongs to another session. */
  datatype Read = Page(batch: Batch) | NotFound | Conflict

  /** ListEvents: one page after the cursor's event. foreign are the ids of other sessions. */
  method ListEvents(log: seq<Event>, foreign: set<ID>, cursor: Cursor) returns (r: Read, ghost a: nat)
    ensures r.Page? ==> ReadAt(log, cursor, a, r.batch) && IsRead(log, cursor, r.batch)
    ensures !r.Page? ==> Unknown(log, cursor.after) && (r.Conflict? <==> cursor.after in foreign)
  {
    a := 0;
    if cursor.after == NO_ID {
      assert ReadAt(log, cursor, 0, PageFrom(log, 0, cursor.limit));
      return Page(PageFrom(log, 0, cursor.limit)), 0;
    }
    for i := 0 to |log|
      invariant forall k | 0 <= k < i :: log[k].id != cursor.after
    {
      if log[i].id == cursor.after {
        assert ReadAt(log, cursor, i + 1, PageFrom(log, i + 1, cursor.limit));
        return Page(PageFrom(log, i + 1, cursor.limit)), i + 1;
      }
    }
    r := if cursor.after in foreign then Conflict else NotFound;
  }

  // ----- the connection

  /** What reaches the bridge, when an error latches there, and when the request is cancelled. */
  class Sink {
    var emitted: seq<Event>
    const failsAt: Option<nat>
    const cancelsAt: Option<nat>

    constructor (failsAt: Option<nat>, cancelsAt: Option<nat>)
      ensures emitted == [] && this.failsAt == failsAt && this.cancelsAt == cancelsAt
    {
      this.failsAt, this.cancelsAt := failsAt, cancelsAt;
      emitted := [];
    }

    predicate Failed()
      reads this
    {
      failsAt.Some? && |emitted| >= failsAt.value
    }

    predicate Cancelled()
      reads this
    {
      cancelsAt.Some? && |emitted| >= cancelsAt.value
    }

    method Emit(e: Event)
      modifies this
      ensures emitted == old(emitted) + [e]
    {
      emitted := emitted + [e];
    }
  }

  // ----- pause hydration

  predicate Resolves(r: Event, id: ID) {
    !r.liveOnly && r.kind == Resumed && r.payload.Some? && r.payload.value.validResume
        && r.payload.value.resumedPauseID == id
  }

  /** A decodable durable pause that nothing up to the cursor resolves. */
  predicate OpenPause(upTo: seq<Event>, e: Event) {
    && !e.liveOnly && e.kind == Paused && e.payload.Some?
    && forall i | 0 <= i < |upTo| :: !Resolves(upTo[i], e.payload.value.pauseID)
  }

  /** The open pauses among the first n records, in order. */
  function OpenPauses(upTo: seq<Event>, n: nat): seq<Event>
    requires n <= |upTo|
  {
    if n == 0 then [] else OpenPauses(upTo, n - 1) + if OpenPause(upTo, upTo[n - 1]) then [upTo[n - 1]] else []
  }

  /** The loop's two collections after the records read so far. */
  function Pending(records: seq<Event>): seq<Event> {
    if records == [] then []
    else
      var e := records[|records| - 1];
      Pending(records[..|records| - 1]) + if !e.liveOnly && e.kind == Paused then [e] else []
  }

  ghost predicate ResolvedAre(records: seq<Event>, resolved: set<ID>) {
    forall id :: id in resolved <==> exists i :: 0 <= i < |records| && Resolves(records[i], id)
  }

  method ScanRecord(ghost records: seq<Event>, e: Event, pending: seq<Event>, resolved: set<ID>)
    returns (pending': seq<Event>, resolved': set<ID>)
    requires pending == Pending(records) && ResolvedAre(records, resolved)
    ensures pending' == Pending(records + [e]) && ResolvedAre(records + [e], resolved')
  {
    assert (records + [e])[..|records|] == records;
    pending', resolved' := pending, resolved;
    if !e.liveOnly && e.kind == Paused {
      pending' := pending' + [e];
    }
    if !e.liveOnly && e.kind == Resumed {
      if e.payload.Some? && e.payload.value.validResume {
        resolved' := resolved' + {e.payload.value.resumedPauseID};
      }
    }
    ghost var all := records + [e];
    forall id ensures id in resolved' <==> exists i :: 0 <= i < |all| && Resolves(all[i], id) {
      if id in resolved {
        var i :| 0 <= i < |records| && Resolves(records[i], id);
        assert Resolves(all[i], id);
      } else if id in resolved' {
        assert Resolves(all[|records|], id);
      } else {
        forall i | 0 <= i < |all| ensures !Resolves(all[i], id) {
          assert i < |records| ==> all[i] == records[i];
        }
      }
    }
  }

  /** One page of the scan, up to the cursor's event. */
  method ScanPage(ghost records: seq<Event>, page: seq<Event>, through: ID, pending: seq<Event>, resolved: set<ID>)
    returns (found: bool, read: nat, pending': seq<Event>, resolved': set<ID>)
    requires pending == Pending(records) && ResolvedAre(records, resolved)
    ensures read <= |page| && pending' == Pending(records + page[..read])
    ensures ResolvedAre(records + page[..read], resolved')
    ensures found ==> read > 0 && page[read - 1].id == through
    ensures !found ==> read == |page| && forall i | 0 <= i < |page| :: page[i].id != through
  {
    pending', resolved' := pending, resolved;
    assert records + page[..0] == records;
    for i := 0 to |page|
      invariant pending' == Pending(records + page[..i]) && ResolvedAre(records + page[..i], resolved')
      invariant forall k | 0 <= k < i :: page[k].id != through
    {
      assert records + page[..i] + [page[i]] == records + page[..i + 1];
      pending', resolved' := ScanRecord(records + page[..i], page[i], pending', resolved');
      if page[i].id == through {
        return true, i + 1, pending', resolved';
      }
    }
    return false, |page|, pending', resolved';
  }

  /** The pending pauses that are decodable and unresolved. */
  function Unresolved(pending: seq<Event>, resolved: set<ID>): seq<Event> {
    if pending == [] then []
    else
      var e := pending[|pending| - 1];
      Unresolved(pending[..|pending| - 1], resolved) + if e.payload.Some? && e.payload.value.pauseID !in resolved then
          [e] else []
  }

  lemma ResolvedOrOpen(records: seq<Event>, resolved: set<ID>, e: Event)
    requires ResolvedAre(records, resolved) && !e.liveOnly && e.kind == Paused && e.payload.Some?
    ensures OpenPause(records, e) <==> e.payload.value.pauseID !in resolved
  {
  }

  lemma UnresolvedSnoc(pending: seq<Event>, resolved: set<ID>, e: Event)
    ensures Unresolved(pending + [e], resolved) ==
              Unresolved(pending, resolved) + if e.payload.Some? && e.payload.value.pauseID !in resolved then [e]
                  else []
  {
    assert (pending + [e])[..|pending|] == pending;
  }

  lemma PendingNext(records: seq<Event>, n: nat)
    requires n < |records|
    ensures Pending(records[..n + 1]) ==
              Pending(records[..n]) + if !records[n].liveOnly && records[n].kind == Paused then [records[n]] else []
  {
    assert records[..n + 1][..n] == records[..n];
  }

  lemma {:induction false} UnresolvedAreOpen(records: seq<Event>, resolved: set<ID>, n: nat)
    requires ResolvedAre(records, resolved) && n <= |records|
    ensures Unresolved(Pending(records[..n]), resolved) == OpenPauses(records, n)
  {
    if n > 0 {
      var e := records[n - 1];
      UnresolvedAreOpen(records, resolved, n - 1);
      PendingNext(records, n - 1);
      assert Pending(records[..n - 1]) + [] == Pending(records[..n - 1]);
      UnresolvedSnoc(Pending(records[..n - 1]), resolved, e);
      if !e.liveOnly && e.kind == Paused && e.payload.Some? {
        ResolvedOrOpen(records, resolved, e);
      }
    }
  }

  /** Emit the open pauses, stopping at the first error. */
  method EmitUnresolved(sink: Sink, pending: seq<Event>, resolved: set<ID>) returns (ok: bool, ghost sent: nat)
    modifies sink
    ensures sent <= |Unresolved(pending, resolved)|
    ensures sink.emitted == old(sink.emitted) + Unresolved(pending, resolved)[..sent]
    ensures ok ==> sent == |Unresolved(pending, resolved)|
    ensures !ok ==> sink.Failed()
  {
    sent := 0;
    ghost var all := Unresolved(pending, resolved);
    for i := 0 to |pending|
      invariant sent == |Unresolved(pending[..i], resolved)| <= |all|
      invariant all[..sent] == Unresolved(pending[..i], resolved)
      invariant sink.emitted == old(sink.emitted) + all[..sent]
    {
      UnresolvedPrefix(pending, resolved, i + 1);
      assert pending[..i + 1][..i] == pending[..i];
      if pending[i].payload.Some? && pending[i].payload.value.pauseID !in resolved {
        assert all[..sent + 1] == all[..sent] + [pending[i]];
        sink.Emit(pending[i]);
        sent := sent + 1;
        if sink.Failed() {
          return false, sent;
        }
      }
    }
    assert pending[..|pending|] == pending;
    ok := true;
  }

  lemma {:induction false} UnresolvedPrefix(pending: seq<Event>, resolved: set<ID>, n: nat)
    requires n <= |pending|
    ensures Unresolved(pending[..n], resolved) <= Unresolved(pending, resolved)
  {
    if n < |pending| {
      UnresolvedPrefix(pending[..|pending| - 1], resolved, n);
      assert pending[..|pending| - 1][..n] == pending[..n];
    } else {
      assert pending[..n] == pending;
    }
  }

  lemma {:induction false} HydrationAt(log: seq<Event>, k: nat, resolved: set<ID>)
    requires k < |log| && ResolvedAre(log[..k + 1], resolved)
    ensures Unresolved(Pending(log[..k + 1]), resolved) == OpenPauses(log[..k + 1], k + 1)
  {
    UnresolvedAreOpen(log[..k + 1], resolved, k + 1);
    assert log[..k + 1][..k + 1] == log[..k + 1];
  }

  method ReadPage(log: seq<Event>, foreign: set<ID>, ghost n: nat, cursor: Cursor)
    returns (page: seq<Event>, next: Cursor)
    requires ValidLog(log) && CursorAt(log, n, cursor)
    ensures n + |page| <= |log| && page == log[n..n + |page|]
    ensures if next.after == NO_ID then n + |page| == |log| else page != [] && CursorAt(log, n + |page|, next)
  {
    var read, a := ListEvents(log, foreign, cursor);
    assert n > 0 ==> log[n - 1].id == cursor.after != NO_ID;
    PageIs(log, n, cursor, read.batch);
    page, next := read.batch.events, read.batch.next;
  }

  lemma PrefixJoins(log: seq<Event>, n: nat, page: seq<Event>, read: nat)
    requires n + |page| <= |log| && page == log[n..n + |page|] && read <= |page|
    ensures log[..n] + page[..read] == log[..n + read]
    ensures forall k | n <= k < n + read :: log[k] == page[k - n]
  {
    forall k | 0 <= k < n + read ensures (log[..n] + page[..read])[k] == log[k] {
      if k >= n {
        assert page[k - n] == log[n..n + |page|][k - n];
      }
    }
  }

  /** One turn of the outer loop: read a page and scan it. */
  method ReadAndScan(log: seq<Event>, foreign: set<ID>, ghost n: nat, cursor: Cursor, through: ID, pending: seq<Event>,
                     resolved: set<ID>)
    returns (found: bool, ghost m: nat, pending': seq<Event>, resolved': set<ID>, next: Cursor)
    requires ValidLog(log) && CursorAt(log, n, cursor) && pending == Pending(log[..n])
    requires ResolvedAre(log[..n], resolved)
    ensures n <= m <= |log| && pending' == Pending(log[..m]) && ResolvedAre(log[..m], resolved')
    ensures found ==> m > 0 && log[m - 1].id == through
    ensures !found ==> forall k | n <= k < m :: log[k].id != through
    ensures !found ==> if next.after == NO_ID then m == |log| else n < m && CursorAt(log, m, next)
  {
    var page, read;
    page, next := ReadPage(log, foreign, n, cursor);
    found, read, pending', resolved' := ScanPage(log[..n], page, through, pending, resolved);
    m := n + read;
    PrefixJoins(log, n, page, read);
  }

  /** The open pauses up to position at; none if the cursor's event is not in the log. */
  function Hydration(log: seq<Event>, at: Option<nat>): seq<Event>
    requires at.Some? ==> at.value < |log|
  {
    if at.None? then [] else OpenPauses(log[..at.value + 1], at.value + 1)
  }

  /** What the i-th read sees; from the last state given on, the log stays as it is. */
  function LogAt(logs: seq<seq<Event>>, i: nat): seq<Event> {
    if logs == [] then [] else if i < |logs| then logs[i] else logs[|logs| - 1]
  }

  function FinalLog(logs: seq<seq<Event>>): seq<Event> {
    LogAt(logs, |logs|)
  }

  /** Records are only appended. */
  ghost predicate Grows(logs: seq<seq<Event>>) {
    forall i: nat, j: nat :: i <= j ==> Appended(logs, i, j)
  }

  ghost predicate Appended(logs: seq<seq<Event>>, i: nat, j: nat) {
    LogAt(logs, i) <= LogAt(logs, j)
  }

  lemma GrownLog(logs: seq<seq<Event>>, i: nat, j: nat)
    requires Grows(logs) && ValidLog(FinalLog(logs)) && i <= j
    ensures LogAt(logs, i) <= LogAt(logs, j) <= FinalLog(logs) && ValidLog(LogAt(logs, i))
  {
    var log, last := LogAt(logs, i), FinalLog(logs);
    assert Appended(logs, i, j) && Appended(logs, i, i + j + |logs|) && Appended(logs, j, i + j + |logs|);
    forall x, y | SameID(log, x, y) ensures x == y {
      assert SameID(last, x, y);
    }
    assert forall x | 0 <= x < |log| :: log[x] == last[x];
  }

  /** The scan stands after n records of a log that may have grown since. */
  lemma CursorGrows(log: seq<Event>, later: seq<Event>, n: nat, cursor: Cursor)
    requires log <= later && CursorAt(log, n, cursor)
    ensures CursorAt(later, n, cursor) && later[..n] == log[..n]
  {
  }

  /** Where the scan stands between two reads: n records of the log are behind it, none of them
      the cursor's event. */
  ghost predicate Scanned(last: seq<Event>, log: seq<Event>, n: nat, cursor: Cursor, through: ID, pending: seq<Event>,
                          resolved: set<ID>) {
    && CursorAt(log, n, cursor) && log <= last && ValidLog(log)
    && pending == Pending(last[..n]) && ResolvedAre(last[..n], resolved)
    && forall k | 0 <= k < n :: last[k].id != through
  }

  lemma ScannedGrows(logs: seq<seq<Event>>, i: nat, n: nat, cursor: Cursor, through: ID, pending: seq<Event>,
                     resolved: set<ID>)
    requires Grows(logs) && ValidLog(FinalLog(logs))
    requires Scanned(FinalLog(logs), LogAt(logs, i), n, cursor, through, pending, resolved)
    ensures Scanned(FinalLog(logs), LogAt(logs, i + 1), n, cursor, through, pending, resolved)
  {
    GrownLog(logs, i, i + 1);
    GrownLog(logs, i + 1, i + 1);
    CursorGrows(LogAt(logs, i), LogAt(logs, i + 1), n, cursor);
  }

  lemma ScanStarts(logs: seq<seq<Event>>, limit: int, through: ID)
    requires Grows(logs) && ValidLog(FinalLog(logs))
    ensures Scanned(FinalLog(logs), LogAt(logs, 0), 0, Cursor(NO_ID, limit), through, [], {})
  {
    GrownLog(logs, 0, |logs|);
  }

  method EmitFound(sink: Sink, ghost last: seq<Event>, ghost at: nat, pending: seq<Event>, resolved: set<ID>)
    returns (ok: bool, ghost sent: nat)
    requires at < |last| && pending == Pending(last[..at + 1]) && ResolvedAre(last[..at + 1], resolved)
    modifies sink
    ensures sent <= |Hydration(last, Some(at))| && sink.emitted == old(sink.emitted) + Hydration(last, Some(at))[..sent]
    ensures ok ==> sent == |Hydration(last, Some(at))|
    ensures !ok ==> sink.Failed()
  {
    HydrationAt(last, at, resolved);
    ok, sent := EmitUnresolved(sink, pending, resolved);
  }

  method ScanOn(ghost last: seq<Event>, log: seq<Event>, foreign: set<ID>, ghost n: nat, cursor: Cursor, through: ID,
                pending: seq<Event>, resolved: set<ID>)
    returns (found: bool, ghost m: nat, pending': seq<Event>, resolved': set<ID>, next: Cursor)
    requires Scanned(last, log, n, cursor, through, pending, resolved)
    ensures found ==>
              0 < m <= |last| && last[m - 1].id == through && pending' == Pending(last[..m])
                  && ResolvedAre(last[..m], resolved')
    ensures !found && next.after != NO_ID ==>
              n < m <= |last| && Scanned(last, log, m, next, through, pending', resolved')
    ensures !found && next.after == NO_ID ==> forall k | 0 <= k < |log| :: log[k].id != through
  {
    CursorGrows(log, last, n, cursor);
    found, m, pending', resolved', next := ReadAndScan(log, foreign, n, cursor, through, pending, resolved);
    assert log[..m] == last[..m] && forall k | 0 <= k < m :: log[k] == last[k];
  }

  /** hydratePausesBeforeCursor, for any page size and a log that may grow between the reads:
      exactly the open pauses up to the cursor, in order (a prefix of them if the connection
      fails), or none if the scan came to the end of the log before the cursor's event. */
  method HydratePausesBeforeCursor(sink: Sink, logs: seq<seq<Event>>, foreign: set<ID>, limit: int, through: ID)
    returns (ok: bool, ghost at: Option<nat>, ghost sent: nat)
    requires Grows(logs) && ValidLog(FinalLog(logs))
    modifies sink
    ensures FoundAt(logs, through, at)
    ensures sent <= |Hydration(FinalLog(logs), at)|
    ensures sink.emitted == old(sink.emitted) + Hydration(FinalLog(logs), at)[..sent]
    ensures ok ==> sent == |Hydration(FinalLog(logs), at)|
    ensures !ok ==> sink.Failed()
  {
    var cursor := Cursor(NO_ID, limit);
    var pending: seq<Event>, resolved: set<ID>, i := [], {}, 0;
    ghost var n, last := 0, FinalLog(logs);
    ScanStarts(logs, limit, through);
    while true
      invariant Scanned(last, LogAt(logs, i), n, cursor, through, pending, resolved)
      invariant sink.emitted == old(sink.emitted)
      decreases |last| - n
    {
      var found, m, pending', resolved', next :=
          ScanOn(last, LogAt(logs, i), foreign, n, cursor, through, pending, resolved);
      if found {
        ok, sent := EmitFound(sink, last, m - 1, pending', resolved');
        return ok, Some(m - 1), sent;
      }
      if next.after == NO_ID {
        assert Missing(logs, i, through);
        return true, None, 0;
      }
      ScannedGrows(logs, i, m, next, through, pending', resolved');
      pending, resolved, cursor, n, i := pending', resolved', next, m, i + 1;
    }
  }

  /** The position of the cursor's event, None only if some read did not see it. */
  ghost predicate FoundAt(logs: seq<seq<Event>>, id: ID, at: Option<nat>) {
    if at.Some? then at.value < |FinalLog(logs)| && FinalLog(logs)[at.value].id == id
    else exists i: nat :: Missing(logs, i, id)
  }

  /** The i-th read does not see the event. */
  ghost predicate Missing(logs: seq<seq<Event>>, i: nat, id: ID) {
    forall k | 0 <= k < |LogAt(logs, i)| :: LogAt(logs, i)[k].id != id
  }

  // ----- replay over a log that may grow between pages

  /** rank: each id's place in the session's order (creation time, then id); what is not in
      the session comes before all. */
  function Place(rank: map<ID, nat>, id: ID): int {
    if id in rank then rank[id] else -1
  }

  /** One read of the log sees some of the records, in the session's order. */
  ghost predicate Snapshot(rank: map<ID, nat>, log: seq<Event>) {
    && (forall i | 0 <= i < |log| :: log[i].id != NO_ID && Place(rank, log[i].id) >= 0)
    && (forall i, j | 0 <= i < j < |log| :: Place(rank, log[i].id) < Place(rank, log[j].id))
  }

  /** Strictly later than the floor, and strictly increasing. */
  ghost predicate Ascending(rank: map<ID, nat>, floor: int, events: seq<Event>) {
    && (forall i | 0 <= i < |events| :: floor < Place(rank, events[i].id))
    && (forall i, j | 0 <= i < j < |events| :: Place(rank, events[i].id) < Place(rank, events[j].id))
  }

  ghost predicate UpTo(rank: map<ID, nat>, events: seq<Event>, ceiling: int) {
    forall i | 0 <= i < |events| :: Place(rank, events[i].id) <= ceiling
  }

  lemma PageAscends(rank: map<ID, nat>, log: seq<Event>, cursor: Cursor, a: nat, b: Batch)
    requires Snapshot(rank, log) && ReadAt(log, cursor, a, b) && (cursor.after == NO_ID ==> NO_ID !in rank)
    ensures Ascending(rank, Place(rank, cursor.after), b.events)
    ensures b.next.after != NO_ID ==> b.events != [] && b.next.after == b.events[|b.events| - 1].id
  {
    var page := b.events;
    assert forall i | 0 <= i < |page| :: page[i] == log[a + i];
    forall i | 0 <= i < |page| ensures Place(rank, cursor.after) < Place(rank, page[i].id) {
      assert a > 0 ==> Place(rank, log[a - 1].id) < Place(rank, log[a + i].id);
    }
  }

  function Durable(events: seq<Event>): seq<Event> {
    if events == [] then []
    else
      var e := events[|events| - 1];
      Durable(events[..|events| - 1]) + if e.liveOnly then [] else [e]
  }

  ghost predicate IDsAre(events: seq<Event>, ids: set<ID>) {
    forall id :: id in ids <==> exists i :: 0 <= i < |events| && events[i].id == id
  }

  /** Every id that is set occurs at most once. */
  ghost predicate OncePerID(events: seq<Event>) {
    forall i, j | 0 <= i < j < |events| && events[i].id != NO_ID :: events[i].id != events[j].id
  }

  lemma IDsAdd(events: seq<Event>, ids: set<ID>, e: Event)
    requires IDsAre(events, ids)
    ensures IDsAre(events + [e], ids + {e.id})
  {
    var all := events + [e];
    assert all[|events|].id == e.id;
    forall id ensures id in ids + {e.id} <==> exists i :: 0 <= i < |all| && all[i].id == id {
      if id in ids {
        var i :| 0 <= i < |events| && events[i].id == id;
        assert all[i].id == id;
      }
      forall i | 0 <= i < |all| && all[i].id == id ensures id in ids + {e.id} {
        assert i < |events| ==> events[i].id == id;
      }
    }
  }

  lemma AscendingAdd(rank: map<ID, nat>, floor: int, events: seq<Event>, ceiling: int, e: Event)
    requires Ascending(rank, floor, events) && UpTo(rank, events, ceiling) && floor <= ceiling < Place(rank, e.id)
    ensures Ascending(rank, floor, events + [e]) && UpTo(rank, events + [e], Place(rank, e.id))
  {
  }

  lemma AscendingOnce(rank: map<ID, nat>, floor: int, events: seq<Event>)
    requires Ascending(rank, floor, events)
    ensures OncePerID(events)
  {
    forall i, j | 0 <= i < j < |events| ensures events[i].id != events[j].id {
      assert Place(rank, events[i].id) < Place(rank, events[j].id);
    }
  }

  /** What was sent stands between floor and ceiling, in order, and is remembered. */
  ghost predicate Tracked(rank: map<ID, nat>, floor: int, ceiling: int, sent: seq<Event>, seen: set<ID>) {
    floor <= ceiling && Ascending(rank, floor, sent) && UpTo(rank, sent, ceiling) && IDsAre(sent, seen)
  }

  lemma TrackedNext(rank: map<ID, nat>, floor: int, ceiling: int, sent: seq<Event>, seen: set<ID>, e: Event)
    requires Tracked(rank, floor, ceiling, sent, seen) && ceiling < Place(rank, e.id)
    ensures Tracked(rank, floor, Place(rank, e.id), sent, seen)
    ensures Tracked(rank, floor, Place(rank, e.id), sent + [e], seen + {e.id})
  {
    IDsAdd(sent, seen, e);
    AscendingAdd(rank, floor, sent, ceiling, e);
  }

  lemma DurableNext(page: seq<Event>, i: nat)
    requires i < |page|
    ensures Durable(page[..i + 1]) == Durable(page[..i]) + if page[i].liveOnly then [] else [page[i]]
  {
    assert page[..i + 1][..i] == page[..i];
  }

  /** The record a page has come to after i of its own. */
  function ReadTo(next: ID, page: seq<Event>, i: nat): ID
    requires i <= |page|
  {
    if i == 0 then next else page[i - 1].id
  }

  /** One page of replay: durable records are emitted and remembered, live-only ones skipped. */
  method ReplayPage(sink: Sink, page: seq<Event>, next: Cursor, seen: set<ID>,
                    ghost rank: map<ID, nat>, ghost floor: int, ghost sent: seq<Event>)
    returns (ok: bool, next': Cursor, seen': set<ID>, ghost sent': seq<Event>)
    requires Ascending(rank, Place(rank, next.after), page)
    requires Tracked(rank, floor, Place(rank, next.after), sent, seen)
    modifies sink
    ensures Ascending(rank, floor, sent') && IDsAre(sent', seen')
    ensures sent <= sent' && sink.emitted == old(sink.emitted) + sent'[|sent|..]
    ensures ok ==> sent' == sent + Durable(page) && Tracked(rank, floor, Place(rank, next'.after), sent', seen')
    ensures ok ==> next'.after == ReadTo(next.after, page, |page|)
    ensures !ok ==> sink.Failed() || sink.Cancelled()
  {
    next', seen', sent' := next, seen, sent;
    for i := 0 to |page|
      invariant next'.after == ReadTo(next.after, page, i)
      invariant sent' == sent + Durable(page[..i]) && sink.emitted == old(sink.emitted) + sent'[|sent|..]
      invariant Tracked(rank, floor, Place(rank, next'.after), sent', seen')
    {
      var record := page[i];
      if sink.Cancelled() {
        return false, next', seen', sent';
      }
      DurableNext(page, i);
      TrackedNext(rank, floor, Place(rank, next'.after), sent', seen', record);
      if !record.liveOnly {
        seen' := seen' + {record.id};
        sink.Emit(record);
        sent' := sent' + [record];
        if sink.Failed() {
          return false, next', seen', sent';
        }
      }
      next' := Cursor(record.id, next.limit);
    }
    assert page[..|page|] == page;
    ok := true;
  }

  /** Where the reads stand after n pages. */
  function CursorTo(cursor: Cursor, pages: seq<Batch>, n: nat): Cursor
    requires n <= |pages|
  {
    if n == 0 then cursor else pages[n - 1].next
  }

  function CursorAfter(cursor: Cursor, pages: seq<Batch>): Cursor {
    CursorTo(cursor, pages, |pages|)
  }

  /** Page k is what the k-th read returned; every page but the last leads to another. */
  ghost predicate PageOk(logs: seq<seq<Event>>, cursor: Cursor, pages: seq<Batch>, k: nat)
    requires k < |pages|
  {
    && (k > 0 ==> CursorTo(cursor, pages, k).after != NO_ID)
    && IsRead(LogAt(logs, k), CursorTo(cursor, pages, k), pages[k])
  }

  ghost predicate Paging(logs: seq<seq<Event>>, cursor: Cursor, pages: seq<Batch>) {
    forall k: nat | k < |pages| :: PageOk(logs, cursor, pages, k)
  }

  function DurableTo(pages: seq<Batch>, n: nat): seq<Event>
    requires n <= |pages|
  {
    if n == 0 then [] else DurableTo(pages, n - 1) + Durable(pages[n - 1].events)
  }

  function DurableOf(pages: seq<Batch>): seq<Event> {
    DurableTo(pages, |pages|)
  }

  lemma {:induction false} DurableConcat(a: seq<Event>, b: seq<Event>)
    ensures Durable(a + b) == Durable(a) + Durable(b)
  {
    if b == [] {
      assert a + b == a;
    } else {
      assert (a + b)[..|a + b| - 1] == a + b[..|b| - 1];
      DurableConcat(a, b[..|b| - 1]);
    }
  }

  lemma {:induction false} DurableJoins(log: seq<Event>, a: nat, m: nat, b: nat)
    requires a <= m <= b <= |log|
    ensures Durable(log[a..m]) + Durable(log[m..b]) == Durable(log[a..b])
  {
    assert log[a..m] + log[m..b] == log[a..b];
    DurableConcat(log[a..m], log[m..b]);
  }

  /** After n pages the reads stand at position b. */
  ghost predicate Covers(log: seq<Event>, a: nat, cursor: Cursor, pages: seq<Batch>, n: nat, b: nat)
    requires n <= |pages|
  {
    && a <= b <= |log| && DurableTo(pages, n) == Durable(log[a..b])
    && if n > 0 && CursorTo(cursor, pages, n).after == NO_ID then b == |log|
       else CursorAt(log, b, CursorTo(cursor, pages, n))
  }

  lemma {:induction false} CoversNext(log: seq<Event>, a: nat, cursor: Cursor, pages: seq<Batch>, n: nat, m: nat)
    requires ValidLog(log) && n < |pages| && Covers(log, a, cursor, pages, n, m)
    requires CursorAt(log, m, CursorTo(cursor, pages, n))
    requires IsRead(log, CursorTo(cursor, pages, n), pages[n])
    ensures Covers(log, a, cursor, pages, n + 1, m + |pages[n].events|)
  {
    PageIs(log, m, CursorTo(cursor, pages, n), pages[n]);
    DurableJoins(log, a, m, m + |pages[n].events|);
  }

  lemma CoversStart(log: seq<Event>, a: nat, cursor: Cursor, pages: seq<Batch>)
    requires CursorAt(log, a, cursor)
    ensures Covers(log, a, cursor, pages, 0, a)
  {
    assert log[a..a] == [];
  }

  lemma PageRead(log: seq<Event>, cursor: Cursor, pages: seq<Batch>, k: nat)
    requires Paging([log], cursor, pages) && k < |pages|
    ensures IsRead(log, CursorTo(cursor, pages, k), pages[k]) && (k > 0 ==> CursorTo(cursor, pages, k).after != NO_ID)
  {
    assert PageOk([log], cursor, pages, k);
  }

  lemma {:induction false} PagesCover(log: seq<Event>, a: nat, cursor: Cursor, pages: seq<Batch>, n: nat)
    returns (b: nat)
    requires ValidLog(log) && CursorAt(log, a, cursor) && n <= |pages| && Paging([log], cursor, pages)
    ensures Covers(log, a, cursor, pages, n, b)
  {
    if n == 0 {
      CoversStart(log, a, cursor, pages);
      b := a;
    } else {
      var m := PagesCover(log, a, cursor, pages, n - 1);
      PageRead(log, cursor, pages, n - 1);
      CoversNext(log, a, cursor, pages, n - 1, m);
      b := m + |pages[n - 1].events|;
    }
  }

  /** Whatever the page size, paging through an unchanging log to its end yields all durable
      records after the cursor, once each and in order. */
  lemma {:induction false} ReplayIsExact(log: seq<Event>, a: nat, cursor: Cursor, pages: seq<Batch>)
    requires ValidLog(log) && CursorAt(log, a, cursor)
    requires Paging([log], cursor, pages) && pages != [] && CursorAfter(cursor, pages).after == NO_ID
    ensures DurableOf(pages) == Durable(log[a..])
  {
    var b := PagesCover(log, a, cursor, pages, |pages|);
    assert log[a..b] == log[a..];
  }

  lemma {:induction false} DurableStays(pages: seq<Batch>, batch: Batch, n: nat)
    requires n <= |pages|
    ensures DurableTo(pages + [batch], n) == DurableTo(pages, n)
  {
    if n > 0 {
      DurableStays(pages, batch, n - 1);
    }
  }

  lemma PageOkStays(logs: seq<seq<Event>>, cursor: Cursor, pages: seq<Batch>, batch: Batch, k: nat)
    requires Paging(logs, cursor, pages) && k < |pages|
    ensures PageOk(logs, cursor, pages + [batch], k)
  {
    assert PageOk(logs, cursor, pages, k);
    assert CursorTo(cursor, pages + [batch], k) == CursorTo(cursor, pages, k);
  }

  lemma LastPageOk(logs: seq<seq<Event>>, cursor: Cursor, pages: seq<Batch>, batch: Batch)
    requires pages != [] ==> CursorAfter(cursor, pages).after != NO_ID
    requires IsRead(LogAt(logs, |pages|), CursorAfter(cursor, pages), batch)
    ensures PageOk(logs, cursor, pages + [batch], |pages|)
  {
    assert CursorTo(cursor, pages + [batch], |pages|) == CursorTo(cursor, pages, |pages|);
  }

  lemma {:induction false} PagingNext(logs: seq<seq<Event>>, cursor: Cursor, pages: seq<Batch>, batch: Batch)
    requires Paging(logs, cursor, pages) && (pages != [] ==> CursorAfter(cursor, pages).after != NO_ID)
    requires IsRead(LogAt(logs, |pages|), CursorAfter(cursor, pages), batch)
    ensures Paging(logs, cursor, pages + [batch])
    ensures DurableOf(pages + [batch]) == DurableOf(pages) + Durable(batch.events)
  {
    DurableStays(pages, batch, |pages|);
    forall k: nat | k < |pages| ensures PageOk(logs, cursor, pages + [batch], k) {
      PageOkStays(logs, cursor, pages, batch, k);
    }
    LastPageOk(logs, cursor, pages, batch);
  }

  /** Where the loop stands between two reads. */
  ghost predicate Caught(rank: map<ID, nat>, cursor: Cursor, next: Cursor, sent: seq<Event>, seen: set<ID>) {
    Tracked(rank, Place(rank, cursor.after), Place(rank, next.after), sent, seen)
  }

  method ReadNext(log: seq<Event>, foreign: set<ID>, cursor: Cursor, ghost rank: map<ID, nat>)
    returns (b: Option<Batch>)
    requires Snapshot(rank, log) && NO_ID !in rank
    ensures b.None? ==> Unknown(log, cursor.after)
    ensures b.Some? ==> IsRead(log, cursor, b.value) && Ascending(rank, Place(rank, cursor.after), b.value.events)
    ensures b.Some? && b.value.next.after != NO_ID ==>
              b.value.events != [] && b.value.next.after == b.value.events[|b.value.events| - 1].id
  {
    var read, a := ListEvents(log, foreign, cursor);
    if !read.Page? {
      return None;
    }
    PageAscends(rank, log, cursor, a, read.batch);
    b := Some(read.batch);
  }

  /** One turn of the loop: a page is read and passed on. */
  method ReplayNext(sink: Sink, log: seq<Event>, foreign: set<ID>, cursor: Cursor, next: Cursor, seen: set<ID>,
                    ghost rank: map<ID, nat>, ghost sent: seq<Event>)
    returns (ok: bool, batch: Option<Batch>, next': Cursor, seen': set<ID>, ghost sent': seq<Event>)
    requires Snapshot(rank, log) && NO_ID !in rank && Caught(rank, cursor, next, sent, seen)
    modifies sink
    ensures sent <= sent' && sink.emitted == old(sink.emitted) + sent'[|sent|..]
    ensures Ascending(rank, Place(rank, cursor.after), sent') && IDsAre(sent', seen')
    ensures ok ==> batch.Some? && IsRead(log, next, batch.value) && sent' == sent + Durable(batch.value.events)
    ensures ok ==> next'.after == LastOf(next, batch.value)
    ensures ok && batch.value.next.after != NO_ID ==> batch.value.next.after == LastOf(next, batch.value)
    ensures ok && batch.value.next.after != NO_ID ==>
              Place(rank, next.after) < Place(rank, batch.value.next.after)
                  && Caught(rank, cursor, batch.value.next, sent', seen')
    ensures !ok ==> sink.Failed() || sink.Cancelled() || Unknown(log, next'.after)
  {
    batch := ReadNext(log, foreign, next, rank);
    if batch.None? {
      return false, batch, next, seen, sent;
    }
    ok, next', seen', sent' := ReplayPage(sink, batch.value.events, next, seen, rank, Place(rank, cursor.after), sent);
  }

  /** The pages read so far, what they gave, and where the next read starts. */
  ghost predicate Progress(logs: seq<seq<Event>>, cursor: Cursor, pages: seq<Batch>, at: Cursor, sent: seq<Event>) {
    && Paging(logs, cursor, pages) && at == CursorAfter(cursor, pages) && (pages != [] ==> at.after != NO_ID)
    && sent == DurableOf(pages) && at.after == LastRead(cursor, pages, |pages|)
  }

  /** The last record of the first n pages, which is where a client may resume. */
  function LastRead(cursor: Cursor, pages: seq<Batch>, n: nat): ID
    requires n <= |pages|
  {
    if n == 0 then cursor.after
    else
      var events := pages[n - 1].events;
      if events == [] then LastRead(cursor, pages, n - 1) else events[|events| - 1].id
  }

  lemma {:induction false} LastReadStays(cursor: Cursor, pages: seq<Batch>, batch: Batch, n: nat)
    requires n <= |pages|
    ensures LastRead(cursor, pages + [batch], n) == LastRead(cursor, pages, n)
  {
    if n > 0 {
      LastReadStays(cursor, pages, batch, n - 1);
    }
  }

  /** The reads came to the end of the log. */
  ghost predicate Complete(logs: seq<seq<Event>>, cursor: Cursor, pages: seq<Batch>, sent: seq<Event>) {
    Paging(logs, cursor, pages) && pages != [] && CursorAfter(cursor, pages).after == NO_ID && sent == DurableOf(pages)
  }

  lemma {:induction false} ProgressNext(logs: seq<seq<Event>>, cursor: Cursor, pages: seq<Batch>, at: Cursor,
                                        sent: seq<Event>, b: Batch)
    requires Progress(logs, cursor, pages, at, sent) && IsRead(LogAt(logs, |pages|), at, b)
    requires b.next.after != NO_ID ==> b.next.after == LastOf(at, b)
    ensures if b.next.after == NO_ID then Complete(logs, cursor, pages + [b], sent + Durable(b.events))
            else Progress(logs, cursor, pages + [b], b.next, sent + Durable(b.events))
    ensures LastOf(at, b) == LastRead(cursor, pages + [b], |pages| + 1)
  {
    PagingNext(logs, cursor, pages, b);
    LastReadStays(cursor, pages, b, |pages|);
  }

  /** The last record of a page, or the one before it. */
  function LastOf(at: Cursor, b: Batch): ID {
    if b.events == [] then at.after else b.events[|b.events| - 1].id
  }

  ghost predicate AllSnapshots(rank: map<ID, nat>, size: nat, logs: seq<seq<Event>>) {
    && NO_ID !in rank && (forall id | id in rank :: rank[id] < size)
    && forall i | 0 <= i < |logs| :: Snapshot(rank, logs[i])
  }

  lemma SnapshotAt(rank: map<ID, nat>, size: nat, logs: seq<seq<Event>>, i: nat, id: ID)
    requires AllSnapshots(rank, size, logs)
    ensures Snapshot(rank, LogAt(logs, i)) && NO_ID !in rank && Place(rank, id) < size
  {
  }

  /** The replay loop; LogAt(logs, i) is what the i-th read sees. What it emits is the durable records
      of the pages it reads; each stands after the cursor, in the session's order, none twice. */
  method ReplayAfter(sink: Sink, logs: seq<seq<Event>>, foreign: set<ID>, cursor: Cursor, ghost rank: map<ID, nat>,
                     ghost size: nat)
    returns (ok: bool, next: Cursor, seen: set<ID>, ghost sent: seq<Event>, ghost pages: seq<Batch>)
    requires AllSnapshots(rank, size, logs)
    modifies sink
    ensures sink.emitted == old(sink.emitted) + sent
    ensures Ascending(rank, Place(rank, cursor.after), sent) && IDsAre(sent, seen)
    ensures ok ==> Complete(logs, cursor, pages, sent) && next.after == LastRead(cursor, pages, |pages|)
    ensures !ok ==> sink.Failed() || sink.Cancelled() || Unknown(LogAt(logs, |pages|), next.after)
  {
    next, seen, sent, pages := cursor, {}, [], [];
    var at, i := cursor, 0;
    while true
      invariant i == |pages| && Progress(logs, cursor, pages, at, sent) && Caught(rank, cursor, at, sent, seen)
      invariant sink.emitted == old(sink.emitted) + sent
      decreases size - Place(rank, at.after)
    {
      ghost var was := sent;
      var batch;
      SnapshotAt(rank, size, logs, i, at.after);
      ok, batch, next, seen, sent := ReplayNext(sink, LogAt(logs, i), foreign, cursor, at, seen, rank, sent);
      assert was + sent[|was|..] == sent;
      if !ok {
        return false, next, seen, sent, pages;
      }
      ProgressNext(logs, cursor, pages, at, was, batch.value);
      pages := pages + [batch.value];
      if batch.value.next.after == NO_ID {
        return true, next, seen, sent, pages;
      }
      at, i := batch.value.next, i + 1;
    }
  }

  predicate ForSession(e: Event, session: ID) {
    e.session == NO_ID || e.session == session
  }

  /** The tail has offered this id before event n. */
  predicate Offered(live: seq<Event>, session: ID, n: nat, id: ID)
    requires n <= |live|
  {
    exists k | 0 <= k < n :: ForSession(live[k], session) && live[k].id == id
  }

  /** Which of the first n tail events are passed on: the session's own, each id the first time
      it is offered and only if replay has not passed it. */
  function Forwarded(live: seq<Event>, session: ID, seen: set<ID>, n: nat): seq<Event>
    requires n <= |live|
  {
    if n == 0 then []
    else
      var e := live[n - 1];
      Forwarded(live, session, seen, n - 1)
      + if ForSession(e, session) && (e.id == NO_ID || (e.id !in seen && !Offered(live, session, n - 1, e.id))) then
          [e] else []
  }

  ghost predicate Remembers(passed: set<ID>, seen: set<ID>, live: seq<Event>, session: ID, n: nat)
    requires n <= |live|
  {
    forall id :: id != NO_ID ==> (id in passed <==> id in seen || Offered(live, session, n, id))
  }

  lemma OfferedNext(live: seq<Event>, session: ID, n: nat, id: ID)
    requires n < |live|
    ensures Offered(live, session, n + 1, id) <==>
              Offered(live, session, n, id) || (ForSession(live[n], session) && live[n].id == id)
  {
    if Offered(live, session, n, id) {
      var k :| 0 <= k < n && ForSession(live[k], session) && live[k].id == id;
      assert 0 <= k < n + 1;
    }
  }

  /** The last id set among the events, or the one there was before. */
  function LatestID(before: ID, events: seq<Event>): ID {
    if events == [] then before
    else
      var e := events[|events| - 1];
      if e.id != NO_ID then e.id else LatestID(before, events[..|events| - 1])
  }

  lemma LatestNext(before: ID, events: seq<Event>, e: Event)
    ensures LatestID(before, events + [e]) == if e.id != NO_ID then e.id else LatestID(before, events)
  {
    assert (events + [e])[..|events|] == events;
  }

  /** An event of the tail is passed on if it is the session's and its id is not remembered. */
  predicate Wanted(passed: set<ID>, session: ID, e: Event) {
    ForSession(e, session) && (e.id == NO_ID || e.id !in passed)
  }

  lemma {:induction false} ForwardStep(live: seq<Event>, session: ID, seen: set<ID>, passed: set<ID>, before: ID,
                                       i: nat)
    requires i < |live| && Remembers(passed, seen, live, session, i)
    ensures Forwarded(live, session, seen, i + 1) ==
              Forwarded(live, session, seen, i) + if Wanted(passed, session, live[i]) then [live[i]] else []
    ensures LatestID(before, Forwarded(live, session, seen, i + 1)) ==
              if Wanted(passed, session, live[i]) && live[i].id != NO_ID then live[i].id
                  else LatestID(before, Forwarded(live, session, seen, i))
  {
    var front, e := Forwarded(live, session, seen, i), live[i];
    LatestNext(before, front, e);
    assert front + [] == front;
  }

  lemma RememberStep(live: seq<Event>, session: ID, seen: set<ID>, passed: set<ID>, i: nat)
    requires i < |live| && Remembers(passed, seen, live, session, i)
    ensures Remembers(if ForSession(live[i], session) && live[i].id != NO_ID then passed + {live[i].id}
              else passed, seen, live, session, i + 1)
  {
    forall id ensures Offered(live, session, i + 1, id) <==>
        Offered(live, session, i, id) || (ForSession(live[i], session) && live[i].id == id) {
      OfferedNext(live, session, i, id);
    }
  }

  /** Following the tail to its end, to an overflow, or to the first error. */
  method Follow(sink: Sink, live: seq<Event>, session: ID, seen: set<ID>, next: Cursor)
    returns (overflow: bool, next': Cursor, ghost n: nat)
    modifies sink
    ensures n <= |live| && sink.emitted == old(sink.emitted) + Forwarded(live, session, seen, n)
    ensures overflow ==> n < |live| && ForSession(live[n], session) && live[n].kind == Overflow
    ensures !overflow ==> n == |live| || sink.Failed() || sink.Cancelled()
    ensures !sink.Failed() ==> next'.after == LatestID(next.after, Forwarded(live, session, seen, n))
  {
    var passed := seen;
    next' := next;
    for i := 0 to |live|
      invariant sink.emitted == old(sink.emitted) + Forwarded(live, session, seen, i)
      invariant Remembers(passed, seen, live, session, i)
      invariant next'.after == LatestID(next.after, Forwarded(live, session, seen, i))
    {
      if sink.Cancelled() {
        return false, next', i;
      }
      var event := live[i];
      ForwardStep(live, session, seen, passed, next.after, i);
      RememberStep(live, session, seen, passed, i);
      if event.session != NO_ID && event.session != session {
        continue;
      }
      if event.kind == Overflow {
        return true, next', i;
      }
      if event.id != NO_ID && event.id in passed {
        assert passed + {event.id} == passed;
        continue;
      }
      sink.Emit(event);
      if sink.Failed() {
        return false, next', i + 1;
      }
      if event.id != NO_ID {
        passed, next' := passed + {event.id}, Cursor(event.id, next.limit);
      }
    }
    return false, next', |live|;
  }

  /** However the tail repeats itself or overlaps the replayed records, no id is passed twice. */
  lemma {:induction false} ForwardedOnce(replayed: seq<Event>, live: seq<Event>, session: ID, seen: set<ID>, n: nat)
    requires OncePerID(replayed) && IDsAre(replayed, seen) && n <= |live|
    ensures OncePerID(replayed + Forwarded(live, session, seen, n))
    ensures forall e | e in Forwarded(live, session, seen, n) && e.id != NO_ID ::
              e.id !in seen && Offered(live, session, n, e.id)
  {
    if n == 0 {
      assert replayed + [] == replayed;
    } else {
      ForwardedOnce(replayed, live, session, seen, n - 1);
      var front, e := Forwarded(live, session, seen, n - 1), live[n - 1];
      forall x | x in front && x.id != NO_ID ensures Offered(live, session, n, x.id) {
        OfferedNext(live, session, n - 1, x.id);
      }
      if ForSession(e, session) && (e.id == NO_ID || (e.id !in seen && !Offered(live, session, n - 1, e.id))) {
        OfferedNext(live, session, n - 1, e.id);
        OnceMore(replayed + front, e, seen, replayed, front);
        assert replayed + front + [e] == replayed + Forwarded(live, session, seen, n);
      } else {
        assert Forwarded(live, session, seen, n) == front;
      }
    }
  }

  lemma OnceMore(all: seq<Event>, e: Event, seen: set<ID>, replayed: seq<Event>, front: seq<Event>)
    requires all == replayed + front && OncePerID(all) && IDsAre(replayed, seen)
    requires e.id != NO_ID ==> e.id !in seen && forall x | x in front :: x.id != e.id
    ensures OncePerID(all + [e])
  {
    forall i | 0 <= i < |all| && e.id != NO_ID ensures all[i].id != e.id {
      if i < |replayed| {
        assert all[i] == replayed[i];
      } else {
        assert all[i] in front;
      }
    }
  }

  lemma {:induction false} OpenPausesStand(rank: map<ID, nat>, log: seq<Event>, at: nat, n: nat)
    requires Snapshot(rank, log) && n <= at + 1 <= |log|
    ensures forall e | e in OpenPauses(log[..at + 1], n) :: Place(rank, e.id) <= Place(rank, log[at].id)
  {
    if n > 0 {
      OpenPausesStand(rank, log, at, n - 1);
      assert n - 1 < at ==> rank[log[n - 1].id] < rank[log[at].id];
    }
  }

  lemma SnapshotIsValid(rank: map<ID, nat>, log: seq<Event>)
    requires Snapshot(rank, log)
    ensures ValidLog(log)
  {
    forall i, j | 0 <= i < j < |log| ensures !SameID(log, i, j) && !SameID(log, j, i) {
      assert Place(rank, log[i].id) < Place(rank, log[j].id);
    }
  }

  /** Reconnect: the open pauses up to the cursor, then the message snapshot (which may fail),
      then the durable records after the cursor, then what the tail adds. Replay and tail
      together pass no id on twice, however the tail repeats or overlaps the log. */
  method Reconnect(sink: Sink, before: seq<seq<Event>>, snapshotOk: bool, logs: seq<seq<Event>>, foreign: set<ID>,
                   live: seq<Event>,
                   session: ID, cursor: Cursor, ghost rank: map<ID, nat>, ghost size: nat)
    returns (replayed: bool, next: Cursor, ghost hydrated: seq<Event>, ghost passed: seq<Event>)
    requires Grows(before) && Snapshot(rank, FinalLog(before)) && AllSnapshots(rank, size, logs)
    modifies sink
    ensures sink.emitted == old(sink.emitted) + hydrated + passed
    ensures forall e | e in hydrated :: Place(rank, e.id) <= Place(rank, cursor.after)
    ensures replayed ==>
              snapshotOk && Hydrated(before, cursor, hydrated) && Followed(logs, live, session, cursor, passed)
    ensures OncePerID(passed)
  {
    hydrated, passed, next, replayed := [], [], cursor, true;
    SnapshotIsValid(rank, FinalLog(before));
    if cursor.after != NO_ID {
      ghost var at, sent;
      replayed, at, sent := HydratePausesBeforeCursor(sink, before, foreign, 100, cursor.after);
      hydrated := Hydration(FinalLog(before), at)[..sent];
      HydratedStands(rank, before, cursor, at, sent);
      if !replayed {
        return;
      }
    }
    if !snapshotOk {
      return false, cursor, hydrated, passed;
    }
    replayed, next, passed := ReplayThenFollow(sink, logs, foreign, live, session, cursor, rank, size);
  }

  /** All open pauses up to the cursor's event, if the first read could see that event; none
      without a cursor. */
  ghost predicate Hydrated(logs: seq<seq<Event>>, cursor: Cursor, hydrated: seq<Event>) {
    && (cursor.after == NO_ID ==> hydrated == [])
    && forall k: nat | k < |LogAt(logs, 0)| && LogAt(logs, 0)[k].id == cursor.after != NO_ID ::
         k < |FinalLog(logs)| && hydrated == OpenPauses(FinalLog(logs)[..k + 1], k + 1)
  }

  lemma {:induction false} HydratedStands(rank: map<ID, nat>, logs: seq<seq<Event>>, cursor: Cursor, at: Option<nat>,
                                          sent: nat)
    requires Grows(logs) && Snapshot(rank, FinalLog(logs)) && ValidLog(FinalLog(logs)) && cursor.after != NO_ID
    requires FoundAt(logs, cursor.after, at) && sent <= |Hydration(FinalLog(logs), at)|
    ensures forall e | e in Hydration(FinalLog(logs), at)[..sent] :: Place(rank, e.id) <= Place(rank, cursor.after)
    ensures sent == |Hydration(FinalLog(logs), at)| ==> Hydrated(logs, cursor, Hydration(FinalLog(logs), at)[..sent])
  {
    var all := Hydration(FinalLog(logs), at);
    assert all[..|all|] == all;
    if at.Some? {
      OpenPausesStand(rank, FinalLog(logs), at.value, at.value + 1);
    }
    forall k: nat | k < |LogAt(logs, 0)| && LogAt(logs, 0)[k].id == cursor.after
      ensures at == Some(k) && k < |FinalLog(logs)|
    {
      SeenFirst(logs, cursor.after, at, k);
    }
  }

  /** An event that the first read sees is found, where it is. */
  lemma SeenFirst(logs: seq<seq<Event>>, id: ID, at: Option<nat>, k: nat)
    requires Grows(logs) && ValidLog(FinalLog(logs)) && FoundAt(logs, id, at)
    requires k < |LogAt(logs, 0)| && LogAt(logs, 0)[k].id == id
    ensures at == Some(k) && k < |FinalLog(logs)|
  {
    if at.Some? {
      GrownLog(logs, 0, |logs|);
      assert SameID(FinalLog(logs), k, at.value);
    } else {
      var i: nat :| Missing(logs, i, id);
      GrownLog(logs, 0, i);
    }
  }

  /** All durable records of the pages read to the end, then what the tail adds to them. */
  ghost predicate Followed(logs: seq<seq<Event>>, live: seq<Event>, session: ID, cursor: Cursor, passed: seq<Event>) {
    exists pages, sent, seen, n: nat :: FollowedBy(logs, live, session, cursor, passed, pages, sent, seen, n)
  }

  ghost predicate FollowedBy(logs: seq<seq<Event>>, live: seq<Event>, session: ID, cursor: Cursor, passed: seq<Event>,
                             pages: seq<Batch>, sent: seq<Event>, seen: set<ID>, n: nat)
  {
    n <= |live| && Complete(logs, cursor, pages, sent) && IDsAre(sent, seen)
        && passed == sent + Forwarded(live, session, seen, n)
  }

  method ReplayThenFollow(sink: Sink, logs: seq<seq<Event>>, foreign: set<ID>, live: seq<Event>, session: ID,
                          cursor: Cursor,
                          ghost rank: map<ID, nat>, ghost size: nat)
                              returns (ok: bool, next: Cursor, ghost passed: seq<Event>)
    requires AllSnapshots(rank, size, logs)
    modifies sink
    ensures sink.emitted == old(sink.emitted) + passed && OncePerID(passed)
    ensures ok ==> Followed(logs, live, session, cursor, passed)
  {
    var seen;
    ghost var pages, n;
    ok, next, seen, passed, pages := ReplayAfter(sink, logs, foreign, cursor, rank, size);
    AscendingOnce(rank, Place(rank, cursor.after), passed);
    if ok {
      var overflow;
      overflow, next, n := Follow(sink, live, session, seen, next);
      ForwardedOnce(passed, live, session, seen, n);
      ghost var sent := passed;
      passed := passed + Forwarded(live, session, seen, n);
      assert FollowedBy(logs, live, session, cursor, passed, pages, sent, seen, n);
    }
  }

  /** An id that stands after the cursor is passed to Emit at most once in a reconnection. */
  lemma AtMostOnce(rank: map<ID, nat>, cursor: Cursor, hydrated: seq<Event>, passed: seq<Event>, i: nat, j: nat)
    requires forall e | e in hydrated :: Place(rank, e.id) <= Place(rank, cursor.after)
    requires OncePerID(passed)
    requires i < j < |hydrated + passed| && (hydrated + passed)[i].id != NO_ID
    requires Place(rank, cursor.after) < Place(rank, (hydrated + passed)[i].id)
    ensures (hydrated + passed)[i].id != (hydrated + passed)[j].id
  {
  }

  // ----- what is passed on, record by record

  ghost function IsDurable(events: seq<Event>): nat -> bool {
    (i: nat) => i < |events| && !events[i].liveOnly
  }

  lemma {:induction false} DurableUpTo(events: seq<Event>, n: nat) returns (at: seq<nat>)
    requires n <= |events|
    ensures SelectsTo(events, n, IsDurable(events), at, Durable(events[..n]))
  {
    at := [];
    if n > 0 {
      at := DurableUpTo(events, n - 1);
      SelectsNext(events, n - 1, IsDurable(events), at, Durable(events[..n - 1]));
      DurableNext(events, n - 1);
      assert Durable(events[..n - 1]) + [] == Durable(events[..n - 1]);
      if !events[n - 1].liveOnly {
        at := at + [n - 1];
      }
    }
  }

  /** Replay emits exactly the records that are not live-only, in order. */
  lemma DurableSelects(events: seq<Event>)
    ensures Selects(events, IsDurable(events), Durable(events))
  {
    var at := DurableUpTo(events, |events|);
    assert events[..|events|] == events;
  }

  /** Record j is a durable resume with a valid payload that names the pause. */
  ghost predicate ResumedBy(records: seq<Event>, j: nat, pause: ID) {
    && j < |records| && records[j].kind == Resumed && !records[j].liveOnly && records[j].payload.Some?
    && records[j].payload.value.validResume && records[j].payload.value.resumedPauseID == pause
  }

  /** Record k is a durable pause that decodes and that none of the records resumes. */
  ghost function IsOpen(records: seq<Event>): nat -> bool {
    (k: nat) =>
      && k < |records| && records[k].kind == Paused && !records[k].liveOnly && records[k].payload.Some?
      && forall j: nat :: !ResumedBy(records, j, records[k].payload.value.pauseID)
  }

  lemma OpenIff(records: seq<Event>, k: nat)
    requires k < |records|
    ensures OpenPause(records, records[k]) <==> IsOpen(records)(k)
  {
    if records[k].payload.Some? {
      var pause := records[k].payload.value.pauseID;
      forall j: nat | j < |records| ensures Resolves(records[j], pause) <==> ResumedBy(records, j, pause) {
      }
    }
  }

  lemma {:induction false} OpenUpTo(records: seq<Event>, n: nat) returns (at: seq<nat>)
    requires n <= |records|
    ensures SelectsTo(records, n, IsOpen(records), at, OpenPauses(records, n))
  {
    at := [];
    if n > 0 {
      at := OpenUpTo(records, n - 1);
      SelectsNext(records, n - 1, IsOpen(records), at, OpenPauses(records, n - 1));
      OpenIff(records, n - 1);
      assert OpenPauses(records, n - 1) + [] == OpenPauses(records, n - 1);
      if OpenPause(records, records[n - 1]) {
        at := at + [n - 1];
      }
    }
  }

  /** Hydration emits exactly the open pauses up to the cursor's event, in order. */
  lemma HydrationSelects(log: seq<Event>, k: nat)
    requires k < |log|
    ensures Selects(log[..k + 1], IsOpen(log[..k + 1]), Hydration(log, Some(k)))
  {
    var at := OpenUpTo(log[..k + 1], k + 1);
  }

  /** The session's own events that replay has not passed and the tail has not offered before. */
  ghost function IsNew(live: seq<Event>, session: ID, seen: set<ID>): nat -> bool {
    (k: nat) =>
      && k < |live| && (live[k].session == NO_ID || live[k].session == session)
      && (live[k].id != NO_ID ==> live[k].id !in seen && forall j: nat | j < k :: !SameOffer(live, session, j, k))
  }

  ghost predicate SameOffer(live: seq<Event>, session: ID, j: nat, k: nat) {
    j < |live| && k < |live| && (live[j].session == NO_ID || live[j].session == session) && live[j].id == live[k].id
  }

  lemma NewIff(live: seq<Event>, session: ID, seen: set<ID>, k: nat)
    requires k < |live|
    ensures IsNew(live, session, seen)(k) <==>
              ForSession(live[k], session)
                && (live[k].id == NO_ID || (live[k].id !in seen && !Offered(live, session, k, live[k].id)))
  {
    if j :| 0 <= j < k && ForSession(live[j], session) && live[j].id == live[k].id {
      assert SameOffer(live, session, j, k);
    }
  }

  /** The tail adds exactly those, in order. */
  lemma {:induction false} ForwardedSelects(live: seq<Event>, session: ID, seen: set<ID>, n: nat)
    returns (at: seq<nat>)
    requires n <= |live|
    ensures SelectsTo(live, n, IsNew(live, session, seen), at, Forwarded(live, session, seen, n))
  {
    at := [];
    if n > 0 {
      at := ForwardedSelects(live, session, seen, n - 1);
      var front := Forwarded(live, session, seen, n - 1);
      SelectsNext(live, n - 1, IsNew(live, session, seen), at, front);
      NewIff(live, session, seen, n - 1);
      assert front + [] == front;
      if IsNew(live, session, seen)(n - 1) {
        at := at + [n - 1];
      }
    }
  }

  /** The cursor moves to the last event that has an id, if any has. */
  lemma {:induction false} LatestIs(before: ID, events: seq<Event>)
    ensures var id := LatestID(before, events);
            if forall i | 0 <= i < |events| :: events[i].id == NO_ID then id == before
            else exists k :: 0 <= k < |events| && events[k].id == id != NO_ID
                   && forall i | k < i < |events| :: events[i].id == NO_ID
  {
    if events != [] && events[|events| - 1].id == NO_ID {
      var front := events[..|events| - 1];
      LatestIs(before, front);
      if !forall i | 0 <= i < |events| :: events[i].id == NO_ID {
        var i :| 0 <= i < |events| && events[i].id != NO_ID;
        assert front[i].id != NO_ID;
        var k :| 0 <= k < |front| && front[k].id == LatestID(before, front) != NO_ID
            && forall i | k < i < |front| :: front[i].id == NO_ID;
        assert events[k] == front[k];
      }
    }
  }
}
