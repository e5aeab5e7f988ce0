/** Collapsing a durable range to one summary, and re-applying that collapse on later cycles
    (runtime/adk_middleware_recipes.go). */
module Compaction {
  import opened Options
  import opened Selections
  import opened Correlation

  // ----- the walk that both paths share

  /** What becomes of a projected message. */
  datatype Label = Keep | Collapse | Drop

  function Labels(n: nat, collapse: set<nat>, drop: Option<nat>): (labels: seq<Label>)
    ensures |labels| == n
  {
    seq(n, i requires 0 <= i < n => if drop == Some(i) then Drop else if i in collapse then Collapse else Keep)
  }

  /** Kept messages stay, and the first collapsed one becomes the summary. */
  function Walk(ms: seq<Msg>, labels: seq<Label>, summary: Msg, emitted: bool): seq<Msg>
    requires |ms| == |labels|
  {
    if ms == [] then []
    else
      match labels[0]
      case Drop => Walk(ms[1..], labels[1..], summary, emitted)
      case Collapse => (if emitted then [] else [summary]) + Walk(ms[1..], labels[1..], summary, true)
      case Keep => [ms[0]] + Walk(ms[1..], labels[1..], summary, emitted)
  }

  function Emit(m: Msg, l: Label, summary: Msg, emitted: bool): seq<Msg> {
    match l
    case Drop => []
    case Collapse => if emitted then [] else [summary]
    case Keep => [m]
  }

  lemma {:induction false} WalkStep(ms: seq<Msg>, labels: seq<Label>, summary: Msg, emitted: bool, i: nat)
    requires |ms| == |labels| && i < |ms|
    ensures Walk(ms[i..], labels[i..], summary, emitted)
         == Emit(ms[i], labels[i], summary, emitted)
             + Walk(ms[i + 1..], labels[i + 1..], summary, emitted || labels[i] == Collapse)
  {
    assert ms[i..][1..] == ms[i + 1..] && labels[i..][1..] == labels[i + 1..];
  }

  lemma {:induction false} ReassembleStep(result: seq<Msg>, ms: seq<Msg>, labels: seq<Label>, summary: Msg,
                                          emitted: bool, i: nat)
    requires |ms| == |labels| && i < |ms|
    ensures var rest := Walk(ms[i + 1..], labels[i + 1..], summary, emitted || labels[i] == Collapse);
            result + Walk(ms[i..], labels[i..], summary, emitted) ==
            match labels[i]
            case Drop => result + rest
            case Collapse => (if emitted then result else result + [summary]) + rest
            case Keep => (result + [ms[i]]) + rest
  {
    WalkStep(ms, labels, summary, emitted, i);
    var piece := Emit(ms[i], labels[i], summary, emitted);
    var rest := Walk(ms[i + 1..], labels[i + 1..], summary, emitted || labels[i] == Collapse);
    assert result + (piece + rest) == (result + piece) + rest && result + [] == result;
  }

  method Reassemble(ms: seq<Msg>, collapse: set<nat>, drop: Option<nat>, summary: Msg) returns (result: seq<Msg>)
    ensures result == Walk(ms, Labels(|ms|, collapse, drop), summary, false)
  {
    ghost var labels := Labels(|ms|, collapse, drop);
    result := [];
    var emitted := false;
    for i := 0 to |ms|
      invariant result + Walk(ms[i..], labels[i..], summary, emitted) == Walk(ms, labels, summary, false)
    {
      ReassembleStep(result, ms, labels, summary, emitted, i);
      if drop == Some(i) {
      } else if i in collapse {
        if !emitted {
          result := result + [summary];
          emitted := true;
        }
      } else {
        result := result + [ms[i]];
      }
    }
  }

  /** The messages neither collapsed nor dropped, in order. */
  function Uncollapsed(ms: seq<Msg>, labels: seq<Label>): seq<Msg>
    requires |ms| == |labels|
  {
    if ms == [] then []
    else (if labels[0] == Keep then [ms[0]] else []) + Uncollapsed(ms[1..], labels[1..])
  }

  lemma {:induction false} WalkSplits(a: seq<Msg>, b: seq<Msg>, la: seq<Label>, lb: seq<Label>, summary: Msg,
                                      emitted: bool)
    requires |a| == |la| && |b| == |lb|
    ensures Walk(a + b, la + lb, summary, emitted) == Walk(a, la, summary, emitted)
              + Walk(b, lb, summary, emitted || Collapse in la)
  {
    if a == [] {
      assert a + b == b && la + lb == lb;
    } else {
      assert (a + b)[1..] == a[1..] + b && (la + lb)[1..] == la[1..] + lb;
      assert la == [la[0]] + la[1..];
      WalkSplits(a[1..], b, la[1..], lb, summary, emitted || la[0] == Collapse);
    }
  }

  lemma {:induction false} WalkAfterSummary(ms: seq<Msg>, labels: seq<Label>, summary: Msg)
    requires |ms| == |labels|
    ensures Walk(ms, labels, summary, true) == Uncollapsed(ms, labels)
  {
    if ms != [] {
      WalkAfterSummary(ms[1..], labels[1..], summary);
    }
  }

  lemma {:induction false} WalkWithoutCollapse(ms: seq<Msg>, labels: seq<Label>, summary: Msg)
    requires |ms| == |labels| && Collapse !in labels
    ensures Walk(ms, labels, summary, false) == Uncollapsed(ms, labels)
  {
    if ms != [] {
      assert labels[0] in labels && forall l | l in labels[1..] :: l in labels;
      WalkWithoutCollapse(ms[1..], labels[1..], summary);
    }
  }

  /** Exactly one summary, where the first collapsed message stood; around it every other
      message, once and in order. */
  lemma {:induction false} OneSummary(ms: seq<Msg>, labels: seq<Label>, summary: Msg, k: nat)
    requires |ms| == |labels| && k < |ms| && labels[k] == Collapse && Collapse !in labels[..k]
    ensures Walk(ms, labels, summary, false) == Uncollapsed(ms[..k], labels[..k]) + [summary]
              + Uncollapsed(ms[k + 1..], labels[k + 1..])
  {
    assert ms == ms[..k] + ms[k..] && labels == labels[..k] + labels[k..];
    WalkSplits(ms[..k], ms[k..], labels[..k], labels[k..], summary, false);
    WalkWithoutCollapse(ms[..k], labels[..k], summary);
    assert ms[k..][1..] == ms[k + 1..] && labels[k..][1..] == labels[k + 1..];
    WalkAfterSummary(ms[k + 1..], labels[k + 1..], summary);
  }

  function Contents(ms: seq<Msg>): (r: seq<string>)
    ensures |r| == |ms| && forall i | 0 <= i < |ms| :: r[i] == ms[i].content
  {
    seq(|ms|, i requires 0 <= i < |ms| => ms[i].content)
  }

  lemma {:induction false} WalkSeesContents(a: seq<Msg>, b: seq<Msg>, labels: seq<Label>, summary: Msg, emitted: bool)
    requires |a| == |b| == |labels| && Contents(a) == Contents(b)
    ensures Contents(Walk(a, labels, summary, emitted)) == Contents(Walk(b, labels, summary, emitted))
  {
    if a != [] {
      assert a[0].content == Contents(a)[0] && b[0].content == Contents(b)[0];
      assert Contents(a[1..]) == Contents(a)[1..] && Contents(b[1..]) == Contents(b)[1..];
      WalkSeesContents(a[1..], b[1..], labels[1..], summary, emitted || labels[0] == Collapse);
    }
  }

  lemma {:induction false} WalkKeepsAll(ms: seq<Msg>, labels: seq<Label>, summary: Msg, emitted: bool)
    requires |ms| == |labels| && forall i | 0 <= i < |labels| :: labels[i] == Keep
    ensures Walk(ms, labels, summary, emitted) == ms
  {
    if ms != [] {
      WalkKeepsAll(ms[1..], labels[1..], summary, emitted);
    }
  }

  // ----- re-applying: the range by ids

  /** Whether the scan is inside [from, to] after n messages. */
  function InRange(tags: seq<Option<string>>, from: string, to: string, boundary: string, n: nat): bool
    requires n <= |tags|
  {
    if n == 0 then false
    else
      var r := InRange(tags, from, to, boundary, n - 1);
      if tags[n - 1].None? || tags[n - 1] == Some(boundary) then r
      else tags[n - 1] != Some(to) && (r || tags[n - 1] == Some(from))
  }

  predicate Collapses(tags: seq<Option<string>>, from: string, to: string, boundary: string, i: nat)
    requires i < |tags|
  {
    && tags[i].Some? && tags[i] != Some(boundary)
    && (tags[i] == Some(from) || InRange(tags, from, to, boundary, i))
  }

  function CollapseSet(tags: seq<Option<string>>, from: string, to: string, boundary: string, n: nat): set<nat>
    requires n <= |tags|
  {
    set i: nat | i < n && Collapses(tags, from, to, boundary, i)
  }

  /** The last message tagged with the boundary's id. */
  function LastTagged(tags: seq<Option<string>>, boundary: string, n: nat): (r: Option<nat>)
    requires n <= |tags|
    ensures r.Some? ==> r.value < n && tags[r.value] == Some(boundary)
    ensures forall i | 0 <= i < n && (r.None? || r.value < i) :: tags[i] != Some(boundary)
  {
    if n == 0 then None
    else if tags[n - 1] == Some(boundary) then Some(n - 1) else LastTagged(tags, boundary, n - 1)
  }

  function Reapply(ms: seq<Msg>, source: map<nat, string>, baseline: seq<Slot>,
                   from: string, to: string, boundary: string, summary: Msg): Option<seq<Msg>>
  {
    match Correlate(ms, source, baseline)
    case None => None
    case Some(tags) => ReapplyTagged(ms, tags, from, to, boundary, summary)
  }

  function ReapplyTagged(ms: seq<Msg>, tags: seq<Option<string>>, from: string, to: string, boundary: string,
                         summary: Msg): Option<seq<Msg>> {
    var collapse := CollapseSet(tags, from, to, boundary, |tags|);
    var drop := LastTagged(tags, boundary, |tags|);
    if collapse == {} && drop.None? then None else Some(Walk(ms, Labels(|ms|, collapse, drop), summary, false))
  }

  /** Untagged messages change nothing in the scan. */
  lemma {:induction false} UntaggedGap(tags: seq<Option<string>>, from: string, to: string, boundary: string, a: nat,
                                       b: nat)
    requires a <= b <= |tags| && forall i | a <= i < b :: tags[i].None?
    ensures InRange(tags, from, to, boundary, a) == InRange(tags, from, to, boundary, b)
    ensures CollapseSet(tags, from, to, boundary, a) == CollapseSet(tags, from, to, boundary, b)
    ensures LastTagged(tags, boundary, a) == LastTagged(tags, boundary, b)
    decreases b
  {
    if a < b {
      UntaggedGap(tags, from, to, boundary, a, b - 1);
    }
  }

  /** Between consecutive entries of the tagged positions nothing is tagged. */
  lemma {:induction false} TaggedIsAll(tags: seq<Option<string>>, n: nat)
    requires n <= |tags|
    ensures var d := Tagged(tags, n);
            && (forall j, k | 0 <= j < k < |d| :: d[j] < d[k])
            && (forall i | 0 <= i < n && tags[i].Some? :: i in d)
  {
    if n > 0 {
      TaggedIsAll(tags, n - 1);
    }
  }

  function Place(d: seq<nat>, j: nat, end: nat): nat
    requires j <= |d|
  {
    if j < |d| then d[j] else end
  }

  lemma {:induction false} GapBefore(tags: seq<Option<string>>, j: nat)
    requires var d := Tagged(tags, |tags|); j <= |d|
    ensures var d := Tagged(tags, |tags|);
            var start := if j == 0 then 0 else d[j - 1] + 1;
            start <= Place(d, j, |tags|) <= |tags| && forall i | start <= i < Place(d, j, |tags|) :: tags[i].None?
  {
    TaggedIsAll(tags, |tags|);
    var d := Tagged(tags, |tags|);
    var start := if j == 0 then 0 else d[j - 1] + 1;
    forall i | start <= i < Place(d, j, |tags|) ensures tags[i].None? {
      forall k | 0 <= k < |d| ensures d[k] != i {
        assert k < j ==> d[k] <= d[j - 1];
        assert j < k ==> d[j] < d[k];
      }
    }
  }

  /** The range scan over the tagged positions only. */
  method ScanRange(ghost tags: seq<Option<string>>, ids: seq<string>, durable: seq<nat>, from: string, to: string,
                   boundary: string)
    returns (collapse: set<nat>, drop: Option<nat>)
    requires ids == IDs(tags) && durable == Tagged(tags, |tags|)
    ensures collapse == CollapseSet(tags, from, to, boundary, |tags|) && drop == LastTagged(tags, boundary, |tags|)
  {
    collapse, drop := {}, None;
    var inRange := false;
    GapBefore(tags, 0);
    UntaggedGap(tags, from, to, boundary, 0, Place(durable, 0, |tags|));
    for j := 0 to |durable|
      invariant var n := Place(durable, j, |tags|);
                && n <= |tags| && inRange == InRange(tags, from, to, boundary, n)
                && collapse == CollapseSet(tags, from, to, boundary, n) && drop == LastTagged(tags, boundary, n)
    {
      var at := durable[j];
      GapBefore(tags, j + 1);
      UntaggedGap(tags, from, to, boundary, at + 1, Place(durable, j + 1, |tags|));
      CollapseStep(tags, from, to, boundary, at);
      var id := ids[at];
      if id == boundary {
        drop := Some(at);
      } else {
        if id == from {
          inRange := true;
        }
        if inRange {
          collapse := collapse + {at};
        }
        if id == to {
          inRange := false;
        }
      }
    }
  }

  lemma CollapseStep(tags: seq<Option<string>>, from: string, to: string, boundary: string, n: nat)
    requires n < |tags|
    ensures CollapseSet(tags, from, to, boundary, n + 1)
         == CollapseSet(tags, from, to, boundary, n) + if Collapses(tags, from, to, boundary, n) then {n} else {}
  {
  }

  method ReapplyDurableSummary(ms: seq<Msg>, source: map<nat, string>, baseline: seq<Slot>,
                               from: string, to: string, boundary: string, summary: Msg) returns (r: Option<seq<Msg>>)
    ensures r == Reapply(ms, source, baseline, from, to, boundary, summary)
  {
    var ok, ids, durable := CorrelateDurableSubsequence(ms, source, baseline);
    if !ok {
      return None;
    }
    ghost var tags := Correlate(ms, source, baseline).value;
    var collapse, drop := ScanRange(tags, ids, durable, from, to, boundary);
    if collapse == {} && drop.None? {
      return None;
    }
    var out := Reassemble(ms, collapse, drop, summary);
    return Some(out);
  }

  // ----- the first application: the range by position

  /** What the reloaded history says of a durable message. */
  datatype Durable = Durable(system: bool, calls: set<string>, results: set<string>)

  function TailCut(durable: seq<Durable>, t: nat): (r: nat)
    requires t <= |durable|
    ensures r <= t
  {
    if t == 0 then 0
    else if t < |durable| && durable[t].results != {} then TailCut(durable, t - 1)
    else if durable[t - 1].calls != {} then TailCut(durable, t - 1)
    else t
  }

  method MoveTailStartToGroupBoundary(durable: seq<Durable>, tailStart: nat) returns (t: nat)
    requires tailStart <= |durable|
    ensures t == TailCut(durable, tailStart)
  {
    t := tailStart;
    while t > 0
      invariant t <= |durable| && TailCut(durable, t) == TailCut(durable, tailStart)
    {
      if t < |durable| && durable[t].results != {} {
        t := t - 1;
        continue;
      }
      if durable[t - 1].calls != {} {
        t := t - 1;
        continue;
      }
      break;
    }
  }

  /** Call message j owns result message i. */
  predicate Owns(durable: seq<Durable>, j: int, i: int) {
    0 <= j < i < |durable| && durable[j].calls * durable[i].results != {}
  }

  ghost predicate Separates(durable: seq<Durable>, t: nat) {
    exists j, i :: Owns(durable, j, i) && j < t <= i
  }

  /** Result message i stands in the run of results right after call message j, and answers it. */
  ghost predicate InGroup(durable: seq<Durable>, j: int, i: int) {
    && 0 <= j < i < |durable| && durable[i].results <= durable[j].calls
    && forall k | j < k <= i :: durable[k].results != {}
  }

  ghost predicate HasGroup(durable: seq<Durable>, i: int) {
    exists j :: InGroup(durable, j, i)
  }

  /** Every call message is followed directly by its results, and results stand nowhere else. */
  ghost predicate Grouped(durable: seq<Durable>) {
    && (forall j, i | 0 <= j < i < |durable| :: durable[j].calls !! durable[i].calls)
    && (forall i | 0 <= i < |durable| && durable[i].results != {} :: HasGroup(durable, i))
    && (forall j | 0 <= j < |durable| && durable[j].calls != {} :: Owns(durable, j, j + 1))
  }

  /** The cut before a result separates it from its call. */
  lemma ResultCutSeparates(durable: seq<Durable>, t: nat)
    requires Grouped(durable) && t < |durable| && durable[t].results != {}
    ensures Separates(durable, t)
  {
    assert HasGroup(durable, t);
    var j :| InGroup(durable, j, t);
    assert durable[j].calls * durable[t].results == durable[t].results;
    assert Owns(durable, j, t);
  }

  lemma CallCutSeparates(durable: seq<Durable>, t: nat)
    requires Grouped(durable) && 0 < t <= |durable| && durable[t - 1].calls != {}
    ensures Separates(durable, t)
  {
    assert Owns(durable, t - 1, t);
  }

  lemma WholeCut(durable: seq<Durable>, t: nat)
    requires Grouped(durable) && t <= |durable| && (t < |durable| ==> durable[t].results == {})
    ensures !Separates(durable, t)
  {
  }

  /** What makes the walk move on from a cut. */
  predicate Moves(durable: seq<Durable>, t: int) {
    0 < t <= |durable| && ((t < |durable| && durable[t].results != {}) || durable[t - 1].calls != {})
  }

  lemma {:induction false} TailCutStops(durable: seq<Durable>, t: nat)
    requires t <= |durable|
    ensures !Moves(durable, TailCut(durable, t)) && forall c | TailCut(durable, t) < c <= t :: Moves(durable, c)
  {
    if Moves(durable, t) {
      TailCutStops(durable, t - 1);
    }
  }

  lemma MovesIffSeparates(durable: seq<Durable>, c: nat)
    requires Grouped(durable) && c <= |durable|
    ensures Moves(durable, c) <==> Separates(durable, c)
  {
    if Moves(durable, c) {
      if c < |durable| && durable[c].results != {} {
        ResultCutSeparates(durable, c);
      } else {
        CallCutSeparates(durable, c);
      }
    } else if c > 0 {
      WholeCut(durable, c);
    }
  }

  /** The cut that comes back separates no call from a result, and every later cut up to the
      requested one would. */
  lemma {:induction false} TailCutIsLargestWhole(durable: seq<Durable>, t: nat)
    requires Grouped(durable) && t <= |durable|
    ensures !Separates(durable, TailCut(durable, t))
    ensures forall c: nat | TailCut(durable, t) < c <= t :: Separates(durable, c)
  {
    TailCutStops(durable, t);
    MovesIffSeparates(durable, TailCut(durable, t));
    forall c: nat | TailCut(durable, t) < c <= t ensures Separates(durable, c) {
      MovesIffSeparates(durable, c);
    }
  }

  function SystemPrefix(durable: seq<Durable>, t: nat): (p: nat)
    requires t <= |durable|
    ensures p <= t && (forall k | 0 <= k < p :: durable[k].system) && (p < t ==> !durable[p].system)
  {
    if t == 0 then 0
    else
      var p := SystemPrefix(durable, t - 1);
      if p == t - 1 && durable[p].system then t else p
  }

  datatype Failure = EmptySummary | Uncorrelated | MissingDurable | TailUnsplittable | CommitFailed
  datatype Outcome = Unchanged | Failed(why: Failure) | Compacted(out: seq<Msg>, from: string, to: string)

  /** The positions collapsed: the durable ranks p up to t. */
  function RankSet(durable: seq<nat>, p: nat, t: nat): set<nat>
    requires t <= |durable|
  {
    set k | p <= k < t :: durable[k]
  }

  /** The range chosen for a durable conversation, or why there is none. */
  datatype Choice = Nothing | Impossible | Range(p: nat, t: nat)

  function Choose(durable: seq<Durable>, retainTail: int): (c: Choice)
    ensures c.Range? ==> c.p < c.t <= |durable|
  {
    var retain := if retainTail < 0 then 0 else retainTail;
    if retain >= |durable| then Nothing
    else
      var t := TailCut(durable, |durable| - retain);
      if t == 0 then Impossible
      else
        var p := SystemPrefix(durable, t);
        if p >= t then Nothing else Range(p, t)
  }

  /** The chosen range keeps the leading system messages and at least the requested tail, and
      for grouped histories no call is separated from a result where the tail begins; a
      later cut up to the requested one would separate some. */
  lemma {:induction false} RangeIsWhole(durable: seq<Durable>, retainTail: int)
    requires Grouped(durable) && Choose(durable, retainTail).Range?
    ensures var c := Choose(durable, retainTail);
            && c.p < c.t <= |durable| && |durable| - c.t >= retainTail && !Separates(durable, c.t)
            && (forall k | 0 <= k < c.p :: durable[k].system) && !durable[c.p].system
            && (forall cut: nat | c.t < cut && |durable| - cut >= retainTail && cut <= |durable| ::
               Separates(durable, cut))
  {
    TailCutIsLargestWhole(durable, |durable| - if retainTail < 0 then 0 else retainTail);
  }

  // ----- which range is chosen, on the conversation

  /** A cut in front of which no call message stands, nor a result message behind it. */
  predicate Stands(durable: seq<Durable>, c: int) {
    0 < c <= |durable| && durable[c - 1].calls == {} && (c < |durable| ==> durable[c].results == {})
  }

  /** The cut leaves at least the requested tail. */
  predicate LeavesTail(durable: seq<Durable>, retainTail: int, c: int) {
    0 < c <= |durable| && |durable| - c >= retainTail
  }

  /** The last standing cut that leaves the tail. */
  ghost predicate IsCut(durable: seq<Durable>, retainTail: int, c: int) {
    && LeavesTail(durable, retainTail, c) && Stands(durable, c)
    && forall d | c < d && LeavesTail(durable, retainTail, d) :: !Stands(durable, d)
  }

  ghost predicate AllSystem(durable: seq<Durable>, c: int) {
    forall k | 0 <= k < c && k < |durable| :: durable[k].system
  }

  lemma {:induction false} CutIsLast(durable: seq<Durable>, retainTail: int, retain: nat)
    requires retain == (if retainTail < 0 then 0 else retainTail) && retain < |durable|
    ensures var t := TailCut(durable, |durable| - retain);
            && (t > 0 <==> exists c :: IsCut(durable, retainTail, c))
            && forall c :: IsCut(durable, retainTail, c) <==> t > 0 && c == t
  {
    var t := TailCut(durable, |durable| - retain);
    TailCutStops(durable, |durable| - retain);
    assert forall c: int :: Moves(durable, c) ==> !Stands(durable, c);
    assert forall c: int | LeavesTail(durable, retainTail, c) :: c <= |durable| - retain;
    if t > 0 {
      assert IsCut(durable, retainTail, t);
    }
  }

  /** For every conversation: a range is chosen exactly if some cut stands and a message in front
      of the last one is not the system's; it goes from the first such message to that cut. It
      is impossible exactly if the tail is shorter than the conversation and no cut stands. */
  lemma {:induction false} ChoiceIsExact(durable: seq<Durable>, retainTail: int)
    ensures forall p: nat, t: nat :: Choose(durable, retainTail) == Range(p, t) <==>
              && |durable| > retainTail && IsCut(durable, retainTail, t)
              && p < t && AllSystem(durable, p) && !durable[p].system
    ensures Choose(durable, retainTail) == Impossible <==>
              durable != [] && |durable| > retainTail && forall c :: !IsCut(durable, retainTail, c)
    ensures Choose(durable, retainTail) == Nothing <==>
              || durable == [] || |durable| <= retainTail
              || exists t :: IsCut(durable, retainTail, t) && AllSystem(durable, t)
  {
    var retain := if retainTail < 0 then 0 else retainTail;
    if retain < |durable| {
      CutIsLast(durable, retainTail, retain);
    }
  }

  lemma StandsIffWhole(durable: seq<Durable>, c: nat)
    requires Grouped(durable) && 0 < c <= |durable|
    ensures Stands(durable, c) <==> !Separates(durable, c)
  {
    MovesIffSeparates(durable, c);
  }

  /** For grouped histories a standing cut is one that separates no call from a result. */
  lemma {:induction false} CutIsWhole(durable: seq<Durable>, retainTail: int, c: nat)
    requires Grouped(durable)
    ensures IsCut(durable, retainTail, c) <==>
              && LeavesTail(durable, retainTail, c) && !Separates(durable, c)
              && forall d: nat | c < d && LeavesTail(durable, retainTail, d) :: Separates(durable, d)
  {
    forall d: nat | LeavesTail(durable, retainTail, d) ensures Stands(durable, d) <==> !Separates(durable, d) {
      StandsIffWhole(durable, d);
    }
  }

  method ChooseRange(durable: seq<Durable>, retainTail: int) returns (c: Choice)
    ensures c == Choose(durable, retainTail)
  {
    var retain := if retainTail < 0 then 0 else retainTail;
    if retain >= |durable| {
      return Nothing;
    }
    var t := MoveTailStartToGroupBoundary(durable, |durable| - retain);
    if t <= 0 {
      return Impossible;
    }
    var p: nat := 0;
    while p < t && durable[p].system
      invariant p <= t && forall k | 0 <= k < p :: durable[k].system
    {
      p := p + 1;
    }
    c := if p >= t then Nothing else Range(p, t);
  }

  predicate AllKnown(tags: seq<Option<string>>, d: seq<nat>, history: map<string, Durable>)
    requires forall k | 0 <= k < |d| :: d[k] < |tags| && tags[d[k]].Some?
  {
    forall k | 0 <= k < |d| :: tags[d[k]].value in history
  }

  function Conversation(tags: seq<Option<string>>, d: seq<nat>, history: map<string, Durable>): (c: seq<Durable>)
    requires forall k | 0 <= k < |d| :: d[k] < |tags| && tags[d[k]].Some?
    requires AllKnown(tags, d, history)
    ensures |c| == |d| && forall k | 0 <= k < |d| :: c[k] == history[tags[d[k]].value]
  {
    seq(|d|, k requires 0 <= k < |d| => history[tags[d[k]].value])
  }

  function Finalize(ms: seq<Msg>, source: map<nat, string>, baseline: seq<Slot>, history: map<string, Durable>,
                    retainTail: int, summary: Msg, blank: bool, commits: bool): Outcome
  {
    if blank then Failed(EmptySummary)
    else
      match Correlate(ms, source, baseline)
      case None => Failed(Uncorrelated)
      case Some(tags) => Compact(ms, tags, history, retainTail, summary, commits)
  }

  function Compact(ms: seq<Msg>, tags: seq<Option<string>>, history: map<string, Durable>,
                   retainTail: int, summary: Msg, commits: bool): Outcome
  {
    var d := Tagged(tags, |tags|);
    if d == [] then Unchanged
    else if !AllKnown(tags, d, history) then Failed(MissingDurable)
    else
      match Choose(Conversation(tags, d, history), retainTail)
      case Nothing => Unchanged
      case Impossible => Failed(TailUnsplittable)
      case Range(p, t) =>
        if !commits then Failed(CommitFailed)
        else Compacted(Walk(ms, Labels(|ms|, RankSet(d, p, t), None), summary, false), tags[d[p]].value,
            tags[d[t - 1]].value)
  }

  /** Looking the correlated messages up in the reloaded history. */
  method Lookup(ghost tags: seq<Option<string>>, ids: seq<string>, d: seq<nat>, history: map<string, Durable>)
    returns (ok: bool, c: seq<Durable>)
    requires ids == IDs(tags) && d == Tagged(tags, |tags|)
    ensures ok <==> AllKnown(tags, d, history)
    ensures ok ==> c == Conversation(tags, d, history)
  {
    c := [];
    for k := 0 to |d|
      invariant |c| == k && forall j | 0 <= j < k :: tags[d[j]].value in history && c[j] == history[tags[d[j]].value]
    {
      if ids[d[k]] !in history {
        return false, [];
      }
      c := c + [history[ids[d[k]]]];
    }
    ok := true;
  }

  method SummarizedPositions(d: seq<nat>, p: nat, t: nat) returns (r: set<nat>)
    requires p <= t <= |d|
    ensures r == RankSet(d, p, t)
  {
    r := {};
    for k := p to t
      invariant r == RankSet(d, p, k)
    {
      r := r + {d[k]};
    }
  }

  method SummarizationFinalize(ms: seq<Msg>, source: map<nat, string>, baseline: seq<Slot>,
                               history: map<string, Durable>,
                               retainTail: int, summary: Msg, blank: bool, commits: bool) returns (r: Outcome)
    ensures r == Finalize(ms, source, baseline, history, retainTail, summary, blank, commits)
  {
    if blank {
      return Failed(EmptySummary);
    }
    var ok, ids, d := CorrelateDurableSubsequence(ms, source, baseline);
    if !ok {
      return Failed(Uncorrelated);
    }
    r := CompactTagged(ms, Correlate(ms, source, baseline).value, ids, d, history, retainTail, summary, commits);
  }

  /** What follows the correlation. */
  method CompactTagged(ms: seq<Msg>, ghost tags: seq<Option<string>>, ids: seq<string>, d: seq<nat>,
                       history: map<string, Durable>,
                       retainTail: int, summary: Msg, commits: bool) returns (r: Outcome)
    requires ids == IDs(tags) && d == Tagged(tags, |tags|)
    ensures r == Compact(ms, tags, history, retainTail, summary, commits)
  {
    if |d| == 0 {
      return Unchanged;
    }
    var known, conversation := Lookup(tags, ids, d, history);
    if !known {
      return Failed(MissingDurable);
    }
    var choice := ChooseRange(conversation, retainTail);
    match choice
    case Nothing => return Unchanged;
    case Impossible => return Failed(TailUnsplittable);
    case Range(p, t) =>
      if !commits {
        return Failed(CommitFailed);
      }
      var summarized := SummarizedPositions(d, p, t);
      var out := Reassemble(ms, summarized, None, summary);
      return Compacted(out, ids[d[p]], ids[d[t - 1]]);
  }

  // ----- all outcomes of the first application

  /** The durable conversation that the tags name, if the history knows all of it. */
  ghost predicate IsConversation(tags: seq<Option<string>>, history: map<string, Durable>, at: seq<nat>,
                                 c: seq<Durable>) {
    && |at| == |c| && Increasing(at)
    && (forall i: nat :: i in at <==> i < |tags| && tags[i].Some?)
    && forall k | 0 <= k < |at| :: at[k] < |tags| && tags[at[k]].Some? && tags[at[k]].value in history
           && c[k] == history[tags[at[k]].value]
  }

  ghost predicate Unknown(tags: seq<Option<string>>, history: map<string, Durable>) {
    exists i: nat :: i < |tags| && tags[i].Some? && tags[i].value !in history
  }

  lemma {:induction false} TaggedHolds(tags: seq<Option<string>>, i: nat)
    ensures i in Tagged(tags, |tags|) <==> i < |tags| && tags[i].Some?
  {
    TaggedIsAll(tags, |tags|);
  }

  lemma {:induction false} KnownIff(tags: seq<Option<string>>, history: map<string, Durable>)
    ensures AllKnown(tags, Tagged(tags, |tags|), history) <==> !Unknown(tags, history)
    ensures AllKnown(tags, Tagged(tags, |tags|), history) ==>
              IsConversation(tags, history, Tagged(tags, |tags|), Conversation(tags, Tagged(tags, |tags|), history))
  {
    var d := Tagged(tags, |tags|);
    TaggedIsAll(tags, |tags|);
    forall i: nat ensures i in d <==> i < |tags| && tags[i].Some? {
      TaggedHolds(tags, i);
    }
    if i: nat :| i < |tags| && tags[i].Some? && tags[i].value !in history {
      assert i in d;
    }
    if !AllKnown(tags, d, history) {
      var k :| 0 <= k < |d| && tags[d[k]].value !in history;
      assert d[k] in d;
    }
  }

  /** What the first application does, case by case: a blank summary, a projection that does not
      correlate, untagged messages only, a message the history lacks, and else as the choice on
      the conversation says. */
  lemma {:induction false} OutcomeIsExact(ms: seq<Msg>, source: map<nat, string>, baseline: seq<Slot>,
                                          history: map<string, Durable>, retainTail: int, summary: Msg, blank: bool,
                                          commits: bool)
    returns (at: seq<nat>, c: seq<Durable>)
    ensures var r := Finalize(ms, source, baseline, history, retainTail, summary, blank, commits);
            var correlated := Correlate(ms, source, baseline);
            && (r == Failed(EmptySummary) <==> blank)
            && (r == Failed(Uncorrelated) <==> !blank && correlated.None?)
            && (!blank && correlated.Some? ==>
                && (r == Failed(MissingDurable) <==> Unknown(correlated.value, history))
                && (!Unknown(correlated.value, history) ==>
                    IsConversation(correlated.value, history, at, c) && Decided(r, c, retainTail, commits)))
  {
    at, c := [], [];
    if !blank && Correlate(ms, source, baseline).Some? {
      at, c := CompactIsExact(ms, Correlate(ms, source, baseline).value, history, retainTail, summary, commits);
    }
  }

  ghost predicate Decided(r: Outcome, c: seq<Durable>, retainTail: int, commits: bool) {
    && (r == Unchanged <==> c == [] || Choose(c, retainTail) == Nothing)
    && (r == Failed(TailUnsplittable) <==> Choose(c, retainTail) == Impossible)
    && (r == Failed(CommitFailed) <==> Choose(c, retainTail).Range? && !commits)
    && (r.Compacted? <==> Choose(c, retainTail).Range? && commits)
  }

  lemma {:induction false} CompactIsExact(ms: seq<Msg>, tags: seq<Option<string>>, history: map<string, Durable>,
                                          retainTail: int, summary: Msg, commits: bool)
    returns (at: seq<nat>, c: seq<Durable>)
    ensures var r := Compact(ms, tags, history, retainTail, summary, commits);
            && r != Failed(EmptySummary) && r != Failed(Uncorrelated)
            && (r == Failed(MissingDurable) <==> Unknown(tags, history))
            && (!Unknown(tags, history) ==> IsConversation(tags, history, at, c) && Decided(r, c, retainTail, commits))
  {
    at, c := Tagged(tags, |tags|), [];
    KnownIff(tags, history);
    if AllKnown(tags, at, history) {
      c := Conversation(tags, at, history);
    } else {
      assert at != [];
    }
  }

  // ----- the range by ids, for any tags

  /** A first message of the range stands at or before i, with no last one in between. */
  ghost predicate OpenedBy(tags: seq<Option<string>>, from: string, to: string, boundary: string, a: nat, n: nat) {
    a < n <= |tags| && tags[a] == Some(from) && from != boundary
      && forall b | a <= b < n && tags[b] == Some(to) :: to == boundary
  }

  lemma {:induction false} InRangeIff(tags: seq<Option<string>>, from: string, to: string, boundary: string, n: nat)
    requires n <= |tags|
    ensures InRange(tags, from, to, boundary, n) <==> exists a: nat :: OpenedBy(tags, from, to, boundary, a, n)
  {
    if n > 0 {
      var m := n - 1;
      InRangeIff(tags, from, to, boundary, m);
      if a: nat :| OpenedBy(tags, from, to, boundary, a, m) {
        assert InRange(tags, from, to, boundary, n) ==> OpenedBy(tags, from, to, boundary, a, n);
      }
      if a: nat :| OpenedBy(tags, from, to, boundary, a, n) {
        assert a < n - 1 ==> OpenedBy(tags, from, to, boundary, a, n - 1);
      }
      if tags[n - 1] == Some(from) && from != boundary && (from == to ==> to == boundary) {
        assert OpenedBy(tags, from, to, boundary, n - 1, n);
      }
    }
  }

  /** Message i is tagged, is not the boundary, and is the first of the range or inside it. */
  ghost predicate Covered(tags: seq<Option<string>>, from: string, to: string, boundary: string, i: nat) {
    && i < |tags| && tags[i].Some? && tags[i] != Some(boundary)
    && (tags[i] == Some(from) || exists a: nat :: OpenedBy(tags, from, to, boundary, a, i))
  }

  /** The boundary's last message. */
  ghost predicate IsBoundary(tags: seq<Option<string>>, boundary: string, i: nat) {
    i < |tags| && tags[i] == Some(boundary) && forall j | i < j < |tags| :: tags[j] != Some(boundary)
  }

  /** Re-applying on any tags refuses exactly if nothing is covered and the boundary is absent;
      otherwise the labels say what each message becomes. */
  lemma {:induction false} ReapplyIsExact(ms: seq<Msg>, tags: seq<Option<string>>, from: string, to: string,
                                          boundary: string, summary: Msg)
    requires |ms| == |tags|
    ensures var r := ReapplyTagged(ms, tags, from, to, boundary, summary);
            && (r.None? <==> forall i: nat | i < |tags| ::
                  !Covered(tags, from, to, boundary, i) && tags[i] != Some(boundary))
            && (r.Some? ==> r.value == Walk(ms, AgainLabels(tags, from, to, boundary), summary, false))
    ensures forall i: nat | i < |tags| :: AgainLabels(tags, from, to, boundary)[i] ==
              if IsBoundary(tags, boundary, i) then Drop
              else if Covered(tags, from, to, boundary, i) then Collapse else Keep
  {
    var collapse := CollapseSet(tags, from, to, boundary, |tags|);
    forall i: nat | i < |tags| ensures i in collapse <==> Covered(tags, from, to, boundary, i) {
      InRangeIff(tags, from, to, boundary, i);
    }
    var last := LastTagged(tags, boundary, |tags|);
    if collapse != {} {
      var i :| i in collapse;
      assert Covered(tags, from, to, boundary, i);
    }
  }

  ghost function IsKept(labels: seq<Label>): nat -> bool {
    (i: nat) => i < |labels| && labels[i] == Keep
  }

  lemma {:induction false} UncollapsedNext(ms: seq<Msg>, labels: seq<Label>, n: nat)
    requires n < |ms| == |labels|
    ensures Uncollapsed(ms[..n + 1], labels[..n + 1]) ==
              Uncollapsed(ms[..n], labels[..n]) + if labels[n] == Keep then [ms[n]] else []
  {
    var summary := ms[n];
    var a, la, b, lb := ms[..n], labels[..n], [ms[n]], [labels[n]];
    assert ms[..n + 1] == a + b && labels[..n + 1] == la + lb;
    WalkSplits(a, b, la, lb, summary, true);
    WalkAfterSummary(a, la, summary);
    WalkAfterSummary(b, lb, summary);
    WalkAfterSummary(a + b, la + lb, summary);
    assert b[1..] == [] && Uncollapsed(b, lb) == if labels[n] == Keep then [ms[n]] else [];
  }

  lemma {:induction false} UncollapsedTo(ms: seq<Msg>, labels: seq<Label>, n: nat) returns (at: seq<nat>)
    requires n <= |ms| == |labels|
    ensures SelectsTo(ms, n, IsKept(labels), at, Uncollapsed(ms[..n], labels[..n]))
  {
    at := [];
    if n > 0 {
      at := UncollapsedTo(ms, labels, n - 1);
      UncollapsedNext(ms, labels, n - 1);
      SelectsNext(ms, n - 1, IsKept(labels), at, Uncollapsed(ms[..n - 1], labels[..n - 1]));
      if labels[n - 1] == Keep {
        at := at + [n - 1];
      }
    }
  }

  /** What is left of the messages is exactly those labelled to be kept, in order. */
  lemma {:induction false} UncollapsedIsKept(ms: seq<Msg>, labels: seq<Label>)
    requires |ms| == |labels|
    ensures Selects(ms, IsKept(labels), Uncollapsed(ms, labels))
  {
    var at := UncollapsedTo(ms, labels, |ms|);
    assert ms[..|ms|] == ms && labels[..|ms|] == labels;
  }

  // ----- the two applications agree

  /** The id stands at this position and nowhere else. */
  ghost predicate OnlyAt(tags: seq<Option<string>>, id: string, at: nat) {
    at < |tags| && tags[at] == Some(id) && forall i | 0 <= i < |tags| && i != at :: tags[i] != Some(id)
  }

  /** With the ends of the range placed once each, the scan is inside exactly between them. */
  lemma {:induction false} InRangeIsBetween(tags: seq<Option<string>>, from: string, to: string, boundary: string,
                                            a: nat, b: nat, n: nat)
    requires OnlyAt(tags, from, a) && OnlyAt(tags, to, b) && a <= b && n <= |tags| && boundary != from && boundary != to
    ensures InRange(tags, from, to, boundary, n) <==> a < n <= b
  {
    if n > 0 {
      InRangeIsBetween(tags, from, to, boundary, a, b, n - 1);
    }
  }

  /** The label of message i when the range is [a, b] by position. */
  function Between(tags: seq<Option<string>>, boundary: string, a: nat, b: nat, i: nat): Label
    requires i < |tags|
  {
    if tags[i] == Some(boundary) then Drop
    else if tags[i].Some? && a <= i <= b then Collapse else Keep
  }

  lemma {:induction false} ScanLabels(tags: seq<Option<string>>, from: string, to: string, boundary: string, a: nat,
                                      b: nat, i: nat)
    requires OnlyAt(tags, from, a) && OnlyAt(tags, to, b) && a <= b && boundary != from && boundary != to && i < |tags|
    requires forall j, k | 0 <= j < k < |tags| && tags[j] == Some(boundary) :: tags[k] != Some(boundary)
    ensures Labels(|tags|, CollapseSet(tags, from, to, boundary, |tags|), LastTagged(tags, boundary, |tags|))[i]
         == Between(tags, boundary, a, b, i)
  {
    InRangeIsBetween(tags, from, to, boundary, a, b, i);
  }

  lemma {:induction false} RankLabels(tags: seq<Option<string>>, boundary: string, p: nat, t: nat, i: nat)
    requires var d := Tagged(tags, |tags|); p < t <= |d|
    requires i < |tags| && tags[i] != Some(boundary)
    ensures var d := Tagged(tags, |tags|);
            Labels(|tags|, RankSet(d, p, t), None)[i] == Between(tags, boundary, d[p], d[t - 1], i)
  {
    TaggedIsAll(tags, |tags|);
    var d := Tagged(tags, |tags|);
    if tags[i].Some? {
      var k :| 0 <= k < |d| && d[k] == i;
      assert i in RankSet(d, p, t) <==> p <= k < t;
    }
  }

  ghost predicate DistinctTags(tags: seq<Option<string>>) {
    forall i, j | 0 <= i < j < |tags| && tags[i].Some? :: tags[i] != tags[j]
  }

  /** Where message i of the first cycle stands once the boundary is inserted at q. */
  function Shift(q: nat, i: nat): nat {
    if i < q then i else i + 1
  }

  /** The later cycle's tags: the first cycle's with the boundary's id inserted at q, then more. */
  ghost predicate Extends(tags: seq<Option<string>>, later: seq<Option<string>>, boundary: string, q: nat) {
    && q <= |tags| < |later| && later[q] == Some(boundary)
    && forall i: nat | i < |tags| :: later[Shift(q, i)] == tags[i]
  }

  lemma Placed(later: seq<Option<string>>, id: string, at: nat)
    requires DistinctTags(later) && at < |later| && later[at] == Some(id)
    ensures OnlyAt(later, id, at)
  {
  }

  function FirstLabels(tags: seq<Option<string>>, p: nat, t: nat): seq<Label>
    requires t <= |Tagged(tags, |tags|)|
  {
    Labels(|tags|, RankSet(Tagged(tags, |tags|), p, t), None)
  }

  function AgainLabels(tags: seq<Option<string>>, from: string, to: string, boundary: string): seq<Label> {
    Labels(|tags|, CollapseSet(tags, from, to, boundary, |tags|), LastTagged(tags, boundary, |tags|))
  }

  lemma {:induction false} LaterLabel(tags: seq<Option<string>>, later: seq<Option<string>>, boundary: string, q: nat,
                                      p: nat, t: nat, i: nat)
    requires Extends(tags, later, boundary, q) && DistinctTags(later) && i < |later|
    requires var d := Tagged(tags, |tags|); p < t <= |d|
    ensures var d := Tagged(tags, |tags|);
            AgainLabels(later, tags[d[p]].value, tags[d[t - 1]].value, boundary)[i] ==
            Between(later, boundary, Shift(q, d[p]), Shift(q, d[t - 1]), i)
  {
    var d := Tagged(tags, |tags|);
    TaggedIsAll(tags, |tags|);
    var from, to := tags[d[p]].value, tags[d[t - 1]].value;
    Placed(later, from, Shift(q, d[p]));
    Placed(later, to, Shift(q, d[t - 1]));
    ScanLabels(later, from, to, boundary, Shift(q, d[p]), Shift(q, d[t - 1]), i);
  }

  /** The later labels are the first ones with a dropped message inserted and kept ones appended. */
  ghost predicate Widened(first: seq<Label>, again: seq<Label>, q: nat) {
    && q <= |first| < |again| && again[q] == Drop
    && (forall i: nat | i < |first| :: again[Shift(q, i)] == first[i])
    && (forall i: nat | |first| < i < |again| :: again[i] == Keep)
  }

  lemma {:induction false} LaterLabels(tags: seq<Option<string>>, later: seq<Option<string>>, boundary: string, q: nat,
                                       p: nat, t: nat)
    requires Extends(tags, later, boundary, q) && DistinctTags(later)
    requires var d := Tagged(tags, |tags|); p < t <= |d|
    ensures var d := Tagged(tags, |tags|);
            Widened(FirstLabels(tags, p, t), AgainLabels(later, tags[d[p]].value, tags[d[t - 1]].value, boundary), q)
  {
    var d := Tagged(tags, |tags|);
    var again := AgainLabels(later, tags[d[p]].value, tags[d[t - 1]].value, boundary);
    LaterLabel(tags, later, boundary, q, p, t, q);
    forall i: nat | i < |tags| ensures again[Shift(q, i)] == FirstLabels(tags, p, t)[i] {
      LaterLabel(tags, later, boundary, q, p, t, Shift(q, i));
      RankLabels(tags, boundary, p, t, i);
    }
    forall i: nat | |tags| < i < |later| ensures again[i] == Keep {
      LaterLabel(tags, later, boundary, q, p, t, i);
    }
  }

  lemma {:induction false} WalkOverBoundary(later: seq<Msg>, first: seq<Label>, again: seq<Label>, q: nat, summary: Msg)
    requires |later| == |again| && Widened(first, again, q)
    ensures Walk(later, again, summary, false)
         == Walk(later[..q], first[..q], summary, false)
            + Walk(later[q + 1..|first| + 1], first[q..], summary, Collapse in first[..q]) + later[|first| + 1..]
  {
    var n := |first| + 1;
    var e := Collapse in first[..q];
    assert again[..q] == first[..q] by {
      assert forall i: nat | i < q :: again[Shift(q, i)] == first[i];
    }
    assert again[q + 1..n] == first[q..] by {
      assert forall i: nat | q <= i < |first| :: again[Shift(q, i)] == first[i];
    }
    assert later == later[..q] + later[q..] && again == first[..q] + again[q..];
    WalkSplits(later[..q], later[q..], first[..q], again[q..], summary, false);
    WalkStep(later, again, summary, e, q);
    assert later[q + 1..] == later[q + 1..n] + later[n..] && again[q + 1..] == first[q..] + again[n..];
    WalkSplits(later[q + 1..n], later[n..], first[q..], again[n..], summary, e);
    WalkKeepsAll(later[n..], again[n..], summary, e || Collapse in first[q..]);
  }

  /** The later messages: the first ones' contents with one message inserted, then more. */
  ghost predicate SameAround(ms: seq<Msg>, later: seq<Msg>, q: nat) {
    && q <= |ms| < |later|
    && Contents(later[..q]) == Contents(ms[..q]) && Contents(later[q + 1..|ms| + 1]) == Contents(ms[q..])
  }

  lemma {:induction false} WalkExtended(ms: seq<Msg>, later: seq<Msg>, first: seq<Label>, again: seq<Label>, q: nat,
                                        summary: Msg)
    requires |ms| == |first| && |later| == |again| && Widened(first, again, q) && SameAround(ms, later, q)
    ensures Contents(Walk(later, again, summary, false)) == Contents(Walk(ms, first, summary, false))
              + Contents(later[|ms| + 1..])
  {
    var e := Collapse in first[..q];
    WalkOverBoundary(later, first, again, q, summary);
    assert ms == ms[..q] + ms[q..] && first == first[..q] + first[q..];
    WalkSplits(ms[..q], ms[q..], first[..q], first[q..], summary, false);
    WalkSeesContents(ms[..q], later[..q], first[..q], summary, false);
    WalkSeesContents(ms[q..], later[q + 1..|ms| + 1], first[q..], summary, e);
    ContentsConcat(Walk(ms[..q], first[..q], summary, false), Walk(ms[q..], first[q..], summary, e));
    ContentsConcat(Walk(later[..q], first[..q], summary, false), Walk(later[q + 1..|ms| + 1], first[q..], summary, e));
    ContentsConcat(Walk(later[..q], first[..q], summary, false)
        + Walk(later[q + 1..|ms| + 1], first[q..], summary, e), later[|ms| + 1..]);
  }

  lemma ContentsConcat(a: seq<Msg>, b: seq<Msg>)
    ensures Contents(a + b) == Contents(a) + Contents(b)
  {
  }

  /** Whatever the correlation was: if the later tags extend the first ones, the range found by
      ids is the range chosen by position, and the outcomes agree. */
  lemma {:induction false} TaggedReapplyAgrees(ms: seq<Msg>, tags: seq<Option<string>>, history: map<string, Durable>,
                                               retainTail: int, summary: Msg,
                                               later: seq<Msg>, tags': seq<Option<string>>, boundary: string, q: nat)
    requires |ms| == |tags| && |later| == |tags'| && SameAround(ms, later, q)
    requires Extends(tags, tags', boundary, q) && DistinctTags(tags')
    requires Compact(ms, tags, history, retainTail, summary, true).Compacted?
    ensures var first := Compact(ms, tags, history, retainTail, summary, true);
            var again := ReapplyTagged(later, tags', first.from, first.to, boundary, summary);
            again.Some? && Contents(again.value) == Contents(first.out) + Contents(later[|ms| + 1..])
  {
    var d := Tagged(tags, |tags|);
    var range := Choose(Conversation(tags, d, history), retainTail);
    RangeAgrees(ms, tags, later, tags', boundary, q, range.p, range.t, summary);
  }

  lemma {:induction false} RangeAgrees(ms: seq<Msg>, tags: seq<Option<string>>, later: seq<Msg>,
                                       tags': seq<Option<string>>,
                                       boundary: string, q: nat, p: nat, t: nat, summary: Msg)
    requires |ms| == |tags| && |later| == |tags'| && SameAround(ms, later, q)
    requires Extends(tags, tags', boundary, q) && DistinctTags(tags')
    requires var d := Tagged(tags, |tags|); p < t <= |d|
    ensures var d := Tagged(tags, |tags|);
            var again := ReapplyTagged(later, tags', tags[d[p]].value, tags[d[t - 1]].value, boundary, summary);
            again.Some?
                && Contents(again.value) == Contents(Walk(ms, FirstLabels(tags, p, t), summary, false))
                   + Contents(later[|ms| + 1..])
  {
    var d := Tagged(tags, |tags|);
    LaterLabels(tags, tags', boundary, q, p, t);
    WalkExtended(ms, later, FirstLabels(tags, p, t),
        AgainLabels(tags', tags[d[p]].value, tags[d[t - 1]].value, boundary), q, summary);
  }

  /** The later projection: the first one, possibly under new pointers, with the boundary
      message inserted at q and new messages appended; the baselines correspond. */
  ghost predicate LaterCycle(ms: seq<Msg>, baseline: seq<Slot>, e: seq<nat>, ms': seq<Msg>, baseline': seq<Slot>,
                             e': seq<nat>,
                             boundary: string, q: nat, r: nat)
  {
    && |e| == |baseline| && |e'| == |baseline'| && r <= |e| < |e'|
    && SameAround(ms, ms', q)
    && baseline'[r].id == boundary && e'[r] == q
    && (forall k | 0 <= k < r :: baseline'[k] == baseline[k] && e[k] < q && e'[k] == e[k])
    && (forall k | r <= k < |e| :: baseline'[k + 1] == baseline[k] && q <= e[k] && e'[k + 1] == e[k] + 1)
    && (forall k | |e| < k < |e'| :: |ms| < e'[k])
  }

  lemma NotLater(ms: seq<Msg>, baseline: seq<Slot>, e: seq<nat>, ms': seq<Msg>, baseline': seq<Slot>, e': seq<nat>,
                 boundary: string, q: nat, r: nat, i: nat)
    requires LaterCycle(ms, baseline, e, ms', baseline', e', boundary, q, r) && i < |ms| && i !in e
    ensures Shift(q, i) !in e'
  {
    forall k | 0 <= k < |e'| ensures e'[k] != Shift(q, i) {
      var j := if k < r then k else k - 1;
      assert r < k <= |e| ==> e'[j + 1] == e[j] + 1;
    }
  }

  lemma LaterTags(ms: seq<Msg>, baseline: seq<Slot>, e: seq<nat>, ms': seq<Msg>, baseline': seq<Slot>, e': seq<nat>,
                  boundary: string, q: nat, r: nat, tags: seq<Option<string>>, tags': seq<Option<string>>)
    requires LaterCycle(ms, baseline, e, ms', baseline', e', boundary, q, r)
    requires |tags| == |ms| && |tags'| == |ms'| && TagsAre(baseline, e, tags) && TagsAre(baseline', e', tags')
    ensures Extends(tags, tags', boundary, q)
  {
    forall i: nat | i < |tags| ensures tags'[Shift(q, i)] == tags[i] {
      if i in e {
        var k :| 0 <= k < |e| && e[k] == i;
        assert Shift(q, i) == e'[if k < r then k else k + 1];
      } else {
        NotLater(ms, baseline, e, ms', baseline', e', boundary, q, r, i);
      }
    }
  }

  lemma OwnTagsDistinct(baseline: seq<Slot>, e: seq<nat>, tags: seq<Option<string>>)
    requires DistinctBaseline(baseline) && Increasing(e) && TagsAre(baseline, e, tags)
    ensures DistinctTags(tags)
  {
    forall i, j | 0 <= i < j < |tags| && tags[i].Some? && tags[j].Some? ensures tags[i] != tags[j] {
      assert i in e && j in e;
      var k :| 0 <= k < |e| && e[k] == i;
      var l :| 0 <= l < |e| && e[l] == j;
    }
  }

  /** Re-applying a committed compaction to any such later projection agrees with the first
      application: the same outcome, followed by the new messages. */
  lemma {:induction false} ReapplyAgreesWithFinalize(
    ms: seq<Msg>, source: map<nat, string>, baseline: seq<Slot>, e: seq<nat>,
    history: map<string, Durable>, retainTail: int, summary: Msg,
    ms': seq<Msg>, source': map<nat, string>, baseline': seq<Slot>, e': seq<nat>, boundary: string, q: nat, r: nat)
    requires Aligned(ms, source, baseline, e) && Unstolen(ms, source, baseline, e, |ms|)
    requires Aligned(ms', source', baseline', e') && Unstolen(ms', source', baseline', e', |ms'|)
    requires LaterCycle(ms, baseline, e, ms', baseline', e', boundary, q, r)
    requires Finalize(ms, source, baseline, history, retainTail, summary, false, true).Compacted?
    ensures var first := Finalize(ms, source, baseline, history, retainTail, summary, false, true);
            var again := Reapply(ms', source', baseline', first.from, first.to, boundary, summary);
            again.Some? && Contents(again.value) == Contents(first.out) + Contents(ms'[|ms| + 1..])
  {
    OwnTagsIffUnstolen(ms, source, baseline, e);
    OwnTagsIffUnstolen(ms', source', baseline', e');
    var tags, tags' := Correlate(ms, source, baseline).value, Correlate(ms', source', baseline').value;
    LaterTags(ms, baseline, e, ms', baseline', e', boundary, q, r, tags, tags');
    OwnTagsDistinct(baseline', e', tags');
    TaggedReapplyAgrees(ms, tags, history, retainTail, summary, ms', tags', boundary, q);
  }

  lemma {:induction false} FirstLabelsAre(tags: seq<Option<string>>, p: nat, t: nat)
    requires var d := Tagged(tags, |tags|); p < t <= |d|
    ensures var d := Tagged(tags, |tags|);
            d[p] <= d[t - 1] && forall i | 0 <= i < |tags| ::
              FirstLabels(tags, p, t)[i] == if tags[i].Some? && d[p] <= i <= d[t - 1] then Collapse else Keep
  {
    TaggedIsAll(tags, |tags|);
    forall i: nat | i < |tags| ensures var d := Tagged(tags, |tags|);
        FirstLabels(tags, p, t)[i] == if tags[i].Some? && d[p] <= i <= d[t - 1] then Collapse else Keep {
      var other := if tags[i] == Some("") then "x" else "";
      RankLabels(tags, other, p, t, i);
    }
  }

  /** A compaction puts exactly one summary where its range begins and keeps all else in order;
      what it collapses is the tagged messages from the range's first to its last. */
  lemma {:induction false} CompactHasOneSummary(ms: seq<Msg>, tags: seq<Option<string>>, history: map<string, Durable>,
                                                retainTail: int, summary: Msg)
    returns (a: nat, b: nat, labels: seq<Label>)
    requires |ms| == |tags| && Compact(ms, tags, history, retainTail, summary, true).Compacted?
    ensures |labels| == |ms| && a <= b < |ms|
    ensures forall i | 0 <= i < |ms| :: labels[i] == if tags[i].Some? && a <= i <= b then Collapse else Keep
    ensures var r := Compact(ms, tags, history, retainTail, summary, true);
            && tags[a] == Some(r.from) && tags[b] == Some(r.to)
            && r.out == Uncollapsed(ms[..a], labels[..a]) + [summary] + Uncollapsed(ms[a + 1..], labels[a + 1..])
  {
    var d := Tagged(tags, |tags|);
    var range := Choose(Conversation(tags, d, history), retainTail);
    labels, a, b := FirstLabels(tags, range.p, range.t), d[range.p], d[range.t - 1];
    FirstLabelsAre(tags, range.p, range.t);
    OneSummary(ms, labels, summary, a);
  }
}
