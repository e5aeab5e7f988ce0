/** Context contributions: their source keys, and the order they are put in
    (runtime/extension_context.go). */
module ContextKeys {
  import opened Options
  import opened Orders
  import opened Selections
  import opened Scopes
  import opened Composition
  import opened PlanSelection

  // ----- numbers in decimal

  function Digit(d: nat): char
    requires d < 10
  {
    '0' + d as char
  }

  function Digits(n: nat): (s: string)
    ensures |s| > 0 && forall i | 0 <= i < |s| :: '0' <= s[i] <= '9'
  {
    if n < 10 then [Digit(n)] else Digits(n / 10) + [Digit(n % 10)]
  }

  /** What a decimal numeral stands for. */
  function Value(s: string): int {
    if s == [] then 0 else 10 * Value(s[..|s| - 1]) + (s[|s| - 1] as int - '0' as int)
  }

  lemma {:induction false} ValueOfDigits(n: nat)
    ensures Value(Digits(n)) == n
  {
    if n < 10 {
      assert Digits(n)[..0] == [];
    } else {
      ValueOfDigits(n / 10);
      assert Digits(n)[..|Digits(n)| - 1] == Digits(n / 10);
    }
  }

  function Zeros(k: nat): (s: string)
    ensures |s| == k && forall i | 0 <= i < k :: s[i] == '0'
  {
    seq(k, _ => '0')
  }

  /** %06d: at least six digits. */
  function Pad6(n: nat): string {
    var s := Digits(n);
    if |s| < 6 then Zeros(6 - |s|) + s else s
  }

  lemma {:induction false} ValueOfZeros(k: nat, s: string)
    ensures Value(Zeros(k) + s) == Value(s)
    decreases |s|, k
  {
    var all := Zeros(k) + s;
    if s != [] {
      assert all[..|all| - 1] == Zeros(k) + s[..|s| - 1];
      ValueOfZeros(k, s[..|s| - 1]);
    } else if k > 0 {
      assert all[..|all| - 1] == Zeros(k - 1) + [];
      ValueOfZeros(k - 1, []);
    }
  }

  lemma PadInjective(m: nat, n: nat)
    requires Pad6(m) == Pad6(n)
    ensures m == n
  {
    ValueOfDigits(m);
    ValueOfDigits(n);
    ValueOfZeros(if |Digits(m)| < 6 then 6 - |Digits(m)| else 0, Digits(m));
    ValueOfZeros(if |Digits(n)| < 6 then 6 - |Digits(n)| else 0, Digits(n));
  }

  // ----- the key

  /** %d:%s, a length-prefixed part. */
  function Field(s: string): string {
    Digits(|s|) + ":" + s
  }

  /** contextContributionSource. */
  function Source(instance: string, id: string, kind: string, key: string, index: nat): string {
    "context/"
        + (Field(instance) + ("/" + (Field(id) + ("/" + (Field(kind) + ("/" + (Field(key) + ("/" + Pad6(index)))))))))
  }

  lemma FirstColon(a: string, x: string, b: string, y: string)
    requires a + ":" + x == b + ":" + y && ':' !in a && ':' !in b
    ensures a == b && x == y
  {
    var l, r := a + ":" + x, b + ":" + y;
    assert l[|a|] == ':' && r[|b|] == ':';
    assert l[..|a|] == a && r[..|b|] == b;
    assert l[|a| + 1..] == x && r[|b| + 1..] == y;
  }

  lemma PartsCancel(s: string, x: string, t: string, y: string)
    requires s + x == t + y && |s| == |t|
    ensures s == t && x == y
  {
    assert (s + x)[..|s|] == s && (t + y)[..|t|] == t;
    assert (s + x)[|s|..] == x && (t + y)[|t|..] == y;
  }

  /** A length-prefixed part can be read off the front in one way only. */
  lemma FieldInjective(s: string, x: string, t: string, y: string)
    requires Field(s) + x == Field(t) + y
    ensures s == t && x == y
  {
    assert Field(s) + x == Digits(|s|) + ":" + (s + x) && Field(t) + y == Digits(|t|) + ":" + (t + y);
    FirstColon(Digits(|s|), s + x, Digits(|t|), t + y);
    ValueOfDigits(|s|);
    ValueOfDigits(|t|);
    PartsCancel(s, x, t, y);
  }

  lemma FieldThenSlash(s: string, x: string, t: string, y: string)
    requires Field(s) + ("/" + x) == Field(t) + ("/" + y)
    ensures s == t && x == y
  {
    FieldInjective(s, "/" + x, t, "/" + y);
    PartsCancel("/", x, "/", y);
  }

  /** The key is injective in instance, registration id, scope and index, whatever characters
      they contain. */
  lemma SourceInjective(instance: string, id: string, kind: string, key: string, index: nat,
                        instance': string, id': string, kind': string, key': string, index': nat)
    requires Source(instance, id, kind, key, index) == Source(instance', id', kind', key', index')
    ensures instance == instance' && id == id' && kind == kind' && key == key' && index == index'
  {
    var d, d' := Field(key) + ("/" + Pad6(index)), Field(key') + ("/" + Pad6(index'));
    var c, c' := Field(kind) + ("/" + d), Field(kind') + ("/" + d');
    var b, b' := Field(id) + ("/" + c), Field(id') + ("/" + c');
    var a, a' := Field(instance) + ("/" + b), Field(instance') + ("/" + b');
    PartsCancel("context/", a, "context/", a');
    FieldThenSlash(instance, b, instance', b');
    FieldThenSlash(id, c, id', c');
    FieldThenSlash(kind, d, kind', d');
    FieldThenSlash(key, Pad6(index), key', Pad6(index'));
    PadInjective(index, index');
  }

  // ----- contributions

  datatype Role = System | User | OtherRole
  /** plain: nothing but the role and text blocks. */
  datatype Message = Message(role: Role, plain: bool, content: string)
  datatype Contribution = Contribution(source: string, order: int, message: Option<Message>)

  function KindName(kind: ScopeKind): string {
    match kind
    case GlobalScope => "global"
    case SessionScope => "session"
    case OtherScope(name) => name
  }

  function SourceOf(p: Planned, index: nat): string {
    Source(p.instance, p.entry.id, KindName(p.entry.scope.kind), p.entry.scope.key, index)
  }

  function FromSource(p: Planned, messages: seq<Option<Message>>): (cs: seq<Contribution>)
    ensures |cs| == |messages|
    ensures forall i: nat | i < |messages| :: cs[i] == Contribution(SourceOf(p, i), p.entry.order, messages[i])
  {
    seq(|messages|, i requires 0 <= i < |messages| => Contribution(SourceOf(p, i), p.entry.order, messages[i]))
  }

  /** What the registered sources contribute, in callback order. */
  function Contributions(ps: seq<Planned>, outputs: seq<seq<Option<Message>>>): seq<Contribution>
    requires |ps| == |outputs|
  {
    if ps == [] then []
    else Contributions(ps[..|ps| - 1], outputs[..|ps| - 1]) + FromSource(ps[|ps| - 1], outputs[|ps| - 1])
  }

  /** Every message of every source is contributed, with the source's order. */
  lemma {:induction false} EveryMessageContributes(ps: seq<Planned>, outputs: seq<seq<Option<Message>>>, k: nat, i: nat)
    requires |ps| == |outputs| && k < |ps| && i < |outputs[k]|
    ensures Contribution(SourceOf(ps[k], i), ps[k].entry.order, outputs[k][i]) in Contributions(ps, outputs)
  {
    var last := |ps| - 1;
    if k < last {
      EveryMessageContributes(ps[..last], outputs[..last], k, i);
    } else {
      assert FromSource(ps[k], outputs[k])[i] == Contribution(SourceOf(ps[k], i), ps[k].entry.order, outputs[k][i]);
    }
  }

  ghost predicate DistinctSources(cs: seq<Contribution>) {
    forall i, j | 0 <= i < j < |cs| :: cs[i].source != cs[j].source
  }

  predicate Acceptable(c: Contribution) {
    c.source != "" && c.message.Some? && c.message.value.role != OtherRole && c.message.value.plain
  }

  predicate AllAcceptable(cs: seq<Contribution>) {
    forall i | 0 <= i < |cs| :: Acceptable(cs[i])
  }

  /** validateContextAssembly. */
  method ValidateContextAssembly(cs: seq<Contribution>) returns (ok: bool)
    ensures ok <==> AllAcceptable(cs) && DistinctSources(cs)
    ensures ok <==>
              && (forall i | 0 <= i < |cs| ::
                    && cs[i].source != "" && cs[i].message.Some? && cs[i].message.value.plain
                    && (cs[i].message.value.role == System || cs[i].message.value.role == User))
              && DistinctSources(cs)
  {
    var seen: set<string> := {};
    for i := 0 to |cs|
      invariant AllAcceptable(cs[..i]) && DistinctSources(cs[..i])
      invariant forall s :: s in seen <==> exists k :: 0 <= k < i && cs[k].source == s
    {
      if !Acceptable(cs[i]) || cs[i].source in seen {
        return false;
      }
      seen := seen + {cs[i].source};
    }
    assert cs[..|cs|] == cs;
    ok := true;
  }

  /** Two registrations of one point that share a plan differ in what the key is made of. */
  lemma DistinctIdentity(h: Host, ids: seq<string>, target: Scope, x: Planned, y: Planned, i: nat, j: nat)
    requires Composition.Inv(h) && x in Collect(h, ids, target) && y in Collect(h, ids, target)
    requires x.entry.point == y.entry.point && SourceOf(x, i) == SourceOf(y, j)
    ensures x == y && i == j
  {
    InCollect(h, ids, target, x);
    InCollect(h, ids, target, y);
    SourceInjective(x.instance, x.entry.id, KindName(x.entry.scope.kind), x.entry.scope.key, i,
                    y.instance, y.entry.id, KindName(y.entry.scope.kind), y.entry.scope.key, j);
    assert KindName(x.entry.scope.kind) == KindName(y.entry.scope.kind);
    assert "global" != "session" by {
      assert "global"[0] != "session"[0];
    }
    var es := h.mounts[x.instance].entries;
    var k :| 0 <= k < |es| && es[k] == x.entry;
    var l :| 0 <= l < |es| && es[l] == y.entry;
    assert SameRegistration(x.entry, y.entry);
  }

  /** Contribution c is message i of source p. */
  ghost predicate ComesFrom(ps: seq<Planned>, c: Contribution, k: nat, i: nat) {
    k < |ps| && c.source == SourceOf(ps[k], i)
  }

  ghost predicate HasOrigin(ps: seq<Planned>, c: Contribution) {
    exists k: nat, i: nat :: ComesFrom(ps, c, k, i)
  }

  lemma {:induction false} OriginOf(ps: seq<Planned>, outputs: seq<seq<Option<Message>>>, c: Contribution)
    requires |ps| == |outputs| && c in Contributions(ps, outputs)
    ensures HasOrigin(ps, c)
  {
    var last := |ps| - 1;
    if c in Contributions(ps[..last], outputs[..last]) {
      OriginOf(ps[..last], outputs[..last], c);
      var k: nat, i: nat :| ComesFrom(ps[..last], c, k, i);
      assert ComesFrom(ps, c, k, i);
    } else {
      var i: nat :| i < |outputs[last]| && FromSource(ps[last], outputs[last])[i] == c;
      assert ComesFrom(ps, c, last, i);
    }
  }

  /** The planned sources of one point, each once. */
  ghost predicate PlannedSources(h: Host, ids: seq<string>, target: Scope, point: Point, ps: seq<Planned>) {
    NoDuplicates(ps) && forall x | x in ps :: x in Collect(h, ids, target) && x.entry.point == point
  }

  lemma {:induction false} SourcesStayDistinct(h: Host, ids: seq<string>, target: Scope, point: Point,
                                               ps: seq<Planned>, outputs: seq<seq<Option<Message>>>)
    requires Composition.Inv(h) && PlannedSources(h, ids, target, point, ps) && |ps| == |outputs|
    ensures DistinctSources(Contributions(ps, outputs))
  {
    if ps != [] {
      var last := |ps| - 1;
      var front, more := Contributions(ps[..last], outputs[..last]), FromSource(ps[last], outputs[last]);
      assert PlannedSources(h, ids, target, point, ps[..last]) by {
        assert forall x | x in ps[..last] :: x in ps;
      }
      SourcesStayDistinct(h, ids, target, point, ps[..last], outputs[..last]);
      forall i: nat, j: nat | i < |front| && j < |more| ensures front[i].source != more[j].source {
        assert front[i] in front;
        OriginOf(ps[..last], outputs[..last], front[i]);
        var k: nat, m: nat :| ComesFrom(ps[..last], front[i], k, m);
        NewSource(h, ids, target, point, ps, k, m, j);
      }
      forall i: nat, j: nat | i < j < |more| ensures more[i].source != more[j].source {
        OneSource(h, ids, target, point, ps, i, j);
      }
      JoinDistinct(front, more);
    }
  }

  lemma NewSource(h: Host, ids: seq<string>, target: Scope, point: Point, ps: seq<Planned>, k: nat, m: nat, j: nat)
    requires Composition.Inv(h) && PlannedSources(h, ids, target, point, ps) && k < |ps| - 1
    ensures SourceOf(ps[k], m) != SourceOf(ps[|ps| - 1], j)
  {
    if SourceOf(ps[k], m) == SourceOf(ps[|ps| - 1], j) {
      DistinctIdentity(h, ids, target, ps[k], ps[|ps| - 1], m, j);
    }
  }

  lemma OneSource(h: Host, ids: seq<string>, target: Scope, point: Point, ps: seq<Planned>, i: nat, j: nat)
    requires Composition.Inv(h) && PlannedSources(h, ids, target, point, ps) && ps != [] && i != j
    ensures SourceOf(ps[|ps| - 1], i) != SourceOf(ps[|ps| - 1], j)
  {
    if SourceOf(ps[|ps| - 1], i) == SourceOf(ps[|ps| - 1], j) {
      DistinctIdentity(h, ids, target, ps[|ps| - 1], ps[|ps| - 1], i, j);
    }
  }

  lemma JoinDistinct(front: seq<Contribution>, more: seq<Contribution>)
    requires DistinctSources(front) && DistinctSources(more)
    requires forall i: nat, j: nat | i < |front| && j < |more| :: front[i].source != more[j].source
    ensures DistinctSources(front + more)
  {
    var all := front + more;
    forall i, j | 0 <= i < j < |all| ensures all[i].source != all[j].source {
      if i < |front| <= j {
        assert front[i].source != more[j - |front|].source;
      }
    }
  }

  lemma {:induction false} InMatching(plan: seq<Planned>, point: Point, x: Planned)
    ensures x in Matching(plan, point) <==> x in plan && x.entry.point == point
  {
    MatchingCount(plan, point, x);
    assert x in Matching(plan, point) <==> x in multiset(Matching(plan, point));
    assert x in plan <==> x in multiset(plan);
  }

  /** In every reachable registry state and for every target, whatever the sources return:
      their contributions are never taken for duplicates of one another. */
  lemma NeverDuplicate(points: map<PointKey, Point>, ops: seq<Op>, ids: seq<string>, target: Scope, point: Point,
                       plan: seq<Planned>, outputs: seq<seq<Option<Message>>>)
    requires NoDuplicates(ids) && SortResult(EntryLess, Collect(ExecuteAll(points, ops), ids, target), plan)
    requires |outputs| == |Matching(plan, point)|
    ensures DistinctSources(Contributions(Matching(plan, point), outputs))
  {
    var h := ExecuteAll(points, ops);
    ReachableInv(points, ops);
    CollectDistinct(h, ids, target);
    NoDuplicatesMultiset(Collect(h, ids, target), plan);
    MatchingDistinct(plan, point);
    var ps := Matching(plan, point);
    forall x | x in ps ensures x in Collect(h, ids, target) && x.entry.point == point {
      InMatching(plan, point, x);
      InBothSides(plan, Collect(h, ids, target), x);
    }
    SourcesStayDistinct(h, ids, target, point, ps, outputs);
  }

  // ----- the materialized context

  predicate ContributionLess(a: Contribution, b: Contribution) {
    if a.order != b.order then a.order < b.order else LexLess(a.source, b.source)
  }

  function MessagesOf(cs: seq<Contribution>, system: bool): seq<Message>
    requires AllAcceptable(cs)
  {
    if cs == [] then []
    else
      var m := cs[|cs| - 1].message.value;
      MessagesOf(cs[..|cs| - 1], system) + if (m.role == System) == system then [m] else []
  }

  datatype Materialized = Materialized(messages: seq<Message>, baseToFinal: seq<nat>)

  /** materializeContextAssemblyWithMapping; sorted is what the (unstable) sort made of cs. */
  method Materialize(base: seq<Message>, cs: seq<Contribution>, sorted: seq<Contribution>)
    returns (r: Option<Materialized>)
    requires SortResult(ContributionLess, cs, sorted)
    ensures r.Some? <==> AllAcceptable(cs) && DistinctSources(cs)
    ensures r.Some? ==>
              AllAcceptable(sorted) && r.value.messages == MessagesOf(sorted, true) + base + MessagesOf(sorted, false)
    ensures r.Some? ==> |r.value.baseToFinal| == |base|
    ensures r.Some? ==>
              forall i | 0 <= i < |base| ::
                  r.value.baseToFinal[i] < |r.value.messages| && r.value.messages[r.value.baseToFinal[i]] == base[i]
  {
    var ok := ValidateContextAssembly(cs);
    if !ok {
      return None;
    }
    AcceptableSorted(cs, sorted);
    var prelude, suffix := [], [];
    for i := 0 to |sorted|
      invariant prelude == MessagesOf(sorted[..i], true) && suffix == MessagesOf(sorted[..i], false)
    {
      assert sorted[..i + 1][..i] == sorted[..i];
      var message := sorted[i].message.value;
      if message.role == System {
        prelude := prelude + [message];
      } else {
        suffix := suffix + [message];
      }
    }
    assert sorted[..|sorted|] == sorted;
    var mapping: seq<nat> := [];
    for i := 0 to |base|
      invariant |mapping| == i && forall k | 0 <= k < i :: mapping[k] == |prelude| + k
    {
      mapping := mapping + [|prelude| + i];
    }
    r := Some(Materialized(prelude + base + suffix, mapping));
  }

  lemma AcceptableSorted(cs: seq<Contribution>, sorted: seq<Contribution>)
    requires AllAcceptable(cs) && multiset(sorted) == multiset(cs)
    ensures AllAcceptable(sorted)
  {
    forall i | 0 <= i < |sorted| ensures Acceptable(sorted[i]) {
      InBothSides(cs, sorted, sorted[i]);
      assert sorted[i] in cs;
    }
  }

  /** The order depends on nothing but order and key: contributions gathered in any sequence
      sort to the same list, however ties are broken, because there are none. */
  lemma MaterializedOrderIsUnique(cs: seq<Contribution>, cs': seq<Contribution>, sorted: seq<Contribution>,
                                  sorted': seq<Contribution>)
    requires DistinctSources(cs) && multiset(cs) == multiset(cs')
    requires SortResult(ContributionLess, cs, sorted) && SortResult(ContributionLess, cs', sorted')
    ensures sorted == sorted'
  {
    assert NoDuplicates(cs) by {
      assert forall i, j | 0 <= i < j < |cs| :: cs[i].source != cs[j].source;
    }
    NoDuplicatesMultiset(cs, sorted);
    forall x, y | x in sorted && y in sorted && x != y ensures ContributionLess(x, y) || ContributionLess(y, x) {
      InBothSides(cs, sorted, x);
      InBothSides(cs, sorted, y);
      var i :| 0 <= i < |cs| && cs[i] == x;
      var j :| 0 <= j < |cs| && cs[j] == y;
      assert x.source != y.source;
      LexConnected(x.source, y.source);
    }
    SortedUnique(ContributionLess, sorted, sorted');
  }

  /** Contributions come by order, and by key where the order is the same. */
  lemma MaterializedInOrder(cs: seq<Contribution>, sorted: seq<Contribution>, i: nat, j: nat)
    requires DistinctSources(cs) && SortResult(ContributionLess, cs, sorted) && i < j < |sorted|
    ensures sorted[i].order < sorted[j].order
              || (sorted[i].order == sorted[j].order && LexLess(sorted[i].source, sorted[j].source))
  {
    assert NoDuplicates(cs) by {
      assert forall i, j | 0 <= i < j < |cs| :: cs[i].source != cs[j].source;
    }
    NoDuplicatesMultiset(cs, sorted);
    var x, y := sorted[i], sorted[j];
    InBothSides(cs, sorted, x);
    InBothSides(cs, sorted, y);
    var k :| 0 <= k < |cs| && cs[k] == x;
    var l :| 0 <= l < |cs| && cs[l] == y;
    assert x.source != y.source;
    LexConnected(x.source, y.source);
  }

  function AllMessages(cs: seq<Contribution>): (r: seq<Message>)
    requires AllAcceptable(cs)
    ensures |r| == |cs| && forall i | 0 <= i < |cs| :: Some(r[i]) == cs[i].message
  {
    seq(|cs|, i requires 0 <= i < |cs| => cs[i].message.value)
  }

  /** Which contributions go before the base, or behind it. */
  ghost function GoesFirst(cs: seq<Contribution>, first: bool): nat -> bool {
    (i: nat) => i < |cs| && cs[i].message.Some? && (cs[i].message.value.role == System <==> first)
  }

  lemma {:induction false} MessagesTo(cs: seq<Contribution>, first: bool, n: nat) returns (at: seq<nat>)
    requires AllAcceptable(cs) && n <= |cs|
    ensures AllAcceptable(cs[..n])
    ensures SelectsTo(AllMessages(cs), n, GoesFirst(cs, first), at, MessagesOf(cs[..n], first))
  {
    at := [];
    if n > 0 {
      at := MessagesTo(cs, first, n - 1);
      SelectsNext(AllMessages(cs), n - 1, GoesFirst(cs, first), at, MessagesOf(cs[..n - 1], first));
      assert cs[..n][..n - 1] == cs[..n - 1];
      assert MessagesOf(cs[..n - 1], first) + [] == MessagesOf(cs[..n - 1], first);
      if GoesFirst(cs, first)(n - 1) {
        at := at + [n - 1];
      }
    }
  }

  /** In front of the base stand the messages of system contributions, behind it all others, each
      in the sorted order. */
  lemma SidesAre(cs: seq<Contribution>, first: bool)
    requires AllAcceptable(cs)
    ensures Selects(AllMessages(cs), GoesFirst(cs, first), MessagesOf(cs, first))
  {
    var at := MessagesTo(cs, first, |cs|);
    assert cs[..|cs|] == cs;
  }

  lemma FieldLooksLike()
    ensures Field("a") == "1:a" && Field("b") == "1:b" && Field("c") == "1:c" && Field("") == "0:"
  {
    assert Digits(1) == "1" && Digits(0) == "0";
  }

  lemma PadLooksLike()
    ensures Pad6(7) == "000007"
  {
    assert Digits(7) == "7" && Zeros(5) == "00000";
  }

  /** A key as it is written: lengths, parts and a padded index. */
  lemma SourceLooksLike()
    ensures Source("a", "b", "c", "", 7) == "context/1:a/1:b/1:c/0:/000007"
  {
    FieldLooksLike();
    PadLooksLike();
    var d := Field("") + ("/" + Pad6(7));
    assert d == "0:/000007";
    var c := Field("c") + ("/" + d);
    assert c == "1:c/0:/000007";
    var b := Field("b") + ("/" + c);
    assert b == "1:b/1:c/0:/000007";
  }
}
