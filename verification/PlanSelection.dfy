/** What a plan snapshot holds: the callback order of a point, the selected tools and the
    prompt winners, none of which depends on map iteration order or on sort stability. */
module PlanSelection {
  import opened Orders
  import opened Selections
  import opened Scopes
  import opened Composition

  // ----- callbacks

  datatype Planned = Planned(entry: Entry, instance: string)

  predicate EntryLess(left: Planned, right: Planned) {
    var leftRank := if left.entry.scope.kind.SessionScope? then 1 else 0;
    var rightRank := if right.entry.scope.kind.SessionScope? then 1 else 0;
    if left.entry.order != right.entry.order then left.entry.order < right.entry.order
    else if leftRank != rightRank then leftRank < rightRank
    else if left.instance != right.instance then LexLess(left.instance, right.instance)
    else LexLess(left.entry.id, right.entry.id)
  }

  function PlanEntries(entries: seq<Entry>, instance: string, target: Scope): seq<Planned> {
    if entries == [] then []
    else (if ScopeApplies(entries[0].scope, target) then [Planned(entries[0], instance)] else [])
         + PlanEntries(entries[1..], instance, target)
  }

  /** The entries in the order a range over the mounts named by ids visits them. */
  function Collect(h: Host, ids: seq<string>, target: Scope): seq<Planned> {
    if ids == [] then []
    else (if ids[0] in h.mounts then PlanEntries(h.mounts[ids[0]].entries, ids[0], target) else [])
         + Collect(h, ids[1..], target)
  }

  function Matching(plan: seq<Planned>, point: Point): seq<Planned> {
    if plan == [] then []
    else (if plan[0].entry.point == point then [plan[0]] else []) + Matching(plan[1..], point)
  }

  /** matchingEntries as the loop it is. */
  method MatchingEntries(plan: seq<Planned>, point: Point) returns (entries: seq<Planned>)
    ensures entries == Matching(plan, point)
  {
    entries := [];
    for i := 0 to |plan|
      invariant entries + Matching(plan[i..], point) == Matching(plan, point)
    {
      if plan[i].entry.point == point {
        entries := entries + [plan[i]];
      }
    }
  }

  lemma {:induction false} InPlanEntries(entries: seq<Entry>, instance: string, target: Scope, x: Planned)
    ensures x in PlanEntries(entries, instance, target) <==>
              x.instance == instance && x.entry in entries && ScopeApplies(x.entry.scope, target)
  {
    if entries != [] {
      InPlanEntries(entries[1..], instance, target, x);
    }
  }

  lemma {:induction false} InCollect(h: Host, ids: seq<string>, target: Scope, x: Planned)
    ensures x in Collect(h, ids, target) <==>
              x.instance in ids && x.instance in h.mounts && x.entry in h.mounts[x.instance].entries
                  && ScopeApplies(x.entry.scope, target)
  {
    if ids != [] {
      InCollect(h, ids[1..], target, x);
      if ids[0] in h.mounts {
        InPlanEntries(h.mounts[ids[0]].entries, ids[0], target, x);
      }
    }
  }

  lemma ConcatNoDuplicates<T>(a: seq<T>, b: seq<T>)
    requires NoDuplicates(a) && NoDuplicates(b) && forall x | x in a :: x !in b
    ensures NoDuplicates(a + b)
  {
    forall i, j | 0 <= i < j < |a + b| ensures (a + b)[i] != (a + b)[j] {
      if i < |a| <= j {
        assert a[i] in a && b[j - |a|] in b;
      }
    }
  }

  lemma {:induction false} PlanEntriesDistinct(entries: seq<Entry>, instance: string, target: Scope)
    requires forall i, j | 0 <= i < j < |entries| :: entries[i] != entries[j]
    ensures NoDuplicates(PlanEntries(entries, instance, target))
  {
    if entries != [] {
      PlanEntriesDistinct(entries[1..], instance, target);
      var x := Planned(entries[0], instance);
      InPlanEntries(entries[1..], instance, target, x);
      if ScopeApplies(entries[0].scope, target) {
        ConcatNoDuplicates([x], PlanEntries(entries[1..], instance, target));
      } else {
        assert PlanEntries(entries, instance, target) == PlanEntries(entries[1..], instance, target);
      }
    }
  }

  lemma {:induction false} CollectDistinct(h: Host, ids: seq<string>, target: Scope)
    requires Composition.Inv(h) && NoDuplicates(ids)
    ensures NoDuplicates(Collect(h, ids, target))
  {
    if ids != [] {
      CollectDistinct(h, ids[1..], target);
      var head := if ids[0] in h.mounts then PlanEntries(h.mounts[ids[0]].entries, ids[0], target) else [];
      if ids[0] in h.mounts {
        PlanEntriesDistinct(h.mounts[ids[0]].entries, ids[0], target);
      }
      forall x | x in head ensures x !in Collect(h, ids[1..], target) {
        InPlanEntries(h.mounts[ids[0]].entries, ids[0], target, x);
        InCollect(h, ids[1..], target, x);
      }
      ConcatNoDuplicates(head, Collect(h, ids[1..], target));
    }
  }

  /** Entries of one point that reach the same target are strictly ordered against each other. */
  lemma SamePointConnected(h: Host, ids: seq<string>, target: Scope, x: Planned, y: Planned)
    requires Composition.Inv(h) && x in Collect(h, ids, target) && y in Collect(h, ids, target)
    requires x != y && x.entry.point == y.entry.point
    ensures EntryLess(x, y) || EntryLess(y, x)
  {
    InCollect(h, ids, target, x);
    InCollect(h, ids, target, y);
    if x.instance != y.instance {
      LexConnected(x.instance, y.instance);
    } else if x.entry.id != y.entry.id {
      LexConnected(x.entry.id, y.entry.id);
    } else {
      ApplicableScopesAgree(x.entry.scope, y.entry.scope, target);
    }
  }

  lemma {:induction false} MatchingCount(plan: seq<Planned>, point: Point, x: Planned)
    ensures multiset(Matching(plan, point))[x] == if x.entry.point == point then multiset(plan)[x] else 0
  {
    if plan != [] {
      assert plan == [plan[0]] + plan[1..];
      MatchingCount(plan[1..], point, x);
    }
  }

  lemma {:induction false} MatchingSorted(plan: seq<Planned>, point: Point)
    requires SortedBy(EntryLess, plan)
    ensures SortedBy(EntryLess, Matching(plan, point))
  {
    if plan != [] {
      MatchingSorted(plan[1..], point);
      var rest := Matching(plan[1..], point);
      forall k | 0 <= k < |rest| ensures !EntryLess(rest[k], plan[0]) {
        MatchingCount(plan[1..], point, rest[k]);
        assert rest[k] in rest && rest[k] in plan[1..];
      }
    }
  }

  lemma SameElements<T>(a: seq<T>, b: seq<T>)
    requires NoDuplicates(a) && NoDuplicates(b) && forall x :: x in a <==> x in b
    ensures multiset(a) == multiset(b)
  {
    forall x: T ensures multiset(a)[x] == multiset(b)[x] {
      CountAtMostOne(a, x);
      CountAtMostOne(b, x);
      assert x in a <==> x in multiset(a);
      assert x in b <==> x in multiset(b);
    }
  }

  /** In every reachable registry state the callback sequence of a point is one sequence,
      whatever order the mounts were visited in and however the sort broke its ties. */
  lemma CallbackOrderIsUnique(
    points: map<PointKey, Point>, ops: seq<Op>, target: Scope, point: Point,
    ids: seq<string>, plan: seq<Planned>, ids': seq<string>, plan': seq<Planned>)
    requires NoDuplicates(ids) && NoDuplicates(ids') && forall id :: id in ids <==> id in ids'
    requires SortResult(EntryLess, Collect(ExecuteAll(points, ops), ids, target), plan)
    requires SortResult(EntryLess, Collect(ExecuteAll(points, ops), ids', target), plan')
    ensures Matching(plan, point) == Matching(plan', point)
  {
    var h := ExecuteAll(points, ops);
    ReachableInv(points, ops);
    SameCollected(h, ids, ids', target);
    MatchingAlike(plan, plan', point);
    MatchingSorted(plan, point);
    MatchingSorted(plan', point);
    CollectDistinct(h, ids, target);
    NoDuplicatesMultiset(Collect(h, ids, target), plan);
    MatchingDistinct(plan, point);
    MatchingConnected(h, ids, target, plan, point);
    SortedUnique(EntryLess, Matching(plan, point), Matching(plan', point));
  }

  /** x comes before y: by order, then global before session, then by instance, then by id. */
  ghost predicate Before(x: Planned, y: Planned) {
    || x.entry.order < y.entry.order
    || (x.entry.order == y.entry.order
        && ((x.entry.scope.kind != SessionScope && y.entry.scope.kind == SessionScope)
            || ((x.entry.scope.kind == SessionScope <==> y.entry.scope.kind == SessionScope)
                && (LexLess(x.instance, y.instance)
                    || (x.instance == y.instance && LexLess(x.entry.id, y.entry.id))))))
  }

  lemma LessIsBefore(x: Planned, y: Planned)
    ensures EntryLess(x, y) <==> Before(x, y)
  {
    if x.instance == y.instance && LexLess(x.instance, y.instance) {
      LexAsymmetric(x.instance, y.instance);
    }
  }

  /** The callback sequence of a point in full: exactly the entries of that point that a selected
      mount registered and whose scope reaches the target, each once, every one before the next. */
  lemma CallbacksAre(points: map<PointKey, Point>, ops: seq<Op>, target: Scope, point: Point, ids: seq<string>,
                     plan: seq<Planned>)
    requires NoDuplicates(ids) && SortResult(EntryLess, Collect(ExecuteAll(points, ops), ids, target), plan)
    ensures var h, m := ExecuteAll(points, ops), Matching(plan, point);
            && (forall x :: x in m <==>
                  && x.instance in ids && x.instance in h.mounts && x.entry in h.mounts[x.instance].entries
                  && ScopeApplies(x.entry.scope, target) && x.entry.point == point)
            && forall i, j | 0 <= i < j < |m| :: Before(m[i], m[j])
  {
    var h, m := ExecuteAll(points, ops), Matching(plan, point);
    ReachableInv(points, ops);
    forall x: Planned ensures x in m <==> x in Collect(h, ids, target) && x.entry.point == point {
      MatchingCount(plan, point, x);
      assert x in m <==> x in multiset(m);
      assert x in plan <==> x in multiset(plan);
      InBothSides(Collect(h, ids, target), plan, x);
    }
    forall x: Planned ensures x in Collect(h, ids, target) <==>
        x.instance in ids && x.instance in h.mounts && x.entry in h.mounts[x.instance].entries
          && ScopeApplies(x.entry.scope, target) {
      InCollect(h, ids, target, x);
    }
    CollectDistinct(h, ids, target);
    NoDuplicatesMultiset(Collect(h, ids, target), plan);
    MatchingDistinct(plan, point);
    MatchingSorted(plan, point);
    MatchingConnected(h, ids, target, plan, point);
    forall i, j | 0 <= i < j < |m| ensures Before(m[i], m[j]) {
      assert m[i] in m && m[j] in m;
      LessIsBefore(m[i], m[j]);
    }
  }

  /** The same mounts, visited in another order, give the same entries. */
  lemma SameCollected(h: Host, ids: seq<string>, ids': seq<string>, target: Scope)
    requires Composition.Inv(h) && NoDuplicates(ids) && NoDuplicates(ids') && forall id :: id in ids <==> id in ids'
    ensures multiset(Collect(h, ids, target)) == multiset(Collect(h, ids', target))
  {
    CollectDistinct(h, ids, target);
    CollectDistinct(h, ids', target);
    forall x: Planned ensures x in Collect(h, ids, target) <==> x in Collect(h, ids', target) {
      InCollect(h, ids, target, x);
      InCollect(h, ids', target, x);
    }
    SameElements(Collect(h, ids, target), Collect(h, ids', target));
  }

  lemma MatchingAlike(plan: seq<Planned>, plan': seq<Planned>, point: Point)
    requires multiset(plan) == multiset(plan')
    ensures multiset(Matching(plan, point)) == multiset(Matching(plan', point))
  {
    forall x: Planned ensures multiset(Matching(plan, point))[x] == multiset(Matching(plan', point))[x] {
      MatchingCount(plan, point, x);
      MatchingCount(plan', point, x);
    }
  }

  lemma MatchingConnected(h: Host, ids: seq<string>, target: Scope, plan: seq<Planned>, point: Point)
    requires Composition.Inv(h) && multiset(plan) == multiset(Collect(h, ids, target))
    ensures Connected(EntryLess, Matching(plan, point))
  {
    var m := Matching(plan, point);
    forall x, y | x in m && y in m && x != y ensures EntryLess(x, y) || EntryLess(y, x) {
      MatchingCount(plan, point, x);
      MatchingCount(plan, point, y);
      InBothSides(Collect(h, ids, target), plan, x);
      InBothSides(Collect(h, ids, target), plan, y);
      SamePointConnected(h, ids, target, x, y);
    }
  }

  lemma {:induction false} MatchingDistinct(plan: seq<Planned>, point: Point)
    requires NoDuplicates(plan)
    ensures NoDuplicates(Matching(plan, point))
  {
    if plan != [] {
      MatchingDistinct(plan[1..], point);
      MatchingCount(plan[1..], point, plan[0]);
      assert plan[0] !in plan[1..];
    }
  }

  // ----- tools

  datatype PlanTool = PlanTool(instance: string, tool: Tool)

  function PickTools(tools: seq<Tool>, instance: string, target: Scope, select: (string, Tool) -> bool): seq<PlanTool> {
    if tools == [] then []
    else (if ScopeApplies(tools[0].scope, target) && select(instance, tools[0]) then [PlanTool(instance, tools[0])]
          else [])
         + PickTools(tools[1..], instance, target, select)
  }

  /** The tools of the selected components, in component order. */
  function SelectTools(h: Host, ids: seq<string>, target: Scope, select: (string, Tool) -> bool): seq<PlanTool> {
    if ids == [] then []
    else (if ids[0] in h.mounts then PickTools(h.mounts[ids[0]].tools, ids[0], target, select) else [])
         + SelectTools(h, ids[1..], target, select)
  }

  /** components(): the loop over one component's tools. */
  method ComponentTools(tools: seq<Tool>, instance: string, target: Scope, select: (string, Tool) -> bool)
    returns (owned: seq<PlanTool>)
    ensures owned == PickTools(tools, instance, target, select)
  {
    owned := [];
    for k := 0 to |tools|
      invariant owned + PickTools(tools[k..], instance, target, select) == PickTools(tools, instance, target, select)
    {
      PickStep(tools, instance, target, select, k);
      ghost var rest := PickTools(tools[k + 1..], instance, target, select);
      if ScopeApplies(tools[k].scope, target) && select(instance, tools[k]) {
        Associate(owned, [PlanTool(instance, tools[k])], rest);
        owned := owned + [PlanTool(instance, tools[k])];
      } else {
        assert [] + rest == rest;
      }
    }
  }

  lemma Associate<T>(a: seq<T>, b: seq<T>, c: seq<T>)
    ensures a + (b + c) == (a + b) + c
  {
  }

  lemma {:induction false} PickStep(tools: seq<Tool>, instance: string, target: Scope, select: (string, Tool) -> bool,
                                    k: nat)
    requires k < |tools|
    ensures PickTools(tools[k..], instance, target, select) ==
              (if ScopeApplies(tools[k].scope, target) && select(instance, tools[k]) then
                  [PlanTool(instance, tools[k])] else [])
              + PickTools(tools[k + 1..], instance, target, select)
  {
    assert tools[k..][1..] == tools[k + 1..];
  }

  /** components(): the loop over the selected components. */
  method PlanTools(h: Host, ids: seq<string>, target: Scope, select: (string, Tool) -> bool)
    returns (plan: seq<PlanTool>)
    requires forall i | 0 <= i < |ids| :: ids[i] in h.mounts
    ensures plan == SelectTools(h, ids, target, select)
  {
    plan := [];
    for c := 0 to |ids|
      invariant plan + SelectTools(h, ids[c..], target, select) == SelectTools(h, ids, target, select)
    {
      var owned := ComponentTools(h.mounts[ids[c]].tools, ids[c], target, select);
      assert SelectTools(h, ids[c..], target, select) == owned + SelectTools(h, ids[c + 1..], target, select);
      Associate(plan, owned, SelectTools(h, ids[c + 1..], target, select));
      plan := plan + owned;
    }
  }

  lemma {:induction false} PickedFrom(tools: seq<Tool>, instance: string, target: Scope,
                                      select: (string, Tool) -> bool, x: PlanTool)
    requires x in PickTools(tools, instance, target, select)
    ensures x.instance == instance && x.tool in tools && ScopeApplies(x.tool.scope, target)
  {
    if x in PickTools(tools[1..], instance, target, select) {
      PickedFrom(tools[1..], instance, target, select, x);
    }
  }

  lemma {:induction false} SelectedFrom(h: Host, ids: seq<string>, target: Scope, select: (string, Tool) -> bool,
                                        x: PlanTool)
    requires x in SelectTools(h, ids, target, select)
    ensures x.instance in ids && x.instance in h.mounts && x.tool in h.mounts[x.instance].tools
    ensures ScopeApplies(x.tool.scope, target)
  {
    if x in SelectTools(h, ids[1..], target, select) {
      SelectedFrom(h, ids[1..], target, select, x);
    } else {
      PickedFrom(h.mounts[ids[0]].tools, ids[0], target, select, x);
    }
  }

  /** Which tools of a component are picked. */
  ghost function Picks(tools: seq<Tool>, instance: string, target: Scope, select: (string, Tool) -> bool): nat -> bool {
    (i: nat) => i < |tools| && ScopeApplies(tools[i].scope, target) && select(instance, tools[i])
  }

  function Owned(tools: seq<Tool>, instance: string): (r: seq<PlanTool>)
    ensures |r| == |tools| && forall i | 0 <= i < |tools| :: r[i] == PlanTool(instance, tools[i])
  {
    seq(|tools|, i requires 0 <= i < |tools| => PlanTool(instance, tools[i]))
  }

  lemma {:induction false} PickTo(tools: seq<Tool>, instance: string, target: Scope, select: (string, Tool) -> bool,
                                  n: nat)
    returns (at: seq<nat>)
    requires n <= |tools|
    ensures SelectsTo(Owned(tools, instance), n, Picks(tools, instance, target, select), at,
                      PickTools(tools[..n], instance, target, select))
  {
    at := [];
    if n > 0 {
      at := PickTo(tools, instance, target, select, n - 1);
      var picks := Picks(tools, instance, target, select);
      SelectsNext(Owned(tools, instance), n - 1, picks, at, PickTools(tools[..n - 1], instance, target, select));
      PickSnoc(tools[..n - 1], instance, target, select, tools[n - 1]);
      assert tools[..n] == tools[..n - 1] + [tools[n - 1]];
      if picks(n - 1) {
        at := at + [n - 1];
      }
    }
  }

  lemma {:induction false} PickSnoc(tools: seq<Tool>, instance: string, target: Scope, select: (string, Tool) -> bool,
                                    tool: Tool)
    ensures PickTools(tools + [tool], instance, target, select) ==
              PickTools(tools, instance, target, select)
                + if ScopeApplies(tool.scope, target) && select(instance, tool) then [PlanTool(instance, tool)] else []
  {
    if tools != [] {
      PickSnoc(tools[1..], instance, target, select, tool);
      assert (tools + [tool])[1..] == tools[1..] + [tool];
    } else {
      assert tools + [tool] == [tool] && [tool][1..] == [];
    }
  }

  /** A plan holds a tool exactly if a selected component registered it, its scope reaches the
      target and it was selected. */
  lemma {:induction false} SelectedIff(h: Host, ids: seq<string>, target: Scope, select: (string, Tool) -> bool,
                                       x: PlanTool)
    ensures x in SelectTools(h, ids, target, select) <==>
              && x.instance in ids && x.instance in h.mounts && x.tool in h.mounts[x.instance].tools
              && ScopeApplies(x.tool.scope, target) && select(x.instance, x.tool)
  {
    if ids != [] {
      SelectedIff(h, ids[1..], target, select, x);
      if ids[0] in h.mounts {
        PickedIff(h.mounts[ids[0]].tools, ids[0], target, select, x);
      }
    }
  }

  lemma {:induction false} PickedIff(tools: seq<Tool>, instance: string, target: Scope,
                                     select: (string, Tool) -> bool, x: PlanTool)
    ensures x in PickTools(tools, instance, target, select) <==>
              && x.instance == instance && x.tool in tools
              && ScopeApplies(x.tool.scope, target) && select(instance, x.tool)
  {
    if tools != [] {
      PickedIff(tools[1..], instance, target, select, x);
    }
  }

  /** The tools of each component stand together, in the order of the components, and are those
      picked from it in the order of registration. */
  lemma {:induction false} ToolsInOrder(h: Host, ids: seq<string>, target: Scope, select: (string, Tool) -> bool,
                                        c: nat)
    returns (owned: seq<PlanTool>)
    requires c < |ids| && ids[c] in h.mounts
    ensures SelectTools(h, ids, target, select) ==
              SelectTools(h, ids[..c], target, select) + owned + SelectTools(h, ids[c + 1..], target, select)
    ensures var tools := h.mounts[ids[c]].tools;
            Selects(Owned(tools, ids[c]), Picks(tools, ids[c], target, select), owned)
  {
    var tools := h.mounts[ids[c]].tools;
    owned := PickTools(tools, ids[c], target, select);
    var at := PickTo(tools, ids[c], target, select, |tools|);
    assert tools[..|tools|] == tools;
    SelectSplits(h, ids[..c], ids[c..], target, select);
    assert ids == ids[..c] + ids[c..] && ids[c..][1..] == ids[c + 1..];
  }

  lemma {:induction false} SelectSplits(h: Host, a: seq<string>, b: seq<string>, target: Scope,
                                        select: (string, Tool) -> bool)
    ensures SelectTools(h, a + b, target, select) ==
              SelectTools(h, a, target, select) + SelectTools(h, b, target, select)
  {
    if a == [] {
      assert a + b == b;
    } else {
      assert (a + b)[1..] == a[1..] + b;
      SelectSplits(h, a[1..], b, target, select);
    }
  }

  ghost predicate DistinctNames(tools: seq<PlanTool>) {
    forall i, j | 0 <= i < j < |tools| :: tools[i].tool.name != tools[j].tool.name
  }

  lemma ConcatDistinctNames(a: seq<PlanTool>, b: seq<PlanTool>)
    requires DistinctNames(a) && DistinctNames(b)
    requires forall x, y | x in a && y in b :: x.tool.name != y.tool.name
    ensures DistinctNames(a + b)
  {
    forall i, j | 0 <= i < j < |a + b| ensures (a + b)[i].tool.name != (a + b)[j].tool.name {
      if i < |a| <= j {
        assert a[i] in a && b[j - |a|] in b;
      }
    }
  }

  lemma {:induction false} PickedDistinct(tools: seq<Tool>, instance: string, target: Scope,
                                          select: (string, Tool) -> bool)
    requires forall i, j | 0 <= i < j < |tools| :: !ToolsClash(tools[j], tools[i])
    ensures DistinctNames(PickTools(tools, instance, target, select))
  {
    if tools != [] {
      PickedDistinct(tools[1..], instance, target, select);
      var head := if ScopeApplies(tools[0].scope, target) && select(instance, tools[0]) then
          [PlanTool(instance, tools[0])] else [];
      var tail := PickTools(tools[1..], instance, target, select);
      forall x, y | x in head && y in tail ensures x.tool.name != y.tool.name {
        PickedFrom(tools[1..], instance, target, select, y);
      }
      ConcatDistinctNames(head, tail);
    }
  }

  lemma {:induction false} SelectedDistinct(h: Host, ids: seq<string>, target: Scope, select: (string, Tool) -> bool)
    requires Composition.Inv(h) && NoDuplicates(ids)
    ensures DistinctNames(SelectTools(h, ids, target, select))
  {
    if ids != [] {
      SelectedDistinct(h, ids[1..], target, select);
      var head := if ids[0] in h.mounts then PickTools(h.mounts[ids[0]].tools, ids[0], target, select) else [];
      var tail := SelectTools(h, ids[1..], target, select);
      if ids[0] in h.mounts {
        PickedDistinct(h.mounts[ids[0]].tools, ids[0], target, select);
      }
      forall x, y | x in head && y in tail ensures x.tool.name != y.tool.name {
        PickedFrom(h.mounts[ids[0]].tools, ids[0], target, select, x);
        SelectedFrom(h, ids[1..], target, select, y);
        assert Compatible(h.mounts[ids[0]], h.mounts[y.instance]);
      }
      ConcatDistinctNames(head, tail);
    }
  }

  /** In every reachable registry state no plan offers two tools under one name. */
  lemma ToolNamesAreUnique(points: map<PointKey, Point>, ops: seq<Op>, ids: seq<string>, target: Scope,
                           select: (string, Tool) -> bool)
    requires NoDuplicates(ids)
    ensures DistinctNames(SelectTools(ExecuteAll(points, ops), ids, target, select))
  {
    ReachableInv(points, ops);
    SelectedDistinct(ExecuteAll(points, ops), ids, target, select);
  }

  // ----- prompts

  datatype Owner = Owner(instance: string, id: string, scope: Scope)

  /** Registration k of a mounted component names `name` and reaches the target. */
  ghost predicate Offers(h: Host, target: Scope, name: string, instance: string, k: int) {
    && instance in h.mounts && 0 <= k < |h.mounts[instance].prompts|
    && h.mounts[instance].prompts[k].name == name && ScopeApplies(h.mounts[instance].prompts[k].scope, target)
  }

  ghost predicate Owns(h: Host, o: Owner, instance: string, k: int) {
    && instance in h.mounts && 0 <= k < |h.mounts[instance].prompts|
    && o == Owner(instance, h.mounts[instance].prompts[k].id, h.mounts[instance].prompts[k].scope)
  }

  /** The owner is a registration that reaches the target. */
  ghost predicate OwnerOffers(h: Host, target: Scope, name: string, o: Owner) {
    exists k :: Offers(h, target, name, o.instance, k) && Owns(h, o, o.instance, k)
  }

  predicate IsSession(h: Host, instance: string, k: int) {
    instance in h.mounts && 0 <= k < |h.mounts[instance].prompts|
        && h.mounts[instance].prompts[k].scope.kind.SessionScope?
  }

  /** Among the selected components `ids`, a registration that reaches the target, and a
      session-scoped one if any is. */
  ghost predicate IsWinner(h: Host, ids: set<string>, target: Scope, name: string, o: Owner) {
    && o.instance in ids && OwnerOffers(h, target, name, o)
    && (o.scope.kind.SessionScope? || forall i, k | i in ids && Offers(h, target, name, i, k) :: !IsSession(h, i, k))
  }

  ghost predicate WinnersOf(h: Host, ids: set<string>, target: Scope, winners: map<string, Owner>) {
    && (forall name | name in winners :: IsWinner(h, ids, target, name, winners[name]))
    && (forall name, i, k | i in ids && Offers(h, target, name, i, k) :: name in winners)
  }

  lemma OneOfferPerKind(h: Host, target: Scope, name: string, i: string, k: int, j: string, l: int)
    requires Composition.Inv(h) && Offers(h, target, name, i, k) && Offers(h, target, name, j, l)
    requires IsSession(h, i, k) == IsSession(h, j, l)
    ensures i == j && k == l
  {
    ApplicableScopesAgree(h.mounts[i].prompts[k].scope, h.mounts[j].prompts[l].scope, target);
    assert i != j ==> Compatible(h.mounts[i], h.mounts[j]);
  }

  /** At most one registration can win: the publication checks leave one per scope kind. */
  lemma WinnerIsUnique(h: Host, ids: set<string>, target: Scope, name: string, a: Owner, b: Owner)
    requires Composition.Inv(h) && IsWinner(h, ids, target, name, a) && IsWinner(h, ids, target, name, b)
    ensures a == b
  {
    var k :| Offers(h, target, name, a.instance, k) && Owns(h, a, a.instance, k);
    var l :| Offers(h, target, name, b.instance, l) && Owns(h, b, b.instance, l);
    OneOfferPerKind(h, target, name, a.instance, k, b.instance, l);
  }

  /** What the loops know of a registration they have passed. */
  ghost predicate Covered(h: Host, winners: map<string, Owner>, name: string, i: string, k: int) {
    name in winners && (winners[name].scope.kind.SessionScope? || !IsSession(h, i, k))
  }

  /** The inner loop of newPlanSelection: a winner gives way only to a session-scoped
      registration, and only if it is itself global. */
  method AddComponent(h: Host, ghost before: set<string>, instance: string, target: Scope, winners: map<string, Owner>)
    returns (w: map<string, Owner>)
    requires instance in h.mounts
    requires forall name | name in winners ::
               winners[name].instance in before && OwnerOffers(h, target, name, winners[name])
    requires forall name, i, k | i in before && Offers(h, target, name, i, k) :: Covered(h, winners, name, i, k)
    ensures forall name | name in w :: w[name].instance in before + {instance} && OwnerOffers(h, target, name, w[name])
    ensures forall name, i, k | i in before + {instance} && Offers(h, target, name, i, k) :: Covered(h, w, name, i, k)
  {
    w := winners;
    var prompts := h.mounts[instance].prompts;
    for k := 0 to |prompts|
      invariant forall name | name in w ::
                  w[name].instance in before + {instance} && OwnerOffers(h, target, name, w[name])
      invariant forall name, i, l | i in before && Offers(h, target, name, i, l) :: Covered(h, w, name, i, l)
      invariant forall name, l | l < k && Offers(h, target, name, instance, l) :: Covered(h, w, name, instance, l)
    {
      var p := prompts[k];
      if ScopeApplies(p.scope, target) {
        var o := Owner(instance, p.id, p.scope);
        assert Offers(h, target, p.name, instance, k) && Owns(h, o, instance, k);
        if p.name !in w || (w[p.name].scope.kind.GlobalScope? && p.scope.kind.SessionScope?) {
          w := w[p.name := o];
        }
      }
    }
  }

  /** newPlanSelection: the outer loop over the selected components. */
  method NewPlanSelection(h: Host, ids: seq<string>, target: Scope) returns (winners: map<string, Owner>)
    requires forall i | 0 <= i < |ids| :: ids[i] in h.mounts
    ensures WinnersOf(h, (set id | id in ids), target, winners)
  {
    winners := map[];
    ghost var done: set<string> := {};
    for c := 0 to |ids|
      invariant forall id :: id in done <==> id in ids[..c]
      invariant forall name | name in winners ::
                  winners[name].instance in done && OwnerOffers(h, target, name, winners[name])
      invariant forall name, i, k | i in done && Offers(h, target, name, i, k) :: Covered(h, winners, name, i, k)
    {
      winners := AddComponent(h, done, ids[c], target, winners);
      done := done + {ids[c]};
    }
    assert done == set id | id in ids;
  }

  lemma WinnerNamesAgree(h: Host, ids: set<string>, target: Scope, a: map<string, Owner>, b: map<string, Owner>,
                         name: string)
    requires WinnersOf(h, ids, target, a) && WinnersOf(h, ids, target, b) && name in a
    ensures name in b
  {
    var k :| Offers(h, target, name, a[name].instance, k) && Owns(h, a[name], a[name].instance, k);
  }

  /** The winners are a function of which components are selected, not of their order. */
  lemma PromptWinnersAreUnique(
    points: map<PointKey, Point>, ops: seq<Op>, ids: set<string>, target: Scope,
    a: map<string, Owner>, b: map<string, Owner>)
    requires WinnersOf(ExecuteAll(points, ops), ids, target, a) && WinnersOf(ExecuteAll(points, ops), ids, target, b)
    ensures a == b
  {
    var h := ExecuteAll(points, ops);
    ReachableInv(points, ops);
    forall name | name in a ensures name in b && a[name] == b[name] {
      WinnerNamesAgree(h, ids, target, a, b, name);
      WinnerIsUnique(h, ids, target, name, a[name], b[name]);
    }
    forall name | name in b ensures name in a {
      WinnerNamesAgree(h, ids, target, b, a, name);
    }
  }

  /** components() keeps registration k of a component exactly when it is the recorded winner. */
  ghost predicate InPlan(h: Host, winners: map<string, Owner>, name: string, instance: string, k: int) {
    && name in winners && Owns(h, winners[name], instance, k) && h.mounts[instance].prompts[k].name == name
  }

  /** Every name some registration (i, k) offers is in the plan exactly once, at (j, l), which
      is (i, k) itself when that one is session-scoped. */
  lemma OnePromptPerName(
    points: map<PointKey, Point>, ops: seq<Op>, h: Host, ids: set<string>, target: Scope,
    winners: map<string, Owner>, name: string, i: string, k: int)
    returns (j: string, l: int)
    requires h == ExecuteAll(points, ops) && WinnersOf(h, ids, target, winners)
    requires i in ids && Offers(h, target, name, i, k)
    ensures InPlan(h, winners, name, j, l) && j in ids && Offers(h, target, name, j, l)
    ensures IsSession(h, i, k) ==> j == i && l == k
    ensures forall j', l' | InPlan(h, winners, name, j', l') :: j' == j && l' == l
  {
    ReachableInv(points, ops);
    j := winners[name].instance;
    l :| Offers(h, target, name, j, l) && Owns(h, winners[name], j, l);
    if IsSession(h, i, k) {
      OneOfferPerKind(h, target, name, i, k, j, l);
    }
    forall j', l' | InPlan(h, winners, name, j', l') ensures j' == j && l' == l {
      OneOfferPerKind(h, target, name, j', l', j, l);
    }
  }
}
