/** What may be mounted together, and what a plan selects from it: callback registrations
    (extension/registry.go, extension/dispatch.go), tools and prompts (composition). */
module Composition {
  import opened Scopes

  datatype PointKey = PointKey(contractID: string, version: string, kind: string)

  /** A point definition is compared by address; its key is what identifies it durably. */
  datatype Point = Point(key: PointKey, address: nat)

  datatype Entry = Entry(point: Point, id: string, order: int, scope: Scope)
  /** sound: whether the definition and the source identity are valid and can be frozen. */
  datatype Tool = Tool(id: string, name: string, scope: Scope, sound: bool)
  datatype Prompt = Prompt(id: string, name: string, scope: Scope, hasProvider: bool)

  datatype Payload = Payload(entries: seq<Entry>, tools: seq<Tool>, prompts: seq<Prompt>)

  // ----- staging: the duplicate checks of the registrars

  predicate Alphanumeric(c: char) {
    'A' <= c <= 'Z' || 'a' <= c <= 'z' || '0' <= c <= '9'
  }

  /** ValidateIdentifier: 1 to 256 characters of a fixed set, the first a letter or digit. */
  predicate ValidIdentifier(id: string) {
    && 1 <= |id| <= 256 && Alphanumeric(id[0])
    && forall i | 0 <= i < |id| ::
       Alphanumeric(id[i]) || id[i] == '.' || id[i] == '_' || id[i] == ':' || id[i] == '/' || id[i] == '-'
  }

  const CAPITALS := "ABCDEFGHIJKLMNOPQRSTUVWXYZ"
  const SMALL_LETTERS := "abcdefghijklmnopqrstuvwxyz"
  const DIGITS := "0123456789"
  const MARKS := "._:/-"

  lemma CapitalIff(c: char)
    ensures 'A' <= c <= 'Z' <==> c in CAPITALS
  {
    if 'A' <= c <= 'Z' {
      assert CAPITALS[c as int - 'A' as int] == c;
    }
  }

  lemma SmallLetterIff(c: char)
    ensures 'a' <= c <= 'z' <==> c in SMALL_LETTERS
  {
    if 'a' <= c <= 'z' {
      assert SMALL_LETTERS[c as int - 'a' as int] == c;
    }
  }

  lemma DigitIff(c: char)
    ensures '0' <= c <= '9' <==> c in DIGITS
  {
    if '0' <= c <= '9' {
      assert DIGITS[c as int - '0' as int] == c;
    }
  }

  /** An identifier is 1 to 256 letters, digits and marks that begin with a letter or digit. */
  lemma IdentifierIff(id: string)
    ensures ValidIdentifier(id) <==>
              && 1 <= |id| <= 256 && id[0] !in MARKS
              && forall i | 0 <= i < |id| ::
                   id[i] in CAPITALS || id[i] in SMALL_LETTERS || id[i] in DIGITS || id[i] in MARKS
  {
    forall i | 0 <= i < |id| ensures Alphanumeric(id[i]) <==>
        id[i] in CAPITALS || id[i] in SMALL_LETTERS || id[i] in DIGITS {
      CapitalIff(id[i]);
      SmallLetterIff(id[i]);
      DigitIff(id[i]);
    }
  }

  predicate SameRegistration(a: Entry, b: Entry) {
    a.point.key == b.point.key && a.scope == b.scope && a.id == b.id
  }

  predicate Accepts(staged: seq<Entry>, e: Entry) {
    ValidIdentifier(e.id) && ValidScope(e.scope) && forall i | 0 <= i < |staged| :: !SameRegistration(staged[i], e)
  }

  predicate AcceptsTool(staged: seq<Tool>, t: Tool) {
    && ValidIdentifier(t.id) && ValidIdentifier(t.name) && ValidScope(t.scope) && t.sound
    && forall i | 0 <= i < |staged| :: !(staged[i].scope == t.scope && staged[i].name == t.name)
  }

  predicate AcceptsPrompt(staged: seq<Prompt>, p: Prompt) {
    && ValidIdentifier(p.id) && ValidIdentifier(p.name) && ValidScope(p.scope) && p.hasProvider
    && forall i | 0 <= i < |staged| :: !(staged[i].scope == p.scope && staged[i].name == p.name)
  }

  datatype Call = Register(entry: Entry) | AddTool(tool: Tool) | AddPrompt(prompt: Prompt)

  /** One registrar call of an installer; a refused call stages nothing, and an installer
      may go on after a refusal. */
  function StageOne(p: Payload, call: Call): Payload {
    match call
    case Register(e) => if Accepts(p.entries, e) then p.(entries := p.entries + [e]) else p
    case AddTool(t) => if AcceptsTool(p.tools, t) then p.(tools := p.tools + [t]) else p
    case AddPrompt(q) => if AcceptsPrompt(p.prompts, q) then p.(prompts := p.prompts + [q]) else p
  }

  function Stage(calls: seq<Call>): Payload {
    if calls == [] then Payload([], [], []) else StageOne(Stage(calls[..|calls| - 1]), calls[|calls| - 1])
  }

  /** The registrars as objects that append after their duplicate-check loops. */
  class Registrar {
    var staged: Payload
    var closed: bool

    constructor ()
      ensures staged == Stage([]) && !closed
    {
      staged, closed := Payload([], [], []), false;
    }

    /** The end of the installer: extension registrations are refused from now on. */
    method Close()
      modifies this`closed
      ensures closed
    {
      closed := true;
    }

    method Register(e: Entry) returns (ok: bool)
      modifies this`staged
      ensures ok <==>
                && !closed && ValidIdentifier(e.id) && ValidScope(e.scope)
                && forall i | 0 <= i < |old(staged).entries| ::
                     var x := old(staged).entries[i]; x.point.key != e.point.key || x.scope != e.scope || x.id != e.id
      ensures !ok ==> staged == old(staged)
      ensures ok ==> staged == old(staged).(entries := old(staged).entries + [e])
      ensures staged == if closed then old(staged) else StageOne(old(staged), Call.Register(e))
    {
      if closed || !ValidIdentifier(e.id) || !ValidScope(e.scope) {
        return false;
      }
      for i := 0 to |staged.entries|
        invariant staged == old(staged)
        invariant forall j | 0 <= j < i :: !SameRegistration(staged.entries[j], e)
      {
        if SameRegistration(staged.entries[i], e) {
          return false;
        }
      }
      staged := staged.(entries := staged.entries + [e]);
      return true;
    }

    method Tool(t: Tool) returns (ok: bool)
      modifies this`staged
      ensures ok <==>
                && ValidIdentifier(t.id) && ValidIdentifier(t.name) && ValidScope(t.scope) && t.sound
                && forall i | 0 <= i < |old(staged).tools| ::
                     var x := old(staged).tools[i]; x.scope != t.scope || x.name != t.name
      ensures staged == if ok then old(staged).(tools := old(staged).tools + [t]) else old(staged)
      ensures staged == StageOne(old(staged), AddTool(t))
    {
      if !ValidIdentifier(t.id) || !ValidIdentifier(t.name) || !ValidScope(t.scope) {
        return false;
      }
      for i := 0 to |staged.tools|
        invariant staged == old(staged)
        invariant forall j | 0 <= j < i :: !(staged.tools[j].scope == t.scope && staged.tools[j].name == t.name)
      {
        if staged.tools[i].scope == t.scope && staged.tools[i].name == t.name {
          return false;
        }
      }
      if !t.sound {
        return false;
      }
      staged := staged.(tools := staged.tools + [t]);
      return true;
    }

    method Prompt(p: Prompt) returns (ok: bool)
      modifies this`staged
      ensures ok <==>
                && ValidIdentifier(p.id) && ValidIdentifier(p.name) && ValidScope(p.scope) && p.hasProvider
                && forall i | 0 <= i < |old(staged).prompts| ::
                     var x := old(staged).prompts[i]; x.scope != p.scope || x.name != p.name
      ensures staged == if ok then old(staged).(prompts := old(staged).prompts + [p]) else old(staged)
      ensures staged == StageOne(old(staged), AddPrompt(p))
    {
      if !ValidIdentifier(p.id) || !ValidIdentifier(p.name) || !ValidScope(p.scope) || !p.hasProvider {
        return false;
      }
      for i := 0 to |staged.prompts|
        invariant staged == old(staged)
        invariant forall j | 0 <= j < i :: !(staged.prompts[j].scope == p.scope && staged.prompts[j].name == p.name)
      {
        if staged.prompts[i].scope == p.scope && staged.prompts[i].name == p.name {
          return false;
        }
      }
      staged := staged.(prompts := staged.prompts + [p]);
      return true;
    }
  }

  // ----- committing: the publication checks

  predicate ToolScopesOverlap(a: Scope, b: Scope) {
    a.kind.GlobalScope? || b.kind.GlobalScope?
    || (a.kind.SessionScope? && b.kind.SessionScope? && a.key == b.key)
  }

  /** Some valid target is reached by both. */
  ghost predicate Meet(a: Scope, b: Scope) {
    exists target :: ValidScope(target) && ScopeApplies(a, target) && ScopeApplies(b, target)
  }

  /** Scopes overlap exactly if they meet: tools of one name in two sessions do not. */
  lemma OverlapIffMeet(a: Scope, b: Scope)
    requires ValidScope(a) && ValidScope(b)
    ensures ToolScopesOverlap(a, b) <==> Meet(a, b)
  {
    if ToolScopesOverlap(a, b) {
      var target := if a.kind.GlobalScope? then b else a;
      assert ValidScope(target) && ScopeApplies(a, target) && ScopeApplies(b, target);
    }
  }

  predicate ToolsClash(a: Tool, b: Tool) { a.name == b.name && ToolScopesOverlap(a.scope, b.scope) }

  predicate PromptsClash(a: Prompt, b: Prompt) { a.name == b.name && a.scope == b.scope }

  /** validateComponentPayload against one active component. */
  predicate Compatible(active: Payload, candidate: Payload) {
    && (forall i, j | 0 <= i < |candidate.tools| && 0 <= j < |active.tools| ::
       !ToolsClash(active.tools[j], candidate.tools[i]))
    && (forall i, j | 0 <= i < |candidate.prompts| && 0 <= j < |active.prompts| ::
       !PromptsClash(active.prompts[j], candidate.prompts[i]))
  }

  predicate SelfCompatible(p: Payload) {
    forall i, j | 0 <= i < j < |p.tools| :: !ToolsClash(p.tools[j], p.tools[i])
  }

  /** The source's nested loops; the order of `active` is the order of a map range. */
  method ValidateComponentPayload(active: seq<Payload>, candidate: Payload) returns (ok: bool)
    ensures ok <==> SelfCompatible(candidate) && forall k | 0 <= k < |active| :: Compatible(active[k], candidate)
  {
    for i := 0 to |candidate.tools|
      invariant forall x, y | 0 <= x < i && x < y < |candidate.tools| ::
                  !ToolsClash(candidate.tools[y], candidate.tools[x])
      invariant forall k, x, y | 0 <= k < |active| && 0 <= x < i && 0 <= y < |active[k].tools| ::
                  !ToolsClash(active[k].tools[y], candidate.tools[x])
    {
      for j := i + 1 to |candidate.tools|
        invariant forall y | i < y < j :: !ToolsClash(candidate.tools[y], candidate.tools[i])
      {
        if ToolsClash(candidate.tools[j], candidate.tools[i]) {
          return false;
        }
      }
      for k := 0 to |active|
        invariant forall l, y | 0 <= l < k && 0 <= y < |active[l].tools| ::
                    !ToolsClash(active[l].tools[y], candidate.tools[i])
      {
        for j := 0 to |active[k].tools|
          invariant forall y | 0 <= y < j :: !ToolsClash(active[k].tools[y], candidate.tools[i])
        {
          if ToolsClash(active[k].tools[j], candidate.tools[i]) {
            assert !Compatible(active[k], candidate);
            return false;
          }
        }
      }
    }
    for i := 0 to |candidate.prompts|
      invariant forall k, x, y | 0 <= k < |active| && 0 <= x < i && 0 <= y < |active[k].prompts| ::
                  !PromptsClash(active[k].prompts[y], candidate.prompts[x])
    {
      for k := 0 to |active|
        invariant forall l, y | 0 <= l < k && 0 <= y < |active[l].prompts| ::
                    !PromptsClash(active[l].prompts[y], candidate.prompts[i])
      {
        for j := 0 to |active[k].prompts|
          invariant forall y | 0 <= y < j :: !PromptsClash(active[k].prompts[y], candidate.prompts[i])
        {
          if PromptsClash(active[k].prompts[j], candidate.prompts[i]) {
            assert !Compatible(active[k], candidate);
            return false;
          }
        }
      }
    }
    return true;
  }

  // ----- the registry over time

  datatype Host = Host(points: map<PointKey, Point>, mounts: map<string, Payload>)

  datatype Op = Mount(id: string, calls: seq<Call>) | Deactivate(id: string)

  predicate CanCommit(h: Host, id: string, p: Payload) {
    && id !in h.mounts
    && (forall i | 0 <= i < |p.entries| ::
       p.entries[i].point.key in h.points && h.points[p.entries[i].point.key] == p.entries[i].point)
    && SelfCompatible(p)
    && (forall other | other in h.mounts :: Compatible(h.mounts[other], p))
  }

  function Execute(h: Host, op: Op): Host {
    match op
    case Mount(id, calls) => if CanCommit(h, id, Stage(calls)) then h.(mounts := h.mounts[id := Stage(calls)]) else h
    case Deactivate(id) => h.(mounts := h.mounts - {id})
  }

  function ExecuteAll(points: map<PointKey, Point>, ops: seq<Op>): Host {
    if ops == [] then Host(points, map[]) else Execute(ExecuteAll(points, ops[..|ops| - 1]), ops[|ops| - 1])
  }

  /** A payload the registrars can have staged. */
  ghost predicate Staged(p: Payload) {
    && (forall i | 0 <= i < |p.entries| :: ValidScope(p.entries[i].scope))
    && (forall i | 0 <= i < |p.tools| :: ValidScope(p.tools[i].scope))
    && (forall i | 0 <= i < |p.prompts| :: ValidScope(p.prompts[i].scope))
    && (forall i, j | 0 <= i < j < |p.entries| :: !SameRegistration(p.entries[i], p.entries[j]))
    && (forall i, j | 0 <= i < j < |p.prompts| :: !PromptsClash(p.prompts[i], p.prompts[j]))
  }

  ghost predicate Inv(h: Host) {
    && (forall id | id in h.mounts :: Staged(h.mounts[id]) && SelfCompatible(h.mounts[id]))
    && (forall id, i | id in h.mounts && 0 <= i < |h.mounts[id].entries| ::
          var p := h.mounts[id].entries[i].point; p.key in h.points && h.points[p.key] == p)
    && (forall a, b | a in h.mounts && b in h.mounts && a != b :: Compatible(h.mounts[a], h.mounts[b]))
  }

  lemma {:induction false} StageIsStaged(calls: seq<Call>)
    ensures Staged(Stage(calls))
  {
    if calls != [] {
      StageIsStaged(calls[..|calls| - 1]);
    }
  }

  lemma CompatibleSymmetric(a: Payload, b: Payload)
    requires Compatible(a, b)
    ensures Compatible(b, a)
  {
  }

  /** Every reachable registry state satisfies the invariant. */
  lemma {:induction false} ReachableInv(points: map<PointKey, Point>, ops: seq<Op>)
    ensures Inv(ExecuteAll(points, ops))
  {
    if ops != [] {
      ReachableInv(points, ops[..|ops| - 1]);
      var h := ExecuteAll(points, ops[..|ops| - 1]);
      var op := ops[|ops| - 1];
      if op.Mount? && CanCommit(h, op.id, Stage(op.calls)) {
        StageIsStaged(op.calls);
        forall other | other in h.mounts ensures Compatible(Stage(op.calls), h.mounts[other]) {
          CompatibleSymmetric(h.mounts[other], Stage(op.calls));
        }
      }
    }
  }

  // ----- what may be mounted, on the tools and prompts themselves

  /** Two tools that one plan would offer under one name. */
  ghost predicate Collide(a: Tool, b: Tool) {
    a.name == b.name && Meet(a.scope, b.scope)
  }

  ghost predicate AnyCollide(a: seq<Tool>, b: seq<Tool>) {
    exists i, j :: 0 <= i < |a| && 0 <= j < |b| && Collide(a[i], b[j])
  }

  ghost predicate SelfCollide(tools: seq<Tool>) {
    exists i, j :: 0 <= i < j < |tools| && Collide(tools[i], tools[j])
  }

  ghost predicate SamePrompt(a: seq<Prompt>, b: seq<Prompt>) {
    exists i, j :: 0 <= i < |a| && 0 <= j < |b| && a[i].name == b[j].name && a[i].scope == b[j].scope
  }

  lemma CompatibleIff(active: Payload, candidate: Payload)
    requires Staged(active) && Staged(candidate)
    ensures Compatible(active, candidate) <==>
              !AnyCollide(active.tools, candidate.tools) && !SamePrompt(active.prompts, candidate.prompts)
  {
    forall i, j | 0 <= i < |active.tools| && 0 <= j < |candidate.tools|
      ensures ToolsClash(active.tools[i], candidate.tools[j]) <==> Collide(active.tools[i], candidate.tools[j]) {
      OverlapIffMeet(active.tools[i].scope, candidate.tools[j].scope);
    }
  }

  lemma SelfCompatibleIff(p: Payload)
    requires Staged(p)
    ensures SelfCompatible(p) <==> !SelfCollide(p.tools)
  {
    forall i, j | 0 <= i < j < |p.tools| ensures ToolsClash(p.tools[j], p.tools[i]) <==> Collide(p.tools[i], p.tools[j])
    {
      OverlapIffMeet(p.tools[i].scope, p.tools[j].scope);
    }
  }

  /** In every reachable state a component is mounted exactly if its instance id is free, its
      points are the host's, no valid target would see two of its tools, or one of its and an
      active one, under one name, and no active component has a prompt of the same name and
      scope. */
  lemma {:induction false} MountIff(points: map<PointKey, Point>, ops: seq<Op>, id: string, calls: seq<Call>)
    ensures var h, p := ExecuteAll(points, ops), Stage(calls);
            (id !in h.mounts && id in Execute(h, Mount(id, calls)).mounts) <==>
              && id !in h.mounts && !SelfCollide(p.tools)
              && (forall i | 0 <= i < |p.entries| ::
                    p.entries[i].point.key in points && points[p.entries[i].point.key] == p.entries[i].point)
              && forall other | other in h.mounts ::
                   !AnyCollide(h.mounts[other].tools, p.tools) && !SamePrompt(h.mounts[other].prompts, p.prompts)
    ensures var h := ExecuteAll(points, ops); forall other | other in h.mounts ::
              var h' := Execute(h, Mount(id, calls)); other in h'.mounts && h'.mounts[other] == h.mounts[other]
  {
    var h, p := ExecuteAll(points, ops), Stage(calls);
    ReachableInv(points, ops);
    PointsStay(points, ops);
    StageIsStaged(calls);
    SelfCompatibleIff(p);
    forall other | other in h.mounts ensures Compatible(h.mounts[other], p) <==>
        !AnyCollide(h.mounts[other].tools, p.tools) && !SamePrompt(h.mounts[other].prompts, p.prompts) {
      CompatibleIff(h.mounts[other], p);
    }
  }

  lemma {:induction false} PointsStay(points: map<PointKey, Point>, ops: seq<Op>)
    ensures ExecuteAll(points, ops).points == points
  {
    if ops != [] {
      PointsStay(points, ops[..|ops| - 1]);
    }
  }
}
