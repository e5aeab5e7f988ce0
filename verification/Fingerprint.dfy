/** The admission fingerprint: a size computed before marshalling that equals the length of
    the canonical JSON encoding (runtime/admission_fingerprint.go). */
module Fingerprint {
  import opened Options
  import opened Orders
  import opened Json

  const MAX_PAYLOAD_BYTES: nat := 0x100000

  datatype Selection = Selection(provider: Bytes, model: Bytes, variant: Bytes)
  datatype Agent = Agent(name: Bytes, systemPrompt: Bytes, mode: Bytes, model: Selection, options: map<Bytes, Bytes>)
  datatype Permission = Permission(permission: Bytes, pattern: Bytes, action: Bytes)
  datatype Tools = Tools(enabled: seq<Bytes>, disabled: seq<Bytes>, permissions: seq<Permission>)

  /** message: the encoding of the projected blocks, None when a block is not admissible. */
  datatype Request = Request(keyValid: bool, message: Option<Bytes>, agent: Agent, model: Selection, tools: Tools,
                             configMetadata: map<Bytes, Bytes>, requestMetadata: map<Bytes, Bytes>)
  datatype Payload = Payload(message: Bytes, agent: Agent, model: Selection, tools: Tools,
                             configMetadata: map<Bytes, Bytes>, requestMetadata: map<Bytes, Bytes>)

  /** The order in which the encoder writes the keys of each map. */
  datatype KeyOrders = KeyOrders(options: seq<Bytes>, config: seq<Bytes>, request: seq<Bytes>)

  ghost predicate Enumerates(ks: seq<Bytes>, m: map<Bytes, Bytes>) {
    NoDuplicates(ks) && forall k :: k in ks <==> k in m
  }

  // ----- the canonical encoding

  /** How strings are written: which ones can be, and their literals. */
  datatype Coder = Coder(valid: Bytes -> bool, quote: Bytes -> Bytes)

  /** The coder is JSON's (its literal for an invalid string never matters). */
  ghost predicate IsJson(c: Coder) {
    && (forall v {:trigger ValidString(v)} ::
       c.valid(v) == ValidString(v) && (ValidString(v) ==> c.quote(v) == Quote(v)))
    && (forall v :: |c.quote(v)| >= 2) && |c.quote([])| == 2
  }

  function JsonCoder(): Coder {
    Coder(v => ValidString(v), v => if ValidString(v) then Quote(v) else Lit("\"\""))
  }

  lemma JsonCoderIsJson()
    ensures IsJson(JsonCoder())
  {
    var c := JsonCoder();
    assert Runes([]) == Some([]) && c.quote([]) == Quote([]);
    forall v ensures |c.quote(v)| >= 2 {
      assert c.quote(v) == if ValidString(v) then Quote(v) else Lit("\"\"");
    }
  }

  predicate AllValid(c: Coder, vs: seq<Bytes>) {
    forall i | 0 <= i < |vs| :: c.valid(vs[i])
  }

  predicate MapValid(c: Coder, m: map<Bytes, Bytes>) {
    forall k | k in m :: c.valid(k) && c.valid(m[k])
  }

  function Fields(p: Payload): seq<Bytes> {
    [p.agent.name, p.agent.systemPrompt, p.agent.mode, p.agent.model.provider, p.agent.model.model,
        p.agent.model.variant,
     p.model.provider, p.model.model, p.model.variant]
  }

  function Rule(r: Permission): seq<Bytes> {
    [r.permission, r.pattern, r.action]
  }

  predicate RulesValid(c: Coder, rules: seq<Permission>) {
    forall i | 0 <= i < |rules| :: AllValid(c, Rule(rules[i]))
  }

  /** validAdmissionPayload. */
  predicate PayloadValid(c: Coder, p: Payload) {
    && AllValid(c, Fields(p))
    && MapValid(c, p.agent.options) && MapValid(c, p.configMetadata) && MapValid(c, p.requestMetadata)
    && AllValid(c, p.tools.enabled) && AllValid(c, p.tools.disabled) && RulesValid(c, p.tools.permissions)
  }

  /** The first n parts, separated by commas. */
  function JoinedTo(parts: seq<Bytes>, n: nat): Bytes
    requires n <= |parts|
  {
    if n == 0 then []
    else if n == 1 then parts[0]
    else JoinedTo(parts, n - 1) + Lit(",") + parts[n - 1]
  }

  function Joined(parts: seq<Bytes>): Bytes {
    JoinedTo(parts, |parts|)
  }

  function Quotes(c: Coder, vs: seq<Bytes>): (r: seq<Bytes>)
    ensures |r| == |vs| && forall i | 0 <= i < |vs| :: r[i] == c.quote(vs[i])
  {
    seq(|vs|, i requires 0 <= i < |vs| => c.quote(vs[i]))
  }

  function EncodeList(c: Coder, vs: seq<Bytes>): Bytes {
    Lit("[") + Joined(Quotes(c, vs)) + Lit("]")
  }

  function Member(c: Coder, m: map<Bytes, Bytes>, k: Bytes): Bytes
    requires k in m
  {
    c.quote(k) + Lit(":") + c.quote(m[k])
  }

  function Members(c: Coder, m: map<Bytes, Bytes>, ks: seq<Bytes>): (r: seq<Bytes>)
    requires forall k | k in ks :: k in m
    ensures |r| == |ks| && forall i | 0 <= i < |ks| :: r[i] == Member(c, m, ks[i])
  {
    seq(|ks|, i requires 0 <= i < |ks| => Member(c, m, ks[i]))
  }

  function EncodeMap(c: Coder, m: map<Bytes, Bytes>, ks: seq<Bytes>): Bytes
    requires forall k | k in ks :: k in m
  {
    Lit("{") + Joined(Members(c, m, ks)) + Lit("}")
  }

  function EncodeSelection(c: Coder, s: Selection): Bytes {
    Lit("{\"provider_id\":") + c.quote(s.provider) + Lit(",\"model_id\":") + c.quote(s.model)
    + Lit(",\"variant\":") + c.quote(s.variant) + Lit("}")
  }

  function EncodeRule(c: Coder, r: Permission): Bytes {
    Lit("{\"permission\":") + c.quote(r.permission) + Lit(",\"pattern\":") + c.quote(r.pattern)
    + Lit(",\"action\":") + c.quote(r.action) + Lit("}")
  }

  function RuleParts(c: Coder, rules: seq<Permission>): (r: seq<Bytes>)
    ensures |r| == |rules| && forall i | 0 <= i < |rules| :: r[i] == EncodeRule(c, rules[i])
  {
    seq(|rules|, i requires 0 <= i < |rules| => EncodeRule(c, rules[i]))
  }

  function EncodeTools(c: Coder, t: Tools): Bytes {
    Lit("{\"enabled\":") + EncodeList(c, t.enabled) + Lit(",\"disabled\":") + EncodeList(c, t.disabled)
    + Lit(",\"permissions\":[") + Joined(RuleParts(c, t.permissions)) + Lit("]}")
  }

  function EncodeAgent(c: Coder, a: Agent, ks: seq<Bytes>): Bytes
    requires forall k | k in ks :: k in a.options
  {
    Lit("{\"name\":") + c.quote(a.name) + Lit(",\"system_prompt\":") + c.quote(a.systemPrompt) + Lit(",\"mode\":")
        + c.quote(a.mode)
    + Lit(",\"model\":") + EncodeSelection(c, a.model) + Lit(",\"options\":") + EncodeMap(c, a.options, ks) + Lit("}")
  }

  predicate OrdersFit(p: Payload, o: KeyOrders) {
    && (forall k | k in o.options :: k in p.agent.options) && (forall k | k in o.config :: k in p.configMetadata)
    && (forall k | k in o.request :: k in p.requestMetadata)
  }

  /** json.Marshal of the payload. */
  function Encode(c: Coder, p: Payload, o: KeyOrders): Bytes
    requires OrdersFit(p, o)
  {
    Lit("{\"message\":") + p.message + Lit(",\"agent\":") + EncodeAgent(c, p.agent, o.options)
    + Lit(",\"model\":") + EncodeSelection(c, p.model) + Lit(",\"tools\":") + EncodeTools(c, p.tools)
    + Lit(",\"config_metadata\":") + EncodeMap(c, p.configMetadata, o.config)
    + Lit(",\"request_metadata\":") + EncodeMap(c, p.requestMetadata, o.request) + Lit("}")
  }

  const NO_SELECTION := Selection([], [], [])
  const EMPTY_PAYLOAD :=
      Payload(Lit("[]"), Agent([], [], [], NO_SELECTION, map[]), NO_SELECTION, Tools([], [], []), map[], map[])
  const NO_ORDERS := KeyOrders([], [], [])

  /** The fixed cost of a payload and of a permission: the lengths of the empty ones. */
  function EmptyPayloadBytes(c: Coder): nat {
    |Encode(c, EMPTY_PAYLOAD, NO_ORDERS)|
  }

  function EmptyPermissionBytes(c: Coder): nat {
    |EncodeRule(c, Permission([], [], []))|
  }

  // ----- the size, part by part

  /** What the first n strings add when each already has empty bytes counted. */
  function SumTo(c: Coder, vs: seq<Bytes>, empty: nat, n: nat): int
    requires n <= |vs|
  {
    if n == 0 then 0 else SumTo(c, vs, empty, n - 1) + |c.quote(vs[n - 1])| - empty
  }

  function Sum(c: Coder, vs: seq<Bytes>, empty: nat): int {
    SumTo(c, vs, empty, |vs|)
  }

  ghost function SumMap(c: Coder, m: map<Bytes, Bytes>, s: set<Bytes>): nat
    requires s <= m.Keys
  {
    if s == {} then 0
    else
      var k :| k in s;
      |c.quote(k)| + |c.quote(m[k])| + SumMap(c, m, s - {k})
  }

  /** Whichever key is taken first. */
  lemma {:induction false} SumMapTake(c: Coder, m: map<Bytes, Bytes>, s: set<Bytes>, k: Bytes)
    requires s <= m.Keys && k in s
    ensures SumMap(c, m, s) == |c.quote(k)| + |c.quote(m[k])| + SumMap(c, m, s - {k})
    decreases s
  {
    var first :| first in s && SumMap(c, m, s) == |c.quote(first)| + |c.quote(m[first])| + SumMap(c, m, s - {first});
    if first != k {
      SumMapTake(c, m, s - {first}, k);
      SumMapTake(c, m, s - {k}, first);
      assert s - {first} - {k} == s - {k} - {first};
    }
  }

  function Commas(n: nat): nat {
    if n == 0 then 0 else n - 1
  }

  ghost function MapSize(c: Coder, m: map<Bytes, Bytes>): nat {
    |m| + Commas(|m|) + SumMap(c, m, m.Keys)
  }

  function ListSize(c: Coder, vs: seq<Bytes>): int {
    Commas(|vs|) + Sum(c, vs, 0)
  }

  function RuleSumTo(c: Coder, rules: seq<Permission>, n: nat): int
    requires n <= |rules|
  {
    if n == 0 then 0 else RuleSumTo(c, rules, n - 1) + Sum(c, Rule(rules[n - 1]), 2)
  }

  function RulesSize(c: Coder, rules: seq<Permission>): int {
    EmptyPermissionBytes(c) * |rules| + Commas(|rules|) + RuleSumTo(c, rules, |rules|)
  }

  /** What the request adds to the empty payload. */
  ghost function Extra(c: Coder, p: Payload): int {
    |p.message| - 2 + Sum(c, Fields(p), 2)
    + MapSize(c, p.agent.options) + MapSize(c, p.configMetadata) + MapSize(c, p.requestMetadata)
    + ListSize(c, p.tools.enabled) + ListSize(c, p.tools.disabled) + RulesSize(c, p.tools.permissions)
  }

  // ----- the size is the length of the encoding

  function TotalTo(parts: seq<Bytes>, n: nat): nat
    requires n <= |parts|
  {
    if n == 0 then 0 else TotalTo(parts, n - 1) + |parts[n - 1]|
  }

  lemma {:induction false} JoinedLength(parts: seq<Bytes>, n: nat)
    requires n <= |parts|
    ensures |JoinedTo(parts, n)| == TotalTo(parts, n) + Commas(n)
  {
    if n > 0 {
      JoinedLength(parts, n - 1);
    }
  }

  lemma {:induction false} QuotesLength(c: Coder, vs: seq<Bytes>, n: nat)
    requires n <= |vs|
    ensures TotalTo(Quotes(c, vs), n) == SumTo(c, vs, 0, n)
  {
    if n > 0 {
      QuotesLength(c, vs, n - 1);
    }
  }

  lemma {:induction false} ListLength(c: Coder, vs: seq<Bytes>)
    ensures |EncodeList(c, vs)| == 2 + ListSize(c, vs)
  {
    QuotesLength(c, vs, |vs|);
    JoinedLength(Quotes(c, vs), |vs|);
  }

  function KeySet(ks: seq<Bytes>): set<Bytes> {
    set k | k in ks
  }

  lemma KeySetLast(ks: seq<Bytes>)
    requires ks != [] && NoDuplicates(ks)
    ensures KeySet(ks) - {ks[|ks| - 1]} == KeySet(ks[..|ks| - 1]) && ks[|ks| - 1] in KeySet(ks)
  {
  }

  function SumKeys(c: Coder, m: map<Bytes, Bytes>, ks: seq<Bytes>, n: nat): nat
    requires n <= |ks| && forall k | k in ks :: k in m
  {
    if n == 0 then 0 else SumKeys(c, m, ks, n - 1) + |c.quote(ks[n - 1])| + |c.quote(m[ks[n - 1]])|
  }

  lemma {:induction false} SumKeysIsSumMap(c: Coder, m: map<Bytes, Bytes>, ks: seq<Bytes>, n: nat)
    requires NoDuplicates(ks) && n <= |ks| && forall k | k in ks :: k in m
    ensures KeySet(ks[..n]) <= m.Keys && SumKeys(c, m, ks, n) == SumMap(c, m, KeySet(ks[..n]))
  {
    if n > 0 {
      assert ks[..n][..n - 1] == ks[..n - 1];
      KeySetLast(ks[..n]);
      SumKeysIsSumMap(c, m, ks, n - 1);
      SumMapTake(c, m, KeySet(ks[..n]), ks[n - 1]);
    }
  }

  lemma {:induction false} MembersLength(c: Coder, m: map<Bytes, Bytes>, ks: seq<Bytes>, n: nat)
    requires n <= |ks| && forall k | k in ks :: k in m
    ensures TotalTo(Members(c, m, ks), n) == n + SumKeys(c, m, ks, n)
  {
    if n > 0 {
      MembersLength(c, m, ks, n - 1);
    }
  }

  /** In whatever order the keys are written. */
  lemma {:induction false} MapLength(c: Coder, m: map<Bytes, Bytes>, ks: seq<Bytes>)
    requires Enumerates(ks, m)
    ensures |EncodeMap(c, m, ks)| == 2 + MapSize(c, m)
  {
    assert KeySet(ks) == m.Keys;
    MembersLength(c, m, ks, |ks|);
    assert ks[..|ks|] == ks;
    SumKeysIsSumMap(c, m, ks, |ks|);
    JoinedLength(Members(c, m, ks), |ks|);
    KeyCount(ks);
  }

  lemma {:induction false} KeyCount(ks: seq<Bytes>)
    requires NoDuplicates(ks)
    ensures |KeySet(ks)| == |ks|
  {
    if ks != [] {
      KeySetLast(ks);
      KeyCount(ks[..|ks| - 1]);
    }
  }

  lemma {:induction false} ThreeMore(c: Coder, vs: seq<Bytes>, n: nat)
    requires n + 3 <= |vs|
    ensures SumTo(c, vs, 2, n + 3) == SumTo(c, vs, 2, n) + |c.quote(vs[n])| + |c.quote(vs[n + 1])|
              + |c.quote(vs[n + 2])| - 6
  {
    assert SumTo(c, vs, 2, n + 2) == SumTo(c, vs, 2, n + 1) + |c.quote(vs[n + 1])| - 2;
  }

  lemma RuleLength(c: Coder, r: Permission)
    requires |c.quote([])| == 2
    ensures |EncodeRule(c, r)| == EmptyPermissionBytes(c) + Sum(c, Rule(r), 2)
  {
    ThreeMore(c, Rule(r), 0);
  }

  lemma Distribute(e: nat, n: nat)
    ensures e * (n + 1) == e * n + e
  {
  }

  lemma {:induction false} RulesTotal(c: Coder, rules: seq<Permission>, n: nat)
    requires n <= |rules| && |c.quote([])| == 2
    ensures TotalTo(RuleParts(c, rules), n) == EmptyPermissionBytes(c) * n + RuleSumTo(c, rules, n)
  {
    if n > 0 {
      RulesTotal(c, rules, n - 1);
      RuleLength(c, rules[n - 1]);
      Distribute(EmptyPermissionBytes(c), n - 1);
    }
  }

  lemma SelectionLength(c: Coder, s: Selection)
    requires |c.quote([])| == 2
    ensures |EncodeSelection(c, s)| == |EncodeSelection(c, NO_SELECTION)| + |c.quote(s.provider)| + |c.quote(s.model)|
              + |c.quote(s.variant)| - 6
  {
  }

  lemma {:induction false} AgentLength(c: Coder, a: Agent, ks: seq<Bytes>)
    requires |c.quote([])| == 2 && Enumerates(ks, a.options)
    ensures |EncodeAgent(c, a, ks)| == |EncodeAgent(c, EMPTY_PAYLOAD.agent, [])| + MapSize(c, a.options)
              + |c.quote(a.name)| + |c.quote(a.systemPrompt)| + |c.quote(a.mode)| - 6
              + |c.quote(a.model.provider)| + |c.quote(a.model.model)| + |c.quote(a.model.variant)| - 6
  {
    SelectionLength(c, a.model);
    MapLength(c, a.options, ks);
    assert |EncodeMap(c, map[], [])| == 2;
  }

  lemma {:induction false} ToolsLength(c: Coder, t: Tools)
    requires |c.quote([])| == 2
    ensures |EncodeTools(c, t)| == |EncodeTools(c, EMPTY_PAYLOAD.tools)| + ListSize(c, t.enabled)
              + ListSize(c, t.disabled) + RulesSize(c, t.permissions)
  {
    ListLength(c, t.enabled);
    ListLength(c, t.disabled);
    RulesTotal(c, t.permissions, |t.permissions|);
    JoinedLength(RuleParts(c, t.permissions), |t.permissions|);
  }

  lemma FieldSum(c: Coder, p: Payload)
    ensures Sum(c, Fields(p), 2) ==
              |c.quote(p.agent.name)| + |c.quote(p.agent.systemPrompt)| + |c.quote(p.agent.mode)| - 6
              + |c.quote(p.agent.model.provider)| + |c.quote(p.agent.model.model)|
                  + |c.quote(p.agent.model.variant)| - 6
              + |c.quote(p.model.provider)| + |c.quote(p.model.model)| + |c.quote(p.model.variant)| - 6
  {
    var f := Fields(p);
    ThreeMore(c, f, 0);
    ThreeMore(c, f, 3);
    ThreeMore(c, f, 6);
  }

  /** The lengths of a payload's parts. */
  ghost function PartsLength(c: Coder, p: Payload, o: KeyOrders): int
    requires OrdersFit(p, o)
  {
    |p.message| + |EncodeAgent(c, p.agent, o.options)| + |EncodeSelection(c, p.model)| + |EncodeTools(c, p.tools)|
    + |EncodeMap(c, p.configMetadata, o.config)| + |EncodeMap(c, p.requestMetadata, o.request)|
  }

  function Punctuation(): nat {
    |"{\"message\":" + ",\"agent\":" + ",\"model\":" + ",\"tools\":" + ",\"config_metadata\":"
        + ",\"request_metadata\":" + "}"|
  }

  lemma EncodeLength(c: Coder, p: Payload, o: KeyOrders)
    requires OrdersFit(p, o)
    ensures |Encode(c, p, o)| == PartsLength(c, p, o) + Punctuation()
  {
  }

  ghost predicate Canonical(p: Payload, o: KeyOrders) {
    Enumerates(o.options, p.agent.options) && Enumerates(o.config, p.configMetadata)
        && Enumerates(o.request, p.requestMetadata)
  }

  lemma {:induction false} PartsGrow(c: Coder, p: Payload, o: KeyOrders)
    requires |c.quote([])| == 2 && Canonical(p, o)
    ensures PartsLength(c, p, o) == PartsLength(c, EMPTY_PAYLOAD, NO_ORDERS) + Extra(c, p)
  {
    AgentLength(c, p.agent, o.options);
    SelectionLength(c, p.model);
    ToolsLength(c, p.tools);
    MapLength(c, p.configMetadata, o.config);
    MapLength(c, p.requestMetadata, o.request);
    FieldSum(c, p);
    assert |EncodeMap(c, map[], [])| == 2;
  }

  /** The size computed before marshalling is the length of the canonical encoding, in
      whatever order its map keys are written. */
  lemma {:induction false} SizeIsEncodedLength(c: Coder, p: Payload, o: KeyOrders)
    requires |c.quote([])| == 2 && Canonical(p, o)
    ensures |Encode(c, p, o)| == EmptyPayloadBytes(c) + Extra(c, p)
  {
    PartsGrow(c, p, o);
    EncodeLength(c, p, o);
    EncodeLength(c, EMPTY_PAYLOAD, NO_ORDERS);
  }

  // ----- the code

  lemma {:induction false} SumGrows(c: Coder, vs: seq<Bytes>, empty: nat, i: nat, n: nat)
    requires IsJson(c) && i <= n <= |vs| && empty <= 2
    ensures SumTo(c, vs, empty, i) <= SumTo(c, vs, empty, n)
  {
    if i < n {
      SumGrows(c, vs, empty, i, n - 1);
    }
  }

  /** The closure add: one more string, unless it is invalid or exceeds the limit. */
  method Add(c: Coder, used: nat, v: Bytes, empty: nat) returns (ok: bool, used': nat)
    requires IsJson(c) && used <= MAX_PAYLOAD_BYTES && empty <= 2
    ensures ok <==> c.valid(v) && used + |c.quote(v)| - empty <= MAX_PAYLOAD_BYTES
    ensures ok ==> used' == used + |c.quote(v)| - empty
  {
    var encoded, valid := EncodedJSONStringBytes(v);
    var increment := encoded - empty;
    if !valid || increment < 0 || used > MAX_PAYLOAD_BYTES - increment {
      return false, used;
    }
    return true, used + increment;
  }

  method AddAll(c: Coder, used: nat, vs: seq<Bytes>, empty: nat) returns (ok: bool, used': nat)
    requires IsJson(c) && used <= MAX_PAYLOAD_BYTES && empty <= 2
    ensures ok <==> AllValid(c, vs) && used + Sum(c, vs, empty) <= MAX_PAYLOAD_BYTES
    ensures ok ==> used' == used + Sum(c, vs, empty)
  {
    used' := used;
    for i := 0 to |vs|
      invariant (forall k | 0 <= k < i :: c.valid(vs[k])) && used' == used + SumTo(c, vs, empty, i) <= MAX_PAYLOAD_BYTES
    {
      SumGrows(c, vs, empty, i + 1, |vs|);
      ok, used' := Add(c, used', vs[i], empty);
      if !ok {
        return false, used';
      }
    }
    ok := true;
  }

  /** The increment for the separators, refused like any other. */
  method Reserve(used: nat, increment: nat) returns (ok: bool, used': nat)
    requires used <= MAX_PAYLOAD_BYTES
    ensures ok <==> used + increment <= MAX_PAYLOAD_BYTES
    ensures ok ==> used' == used + increment
  {
    if used > MAX_PAYLOAD_BYTES - increment {
      return false, used;
    }
    return true, used + increment;
  }

  method AddList(c: Coder, used: nat, vs: seq<Bytes>) returns (ok: bool, used': nat)
    requires IsJson(c) && used <= MAX_PAYLOAD_BYTES
    ensures ok <==> AllValid(c, vs) && used + ListSize(c, vs) <= MAX_PAYLOAD_BYTES
    ensures ok ==> used' == used + ListSize(c, vs)
  {
    SumGrows(c, vs, 0, 0, |vs|);
    ok, used' := Reserve(used, if |vs| > 0 then |vs| - 1 else 0);
    if ok {
      ok, used' := AddAll(c, used', vs, 0);
    }
  }

  lemma {:induction false} SumMapGrows(c: Coder, m: map<Bytes, Bytes>, s: set<Bytes>)
    requires s <= m.Keys
    ensures SumMap(c, m, s) <= SumMap(c, m, m.Keys)
    decreases |m.Keys - s|
  {
    var rest := m.Keys - s;
    if rest == {} {
      assert s == m.Keys;
    } else {
      var k :| k in rest;
      assert (s + {k}) - {k} == s && m.Keys - (s + {k}) == rest - {k};
      SumMapTake(c, m, s + {k}, k);
      SumMapGrows(c, m, s + {k});
    }
  }

  method AddEntry(c: Coder, used: nat, k: Bytes, v: Bytes) returns (ok: bool, used': nat)
    requires IsJson(c) && used <= MAX_PAYLOAD_BYTES
    ensures ok <==> c.valid(k) && c.valid(v) && used + |c.quote(k)| + |c.quote(v)| <= MAX_PAYLOAD_BYTES
    ensures ok ==> used' == used + |c.quote(k)| + |c.quote(v)|
  {
    ok, used' := Add(c, used, k, 0);
    if ok {
      ok, used' := Add(c, used', v, 0);
    }
  }

  lemma {:induction false} NextEntry(c: Coder, m: map<Bytes, Bytes>, done: set<Bytes>, k: Bytes)
    requires done <= m.Keys && k in m && k !in done
    ensures SumMap(c, m, done + {k}) == SumMap(c, m, done) + |c.quote(k)| + |c.quote(m[k])|
    ensures SumMap(c, m, done + {k}) <= SumMap(c, m, m.Keys) && |m.Keys - (done + {k})| < |m.Keys - done|
  {
    assert (done + {k}) - {k} == done && m.Keys - (done + {k}) == m.Keys - done - {k};
    SumMapTake(c, m, done + {k}, k);
    SumMapGrows(c, m, done + {k});
  }

  /** The entries of a map, in any order. */
  method AddEntries(c: Coder, used: nat, m: map<Bytes, Bytes>) returns (ok: bool, used': nat)
    requires IsJson(c) && used <= MAX_PAYLOAD_BYTES
    ensures ok <==> MapValid(c, m) && used + SumMap(c, m, m.Keys) <= MAX_PAYLOAD_BYTES
    ensures ok ==> used' == used + SumMap(c, m, m.Keys)
  {
    used' := used;
    var done: set<Bytes> := {};
    while done != m.Keys
      invariant done <= m.Keys && used' == used + SumMap(c, m, done) <= MAX_PAYLOAD_BYTES
      invariant forall k | k in done :: c.valid(k) && c.valid(m[k])
      decreases |m.Keys - done|
    {
      var k :| k in m && k !in done;
      NextEntry(c, m, done, k);
      ok, used' := AddEntry(c, used', k, m[k]);
      if !ok {
        return false, used';
      }
      done := done + {k};
    }
    ok := true;
  }

  method AddMap(c: Coder, used: nat, m: map<Bytes, Bytes>) returns (ok: bool, used': nat)
    requires IsJson(c) && used <= MAX_PAYLOAD_BYTES
    ensures ok <==> MapValid(c, m) && used + MapSize(c, m) <= MAX_PAYLOAD_BYTES
    ensures ok ==> used' == used + MapSize(c, m)
  {
    ok, used' := Reserve(used, if |m| > 0 then 2 * |m| - 1 else 0);
    if ok {
      ok, used' := AddEntries(c, used', m);
    }
  }

  lemma {:induction false} RuleSumGrows(c: Coder, rules: seq<Permission>, i: nat, n: nat)
    requires IsJson(c) && i <= n <= |rules|
    ensures RuleSumTo(c, rules, i) <= RuleSumTo(c, rules, n)
  {
    if i < n {
      RuleSumGrows(c, rules, i, n - 1);
      SumGrows(c, Rule(rules[n - 1]), 2, 0, 3);
    }
  }

  method AddRules(c: Coder, used: nat, rules: seq<Permission>) returns (ok: bool, used': nat)
    requires IsJson(c) && used <= MAX_PAYLOAD_BYTES
    ensures ok <==> RulesValid(c, rules) && used + RuleSumTo(c, rules, |rules|) <= MAX_PAYLOAD_BYTES
    ensures ok ==> used' == used + RuleSumTo(c, rules, |rules|)
  {
    used' := used;
    for i := 0 to |rules|
      invariant forall k | 0 <= k < i :: AllValid(c, Rule(rules[k]))
      invariant used' == used + RuleSumTo(c, rules, i) <= MAX_PAYLOAD_BYTES
    {
      RuleSumGrows(c, rules, i + 1, |rules|);
      ok, used' := AddAll(c, used', [rules[i].permission, rules[i].pattern, rules[i].action], 2);
      if !ok {
        return false, used';
      }
    }
    ok := true;
  }

  method AddPermissions(c: Coder, used: nat, rules: seq<Permission>) returns (ok: bool, used': nat)
    requires IsJson(c) && used <= MAX_PAYLOAD_BYTES
    ensures ok <==> RulesValid(c, rules) && used + RulesSize(c, rules) <= MAX_PAYLOAD_BYTES
    ensures ok ==> used' == used + RulesSize(c, rules)
  {
    RuleSumGrows(c, rules, 0, |rules|);
    var e, n := EmptyPermissionBytes(c), |rules|;
    assert (e + 1) * n == e * n + n;
    ok, used' := Reserve(used, if n > 0 then (e + 1) * n - 1 else 0);
    if ok {
      ok, used' := AddRules(c, used', rules);
    }
  }

  /** admissionFingerprintPayloadFor. */
  function PayloadFor(r: Request): Payload
    requires r.message.Some?
  {
    Payload(r.message.value, r.agent, r.model, r.tools, r.configMetadata, r.requestMetadata)
  }

  ghost predicate Admissible(c: Coder, r: Request) {
    && r.keyValid && r.message.Some? && |r.message.value| >= 2
    && PayloadValid(c, PayloadFor(r)) && EmptyPayloadBytes(c) + Extra(c, PayloadFor(r)) <= MAX_PAYLOAD_BYTES
  }

  /** The three maps, the two lists and the permissions, in the order the code adds them. */
  method AddCollections(c: Coder, used: nat, r: Request) returns (ok: bool, used': nat)
    requires IsJson(c) && used <= MAX_PAYLOAD_BYTES
    ensures ok <==> CollectionsValid(c, r) && used + CollectionsSize(c, r) <= MAX_PAYLOAD_BYTES
    ensures ok ==> used' == used + CollectionsSize(c, r)
  {
    RulesSizePositive(c, r.tools.permissions);
    SumGrows(c, r.tools.enabled, 0, 0, |r.tools.enabled|);
    SumGrows(c, r.tools.disabled, 0, 0, |r.tools.disabled|);
    ok, used' := AddMap(c, used, r.agent.options);
    if ok {
      ok, used' := AddMap(c, used', r.configMetadata);
    }
    if ok {
      ok, used' := AddMap(c, used', r.requestMetadata);
    }
    if ok {
      ok, used' := AddList(c, used', r.tools.enabled);
    }
    if ok {
      ok, used' := AddList(c, used', r.tools.disabled);
    }
    if ok {
      ok, used' := AddPermissions(c, used', r.tools.permissions);
    }
  }

  lemma RulesSizePositive(c: Coder, rules: seq<Permission>)
    requires IsJson(c)
    ensures RulesSize(c, rules) >= 0
  {
    RuleSumGrows(c, rules, 0, |rules|);
  }

  predicate CollectionsValid(c: Coder, r: Request) {
    && MapValid(c, r.agent.options) && MapValid(c, r.configMetadata) && MapValid(c, r.requestMetadata)
    && AllValid(c, r.tools.enabled) && AllValid(c, r.tools.disabled) && RulesValid(c, r.tools.permissions)
  }

  ghost function CollectionsSize(c: Coder, r: Request): int {
    MapSize(c, r.agent.options) + MapSize(c, r.configMetadata) + MapSize(c, r.requestMetadata)
    + ListSize(c, r.tools.enabled) + ListSize(c, r.tools.disabled) + RulesSize(c, r.tools.permissions)
  }

  lemma CollectionsPositive(c: Coder, r: Request)
    requires IsJson(c)
    ensures CollectionsSize(c, r) >= 0
  {
    RulesSizePositive(c, r.tools.permissions);
    SumGrows(c, r.tools.enabled, 0, 0, |r.tools.enabled|);
    SumGrows(c, r.tools.disabled, 0, 0, |r.tools.disabled|);
  }

  /** admissionInputJSONSize: it succeeds for exactly the valid requests whose encoding fits. */
  method AdmissionInputJSONSize(c: Coder, r: Request) returns (size: Option<nat>)
    requires IsJson(c) && EmptyPayloadBytes(c) <= MAX_PAYLOAD_BYTES
    ensures size.Some? <==> Admissible(c, r)
    ensures size.Some? ==> size.value == EmptyPayloadBytes(c) + Extra(c, PayloadFor(r))
  {
    if !r.keyValid || r.message.None? {
      return None;
    }
    CollectionsPositive(c, r);
    var values := Fields(PayloadFor(r));
    SumGrows(c, values, 2, 0, 9);
    var used := EmptyPayloadBytes(c);
    var increment := |r.message.value| - 2;
    if increment < 0 || used > MAX_PAYLOAD_BYTES - increment {
      return None;
    }
    used := used + increment;
    var ok;
    ok, used := AddAll(c, used, values, 2);
    if ok {
      ok, used := AddCollections(c, used, r);
    }
    return if ok then Some(used) else None;
  }

  lemma EmptyPayloadFits(c: Coder)
    requires |c.quote([])| == 2
    ensures EmptyPayloadBytes(c) <= 0x400
  {
    EncodeLength(c, EMPTY_PAYLOAD, NO_ORDERS);
  }

  /** Whether the request's own parts can be encoded within a mebibyte. */
  ghost predicate Fits(c: Coder, r: Request, o: KeyOrders) {
    && r.keyValid && r.message.Some? && |r.message.value| >= 2
    && var p := Payload(r.message.value, r.agent, r.model, r.tools, r.configMetadata, r.requestMetadata);
       PayloadValid(c, p) && Within(c, p, o, 0x100000)
  }

  /** The encoding is at most this long. */
  ghost predicate Within(c: Coder, p: Payload, o: KeyOrders, bytes: nat) {
    OrdersFit(p, o) && |Encode(c, p, o)| <= bytes
  }

  lemma WithinIff(c: Coder, p: Payload, o: KeyOrders, bytes: nat)
    requires |c.quote([])| == 2 && Canonical(p, o)
    ensures Within(c, p, o, bytes) <==> EmptyPayloadBytes(c) + Extra(c, p) <= bytes
  {
    SizeIsEncodedLength(c, p, o);
  }

  lemma AdmissibleIffFits(c: Coder, r: Request, o: KeyOrders)
    requires |c.quote([])| == 2 && (r.message.Some? ==> Canonical(PayloadFor(r), o))
    ensures Admissible(c, r) <==> Fits(c, r, o)
  {
    if r.message.Some? {
      WithinIff(c, PayloadFor(r), o, MAX_PAYLOAD_BYTES);
    }
  }

  /** fingerprintAdmission up to the hash: it fails only for a request that is invalid or does not
      fit; the marshalled length is checked again, but that check cannot fail. */
  method FingerprintAdmission(r: Request, o: KeyOrders) returns (preimage: Option<Bytes>)
    requires r.message.Some? ==> Canonical(PayloadFor(r), o)
    ensures preimage.Some? <==> Fits(JsonCoder(), r, o)
    ensures preimage.Some? ==>
              var p := Payload(r.message.value, r.agent, r.model, r.tools, r.configMetadata, r.requestMetadata);
              preimage.value == Lit("eino-agent-admission-v1\0") + Encode(JsonCoder(), p, o)
  {
    JsonCoderIsJson();
    preimage := FingerprintWith(JsonCoder(), r, o);
  }

  lemma AdmittedFits(c: Coder, r: Request, o: KeyOrders)
    requires IsJson(c) && Admissible(c, r) && Canonical(PayloadFor(r), o)
    ensures |Encode(c, PayloadFor(r), o)| <= MAX_PAYLOAD_BYTES
  {
    SizeIsEncodedLength(c, PayloadFor(r), o);
  }

  method FingerprintWith(c: Coder, r: Request, o: KeyOrders) returns (preimage: Option<Bytes>)
    requires IsJson(c) && (r.message.Some? ==> Canonical(PayloadFor(r), o))
    ensures preimage.Some? <==> Fits(c, r, o)
    ensures preimage.Some? ==> preimage.value == Lit("eino-agent-admission-v1\0") + Encode(c, PayloadFor(r), o)
  {
    AdmissibleIffFits(c, r, o);
    EmptyPayloadFits(c);
    var size := AdmissionInputJSONSize(c, r);
    if size.None? {
      return None;
    }
    var payload := PayloadFor(r);
    if !PayloadValid(c, payload) {
      return None;
    }
    var encoded := Encode(c, payload, o);
    AdmittedFits(c, r, o);
    if |encoded| > MAX_PAYLOAD_BYTES {
      return None;
    }
    return Some(Lit("eino-agent-admission-v1\0") + encoded);
  }
}
