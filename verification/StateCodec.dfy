/** Splitting provider-private fields off a message and putting them back
    (model/agentic_state.go, the typed extension state codec). */
module StateCodec {
  import opened Options

  // ----- messages

  datatype Location = Location(encrypted: string, rest: string)
  datatype Citation = Citation(web: bool, location: Option<Location>, rest: string)
  type Citations = seq<Option<Citation>>
  datatype Text = Text(text: string, extension: bool, openAI: Option<seq<Option<string>>>, claude: Option<Citations>)
  datatype Thought = Thought(text: string, signature: string)

  /** A nil entry, a block of one of the two kinds with private fields (whose body may be
      missing), or any other block. */
  datatype Block =
    | NilBlock
    | Reasoning(extra: bool, thought: Option<Thought>)
    | GenText(extra: bool, gen: Option<Text>)
    | OtherBlock(extra: bool, rest: string)

  datatype OpenAI = OpenAI(id: string, previous: string, createdAt: int, rest: string)
  datatype Claude = Claude(id: string, rest: string)
  /** blob: the SDK blob of the search entry point, None where there is no entry point. */
  datatype Gemini = Gemini(id: string, blob: Option<seq<int>>, rest: string)
  datatype Meta = Meta(openAI: Option<OpenAI>, claude: Option<Claude>, gemini: Option<Gemini>, rest: string)
  datatype Message = Message(extra: bool, blocks: seq<Block>, meta: Option<Meta>)

  // ----- items

  datatype Encrypted = Encrypted(annotation: int, index: string)
  datatype Payload =
    | Signature(signature: string)
    | EncryptedIndexes(indexes: seq<Encrypted>)
    | Blob(bytes: seq<int>)
    | ResponseIDs(id: string, previous: string, createdAt: int)
  datatype Item = Item(block: string, data: Payload)

  // ----- citations

  predicate HasIndex(c: Option<Citation>) {
    c.Some? && c.value.web && c.value.location.Some? && c.value.location.value.encrypted != ""
  }

  function SetIndex(c: Citation, index: string): Citation
    requires c.location.Some?
  {
    c.(location := Some(c.location.value.(encrypted := index)))
  }

  function Blank(c: Option<Citation>): Option<Citation> {
    if HasIndex(c) then Some(SetIndex(c.value, "")) else c
  }

  /** How many of the first n entries are not nil. */
  function Count<T>(s: seq<Option<T>>, n: nat): nat
    requires n <= |s|
  {
    if n == 0 then 0 else Count(s, n - 1) + if s[n - 1].Some? then 1 else 0
  }

  /** Citations are numbered after the OpenAI annotations. */
  function Base(t: Text): nat {
    if t.openAI.Some? then Count(t.openAI.value, |t.openAI.value|) else 0
  }

  function IndexesTo(cits: Citations, base: nat, n: nat): seq<Encrypted>
    requires n <= |cits|
  {
    if n == 0 then []
    else IndexesTo(cits, base, n - 1)
         + if HasIndex(cits[n - 1]) then
             [Encrypted(base + Count(cits, n - 1), cits[n - 1].value.location.value.encrypted)] else []
  }

  function BlankAll(cits: Citations): (r: Citations)
    ensures |r| == |cits| && forall i | 0 <= i < |cits| :: r[i] == Blank(cits[i])
  {
    seq(|cits|, i requires 0 <= i < |cits| => Blank(cits[i]))
  }

  /** byAnnotation: the citation a number stands for. */
  function Find(cits: Citations, base: nat, annotation: int, n: nat): (p: Option<nat>)
    requires n <= |cits|
    ensures p.Some? ==> p.value < n && cits[p.value].Some? && base + Count(cits, p.value) == annotation
  {
    if n == 0 then None
    else if cits[n - 1].Some? && base + Count(cits, n - 1) == annotation then Some(n - 1)
    else Find(cits, base, annotation, n - 1)
  }

  /** Writing the first n indexes back; numbers are looked up among the original entries. */
  function RefillTo(cits: Citations, base: nat, es: seq<Encrypted>, n: nat): (r: Option<Citations>)
    requires n <= |es|
    ensures r.Some? ==> |r.value| == |cits|
  {
    if n == 0 then Some(cits)
    else
      var r := RefillTo(cits, base, es, n - 1);
      var p := Find(cits, base, es[n - 1].annotation, |cits|);
      if r.None? || p.None? then None
      else
        var c := r.value[p.value];
        if c.Some? && c.value.web && c.value.location.Some? then
            Some(r.value[p.value := Some(SetIndex(c.value, es[n - 1].index))]) else None
  }

  method CaptureClaudeEncryptedIndexes(t: Text) returns (public: Text, es: seq<Encrypted>)
    ensures t.claude.None? ==> public == t && es == []
    ensures t.claude.Some? ==>
              public == t.(claude := Some(BlankAll(t.claude.value)))
                  && es == IndexesTo(t.claude.value, Base(t), |t.claude.value|)
  {
    if t.claude.None? {
      return t, [];
    }
    var base := CountAnnotations(t);
    var cits := t.claude.value;
    es := [];
    var idx := base;
    for i := 0 to |cits|
      invariant |cits| == |t.claude.value| && cits[i..] == t.claude.value[i..]
      invariant forall k | 0 <= k < i :: cits[k] == Blank(t.claude.value[k])
      invariant idx == base + Count(t.claude.value, i) && es == IndexesTo(t.claude.value, base, i)
    {
      assert cits[i] == cits[i..][0] == t.claude.value[i];
      if cits[i].Some? {
        if HasIndex(cits[i]) {
          es := es + [Encrypted(idx, cits[i].value.location.value.encrypted)];
          cits := cits[i := Blank(cits[i])];
        }
        idx := idx + 1;
      }
    }
    assert cits == BlankAll(t.claude.value);
    public := t.(claude := Some(cits));
  }

  method CountAnnotations(t: Text) returns (n: nat)
    ensures n == Base(t)
  {
    n := 0;
    if t.openAI.Some? {
      for i := 0 to |t.openAI.value|
        invariant n == Count(t.openAI.value, i)
      {
        if t.openAI.value[i].Some? {
          n := n + 1;
        }
      }
    }
  }

  /** The map from annotation numbers to citations. */
  method ByAnnotation(cits: Citations, base: nat) returns (at: map<int, nat>)
    ensures forall a :: Find(cits, base, a, |cits|) == if a in at then Some(at[a]) else None
  {
    at := map[];
    var idx: int := base;
    for i := 0 to |cits|
      invariant idx == base + Count(cits, i)
      invariant forall a :: Find(cits, base, a, i) == if a in at then Some(at[a]) else None
    {
      if cits[i].Some? {
        at := at[idx := i];
        idx := idx + 1;
      }
    }
  }

  method RestoreClaudeEncryptedIndexes(t: Text, es: seq<Encrypted>) returns (r: Option<Text>)
    ensures t.claude.None? ==> r.None?
    ensures t.claude.Some? ==>
              var refilled := RefillTo(t.claude.value, Base(t), es, |es|);
              r == if refilled.Some? then Some(t.(claude := refilled)) else None
  {
    if t.claude.None? {
      return None;
    }
    var base := CountAnnotations(t);
    var at := ByAnnotation(t.claude.value, base);
    var cits := t.claude.value;
    for i := 0 to |es|
      invariant RefillTo(t.claude.value, base, es, i) == Some(cits)
    {
      if es[i].annotation !in at {
        RefillFails(t.claude.value, base, es, i + 1, |es|);
        return None;
      }
      var p := at[es[i].annotation];
      assert Find(t.claude.value, base, es[i].annotation, |cits|) == Some(p);
      if cits[p].None? || !cits[p].value.web || cits[p].value.location.None? {
        RefillFails(t.claude.value, base, es, i + 1, |es|);
        return None;
      }
      cits := cits[p := Some(SetIndex(cits[p].value, es[i].index))];
    }
    r := Some(t.(claude := Some(cits)));
  }

  lemma {:induction false} RefillFails(cits: Citations, base: nat, es: seq<Encrypted>, i: nat, n: nat)
    requires i <= n <= |es| && RefillTo(cits, base, es, i).None?
    ensures RefillTo(cits, base, es, n).None?
  {
    if i < n {
      RefillFails(cits, base, es, i, n - 1);
    }
  }

  // ----- the citation round trip

  lemma {:induction false} CountGrows<T>(s: seq<Option<T>>, i: nat, n: nat)
    requires i <= n <= |s|
    ensures Count(s, i) <= Count(s, n) && (i < n && s[i].Some? ==> Count(s, i) < Count(s, n))
  {
    if i < n {
      CountGrows(s, i, n - 1);
    }
  }

  lemma {:induction false} CountAlike<T>(s: seq<Option<T>>, t: seq<Option<T>>, n: nat)
    requires n <= |s| == |t| && forall i | 0 <= i < |s| :: s[i].Some? == t[i].Some?
    ensures Count(s, n) == Count(t, n)
  {
    if n > 0 {
      CountAlike(s, t, n - 1);
    }
  }

  /** A citation is found under its own number. */
  lemma {:induction false} FindOwn(cits: Citations, base: nat, p: nat, n: nat)
    requires p < n <= |cits| && cits[p].Some?
    ensures Find(cits, base, base + Count(cits, p), n) == Some(p)
  {
    if p < n - 1 {
      CountGrows(cits, p, n - 1);
      FindOwn(cits, base, p, n - 1);
    }
  }

  lemma {:induction false} RefillPrefix(cits: Citations, base: nat, es: seq<Encrypted>, fs: seq<Encrypted>, n: nat)
    requires n <= |es| && n <= |fs| && es[..n] == fs[..n]
    ensures RefillTo(cits, base, es, n) == RefillTo(cits, base, fs, n)
  {
    if n > 0 {
      assert es[n - 1] == es[..n][n - 1] == fs[n - 1];
      assert es[..n - 1] == es[..n][..n - 1] == fs[..n - 1];
      RefillPrefix(cits, base, es, fs, n - 1);
    }
  }

  /** Original entries up to n, blanked ones after. */
  function Mixed(cits: Citations, n: nat): (r: Citations)
    requires n <= |cits|
    ensures |r| == |cits| && forall i | 0 <= i < |cits| :: r[i] == if i < n then cits[i] else Blank(cits[i])
  {
    seq(|cits|, i requires 0 <= i < |cits| => if i < n then cits[i] else Blank(cits[i]))
  }

  lemma {:induction false} RefillOne(cits: Citations, base: nat, es: seq<Encrypted>, e: Encrypted, p: nat, r: Citations)
    requires RefillTo(cits, base, es, |es|) == Some(r) && Find(cits, base, e.annotation, |cits|) == Some(p)
    requires r[p].Some? && r[p].value.web && r[p].value.location.Some?
    ensures RefillTo(cits, base, es + [e], |es| + 1) == Some(r[p := Some(SetIndex(r[p].value, e.index))])
  {
    assert (es + [e])[..|es|] == es[..|es|];
    RefillPrefix(cits, base, es + [e], es, |es|);
  }

  lemma MixedStep(cits: Citations, n: nat)
    requires n < |cits|
    ensures Mixed(cits, n + 1) == Mixed(cits, n)[n := cits[n]]
  {
  }

  lemma {:induction false} RefillStep(cits: Citations, base: nat, n: nat)
    requires n < |cits| && HasIndex(cits[n])
    requires var es := IndexesTo(cits, base, n); RefillTo(BlankAll(cits), base, es, |es|) == Some(Mixed(cits, n))
    ensures var es := IndexesTo(cits, base, n + 1); RefillTo(BlankAll(cits), base, es, |es|) == Some(Mixed(cits, n + 1))
  {
    var e := Encrypted(base + Count(cits, n), cits[n].value.location.value.encrypted);
    CountAlike(cits, BlankAll(cits), n);
    FindOwn(BlankAll(cits), base, n, |cits|);
    RefillOne(BlankAll(cits), base, IndexesTo(cits, base, n), e, n, Mixed(cits, n));
    MixedStep(cits, n);
  }

  lemma {:induction false} RefillBlanked(cits: Citations, base: nat, n: nat)
    requires n <= |cits|
    ensures var es := IndexesTo(cits, base, n); RefillTo(BlankAll(cits), base, es, |es|) == Some(Mixed(cits, n))
  {
    if n == 0 {
      assert Mixed(cits, 0) == BlankAll(cits);
    } else {
      RefillBlanked(cits, base, n - 1);
      if HasIndex(cits[n - 1]) {
        RefillStep(cits, base, n - 1);
      } else {
        MixedStep(cits, n - 1);
        assert Mixed(cits, n - 1)[n - 1 := cits[n - 1]] == Mixed(cits, n - 1);
        assert IndexesTo(cits, base, n) == IndexesTo(cits, base, n - 1);
      }
    }
  }

  /** Every encrypted index goes back to its own citation. */
  lemma {:induction false} CitationsRoundTrip(cits: Citations, base: nat)
    ensures var es := IndexesTo(cits, base, |cits|); RefillTo(BlankAll(cits), base, es, |es|) == Some(cits)
  {
    RefillBlanked(cits, base, |cits|);
    assert Mixed(cits, |cits|) == cits;
  }

  // ----- blocks

  /** What a block holds back, if anything. */
  function Secret(b: Block): Option<Payload> {
    match b
    case Reasoning(_, Some(t)) => if t.signature != "" then Some(Signature(t.signature)) else None
    case GenText(_, Some(t)) =>
      if t.claude.None? then None
      else
        var es := IndexesTo(t.claude.value, Base(t), |t.claude.value|);
        if es != [] then Some(EncryptedIndexes(es)) else None
    case _ => None
  }

  function Public(b: Block): Block {
    match b
    case Reasoning(x, Some(t)) => Reasoning(x, Some(t.(signature := "")))
    case GenText(x, Some(t)) => if t.claude.None? then b
        else GenText(x, Some(t.(claude := Some(BlankAll(t.claude.value)))))
    case _ => b
  }

  predicate Refused(b: Block) {
    b != NilBlock && (b.extra || (b.GenText? && b.gen.Some? && b.gen.value.extension))
  }

  /** Putting the pending payloads of a block back. */
  function Reinstate(b: Block, pending: seq<Payload>): Option<Block> {
    if |pending| != 1 then None
    else
      match b
      case Reasoning(x, Some(t)) => if pending[0].Signature? then
          Some(Reasoning(x, Some(t.(signature := pending[0].signature)))) else None
      case GenText(x, Some(t)) =>
        if !pending[0].EncryptedIndexes? || t.claude.None? then None
        else
          var es := pending[0].indexes;
          var cits := RefillTo(t.claude.value, Base(t), es, |es|);
          if cits.Some? then Some(GenText(x, Some(t.(claude := cits)))) else None
      case _ => None
  }

  lemma {:induction false} BlankWithoutIndexes(cits: Citations, base: nat, n: nat)
    requires n <= |cits| && IndexesTo(cits, base, n) == []
    ensures forall i | 0 <= i < n :: Blank(cits[i]) == cits[i]
  {
    if n > 0 {
      BlankWithoutIndexes(cits, base, n - 1);
    }
  }

  /** One block: its payload restores it, and without a payload there is nothing to restore. */
  lemma {:induction false} BlockRoundTrip(b: Block)
    ensures Secret(b).Some? ==> Reinstate(Public(b), [Secret(b).value]) == Some(b)
    ensures Secret(b).None? <==> Public(b) == b
    ensures b == NilBlock <==> Public(b) == NilBlock
  {
    match b
    case GenText(_, Some(t)) =>
      if t.claude.Some? {
        var cits := t.claude.value;
        CitationsRoundTrip(cits, Base(t));
        if Secret(b).None? {
          BlankWithoutIndexes(cits, Base(t), |cits|);
          assert BlankAll(cits) == cits;
        } else if BlankAll(cits) == cits {
          NothingBlanked(cits, Base(t), |cits|);
        }
      }
    case _ =>
  }

  lemma {:induction false} NothingBlanked(cits: Citations, base: nat, n: nat)
    requires n <= |cits| && BlankAll(cits) == cits
    ensures IndexesTo(cits, base, n) == []
  {
    if n > 0 {
      NothingBlanked(cits, base, n - 1);
      assert cits[n - 1] == Blank(cits[n - 1]);
    }
  }

  // ----- response meta

  /** The id that is held back: the first vendor's that is set. */
  function ResponseID(m: Meta): string {
    if m.openAI.Some? && m.openAI.value.id != "" then m.openAI.value.id
    else if m.claude.Some? && m.claude.value.id != "" then m.claude.value.id
    else if m.gemini.Some? then m.gemini.value.id else ""
  }

  function PublicMeta(m: Meta): Meta {
    var fromOpenAI := m.openAI.Some? && m.openAI.value.id != "";
    var fromClaude := !fromOpenAI && m.claude.Some? && m.claude.value.id != "";
    Meta(
      if m.openAI.Some? then Some(OpenAI("", "", 0, m.openAI.value.rest)) else None,
      if fromClaude then Some(m.claude.value.(id := "")) else m.claude,
      if m.gemini.None? then None
      else
        var g := m.gemini.value;
        Some(Gemini(if fromOpenAI || fromClaude then g.id else "", if g.blob.Some? then Some([]) else None, g.rest)),
      m.rest)
  }

  function MetaPayloads(m: Meta): seq<Payload> {
    var previous := if m.openAI.Some? then m.openAI.value.previous else "";
    var createdAt := if m.openAI.Some? then m.openAI.value.createdAt else 0;
    var blob := if m.gemini.Some? && m.gemini.value.blob.Some? then m.gemini.value.blob.value else [];
    (if blob != [] then [Blob(blob)] else [])
    + if ResponseID(m) != "" || previous != "" || createdAt != 0 then [ResponseIDs(ResponseID(m), previous, createdAt)]
        else []
  }

  /** captureResponseMetaPrivate, vendor by vendor. */
  method CaptureResponseMetaPrivate(m: Meta) returns (public: Meta, ps: seq<Payload>)
    ensures public == PublicMeta(m) && ps == MetaPayloads(m)
  {
    public, ps := m, [];
    var id, previous, createdAt := "", "", 0;
    if public.openAI.Some? {
      var ext := public.openAI.value;
      if ext.id != "" {
        id := ext.id;
        ext := ext.(id := "");
      }
      previous, createdAt := ext.previous, ext.createdAt;
      public := public.(openAI := Some(ext.(previous := "", createdAt := 0)));
    }
    if public.claude.Some? {
      if public.claude.value.id != "" && id == "" {
        id := public.claude.value.id;
        public := public.(claude := Some(public.claude.value.(id := "")));
      }
    }
    if public.gemini.Some? {
      var ext := public.gemini.value;
      if ext.blob.Some? && |ext.blob.value| > 0 {
        ps := ps + [Blob(ext.blob.value)];
        ext := ext.(blob := Some([]));
      }
      if ext.id != "" && id == "" {
        id := ext.id;
        ext := ext.(id := "");
      }
      public := public.(gemini := Some(ext));
    }
    if id != "" || previous != "" || createdAt != 0 {
      ps := ps + [ResponseIDs(id, previous, createdAt)];
    }
  }

  function RestoreBlob(m: Meta, bytes: seq<int>): Option<Meta> {
    if m.gemini.None? || m.gemini.value.blob.None? then None
    else Some(m.(gemini := Some(m.gemini.value.(blob := Some(bytes)))))
  }

  function RestoreResponseIDs(m: Meta, id: string, previous: string, createdAt: int): Option<Meta> {
    var linked := previous != "" || createdAt != 0;
    if linked && m.openAI.None? then None
    else
      var n := if linked then m.(openAI := Some(m.openAI.value.(previous := previous, createdAt := createdAt))) else m;
      if id == "" then Some(n)
      else if n.openAI.Some? then Some(n.(openAI := Some(n.openAI.value.(id := id))))
      else if n.claude.Some? then Some(n.(claude := Some(n.claude.value.(id := id))))
      else if n.gemini.Some? then Some(n.(gemini := Some(n.gemini.value.(id := id))))
      else None
  }

  function RestoreMetaTo(m: Meta, ps: seq<Payload>, n: nat): Option<Meta>
    requires n <= |ps|
  {
    if n == 0 then Some(m)
    else
      var r := RestoreMetaTo(m, ps, n - 1);
      if r.None? then None
      else
        match ps[n - 1]
        case Blob(bytes) => RestoreBlob(r.value, bytes)
        case ResponseIDs(id, previous, createdAt) => RestoreResponseIDs(r.value, id, previous, createdAt)
        case _ => None
  }

  /** The first vendor that is present holds the response id, or no id is set. */
  predicate FirstVendorHoldsID(m: Meta) {
    || ResponseID(m) == ""
    || (if m.openAI.Some? then m.openAI.value.id != "" else if m.claude.Some? then m.claude.value.id != ""
       else m.gemini.Some?)
  }

  /** The response meta comes back exactly when restoring puts the id where it was. */
  lemma MetaRoundTrip(m: Meta)
    ensures var ps := MetaPayloads(m);
            RestoreMetaTo(PublicMeta(m), ps, |ps|) == Some(m) <==> FirstVendorHoldsID(m)
  {
    var ps, p := MetaPayloads(m), PublicMeta(m);
    var blob := if m.gemini.Some? && m.gemini.value.blob.Some? then m.gemini.value.blob.value else [];
    var q := if blob != [] then RestoreBlob(p, blob) else Some(p);
    assert q == Some(p.(gemini := if m.gemini.Some? then Some(p.gemini.value.(blob := m.gemini.value.blob)) else None));
    if blob != [] {
      assert RestoreMetaTo(p, ps, 1) == q;
    }
    var ids := if m.openAI.Some? then (m.openAI.value.previous, m.openAI.value.createdAt) else ("", 0);
    if ResponseID(m) != "" || ids.0 != "" || ids.1 != 0 {
      assert RestoreMetaTo(p, ps, |ps|) == RestoreResponseIDs(q.value, ResponseID(m), ids.0, ids.1);
    } else {
      assert RestoreMetaTo(p, ps, |ps|) == q;
    }
  }

  // ----- Capture

  datatype Captured = Captured(items: seq<Item>, public: Message)

  function Secrets(blocks: seq<Block>): (r: seq<Option<Payload>>)
    ensures |r| == |blocks| && forall i | 0 <= i < |blocks| :: r[i] == Secret(blocks[i])
  {
    seq(|blocks|, i requires 0 <= i < |blocks| => Secret(blocks[i]))
  }

  function ItemOf(secret: Option<Payload>, id: string): seq<Item> {
    if secret.Some? then [Item(id, secret.value)] else []
  }

  function BlockItemsTo(secrets: seq<Option<Payload>>, ids: nat -> string, n: nat): seq<Item>
    requires n <= |secrets|
  {
    if n == 0 then [] else BlockItemsTo(secrets, ids, n - 1) + ItemOf(secrets[n - 1], ids(n - 1))
  }

  function MessageItems(ps: seq<Payload>): (r: seq<Item>)
    ensures |r| == |ps| && forall i | 0 <= i < |ps| :: r[i] == Item("", ps[i])
  {
    seq(|ps|, i requires 0 <= i < |ps| => Item("", ps[i]))
  }

  function PublicBlocks(blocks: seq<Block>): (r: seq<Block>)
    ensures |r| == |blocks| && forall i | 0 <= i < |blocks| :: r[i] == Public(blocks[i])
  {
    seq(|blocks|, i requires 0 <= i < |blocks| => Public(blocks[i]))
  }

  function Items(msg: Message, ids: nat -> string): seq<Item> {
    BlockItemsTo(Secrets(msg.blocks), ids, |msg.blocks|) + if msg.meta.Some? then
        MessageItems(MetaPayloads(msg.meta.value)) else []
  }

  function PublicMessage(msg: Message): Message {
    msg.(blocks := PublicBlocks(msg.blocks), meta := if msg.meta.Some? then Some(PublicMeta(msg.meta.value)) else None)
  }

  /** valid: the contract's limits on a non-empty list of items. */
  function Capture(msg: Message, ids: nat -> string, valid: seq<Item> -> bool): Option<Captured> {
    if msg.extra || AnyRefused(msg.blocks) then None
    else if Items(msg, ids) != [] && !valid(Items(msg, ids)) then None
    else Some(Captured(Items(msg, ids), PublicMessage(msg)))
  }

  /** One block of the loop: the clone is blanked and its item appended. */
  method CaptureBlock(b: Block, id: string) returns (public: Block, items: seq<Item>)
    ensures public == Public(b) && items == ItemOf(Secret(b), id)
  {
    public, items := b, [];
    match b
    case Reasoning(x, Some(t)) =>
      if t.signature != "" {
        items := [Item(id, Signature(t.signature))];
        public := Reasoning(x, Some(t.(signature := "")));
      }
    case GenText(x, Some(t)) =>
      var text, es := CaptureClaudeEncryptedIndexes(t);
      public := GenText(x, Some(text));
      if |es| > 0 {
        items := [Item(id, EncryptedIndexes(es))];
      }
    case _ =>
  }

  predicate AnyRefused(blocks: seq<Block>) {
    exists i | 0 <= i < |blocks| :: Refused(blocks[i])
  }

  method CaptureBlocks(blocks: seq<Block>, ids: nat -> string) returns (ok: bool, out: seq<Block>, items: seq<Item>)
    ensures ok <==> !AnyRefused(blocks)
    ensures ok ==> out == PublicBlocks(blocks) && items == BlockItemsTo(Secrets(blocks), ids, |blocks|)
  {
    out, items := [], [];
    for i := 0 to |blocks|
      invariant |out| == i && forall k | 0 <= k < i :: out[k] == PublicBlocks(blocks)[k]
      invariant items == BlockItemsTo(Secrets(blocks), ids, i)
      invariant forall k | 0 <= k < i :: !Refused(blocks[k])
    {
      if Refused(blocks[i]) {
        return false, [], [];
      }
      var public, more := CaptureBlock(blocks[i], ids(i));
      out, items := out + [public], items + more;
    }
    ok := true;
  }

  method CaptureMessage(msg: Message, ids: nat -> string, valid: seq<Item> -> bool) returns (r: Option<Captured>)
    ensures r == Capture(msg, ids, valid)
  {
    if msg.extra {
      return None;
    }
    var ok, out, items := CaptureBlocks(msg.blocks, ids);
    if !ok {
      return None;
    }
    var public := msg.(blocks := out);
    if msg.meta.Some? {
      var meta, ps := CaptureResponseMetaPrivate(msg.meta.value);
      public := public.(meta := Some(meta));
      items := items + MessageItems(ps);
    }
    assert items == Items(msg, ids) && public == PublicMessage(msg);
    if |items| > 0 && !valid(items) {
      return None;
    }
    r := Some(Captured(items, public));
  }

  // ----- Restore

  type Table = map<string, seq<Payload>>

  function Pending(table: Table, id: string): seq<Payload> {
    if id in table then table[id] else []
  }

  /** The items addressed to blocks, by id. */
  function Group(items: seq<Item>): Table {
    if items == [] then map[]
    else
      var table, item := Group(items[..|items| - 1]), items[|items| - 1];
      if item.block == "" then table else table[item.block := Pending(table, item.block) + [item.data]]
  }

  /** The message-level payloads. */
  function Loose(items: seq<Item>): seq<Payload> {
    if items == [] then []
    else Loose(items[..|items| - 1]) + if items[|items| - 1].block == "" then [items[|items| - 1].data] else []
  }

  datatype Partial = Partial(blocks: seq<Block>, table: Table)

  /** One more block: its pending payloads, if any, are put back and used up. */
  function RestoreNext(r: Partial, b: Block, id: string): (n: Option<Partial>)
    ensures n.Some? ==> |n.value.blocks| == |r.blocks| + 1
  {
    if b == NilBlock || Pending(r.table, id) == [] then Some(Partial(r.blocks + [b], r.table))
    else
      var back := Reinstate(b, Pending(r.table, id));
      if back.None? then None else Some(Partial(r.blocks + [back.value], r.table - {id}))
  }

  /** The first n blocks restored, and the items not yet used. */
  function RestoreTo(blocks: seq<Block>, ids: nat -> string, table: Table, n: nat): (r: Option<Partial>)
    requires n <= |blocks|
    ensures r.Some? ==> |r.value.blocks| == n
  {
    if n == 0 then Some(Partial([], table))
    else
      var r := RestoreTo(blocks, ids, table, n - 1);
      if r.None? then None else RestoreNext(r.value, blocks[n - 1], ids(n - 1))
  }

  /** What follows the blocks: every item is used up, and the rest go to the response meta. */
  function Finish(public: Message, partial: Option<Partial>, loose: seq<Payload>): Option<Message> {
    if partial.None? || partial.value.table != map[] then None
    else if loose == [] then Some(public.(blocks := partial.value.blocks))
    else if public.meta.None? then None
    else
      var meta := RestoreMetaTo(public.meta.value, loose, |loose|);
      if meta.None? then None else Some(public.(blocks := partial.value.blocks, meta := meta))
  }

  function Restore(public: Message, items: seq<Item>, ids: nat -> string, valid: seq<Item> -> bool): Option<Message> {
    if (items != [] && !valid(items)) || public.extra then None
    else Finish(public, RestoreTo(public.blocks, ids, Group(items), |public.blocks|), Loose(items))
  }

  method SplitItems(items: seq<Item>) returns (table: Table, loose: seq<Payload>)
    ensures table == Group(items) && loose == Loose(items)
  {
    table, loose := map[], [];
    for i := 0 to |items|
      invariant table == Group(items[..i]) && loose == Loose(items[..i])
    {
      assert items[..i + 1][..i] == items[..i];
      if items[i].block == "" {
        loose := loose + [items[i].data];
      } else {
        table := table[items[i].block := Pending(table, items[i].block) + [items[i].data]];
      }
    }
    assert items[..|items|] == items;
  }

  method RestoreBlock(b: Block, pending: seq<Payload>) returns (r: Option<Block>)
    ensures r == Reinstate(b, pending)
  {
    r := None;
    if |pending| == 1 {
      match b
      case Reasoning(x, Some(t)) =>
        if pending[0].Signature? {
          r := Some(Reasoning(x, Some(t.(signature := pending[0].signature))));
        }
      case GenText(x, Some(t)) =>
        if pending[0].EncryptedIndexes? {
          var text := RestoreClaudeEncryptedIndexes(t, pending[0].indexes);
          r := if text.Some? then Some(GenText(x, text)) else None;
        }
      case _ =>
    }
  }

  method RestoreResponseMetaPrivate(m: Meta, ps: seq<Payload>) returns (r: Option<Meta>)
    ensures r == RestoreMetaTo(m, ps, |ps|)
  {
    var out := m;
    for i := 0 to |ps|
      invariant RestoreMetaTo(m, ps, i) == Some(out)
    {
      var next := match ps[i]
        case Blob(bytes) => RestoreBlob(out, bytes)
        case ResponseIDs(id, previous, createdAt) => RestoreResponseIDs(out, id, previous, createdAt)
        case _ => None;
      if next.None? {
        MetaFails(m, ps, i + 1, |ps|);
        return None;
      }
      out := next.value;
    }
    r := Some(out);
  }

  lemma {:induction false} MetaFails(m: Meta, ps: seq<Payload>, i: nat, n: nat)
    requires i <= n <= |ps| && RestoreMetaTo(m, ps, i).None?
    ensures RestoreMetaTo(m, ps, n).None?
  {
    if i < n {
      MetaFails(m, ps, i, n - 1);
    }
  }

  lemma {:induction false} BlocksFail(blocks: seq<Block>, ids: nat -> string, table: Table, i: nat, n: nat)
    requires i <= n <= |blocks| && RestoreTo(blocks, ids, table, i).None?
    ensures RestoreTo(blocks, ids, table, n).None?
  {
    if i < n {
      BlocksFail(blocks, ids, table, i, n - 1);
    }
  }

  method RestoreBlocks(blocks: seq<Block>, ids: nat -> string, table: Table) returns (r: Option<Partial>)
    ensures r == RestoreTo(blocks, ids, table, |blocks|)
  {
    var out, left := [], table;
    for i := 0 to |blocks|
      invariant RestoreTo(blocks, ids, table, i) == Some(Partial(out, left))
    {
      var pending := Pending(left, ids(i));
      if blocks[i] == NilBlock || |pending| == 0 {
        out := out + [blocks[i]];
      } else {
        left := left - {ids(i)};
        var back := RestoreBlock(blocks[i], pending);
        if back.None? {
          BlocksFail(blocks, ids, table, i + 1, |blocks|);
          return None;
        }
        out := out + [back.value];
      }
    }
    r := Some(Partial(out, left));
  }

  method RestoreMessage(public: Message, items: seq<Item>, ids: nat -> string, valid: seq<Item> -> bool)
    returns (r: Option<Message>)
    ensures r == Restore(public, items, ids, valid)
  {
    if |items| != 0 && !valid(items) {
      return None;
    }
    if public.extra {
      return None;
    }
    var table, loose := SplitItems(items);
    var partial := RestoreBlocks(public.blocks, ids, table);
    if partial.None? || partial.value.table != map[] {
      return None;
    }
    var out := public.(blocks := partial.value.blocks);
    if |loose| != 0 {
      if out.meta.None? {
        return None;
      }
      var meta := RestoreResponseMetaPrivate(out.meta.value, loose);
      if meta.None? {
        return None;
      }
      out := out.(meta := meta);
    }
    r := Some(out);
  }

  // ----- the round trip

  /** Which entries are not nil. */
  function Present(blocks: seq<Block>): (r: seq<bool>)
    ensures |r| == |blocks| && forall i | 0 <= i < |blocks| :: r[i] == (blocks[i] != NilBlock)
  {
    seq(|blocks|, i requires 0 <= i < |blocks| => blocks[i] != NilBlock)
  }

  /** Every block that holds something back can be addressed: its id is not empty, and no
      block before it answers to the same id. */
  ghost predicate Addressed(secrets: seq<Option<Payload>>, present: seq<bool>, ids: nat -> string)
    requires |secrets| == |present|
  {
    forall k: nat | k < |secrets| && secrets[k].Some? :: ids(k) != "" && Unanswered(present, ids, k, ids(k))
  }

  /** No entry before k answers to the id. */
  ghost predicate Unanswered(present: seq<bool>, ids: nat -> string, k: nat, id: string) {
    forall j: nat | j < k && j < |present| && present[j] :: ids(j) != id
  }

  lemma {:induction false} LooseItems(items: seq<Item>, ps: seq<Payload>)
    ensures Group(items + MessageItems(ps)) == Group(items) && Loose(items + MessageItems(ps)) == Loose(items) + ps
  {
    var all := items + MessageItems(ps);
    if ps == [] {
      assert all == items;
    } else {
      var front := ps[..|ps| - 1];
      assert all[..|all| - 1] == items + MessageItems(front) && all[|all| - 1] == Item("", ps[|ps| - 1]);
      LooseItems(items, front);
      assert front + [ps[|ps| - 1]] == ps;
    }
  }

  lemma Snoc(items: seq<Item>, item: Item)
    ensures Loose(items + [item]) == Loose(items) + if item.block == "" then [item.data] else []
    ensures Group(items + [item]) ==
              if item.block == "" then Group(items)
                  else Group(items)[item.block := Pending(Group(items), item.block) + [item.data]]
  {
    assert (items + [item])[..|items|] == items;
  }

  /** A block from a up to n holds something back under this id. */
  ghost predicate Owned(secrets: seq<Option<Payload>>, ids: nat -> string, a: nat, n: nat, id: string) {
    exists k: nat :: Owns(secrets, ids, a, n, id, k)
  }

  ghost predicate Owns(secrets: seq<Option<Payload>>, ids: nat -> string, a: nat, n: nat, id: string, k: nat) {
    a <= k < n <= |secrets| && secrets[k].Some? && ids(k) == id
  }

  /** The table holds exactly the payloads of the blocks from a up to n, one each. */
  ghost predicate TableFor(secrets: seq<Option<Payload>>, ids: nat -> string, a: nat, n: nat, table: Table) {
    && (forall k: nat | a <= k < n && k < |secrets| && secrets[k].Some? :: Pending(table, ids(k)) == [secrets[k].value])
    && (forall id | id in table :: Owned(secrets, ids, a, n, id))
  }

  lemma OwnedLonger(secrets: seq<Option<Payload>>, ids: nat -> string, a: nat, n: nat, id: string)
    requires Owned(secrets, ids, a, n, id) && n < |secrets|
    ensures Owned(secrets, ids, a, n + 1, id)
  {
    var k: nat :| Owns(secrets, ids, a, n, id, k);
    assert Owns(secrets, ids, a, n + 1, id, k);
  }

  lemma NotOwnedTwice(secrets: seq<Option<Payload>>, present: seq<bool>, ids: nat -> string, n: nat)
    requires |secrets| == |present| && Addressed(secrets, present, ids) && n < |secrets| && secrets[n].Some?
    requires forall k | 0 <= k < |secrets| && secrets[k].Some? :: present[k]
    ensures !Owned(secrets, ids, 0, n, ids(n))
  {
  }

  function Added(table: Table, secret: Option<Payload>, id: string): Table {
    if secret.Some? then table[id := Pending(table, id) + [secret.value]] else table
  }

  lemma TableGrows(secrets: seq<Option<Payload>>, present: seq<bool>, ids: nat -> string, n: nat, table: Table)
    requires |secrets| == |present| && Addressed(secrets, present, ids) && n < |secrets|
    requires forall k | 0 <= k < |secrets| && secrets[k].Some? :: present[k]
    requires TableFor(secrets, ids, 0, n, table)
    ensures TableFor(secrets, ids, 0, n + 1, Added(table, secrets[n], ids(n)))
  {
    forall other | other in table ensures Owned(secrets, ids, 0, n + 1, other) {
      OwnedLonger(secrets, ids, 0, n, other);
    }
    if secrets[n].Some? {
      assert Owns(secrets, ids, 0, n + 1, ids(n), n);
      NotOwnedTwice(secrets, present, ids, n);
      assert ids(n) !in table;
      forall k: nat | k < n && secrets[k].Some? ensures ids(k) != ids(n) {
        assert Owns(secrets, ids, 0, n, ids(k), k);
      }
    }
  }

  lemma {:induction false} GroupNext(secrets: seq<Option<Payload>>, ids: nat -> string, n: nat)
    requires n < |secrets| && (secrets[n].Some? ==> ids(n) != "")
    ensures var table := Group(BlockItemsTo(secrets, ids, n));
            Group(BlockItemsTo(secrets, ids, n + 1)) == Added(table, secrets[n], ids(n))
  {
    var items := BlockItemsTo(secrets, ids, n);
    if secrets[n].Some? {
      Snoc(items, Item(ids(n), secrets[n].value));
    } else {
      assert BlockItemsTo(secrets, ids, n + 1) == items;
    }
  }

  lemma {:induction false} NoLooseItems(items: seq<Item>)
    requires forall i | 0 <= i < |items| :: items[i].block != ""
    ensures Loose(items) == []
  {
    if items != [] {
      NoLooseItems(items[..|items| - 1]);
    }
  }

  lemma {:induction false} ItemsAreAddressed(secrets: seq<Option<Payload>>, ids: nat -> string, n: nat)
    requires n <= |secrets| && forall k: nat | k < |secrets| && secrets[k].Some? :: ids(k) != ""
    ensures forall i | 0 <= i < |BlockItemsTo(secrets, ids, n)| :: BlockItemsTo(secrets, ids, n)[i].block != ""
  {
    if n > 0 {
      ItemsAreAddressed(secrets, ids, n - 1);
    }
  }

  lemma {:induction false} NothingLoose(secrets: seq<Option<Payload>>, ids: nat -> string, n: nat)
    requires n <= |secrets| && forall k: nat | k < |secrets| && secrets[k].Some? :: ids(k) != ""
    ensures Loose(BlockItemsTo(secrets, ids, n)) == []
  {
    ItemsAreAddressed(secrets, ids, n);
    NoLooseItems(BlockItemsTo(secrets, ids, n));
  }

  lemma {:induction false} GroupsOwn(secrets: seq<Option<Payload>>, present: seq<bool>, ids: nat -> string, n: nat)
    requires |secrets| == |present| && Addressed(secrets, present, ids) && n <= |secrets|
    requires forall k | 0 <= k < |secrets| && secrets[k].Some? :: present[k]
    ensures TableFor(secrets, ids, 0, n, Group(BlockItemsTo(secrets, ids, n)))
  {
    if n > 0 {
      var m := n - 1;
      var table := Group(BlockItemsTo(secrets, ids, m));
      GroupsOwn(secrets, present, ids, m);
      assert secrets[m].Some? ==> ids(m) != "";
      GroupNext(secrets, ids, m);
      TableGrows(secrets, present, ids, m, table);
    }
  }

  /** A present entry that holds nothing back finds nothing pending. */
  lemma NothingPending(secrets: seq<Option<Payload>>, present: seq<bool>, ids: nat -> string, table: Table, n: nat)
    requires |secrets| == |present| && Addressed(secrets, present, ids) && n < |secrets| && present[n]
    requires secrets[n].None?
    requires TableFor(secrets, ids, n, |secrets|, table)
    ensures ids(n) !in table
  {
    if ids(n) in table {
      var k: nat :| Owns(secrets, ids, n, |secrets|, ids(n), k);
    }
  }

  lemma TableShrinks(secrets: seq<Option<Payload>>, present: seq<bool>, ids: nat -> string, table: Table, n: nat)
    requires |secrets| == |present| && Addressed(secrets, present, ids) && n < |secrets|
    requires TableFor(secrets, ids, n, |secrets|, table) && (secrets[n].Some? ==> present[n])
    ensures secrets[n].Some? ==> TableFor(secrets, ids, n + 1, |secrets|, table - {ids(n)})
    ensures secrets[n].None? ==> TableFor(secrets, ids, n + 1, |secrets|, table)
  {
    forall other | other in table && (secrets[n].Some? ==> other != ids(n))
        ensures Owned(secrets, ids, n + 1, |secrets|, other) {
      assert Owned(secrets, ids, n, |secrets|, other);
      var k: nat :| Owns(secrets, ids, n, |secrets|, other, k);
      assert Owns(secrets, ids, n + 1, |secrets|, other, k);
    }
    if secrets[n].Some? {
      forall k: nat | n < k < |secrets| && secrets[k].Some? ensures ids(k) != ids(n) {
        assert Unanswered(present, ids, k, ids(k));
      }
    }
  }

  /** One block of Restore: it takes its own payload, and leaves the later ones. */
  lemma {:induction false} RestoreOne(blocks: seq<Block>, ids: nat -> string, table: Table, n: nat)
    requires Addressed(Secrets(blocks), Present(blocks), ids) && n < |blocks|
    requires TableFor(Secrets(blocks), ids, n, |blocks|, table)
    ensures var r := RestoreNext(Partial(blocks[..n], table), Public(blocks[n]), ids(n));
            r.Some? && r.value.blocks == blocks[..n + 1]
                && TableFor(Secrets(blocks), ids, n + 1, |blocks|, r.value.table)
  {
    BlockRoundTrip(blocks[n]);
    TableShrinks(Secrets(blocks), Present(blocks), ids, table, n);
    if Secret(blocks[n]).Some? {
      assert Secrets(blocks)[n].Some? && Pending(table, ids(n)) == [Secret(blocks[n]).value];
    } else if blocks[n] != NilBlock {
      NothingPending(Secrets(blocks), Present(blocks), ids, table, n);
    }
  }

  lemma {:induction false} RestoreToNext(blocks: seq<Block>, ids: nat -> string, table: Table, n: nat)
    requires n < |blocks| && RestoreTo(blocks, ids, table, n).Some?
    ensures RestoreTo(blocks, ids, table, n + 1) ==
              RestoreNext(RestoreTo(blocks, ids, table, n).value, blocks[n], ids(n))
  {
  }

  lemma {:induction false} BlocksComeBack(blocks: seq<Block>, ids: nat -> string, table: Table, n: nat)
    requires Addressed(Secrets(blocks), Present(blocks), ids) && n <= |blocks|
    requires TableFor(Secrets(blocks), ids, 0, |blocks|, table)
    ensures var r := RestoreTo(PublicBlocks(blocks), ids, table, n);
            r.Some? && r.value.blocks == blocks[..n] && TableFor(Secrets(blocks), ids, n, |blocks|, r.value.table)
  {
    if n > 0 {
      BlocksComeBack(blocks, ids, table, n - 1);
      var r := RestoreTo(PublicBlocks(blocks), ids, table, n - 1).value;
      assert r == Partial(blocks[..n - 1], r.table);
      RestoreOne(blocks, ids, r.table, n - 1);
      RestoreToNext(PublicBlocks(blocks), ids, table, n - 1);
    }
  }

  lemma {:induction false} BlocksRestored(blocks: seq<Block>, ids: nat -> string)
    requires Addressed(Secrets(blocks), Present(blocks), ids)
    ensures var items := BlockItemsTo(Secrets(blocks), ids, |blocks|);
            Loose(items) == []
                && RestoreTo(PublicBlocks(blocks), ids, Group(items), |blocks|) == Some(Partial(blocks, map[]))
  {
    var n, items := |blocks|, BlockItemsTo(Secrets(blocks), ids, |blocks|);
    GroupsOwn(Secrets(blocks), Present(blocks), ids, n);
    NothingLoose(Secrets(blocks), ids, n);
    BlocksComeBack(blocks, ids, Group(items), n);
    var left := RestoreTo(PublicBlocks(blocks), ids, Group(items), n).value.table;
    forall id | id in left ensures false {
    }
    assert left == map[] && blocks[..n] == blocks;
  }

  // ----- and only then

  /** A key still in the table was not the id of any entry passed so far. */
  lemma {:induction false} KeyUnanswered(blocks: seq<Block>, ids: nat -> string, table: Table, n: nat, id: string)
    requires n <= |blocks| && RestoreTo(blocks, ids, table, n).Some?
    requires Pending(RestoreTo(blocks, ids, table, n).value.table, id) != []
    ensures Unanswered(Present(blocks), ids, n, id)
  {
    if n > 0 {
      KeyUnanswered(blocks, ids, table, n - 1, id);
    }
  }

  lemma {:induction false} RestorePrefix(blocks: seq<Block>, ids: nat -> string, table: Table, k: nat, n: nat)
    requires k <= n <= |blocks| && RestoreTo(blocks, ids, table, n).Some?
    ensures RestoreTo(blocks, ids, table, k).Some?
    ensures RestoreTo(blocks, ids, table, n).value.blocks[..k] == RestoreTo(blocks, ids, table, k).value.blocks
  {
    if k < n {
      RestorePrefix(blocks, ids, table, k, n - 1);
    }
  }

  lemma ChangedByPayload(r: Partial, b: Block, id: string)
    requires RestoreNext(r, b, id).Some? && RestoreNext(r, b, id).value.blocks[|r.blocks|] != b
    ensures Pending(r.table, id) != []
  {
  }

  lemma {:induction false} PublicKeepsNil(blocks: seq<Block>)
    ensures Present(PublicBlocks(blocks)) == Present(blocks)
  {
    forall j | 0 <= j < |blocks| ensures Present(PublicBlocks(blocks))[j] == Present(blocks)[j] {
      BlockRoundTrip(blocks[j]);
    }
  }

  /** A block that comes back must have found its payload. */
  lemma {:induction false} FoundItsPayload(blocks: seq<Block>, ids: nat -> string, table: Table, k: nat)
    requires k < |blocks| && Secret(blocks[k]).Some?
    requires var r := RestoreTo(PublicBlocks(blocks), ids, table, |blocks|); r.Some? && r.value.blocks == blocks
    ensures Unanswered(Present(blocks), ids, k, ids(k))
  {
    var public := PublicBlocks(blocks);
    RestorePrefix(public, ids, table, k + 1, |blocks|);
    RestorePrefix(public, ids, table, k, k + 1);
    RestoreToNext(public, ids, table, k);
    BlockRoundTrip(blocks[k]);
    var after := RestoreTo(public, ids, table, k + 1).value;
    assert after.blocks[k] == blocks[..k + 1][k] == blocks[k];
    ChangedByPayload(RestoreTo(public, ids, table, k).value, public[k], ids(k));
    KeyUnanswered(public, ids, table, k, ids(k));
    PublicKeepsNil(blocks);
  }

  lemma {:induction false} LooseHas(items: seq<Item>, i: nat)
    requires i < |items| && items[i].block == ""
    ensures items[i].data in Loose(items)
  {
    if i < |items| - 1 {
      LooseHas(items[..|items| - 1], i);
    }
  }

  lemma {:induction false} ItemListed(secrets: seq<Option<Payload>>, ids: nat -> string, k: nat, n: nat)
    requires k < n <= |secrets| && secrets[k].Some?
    ensures Item(ids(k), secrets[k].value) in BlockItemsTo(secrets, ids, n)
  {
    if k < n - 1 {
      ItemListed(secrets, ids, k, n - 1);
    }
  }

  /** A block's payload is not one that the response meta takes. */
  lemma {:induction false} MetaRefuses(m: Meta, ps: seq<Payload>, p: Payload)
    requires p in ps && (p.Signature? || p.EncryptedIndexes?)
    ensures RestoreMetaTo(m, ps, |ps|).None?
  {
    var i :| 0 <= i < |ps| && ps[i] == p;
    assert RestoreMetaTo(m, ps, i + 1).None?;
    MetaFails(m, ps, i + 1, |ps|);
  }

  lemma {:induction false} FinishRefuses(public: Message, partial: Option<Partial>, loose: seq<Payload>, p: Payload)
    requires p in loose && (p.Signature? || p.EncryptedIndexes?)
    ensures Finish(public, partial, loose).None?
  {
    if public.meta.Some? {
      MetaRefuses(public.meta.value, loose, p);
    }
  }

  /** Without an id, the payload is taken for a message-level one and restoring fails. */
  lemma {:induction false} EmptyIDFails(msg: Message, ids: nat -> string, valid: seq<Item> -> bool, k: nat)
    requires k < |msg.blocks| && Secret(msg.blocks[k]).Some? && ids(k) == ""
    ensures Restore(PublicMessage(msg), Items(msg, ids), ids, valid).None?
  {
    var p := Secret(msg.blocks[k]).value;
    ItemListed(Secrets(msg.blocks), ids, k, |msg.blocks|);
    var items := Items(msg, ids);
    assert Item("", p) in items;
    var i :| 0 <= i < |items| && items[i] == Item("", p);
    LooseHas(items, i);
    var public := PublicMessage(msg);
    FinishRefuses(public, RestoreTo(public.blocks, ids, Group(items), |public.blocks|), Loose(items), p);
  }

  lemma {:induction false} FinishExact(msg: Message)
    ensures Finish(PublicMessage(msg), Some(Partial(msg.blocks, map[])), MessagePayloads(msg)) == Some(msg)
       <==> (msg.meta.Some? ==> FirstVendorHoldsID(msg.meta.value))
  {
    if msg.meta.Some? {
      MetaRoundTrip(msg.meta.value);
    }
  }

  lemma {:induction false} Unaddressed(msg: Message, ids: nat -> string, valid: seq<Item> -> bool, k: nat)
    requires k < |msg.blocks| && Secret(msg.blocks[k]).Some?
    requires ids(k) == "" || !Unanswered(Present(msg.blocks), ids, k, ids(k))
    ensures Restore(PublicMessage(msg), Items(msg, ids), ids, valid) != Some(msg)
  {
    if ids(k) == "" {
      EmptyIDFails(msg, ids, valid, k);
    } else if Restore(PublicMessage(msg), Items(msg, ids), ids, valid) == Some(msg) {
      FoundItsPayload(msg.blocks, ids, Group(Items(msg, ids)), k);
    }
  }

  /** Restoring what was captured gives the original message back exactly when every private
      block can be addressed and the response id goes back to the vendor it came from. */
  lemma {:induction false} RoundTrip(msg: Message, ids: nat -> string, valid: seq<Item> -> bool)
    requires Capture(msg, ids, valid).Some?
    ensures var c := Capture(msg, ids, valid).value;
            Restore(c.public, c.items, ids, valid) == Some(msg) <==>
            Addressed(Secrets(msg.blocks), Present(msg.blocks), ids)
                && (msg.meta.Some? ==> FirstVendorHoldsID(msg.meta.value))
  {
    if Addressed(Secrets(msg.blocks), Present(msg.blocks), ids) {
      RestoreOfAddressed(msg, ids, valid);
      FinishExact(msg);
    } else {
      var k: nat :| k < |msg.blocks| && Secrets(msg.blocks)[k].Some?
          && !(ids(k) != "" && Unanswered(Present(msg.blocks), ids, k, ids(k)));
      Unaddressed(msg, ids, valid, k);
    }
  }

  /** The payloads that the response meta holds back, if there is one. */
  function MessagePayloads(msg: Message): seq<Payload> {
    if msg.meta.Some? then MetaPayloads(msg.meta.value) else []
  }

  lemma {:induction false} ItemsSplit(msg: Message, ids: nat -> string)
    ensures var blockItems := BlockItemsTo(Secrets(msg.blocks), ids, |msg.blocks|);
            && Group(Items(msg, ids)) == Group(blockItems)
            && Loose(Items(msg, ids)) == Loose(blockItems) + MessagePayloads(msg)
  {
    var blockItems := BlockItemsTo(Secrets(msg.blocks), ids, |msg.blocks|);
    LooseItems(blockItems, MessagePayloads(msg));
    assert Items(msg, ids) == blockItems + MessageItems(MessagePayloads(msg));
  }

  lemma RestoreIsFinish(public: Message, items: seq<Item>, ids: nat -> string, valid: seq<Item> -> bool, table: Table,
                        loose: seq<Payload>)
    requires !public.extra && (items != [] ==> valid(items)) && Group(items) == table && Loose(items) == loose
    ensures Restore(public, items, ids, valid) ==
              Finish(public, RestoreTo(public.blocks, ids, table, |public.blocks|), loose)
  {
  }

  lemma {:induction false} RestoreOfAddressed(msg: Message, ids: nat -> string, valid: seq<Item> -> bool)
    requires Capture(msg, ids, valid).Some? && Addressed(Secrets(msg.blocks), Present(msg.blocks), ids)
    ensures Restore(PublicMessage(msg), Items(msg, ids), ids, valid)
         == Finish(PublicMessage(msg), Some(Partial(msg.blocks, map[])), MessagePayloads(msg))
  {
    var table := Group(BlockItemsTo(Secrets(msg.blocks), ids, |msg.blocks|));
    ItemsSplit(msg, ids);
    BlocksRestored(msg.blocks, ids);
    assert [] + MessagePayloads(msg) == MessagePayloads(msg);
    RestoreIsFinish(PublicMessage(msg), Items(msg, ids), ids, valid, table, MessagePayloads(msg));
  }

  /** The check the streamer makes before it dispatches a restored message: capturing it again
      gives the same public message and the same items in the same order. */
  lemma {:induction false} Recapture(msg: Message, ids: nat -> string, valid: seq<Item> -> bool)
    requires Capture(msg, ids, valid).Some?
    requires Addressed(Secrets(msg.blocks), Present(msg.blocks), ids)
    requires msg.meta.Some? ==> FirstVendorHoldsID(msg.meta.value)
    ensures var c := Capture(msg, ids, valid).value;
            var restored := Restore(c.public, c.items, ids, valid);
            restored.Some? && Capture(restored.value, ids, valid) == Some(c)
  {
    RoundTrip(msg, ids, valid);
  }

  // ----- the other side

  lemma NothingPrivate(msg: Message, ids: nat -> string)
    requires msg.blocks == []
    ensures Items(msg, ids) == if msg.meta.Some? then MessageItems(MetaPayloads(msg.meta.value)) else []
  {
  }

  /** An id that a Claude extension holds beside an OpenAI one without an id comes back on the
      OpenAI extension. */
  lemma IDChangesVendor(ids: nat -> string, valid: seq<Item> -> bool)
    requires forall items :: valid(items)
    ensures var openAI, claude := OpenAI("", "", 0, ""), Claude("c", "");
            var msg := Message(false, [], Some(Meta(Some(openAI), Some(claude), None, "")));
            var back := msg.(meta := Some(Meta(Some(openAI.(id := "c")), Some(claude.(id := "")), None, "")));
            && Capture(msg, ids, valid).Some?
            && var c := Capture(msg, ids, valid).value; Restore(c.public, c.items, ids, valid) == Some(back)
  {
    var openAI, claude := OpenAI("", "", 0, ""), Claude("c", "");
    var meta := Meta(Some(openAI), Some(claude), None, "");
    var msg := Message(false, [], Some(meta));
    NothingPrivate(msg, ids);
    var ps := [ResponseIDs("c", "", 0)];
    assert MetaPayloads(meta) == ps;
    LooseItems([], ps);
    assert [] + MessageItems(ps) == MessageItems(ps) && [] + ps == ps;
    assert RestoreMetaTo(PublicMeta(meta), ps, 0) == Some(PublicMeta(meta));
    assert RestoreMetaTo(PublicMeta(meta), ps, 1) ==
             Some(Meta(Some(openAI.(id := "c")), Some(claude.(id := "")), None, ""));
    assert PublicMessage(msg).blocks == [];
  }

  const UNSIGNED := Reasoning(false, Some(Thought("a", "")))
  const SIGNED := Reasoning(false, Some(Thought("b", "s")))
  const BLANKED := Reasoning(false, Some(Thought("b", "")))
  const MISPLACED := Reasoning(false, Some(Thought("a", "s")))

  lemma {:induction false} SignatureItem(ids: nat -> string)
    requires ids(1) != ""
    ensures BlockItemsTo(Secrets([UNSIGNED, SIGNED]), ids, 2) == [Item(ids(1), Signature("s"))]
  {
    var secrets := Secrets([UNSIGNED, SIGNED]);
    assert BlockItemsTo(secrets, ids, 1) == [];
  }

  lemma {:induction false} SignatureMoves(ids: nat -> string)
    requires ids(0) == ids(1)
    ensures RestoreTo([UNSIGNED, BLANKED], ids, map[ids(1) := [Signature("s")]], 2) ==
              Some(Partial([MISPLACED, BLANKED], map[]))
  {
    var public := [UNSIGNED, BLANKED];
    var table: Table := map[ids(1) := [Signature("s")]];
    assert table - {ids(0)} == map[];
    assert RestoreTo(public, ids, table, 0) == Some(Partial([], table));
    RestoreToNext(public, ids, table, 0);
    assert Reinstate(UNSIGNED, [Signature("s")]) == Some(MISPLACED);
    assert [] + [MISPLACED] == [MISPLACED];
    assert RestoreTo(public, ids, table, 1) == Some(Partial([MISPLACED], map[]));
    RestoreToNext(public, ids, table, 1);
    assert [MISPLACED] + [BLANKED] == [MISPLACED, BLANKED];
  }

  lemma OneItem(id: string, data: Payload)
    requires id != ""
    ensures Group([Item(id, data)]) == map[id := [data]] && Loose([Item(id, data)]) == []
  {
    var item := Item(id, data);
    Snoc([], item);
    assert [] + [item] == [item] && Pending(map[], id) + [data] == [data];
  }

  /** Two reasoning blocks under one id: the signature of the second comes back on the first. */
  lemma {:induction false} SignatureChangesBlock(ids: nat -> string, valid: seq<Item> -> bool)
    requires ids(0) == ids(1) != "" && forall items :: valid(items)
    ensures var msg := Message(false, [UNSIGNED, SIGNED], None);
            var back := msg.(blocks := [MISPLACED, BLANKED]);
            && Capture(msg, ids, valid).Some?
            && var c := Capture(msg, ids, valid).value; Restore(c.public, c.items, ids, valid) == Some(back)
  {
    var msg, item := Message(false, [UNSIGNED, SIGNED], None), Item(ids(1), Signature("s"));
    SignatureItem(ids);
    SignatureMoves(ids);
    assert Items(msg, ids) == [item];
    OneItem(ids(1), Signature("s"));
    assert PublicBlocks(msg.blocks) == [UNSIGNED, BLANKED];
  }
}
