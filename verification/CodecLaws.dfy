/** What capture is for, and when restore refuses, on the fields of messages and items
    (model/agentic_state.go). */
module CodecLaws {
  import opened Options
  import opened StateCodec

  // ----- what stays public

  /** A citation with its encrypted index removed and everything else kept. */
  ghost predicate CitationBlanked(c: Option<Citation>, p: Option<Citation>) {
    match c
    case Some(Citation(true, Some(Location(_, place)), rest)) =>
      p == Some(Citation(true, Some(Location("", place)), rest))
    case _ => p == c
  }

  /** A block with its private fields removed and everything else kept. */
  ghost predicate BlockBlanked(b: Block, p: Block) {
    match b
    case Reasoning(extra, Some(Thought(text, _))) => p == Reasoning(extra, Some(Thought(text, "")))
    case GenText(extra, Some(Text(text, extension, openAI, Some(cits)))) =>
      && p.GenText? && p.gen.Some? && p.gen.value.claude.Some?
      && var blanked := p.gen.value.claude.value;
         && p == GenText(extra, Some(Text(text, extension, openAI, Some(blanked))))
         && |blanked| == |cits| && forall i | 0 <= i < |cits| :: CitationBlanked(cits[i], blanked[i])
    case _ => p == b
  }

  lemma PublicBlanks(b: Block)
    ensures BlockBlanked(b, Public(b))
  {
    match b
    case GenText(extra, Some(Text(text, extension, openAI, Some(cits)))) =>
      forall i | 0 <= i < |cits| ensures CitationBlanked(cits[i], BlankAll(cits)[i]) {
        assert BlankAll(cits)[i] == Blank(cits[i]);
      }
    case _ =>
  }

  function IDOfOpenAI(m: Meta): string { if m.openAI.Some? then m.openAI.value.id else "" }
  function IDOfClaude(m: Meta): string { if m.claude.Some? then m.claude.value.id else "" }
  function IDOfGemini(m: Meta): string { if m.gemini.Some? then m.gemini.value.id else "" }

  /** The id that goes into the payload, and what remains of the three. */
  ghost predicate FirstIDTaken(m: Meta, p: Meta, id: string) {
    if IDOfOpenAI(m) != "" then
      id == IDOfOpenAI(m) && IDOfOpenAI(p) == "" && IDOfClaude(p) == IDOfClaude(m) && IDOfGemini(p) == IDOfGemini(m)
    else if IDOfClaude(m) != "" then
      id == IDOfClaude(m) && IDOfOpenAI(p) == "" && IDOfClaude(p) == "" && IDOfGemini(p) == IDOfGemini(m)
    else
      id == IDOfGemini(m) && IDOfOpenAI(p) == "" && IDOfClaude(p) == "" && IDOfGemini(p) == ""
  }

  /** Response meta with the link fields and the blob removed, and everything but ids kept. */
  ghost predicate MetaBlanked(m: Meta, p: Meta) {
    && p.rest == m.rest
    && (p.openAI.Some? <==> m.openAI.Some?) && (p.claude.Some? <==> m.claude.Some?)
    && (p.gemini.Some? <==> m.gemini.Some?)
    && (m.openAI.Some? ==> p.openAI.value.(id := "") == OpenAI("", "", 0, m.openAI.value.rest))
    && (m.claude.Some? ==> p.claude.value.rest == m.claude.value.rest)
    && (m.gemini.Some? ==>
          && p.gemini.value.rest == m.gemini.value.rest
          && p.gemini.value.blob == if m.gemini.value.blob.Some? then Some([]) else None)
  }

  /** The payloads of the response meta: the blob if there is one, then the ids if any is set. */
  ghost predicate MetaHeldBack(m: Meta, id: string, ps: seq<Payload>) {
    var blob := if m.gemini.Some? && m.gemini.value.blob.Some? then m.gemini.value.blob.value else [];
    var previous := if m.openAI.Some? then m.openAI.value.previous else "";
    var createdAt := if m.openAI.Some? then m.openAI.value.createdAt else 0;
    var ids := ResponseIDs(id, previous, createdAt);
    match (blob == [], id == "" && previous == "" && createdAt == 0)
    case (true, true) => ps == []
    case (false, true) => ps == [Blob(blob)]
    case (true, false) => ps == [ids]
    case (false, false) => ps == [Blob(blob), ids]
  }

  lemma PublicMetaBlanks(m: Meta)
    ensures MetaBlanked(m, PublicMeta(m)) && FirstIDTaken(m, PublicMeta(m), ResponseID(m))
    ensures MetaHeldBack(m, ResponseID(m), MetaPayloads(m))
  {
  }

  ghost predicate NoPublicID(m: Meta) {
    IDOfOpenAI(m) == "" && IDOfClaude(m) == "" && IDOfGemini(m) == ""
  }

  /** No vendor's id stays public exactly when at most one of them was set. */
  lemma NoIDIffOneVendor(m: Meta)
    ensures NoPublicID(PublicMeta(m)) <==>
              || (IDOfOpenAI(m) == "" && IDOfClaude(m) == "") || (IDOfOpenAI(m) == "" && IDOfGemini(m) == "")
              || (IDOfClaude(m) == "" && IDOfGemini(m) == "")
  {
    PublicMetaBlanks(m);
  }

  /** With two ids set, the second stays in the public message. */
  lemma SecondIDStaysPublic(ids: nat -> string, valid: seq<Item> -> bool)
    requires forall items :: valid(items)
    ensures var meta := Meta(Some(OpenAI("o", "", 0, "")), Some(Claude("c", "")), None, "");
            var r := Capture(Message(false, [], Some(meta)), ids, valid);
            r.Some? && r.value.public.meta.Some? && IDOfClaude(r.value.public.meta.value) == "c"
  {
  }

  // ----- what is held back

  /** The citation's number: the annotations and citations before it that are not nil. */
  ghost function Number(t: Text, i: nat): nat
    requires t.claude.Some? && i < |t.claude.value|
  {
    (if t.openAI.Some? then |PresentBefore(t.openAI.value, |t.openAI.value|)| else 0)
    + |PresentBefore(t.claude.value, i)|
  }

  ghost function PresentBefore<T>(s: seq<Option<T>>, n: nat): set<nat>
    requires n <= |s|
  {
    set k: nat | k < n && s[k].Some?
  }

  lemma {:induction false} CountIsSize<T>(s: seq<Option<T>>, n: nat)
    requires n <= |s|
    ensures Count(s, n) == |PresentBefore(s, n)|
  {
    if n == 0 {
      assert PresentBefore(s, n) == {};
    } else {
      CountIsSize(s, n - 1);
      assert PresentBefore(s, n) == PresentBefore(s, n - 1) + if s[n - 1].Some? then {n - 1} else {};
    }
  }

  /** Citation i of the text has an encrypted index. */
  ghost predicate Encrypts(t: Text, i: nat, index: string) {
    && t.claude.Some? && i < |t.claude.value| && index != ""
    && t.claude.value[i].Some? && t.claude.value[i].value.web && t.claude.value[i].value.location.Some?
    && t.claude.value[i].value.location.value.encrypted == index
  }

  ghost predicate Ascending(es: seq<Encrypted>) {
    forall k, l | 0 <= k < l < |es| :: es[k].annotation < es[l].annotation
  }

  /** The list holds every encrypted index of the text under its number, and no other. */
  ghost predicate ListsIndexes(t: Text, es: seq<Encrypted>) {
    && (forall i: nat, index | Encrypts(t, i, index) :: Encrypted(Number(t, i), index) in es)
    && (forall e | e in es :: exists i: nat :: Encrypts(t, i, e.index) && Number(t, i) == e.annotation)
    && Ascending(es)
  }

  lemma {:induction false} IndexListed(cits: Citations, base: nat, i: nat, n: nat)
    requires i < n <= |cits| && HasIndex(cits[i])
    ensures Encrypted(base + Count(cits, i), cits[i].value.location.value.encrypted) in IndexesTo(cits, base, n)
  {
    if i < n - 1 {
      IndexListed(cits, base, i, n - 1);
    }
  }

  lemma {:induction false} ListedIndex(cits: Citations, base: nat, e: Encrypted, n: nat) returns (i: nat)
    requires n <= |cits| && e in IndexesTo(cits, base, n)
    ensures i < n && HasIndex(cits[i]) && e == Encrypted(base + Count(cits, i), cits[i].value.location.value.encrypted)
  {
    if e in IndexesTo(cits, base, n - 1) {
      i := ListedIndex(cits, base, e, n - 1);
    } else {
      i := n - 1;
    }
  }

  lemma AscendingNext(es: seq<Encrypted>, e: Encrypted)
    requires Ascending(es) && forall k | 0 <= k < |es| :: es[k].annotation < e.annotation
    ensures Ascending(es + [e])
  {
  }

  lemma {:induction false} IndexesAscend(cits: Citations, base: nat, n: nat)
    requires n <= |cits|
    ensures Ascending(IndexesTo(cits, base, n))
  {
    if n > 0 {
      IndexesAscend(cits, base, n - 1);
      var es := IndexesTo(cits, base, n - 1);
      forall k | 0 <= k < |es| ensures es[k].annotation < base + Count(cits, n - 1) {
        var i := ListedIndex(cits, base, es[k], n - 1);
        CountGrows(cits, i, n - 1);
      }
      if HasIndex(cits[n - 1]) {
        AscendingNext(es, Encrypted(base + Count(cits, n - 1), cits[n - 1].value.location.value.encrypted));
      } else {
        assert IndexesTo(cits, base, n) == es;
      }
    }
  }

  lemma NumberIs(t: Text, i: nat)
    requires t.claude.Some? && i < |t.claude.value|
    ensures Number(t, i) == Base(t) + Count(t.claude.value, i)
  {
    CountIsSize(t.claude.value, i);
    if t.openAI.Some? {
      CountIsSize(t.openAI.value, |t.openAI.value|);
    }
  }

  lemma {:induction false} IndexesAreListed(t: Text)
    requires t.claude.Some?
    ensures ListsIndexes(t, IndexesTo(t.claude.value, Base(t), |t.claude.value|))
  {
    var cits := t.claude.value;
    var es := IndexesTo(cits, Base(t), |cits|);
    forall i: nat, index | Encrypts(t, i, index) ensures Encrypted(Number(t, i), index) in es {
      NumberIs(t, i);
      IndexListed(cits, Base(t), i, |cits|);
    }
    forall e | e in es ensures exists i: nat :: Encrypts(t, i, e.index) && Number(t, i) == e.annotation {
      var i := ListedIndex(cits, Base(t), e, |cits|);
      NumberIs(t, i);
      assert Encrypts(t, i, e.index);
    }
    IndexesAscend(cits, Base(t), |cits|);
  }

  /** What block b holds back, as a payload. */
  ghost predicate HoldsBack(b: Block, p: Payload) {
    match b
    case Reasoning(_, Some(Thought(_, signature))) => signature != "" && p == Signature(signature)
    case GenText(_, Some(t)) => p.EncryptedIndexes? && p.indexes != [] && ListsIndexes(t, p.indexes)
    case _ => false
  }

  /** Block b has a private field that is set. */
  ghost predicate IsPrivate(b: Block) {
    match b
    case Reasoning(_, Some(Thought(_, signature))) => signature != ""
    case GenText(_, Some(t)) => exists i: nat, index :: Encrypts(t, i, index)
    case _ => false
  }

  lemma SecretHoldsBack(b: Block)
    ensures Secret(b).Some? <==> IsPrivate(b)
    ensures Secret(b).Some? ==> HoldsBack(b, Secret(b).value)
  {
    match b
    case GenText(_, Some(t)) =>
      if t.claude.Some? {
        IndexesAreListed(t);
        var es := IndexesTo(t.claude.value, Base(t), |t.claude.value|);
        if es != [] {
          assert es[0] in es;
        }
      }
    case _ =>
  }

  /** The items of the first n blocks: one for each private block under its own id, in order. */
  ghost predicate BlockItems(blocks: seq<Block>, ids: nat -> string, n: nat, items: seq<Item>)
    requires n <= |blocks|
  {
    if n == 0 then items == []
    else if !IsPrivate(blocks[n - 1]) then BlockItems(blocks, ids, n - 1, items)
    else
      && items != [] && BlockItems(blocks, ids, n - 1, items[..|items| - 1])
      && items[|items| - 1].block == ids(n - 1) && HoldsBack(blocks[n - 1], items[|items| - 1].data)
  }

  lemma {:induction false} ItemsOfBlocks(blocks: seq<Block>, ids: nat -> string, n: nat)
    requires n <= |blocks|
    ensures BlockItems(blocks, ids, n, BlockItemsTo(Secrets(blocks), ids, n))
  {
    if n > 0 {
      ItemsOfBlocks(blocks, ids, n - 1);
      SecretHoldsBack(blocks[n - 1]);
      var items := BlockItemsTo(Secrets(blocks), ids, n);
      if IsPrivate(blocks[n - 1]) {
        assert items[..|items| - 1] == BlockItemsTo(Secrets(blocks), ids, n - 1);
      } else {
        assert items == BlockItemsTo(Secrets(blocks), ids, n - 1);
      }
    }
  }

  /** A message that capture does not take. */
  ghost predicate CarriesExtras(msg: Message) {
    || msg.extra
    || exists i: nat :: i < |msg.blocks| && msg.blocks[i] != NilBlock
          && (msg.blocks[i].extra
              || (msg.blocks[i].GenText? && msg.blocks[i].gen.Some? && msg.blocks[i].gen.value.extension))
  }

  /** The whole split: every block and the meta blanked, and what they held in the items. */
  ghost predicate Split(msg: Message, ids: nat -> string, c: Captured) {
    && c.public.extra == msg.extra && |c.public.blocks| == |msg.blocks|
    && (forall i | 0 <= i < |msg.blocks| :: BlockBlanked(msg.blocks[i], c.public.blocks[i]))
    && exists held, id, ps :: SplitInto(msg, ids, c, held, id, ps)
  }

  /** First the items of the blocks, then those of the response meta. */
  ghost predicate SplitInto(msg: Message, ids: nat -> string, c: Captured, held: seq<Item>, id: string,
                            ps: seq<Payload>) {
    && c.items == held + MessageItems(ps) && BlockItems(msg.blocks, ids, |msg.blocks|, held)
    && MetaSplit(msg.meta, c.public.meta, id, ps)
  }

  ghost predicate MetaSplit(meta: Option<Meta>, public: Option<Meta>, id: string, ps: seq<Payload>) {
    match (meta, public)
    case (Some(m), Some(p)) => MetaBlanked(m, p) && FirstIDTaken(m, p, id) && MetaHeldBack(m, id, ps)
    case (None, None) => id == "" && ps == []
    case _ => false
  }

  lemma {:induction false} MessageSplits(msg: Message, ids: nat -> string)
    ensures Split(msg, ids, Captured(Items(msg, ids), PublicMessage(msg)))
  {
    var c := Captured(Items(msg, ids), PublicMessage(msg));
    var held := BlockItemsTo(Secrets(msg.blocks), ids, |msg.blocks|);
    forall i | 0 <= i < |msg.blocks| ensures BlockBlanked(msg.blocks[i], c.public.blocks[i]) {
      PublicBlanks(msg.blocks[i]);
    }
    ItemsOfBlocks(msg.blocks, ids, |msg.blocks|);
    if msg.meta.Some? {
      PublicMetaBlanks(msg.meta.value);
      assert SplitInto(msg, ids, c, held, ResponseID(msg.meta.value), MetaPayloads(msg.meta.value));
    } else {
      assert c.items == held + MessageItems([]);
      assert SplitInto(msg, ids, c, held, "", []);
    }
  }

  // ----- the split is unique

  lemma {:induction false} BlankedOnce(b: Block, p: Block, q: Block)
    requires BlockBlanked(b, p) && BlockBlanked(b, q)
    ensures p == q
  {
    match b
    case GenText(extra, Some(Text(text, extension, openAI, Some(cits)))) =>
      var ps, qs := p.gen.value.claude.value, q.gen.value.claude.value;
      forall i | 0 <= i < |cits| ensures ps[i] == qs[i] {
        assert CitationBlanked(cits[i], ps[i]) && CitationBlanked(cits[i], qs[i]);
      }
      assert ps == qs;
    case _ =>
  }

  lemma AscendingFront(es: seq<Encrypted>, x: Encrypted)
    requires Ascending(es) && es != []
    ensures x in es[..|es| - 1] <==> x in es && x != es[|es| - 1]
  {
    if x in es {
      var k :| 0 <= k < |es| && es[k] == x;
      assert k < |es| - 1 ==> es[..|es| - 1][k] == x;
    }
  }

  lemma SameLast(es: seq<Encrypted>, fs: seq<Encrypted>)
    requires Ascending(es) && Ascending(fs) && es != [] && fs != [] && forall e :: e in es <==> e in fs
    ensures es[|es| - 1] == fs[|fs| - 1]
  {
    assert es[|es| - 1] in fs && fs[|fs| - 1] in es;
  }

  lemma {:induction false} AscendingOnce(es: seq<Encrypted>, fs: seq<Encrypted>)
    requires Ascending(es) && Ascending(fs) && forall e :: e in es <==> e in fs
    ensures es == fs
  {
    assert fs != [] ==> fs[0] in fs;
    if es != [] {
      assert es[0] in fs;
      SameLast(es, fs);
      var es', fs' := es[..|es| - 1], fs[..|fs| - 1];
      forall x ensures x in es' <==> x in fs' {
        AscendingFront(es, x);
        AscendingFront(fs, x);
      }
      AscendingOnce(es', fs');
      assert es == es' + [es[|es| - 1]] && fs == fs' + [fs[|fs| - 1]];
    }
  }

  lemma {:induction false} ListedOnce(t: Text, es: seq<Encrypted>, fs: seq<Encrypted>)
    requires ListsIndexes(t, es) && ListsIndexes(t, fs)
    ensures es == fs
  {
    forall e | e in es ensures e in fs {
      var i: nat :| Encrypts(t, i, e.index) && Number(t, i) == e.annotation;
    }
    forall e | e in fs ensures e in es {
      var i: nat :| Encrypts(t, i, e.index) && Number(t, i) == e.annotation;
    }
    AscendingOnce(es, fs);
  }

  lemma {:induction false} HeldBackOnce(b: Block, p: Payload, q: Payload)
    requires HoldsBack(b, p) && HoldsBack(b, q)
    ensures p == q
  {
    match b
    case GenText(_, Some(t)) => ListedOnce(t, p.indexes, q.indexes);
    case _ =>
  }

  lemma {:induction false} BlockItemsOnce(blocks: seq<Block>, ids: nat -> string, n: nat, x: seq<Item>, y: seq<Item>)
    requires n <= |blocks| && BlockItems(blocks, ids, n, x) && BlockItems(blocks, ids, n, y)
    ensures x == y
  {
    if n > 0 {
      if IsPrivate(blocks[n - 1]) {
        BlockItemsOnce(blocks, ids, n - 1, x[..|x| - 1], y[..|y| - 1]);
        HeldBackOnce(blocks[n - 1], x[|x| - 1].data, y[|y| - 1].data);
        assert x == x[..|x| - 1] + [x[|x| - 1]] && y == y[..|y| - 1] + [y[|y| - 1]];
      } else {
        BlockItemsOnce(blocks, ids, n - 1, x, y);
      }
    }
  }

  lemma MetaBlankedOnce(m: Meta, p: Meta, q: Meta, id: string, other: string)
    requires MetaBlanked(m, p) && FirstIDTaken(m, p, id) && MetaBlanked(m, q) && FirstIDTaken(m, q, other)
    ensures p == q && id == other
  {
  }

  lemma MetaSplitOnce(meta: Option<Meta>, p: Option<Meta>, q: Option<Meta>, id: string, other: string, ps: seq<Payload>,
                      qs: seq<Payload>)
    requires MetaSplit(meta, p, id, ps) && MetaSplit(meta, q, other, qs)
    ensures p == q && ps == qs
  {
    if meta.Some? {
      MetaBlankedOnce(meta.value, p.value, q.value, id, other);
    }
  }

  lemma {:induction false} SplitOnce(msg: Message, ids: nat -> string, c: Captured, d: Captured)
    requires Split(msg, ids, c) && Split(msg, ids, d)
    ensures c == d
  {
    forall i | 0 <= i < |msg.blocks| ensures c.public.blocks[i] == d.public.blocks[i] {
      BlankedOnce(msg.blocks[i], c.public.blocks[i], d.public.blocks[i]);
    }
    assert c.public.blocks == d.public.blocks;
    var held, id, ps :| SplitInto(msg, ids, c, held, id, ps);
    var kept, other, qs :| SplitInto(msg, ids, d, kept, other, qs);
    BlockItemsOnce(msg.blocks, ids, |msg.blocks|, held, kept);
    MetaSplitOnce(msg.meta, c.public.meta, d.public.meta, id, other, ps, qs);
  }

  /** Capture takes exactly the messages without extras whose items are within the limits, and
      then holds back every private field under its block's id, leaves none of them public and
      keeps all the rest. */
  lemma {:induction false} CaptureSplits(msg: Message, ids: nat -> string, valid: seq<Item> -> bool, c: Captured)
    ensures Capture(msg, ids, valid) == Some(c) <==>
              !CarriesExtras(msg) && Split(msg, ids, c) && (c.items == [] || valid(c.items))
  {
    MessageSplits(msg, ids);
    if Split(msg, ids, c) {
      SplitOnce(msg, ids, c, Captured(Items(msg, ids), PublicMessage(msg)));
    }
    CaptureTakes(msg, ids, valid);
  }

  lemma CaptureTakes(msg: Message, ids: nat -> string, valid: seq<Item> -> bool)
    ensures Capture(msg, ids, valid).Some? <==>
              !CarriesExtras(msg) && (Items(msg, ids) == [] || valid(Items(msg, ids)))
    ensures Capture(msg, ids, valid).Some? ==>
              Capture(msg, ids, valid) == Some(Captured(Items(msg, ids), PublicMessage(msg)))
  {
  }

  // ----- when restore takes an item, and what it does with it

  /** The last of the first n entries that goes to this number. */
  ghost function LastFor(es: seq<Encrypted>, n: nat, annotation: int): Option<string>
    requires n <= |es|
  {
    if n == 0 then None
    else if es[n - 1].annotation == annotation then Some(es[n - 1].index) else LastFor(es, n - 1, annotation)
  }

  /** A number stands for a web citation that has a location. */
  ghost predicate Cites(t: Text, i: nat, annotation: int) {
    && t.claude.Some? && i < |t.claude.value| && Number(t, i) == annotation && t.claude.value[i].Some?
    && t.claude.value[i].value.web && t.claude.value[i].value.location.Some?
  }

  /** The payload is one that this block can take back. */
  ghost predicate Fits(b: Block, p: Payload) {
    match b
    case Reasoning(_, Some(_)) => p.Signature?
    case GenText(_, Some(t)) =>
      && p.EncryptedIndexes? && t.claude.Some?
      && forall k | 0 <= k < |p.indexes| :: IsCited(t, p.indexes[k].annotation)
    case _ => false
  }

  ghost predicate IsCited(t: Text, annotation: int) {
    exists i: nat :: Cites(t, i, annotation)
  }

  ghost predicate IndexPutBack(c: Option<Citation>, index: Option<string>, r: Option<Citation>) {
    match (c, index)
    case (Some(Citation(web, Some(Location(_, place)), rest)), Some(x)) =>
      r == Some(Citation(web, Some(Location(x, place)), rest))
    case (_, None) => r == c
    case _ => false
  }

  /** r is block b with the payload's fields put back and everything else kept. */
  ghost predicate PutBack(b: Block, p: Payload, r: Block)
    requires Fits(b, p)
  {
    match b
    case Reasoning(extra, Some(Thought(text, _))) => r == Reasoning(extra, Some(Thought(text, p.signature)))
    case GenText(extra, Some(Text(text, extension, openAI, Some(cits)))) =>
      && r.GenText? && r.gen.Some? && r.gen.value.claude.Some?
      && var filled := r.gen.value.claude.value;
         && r == GenText(extra, Some(Text(text, extension, openAI, Some(filled)))) && |filled| == |cits|
         && forall i: nat | i < |cits| && cits[i].Some? ::
              IndexPutBack(cits[i], LastFor(p.indexes, |p.indexes|, Number(b.gen.value, i)), filled[i])
    case _ => r == b
  }

  /** Number a stands for the web citation at p. */
  ghost predicate Stands(cits: Citations, base: nat, p: nat, a: int) {
    && p < |cits| && cits[p].Some? && base + Count(cits, p) == a && cits[p].value.web && cits[p].value.location.Some?
  }

  ghost predicate StandsForOne(cits: Citations, base: nat, a: int) {
    exists p: nat :: Stands(cits, base, p, a)
  }

  ghost predicate AllStand(cits: Citations, base: nat, es: seq<Encrypted>, n: nat)
    requires n <= |es|
  {
    forall k | 0 <= k < n :: StandsForOne(cits, base, es[k].annotation)
  }

  ghost predicate RefilledTo(cits: Citations, base: nat, es: seq<Encrypted>, n: nat, r: Citations)
    requires n <= |es|
  {
    && |r| == |cits|
    && (forall i: nat | i < |cits| && cits[i].None? :: r[i].None?)
    && forall i: nat | i < |cits| && cits[i].Some? :: IndexPutBack(cits[i], LastFor(es, n, base + Count(cits, i)), r[i])
  }

  lemma {:induction false} OneNumber(cits: Citations, p: nat, q: nat)
    requires p < |cits| && q < |cits| && cits[p].Some? && cits[q].Some? && Count(cits, p) == Count(cits, q)
    ensures p == q
  {
    if p < q {
      CountGrows(cits, p, q);
    } else if q < p {
      CountGrows(cits, q, p);
    }
  }

  lemma {:induction false} RefillNext(cits: Citations, base: nat, es: seq<Encrypted>, n: nat, r: Citations, p: nat)
    requires n < |es| && RefilledTo(cits, base, es, n, r) && Stands(cits, base, p, es[n].annotation)
    ensures r[p].Some? && r[p].value.web && r[p].value.location.Some?
    ensures RefilledTo(cits, base, es, n + 1, r[p := Some(SetIndex(r[p].value, es[n].index))])
  {
    assert IndexPutBack(cits[p], LastFor(es, n, base + Count(cits, p)), r[p]);
    var s := r[p := Some(SetIndex(r[p].value, es[n].index))];
    forall i: nat | i < |cits| && cits[i].Some?
      ensures IndexPutBack(cits[i], LastFor(es, n + 1, base + Count(cits, i)), s[i]) {
      assert IndexPutBack(cits[i], LastFor(es, n, base + Count(cits, i)), r[i]);
      if Count(cits, i) == Count(cits, p) {
        OneNumber(cits, i, p);
      }
    }
  }

  lemma {:induction false} RefillRefuses(cits: Citations, base: nat, es: seq<Encrypted>, n: nat, r: Citations)
    requires n < |es| && RefillTo(cits, base, es, n) == Some(r) && RefilledTo(cits, base, es, n, r)
    requires !StandsForOne(cits, base, es[n].annotation)
    ensures RefillTo(cits, base, es, n + 1).None?
  {
    var q := Find(cits, base, es[n].annotation, |cits|);
    if q.Some? {
      var p := q.value;
      assert IndexPutBack(cits[p], LastFor(es, n, base + Count(cits, p)), r[p]);
      assert !Stands(cits, base, p, es[n].annotation);
    }
  }

  lemma {:induction false} RefillTakes(cits: Citations, base: nat, es: seq<Encrypted>, n: nat, r: Citations)
    requires n < |es| && RefillTo(cits, base, es, n) == Some(r) && RefilledTo(cits, base, es, n, r)
    requires StandsForOne(cits, base, es[n].annotation)
    ensures RefillTo(cits, base, es, n + 1).Some?
    ensures RefilledTo(cits, base, es, n + 1, RefillTo(cits, base, es, n + 1).value)
  {
    var p: nat :| Stands(cits, base, p, es[n].annotation);
    FindOwn(cits, base, p, |cits|);
    RefillNext(cits, base, es, n, r, p);
  }

  /** Indexes go back exactly if every number stands for a web citation with a location. */
  lemma {:induction false} RefillIff(cits: Citations, base: nat, es: seq<Encrypted>, n: nat)
    requires n <= |es|
    ensures RefillTo(cits, base, es, n).Some? <==> AllStand(cits, base, es, n)
    ensures RefillTo(cits, base, es, n).Some? ==> RefilledTo(cits, base, es, n, RefillTo(cits, base, es, n).value)
  {
    if n == 0 {
      NothingRefilled(cits, base, es);
    } else {
      RefillIff(cits, base, es, n - 1);
      RefillIffNext(cits, base, es, n - 1, RefillTo(cits, base, es, n - 1));
    }
  }

  lemma NothingRefilled(cits: Citations, base: nat, es: seq<Encrypted>)
    ensures RefilledTo(cits, base, es, 0, cits)
  {
    forall i: nat | i < |cits| && cits[i].Some?
      ensures IndexPutBack(cits[i], LastFor(es, 0, base + Count(cits, i)), cits[i]) {
    }
  }

  lemma {:induction false} RefillIffNext(cits: Citations, base: nat, es: seq<Encrypted>, n: nat, r: Option<Citations>)
    requires n < |es| && RefillTo(cits, base, es, n) == r && (r.Some? <==> AllStand(cits, base, es, n))
    requires r.Some? ==> RefilledTo(cits, base, es, n, r.value)
    ensures var s := RefillTo(cits, base, es, n + 1);
            (s.Some? <==> AllStand(cits, base, es, n + 1)) && (s.Some? ==> RefilledTo(cits, base, es, n + 1, s.value))
  {
    AllStandNext(cits, base, es, n);
    if r.None? {
      RefillFails(cits, base, es, n, n + 1);
    } else if StandsForOne(cits, base, es[n].annotation) {
      RefillTakes(cits, base, es, n, r.value);
    } else {
      RefillRefuses(cits, base, es, n, r.value);
    }
  }

  lemma AllStandNext(cits: Citations, base: nat, es: seq<Encrypted>, n: nat)
    requires n < |es|
    ensures AllStand(cits, base, es, n + 1) <==>
              AllStand(cits, base, es, n) && StandsForOne(cits, base, es[n].annotation)
  {
  }

  lemma {:induction false} CitedIsStands(t: Text, a: int)
    requires t.claude.Some?
    ensures IsCited(t, a) <==> StandsForOne(t.claude.value, Base(t), a)
  {
    forall i: nat ensures Cites(t, i, a) <==> Stands(t.claude.value, Base(t), i, a) {
      if i < |t.claude.value| {
        NumberIs(t, i);
      }
    }
    if i: nat :| Cites(t, i, a) {
      assert Stands(t.claude.value, Base(t), i, a);
    }
    if i: nat :| Stands(t.claude.value, Base(t), i, a) {
      assert Cites(t, i, a);
    }
  }

  lemma {:induction false} TextPutBack(extra: bool, t: Text, p: Payload, r: Citations)
    requires p.EncryptedIndexes? && t.claude.Some? && Fits(GenText(extra, Some(t)), p)
    requires RefilledTo(t.claude.value, Base(t), p.indexes, |p.indexes|, r)
    ensures PutBack(GenText(extra, Some(t)), p, GenText(extra, Some(t.(claude := Some(r)))))
  {
    forall i: nat | i < |r| && t.claude.value[i].Some?
      ensures IndexPutBack(t.claude.value[i], LastFor(p.indexes, |p.indexes|, Number(t, i)), r[i]) {
      NumberIs(t, i);
    }
  }

  lemma {:induction false} TextFits(extra: bool, t: Text, p: Payload)
    requires p.EncryptedIndexes? && t.claude.Some?
    ensures var b, r := GenText(extra, Some(t)), RefillTo(t.claude.value, Base(t), p.indexes, |p.indexes|);
            (r.Some? <==> Fits(b, p)) && (r.Some? ==> PutBack(b, p, GenText(extra, Some(t.(claude := r)))))
  {
    var es, r := p.indexes, RefillTo(t.claude.value, Base(t), p.indexes, |p.indexes|);
    RefillIff(t.claude.value, Base(t), es, |es|);
    forall k | 0 <= k < |es|
      ensures IsCited(t, es[k].annotation) <==> StandsForOne(t.claude.value, Base(t), es[k].annotation) {
      CitedIsStands(t, es[k].annotation);
    }
    if r.Some? {
      TextPutBack(extra, t, p, r.value);
    }
  }

  /** A block takes back exactly one payload, and only one that fits it. */
  lemma {:induction false} ReinstateIff(b: Block, pending: seq<Payload>)
    ensures Reinstate(b, pending).Some? <==> |pending| == 1 && Fits(b, pending[0])
    ensures Reinstate(b, pending).Some? ==> PutBack(b, pending[0], Reinstate(b, pending).value)
  {
    if |pending| == 1 {
      match b
      case GenText(extra, Some(t)) =>
        if pending[0].EncryptedIndexes? && t.claude.Some? {
          TextFits(extra, t, pending[0]);
        }
      case _ =>
    }
  }

  // ----- items by block

  /** The positions of the items with this block id, and their payloads in order. */
  lemma {:induction false} GroupedAt(items: seq<Item>, id: string) returns (at: seq<nat>)
    ensures var ps := if id == "" then Loose(items) else Pending(Group(items), id);
            |at| == |ps| && forall k | 0 <= k < |at| :: at[k] < |items| && items[at[k]] == Item(id, ps[k])
    ensures forall k, l | 0 <= k < l < |at| :: at[k] < at[l]
    ensures forall i: nat | i < |items| && items[i].block == id :: i in at
  {
    at := [];
    if items != [] {
      var last := |items| - 1;
      at := GroupedAt(items[..last], id);
      if items[last].block == id {
        at := at + [last];
      }
    }
  }

  lemma {:induction false} NoEmptyGroup(items: seq<Item>)
    ensures "" !in Group(items) && forall id | id in Group(items) :: Group(items)[id] != []
  {
    if items != [] {
      NoEmptyGroup(items[..|items| - 1]);
    }
  }

  // ----- blocks

  /** Block k is the first that is not nil and has this id. */
  ghost predicate Answers(blocks: seq<Block>, ids: nat -> string, k: nat, id: string) {
    && k < |blocks| && blocks[k] != NilBlock && ids(k) == id
    && forall j: nat | j < k && blocks[j] != NilBlock :: ids(j) != id
  }

  /** No pending payload keeps block k from being restored. */
  ghost predicate BlockFits(blocks: seq<Block>, ids: nat -> string, table: Table, k: nat)
    requires k < |blocks|
  {
    Answers(blocks, ids, k, ids(k)) && Pending(table, ids(k)) != [] ==>
      |Pending(table, ids(k))| == 1 && Fits(blocks[k], Pending(table, ids(k))[0])
  }

  ghost predicate BlockRestored(blocks: seq<Block>, ids: nat -> string, table: Table, k: nat, r: Block)
    requires k < |blocks| && BlockFits(blocks, ids, table, k)
  {
    if Answers(blocks, ids, k, ids(k)) && Pending(table, ids(k)) != [] then
      PutBack(blocks[k], Pending(table, ids(k))[0], r)
    else r == blocks[k]
  }

  /** What is left of the table after the first n blocks: the ids none of them has. */
  ghost predicate LeftOver(blocks: seq<Block>, ids: nat -> string, table: Table, n: nat, left: Table)
    requires n <= |blocks|
  {
    forall id :: Pending(left, id) ==
      if exists j: nat :: j < n && blocks[j] != NilBlock && ids(j) == id then [] else Pending(table, id)
  }

  lemma {:induction false} PendingNow(blocks: seq<Block>, ids: nat -> string, table: Table, n: nat, left: Table)
    requires n < |blocks| && LeftOver(blocks, ids, table, n, left) && blocks[n] != NilBlock
    ensures Pending(left, ids(n)) == if Answers(blocks, ids, n, ids(n)) then Pending(table, ids(n)) else []
  {
    if !Answers(blocks, ids, n, ids(n)) {
      var j: nat :| j < n && blocks[j] != NilBlock && ids(j) == ids(n);
    }
  }

  lemma {:induction false} LeftOverNext(blocks: seq<Block>, ids: nat -> string, table: Table, n: nat, left: Table)
    requires n < |blocks| && LeftOver(blocks, ids, table, n, left)
    ensures LeftOver(blocks, ids, table, n + 1,
                     if blocks[n] == NilBlock || Pending(left, ids(n)) == [] then left else left - {ids(n)})
  {
    var next := if blocks[n] == NilBlock || Pending(left, ids(n)) == [] then left else left - {ids(n)};
    forall id ensures Pending(next, id) ==
        if exists j: nat :: j < n + 1 && blocks[j] != NilBlock && ids(j) == id then [] else Pending(table, id) {
      assert Pending(left, id) ==
        if exists j: nat :: j < n && blocks[j] != NilBlock && ids(j) == id then [] else Pending(table, id);
      if blocks[n] != NilBlock && ids(n) == id {
        assert Pending(next, id) == [];
      } else {
        assert Pending(next, id) == Pending(left, id);
      }
    }
  }

  lemma {:induction false} RestoreBlockIff(blocks: seq<Block>, ids: nat -> string, table: Table, n: nat, r: Partial)
    requires n < |blocks| && |r.blocks| == n && LeftOver(blocks, ids, table, n, r.table)
    ensures RestoreNext(r, blocks[n], ids(n)).Some? <==> BlockFits(blocks, ids, table, n)
    ensures var s := RestoreNext(r, blocks[n], ids(n));
            s.Some? ==>
              && s.value.blocks[..n] == r.blocks && LeftOver(blocks, ids, table, n + 1, s.value.table)
              && BlockRestored(blocks, ids, table, n, s.value.blocks[n])
  {
    LeftOverNext(blocks, ids, table, n, r.table);
    if blocks[n] != NilBlock {
      PendingNow(blocks, ids, table, n, r.table);
      ReinstateIff(blocks[n], Pending(r.table, ids(n)));
    }
  }

  ghost predicate RestoredTo(blocks: seq<Block>, ids: nat -> string, table: Table, n: nat, r: Partial)
    requires n <= |blocks|
  {
    && |r.blocks| == n && LeftOver(blocks, ids, table, n, r.table)
    && forall k: nat | k < n :: BlockFits(blocks, ids, table, k) && BlockRestored(blocks, ids, table, k, r.blocks[k])
  }

  lemma RestoredNext(blocks: seq<Block>, ids: nat -> string, table: Table, n: nat, r: Partial, s: Partial)
    requires n < |blocks| && RestoredTo(blocks, ids, table, n, r)
    requires |s.blocks| == n + 1 && s.blocks[..n] == r.blocks && LeftOver(blocks, ids, table, n + 1, s.table)
    requires BlockFits(blocks, ids, table, n) && BlockRestored(blocks, ids, table, n, s.blocks[n])
    ensures RestoredTo(blocks, ids, table, n + 1, s)
  {
    forall k: nat | k < n + 1
      ensures BlockFits(blocks, ids, table, k) && BlockRestored(blocks, ids, table, k, s.blocks[k]) {
      if k < n {
        assert s.blocks[k] == s.blocks[..n][k] == r.blocks[k];
      }
    }
  }

  /** The blocks are restored exactly if each one's pending payload is alone and fits. */
  lemma {:induction false} RestoreBlocksIff(blocks: seq<Block>, ids: nat -> string, table: Table, n: nat)
    requires n <= |blocks|
    ensures RestoreTo(blocks, ids, table, n).Some? <==> forall k: nat | k < n :: BlockFits(blocks, ids, table, k)
    ensures var r := RestoreTo(blocks, ids, table, n); r.Some? ==> RestoredTo(blocks, ids, table, n, r.value)
  {
    if n > 0 {
      RestoreBlocksIff(blocks, ids, table, n - 1);
      var before := RestoreTo(blocks, ids, table, n - 1);
      if before.Some? {
        RestoreToNext(blocks, ids, table, n - 1);
        RestoreBlockIff(blocks, ids, table, n - 1, before.value);
        var after := RestoreTo(blocks, ids, table, n);
        if after.Some? {
          RestoredNext(blocks, ids, table, n - 1, before.value, after.value);
        }
      }
    }
  }

  // ----- response meta

  ghost predicate FitsMeta(m: Meta, p: Payload) {
    match p
    case Blob(_) => m.gemini.Some? && m.gemini.value.blob.Some?
    case ResponseIDs(id, previous, createdAt) =>
      && (previous != "" || createdAt != 0 ==> m.openAI.Some?)
      && (id != "" ==> m.openAI.Some? || m.claude.Some? || m.gemini.Some?)
    case _ => false
  }

  ghost predicate SameShape(m: Meta, r: Meta) {
    && (m.openAI.Some? <==> r.openAI.Some?) && (m.claude.Some? <==> r.claude.Some?)
    && (m.gemini.Some? <==> r.gemini.Some?)
    && (m.gemini.Some? ==> (m.gemini.value.blob.Some? <==> r.gemini.value.blob.Some?))
  }

  lemma {:induction false} RestoreMetaIff(m: Meta, ps: seq<Payload>, n: nat)
    requires n <= |ps|
    ensures RestoreMetaTo(m, ps, n).Some? <==> forall k | 0 <= k < n :: FitsMeta(m, ps[k])
    ensures RestoreMetaTo(m, ps, n).Some? ==> SameShape(m, RestoreMetaTo(m, ps, n).value)
  {
    if n > 0 {
      RestoreMetaIff(m, ps, n - 1);
    }
  }

  // ----- the whole message

  /** Item i has a block to go to, or a response meta, that can take it. */
  ghost predicate Placed(public: Message, ids: nat -> string, item: Item) {
    if item.block == "" then public.meta.Some? && FitsMeta(public.meta.value, item.data)
    else exists k: nat :: Answers(public.blocks, ids, k, item.block) && Fits(public.blocks[k], item.data)
  }

  ghost predicate OneEach(items: seq<Item>) {
    forall i, j | 0 <= i < j < |items| && items[i].block == items[j].block :: items[i].block == ""
  }

  lemma {:induction false} ManyGrouped(items: seq<Item>, id: string)
    requires id != "" && |Pending(Group(items), id)| > 1
    ensures !OneEach(items)
  {
    var at := GroupedAt(items, id);
    assert items[at[0]].block == items[at[1]].block == id;
  }

  lemma {:induction false} GroupIsOne(items: seq<Item>, id: string)
    requires id != "" && OneEach(items)
    ensures |Pending(Group(items), id)| <= 1
    ensures forall i: nat | i < |items| && items[i].block == id :: Pending(Group(items), id) == [items[i].data]
  {
    if |Pending(Group(items), id)| > 1 {
      ManyGrouped(items, id);
    }
    var at := GroupedAt(items, id);
  }

  lemma {:induction false} NotGrouped(items: seq<Item>, i: nat, j: nat)
    requires i < j < |items| && items[i].block == items[j].block != ""
    ensures |Pending(Group(items), items[i].block)| > 1
  {
    var at := GroupedAt(items, items[i].block);
    assert i in at && j in at;
  }

  lemma {:induction false} PlacedBlocksFit(public: Message, items: seq<Item>, ids: nat -> string, k: nat)
    requires OneEach(items) && (forall i | 0 <= i < |items| :: Placed(public, ids, items[i])) && k < |public.blocks|
    ensures BlockFits(public.blocks, ids, Group(items), k)
  {
    var id := ids(k);
    NoEmptyGroup(items);
    if Answers(public.blocks, ids, k, id) && Pending(Group(items), id) != [] {
      assert id != "";
      GroupIsOne(items, id);
      var at := GroupedAt(items, id);
      assert Placed(public, ids, items[at[0]]);
      var l: nat :| Answers(public.blocks, ids, l, id) && Fits(public.blocks[l], items[at[0]].data);
      assert l == k;
    }
  }

  ghost predicate AllFitMeta(meta: Option<Meta>, ps: seq<Payload>) {
    ps == [] || (meta.Some? && forall k | 0 <= k < |ps| :: FitsMeta(meta.value, ps[k]))
  }

  lemma {:induction false} LooseFits(public: Message, items: seq<Item>, ids: nat -> string)
    ensures (forall i | 0 <= i < |items| && items[i].block == "" :: Placed(public, ids, items[i])) <==>
              AllFitMeta(public.meta, Loose(items))
  {
    var at := GroupedAt(items, "");
    var ps := Loose(items);
    if forall i | 0 <= i < |items| && items[i].block == "" :: Placed(public, ids, items[i]) {
      if ps != [] {
        assert Placed(public, ids, items[at[0]]);
      }
      forall k | 0 <= k < |ps| ensures FitsMeta(public.meta.value, ps[k]) {
        assert Placed(public, ids, items[at[k]]);
      }
    }
    if AllFitMeta(public.meta, ps) {
      forall i | 0 <= i < |items| && items[i].block == "" ensures Placed(public, ids, items[i]) {
        var k :| 0 <= k < |at| && at[k] == i;
        assert FitsMeta(public.meta.value, ps[k]);
      }
    }
  }

  lemma {:induction false} MetaTakes(meta: Option<Meta>, ps: seq<Payload>)
    ensures AllFitMeta(meta, ps) <==> ps == [] || (meta.Some? && RestoreMetaTo(meta.value, ps, |ps|).Some?)
  {
    if meta.Some? {
      RestoreMetaIff(meta.value, ps, |ps|);
    }
  }

  lemma {:induction false} ItemPlaced(public: Message, items: seq<Item>, ids: nat -> string, i: nat)
    requires forall k: nat | k < |public.blocks| :: BlockFits(public.blocks, ids, Group(items), k)
    requires LeftOver(public.blocks, ids, Group(items), |public.blocks|, map[])
    requires i < |items| && items[i].block != ""
    ensures Placed(public, ids, items[i]) && |Pending(Group(items), items[i].block)| == 1
  {
    var table, id := Group(items), items[i].block;
    var at := GroupedAt(items, id);
    assert Pending(map[], id) == [] && i in at && Pending(table, id) != [];
    var k := FirstAnswer(public.blocks, ids, id);
    assert BlockFits(public.blocks, ids, table, k);
  }

  lemma {:induction false} FitsArePlaced(public: Message, items: seq<Item>, ids: nat -> string)
    requires forall k: nat | k < |public.blocks| :: BlockFits(public.blocks, ids, Group(items), k)
    requires LeftOver(public.blocks, ids, Group(items), |public.blocks|, map[])
    ensures OneEach(items)
    ensures forall i | 0 <= i < |items| && items[i].block != "" :: Placed(public, ids, items[i])
  {
    forall i | 0 <= i < |items| && items[i].block != "" ensures Placed(public, ids, items[i]) {
      ItemPlaced(public, items, ids, i);
    }
    forall i, j | 0 <= i < j < |items| && items[i].block == items[j].block ensures items[i].block == "" {
      if items[i].block != "" {
        NotGrouped(items, i, j);
        ItemPlaced(public, items, ids, i);
      }
    }
  }

  lemma {:induction false} FirstAnswer(blocks: seq<Block>, ids: nat -> string, id: string) returns (k: nat)
    requires exists j: nat :: j < |blocks| && blocks[j] != NilBlock && ids(j) == id
    ensures Answers(blocks, ids, k, id)
  {
    k := 0;
    while blocks[k] == NilBlock || ids(k) != id
      invariant k < |blocks| && forall j: nat | j < k && blocks[j] != NilBlock :: ids(j) != id
      decreases |blocks| - k
    {
      k := k + 1;
    }
  }

  /** What restore takes: items within the limits, a message without extras, and for every item
      a block (the first with its id, and for that item alone) or a response meta that fits. */
  ghost predicate Restorable(public: Message, items: seq<Item>, ids: nat -> string, valid: seq<Item> -> bool) {
    && (items == [] || valid(items)) && !public.extra && OneEach(items)
    && forall i | 0 <= i < |items| :: Placed(public, ids, items[i])
  }

  lemma {:induction false} NothingLeftOver(blocks: seq<Block>, ids: nat -> string, items: seq<Item>, left: Table)
    requires LeftOver(blocks, ids, Group(items), |blocks|, left)
    requires forall i | 0 <= i < |items| && items[i].block != "" ::
               exists k: nat :: Answers(blocks, ids, k, items[i].block)
    ensures forall id :: Pending(left, id) == []
  {
    forall id ensures Pending(left, id) == [] {
      if Pending(Group(items), id) != [] {
        NoEmptyGroup(items);
        var at := GroupedAt(items, id);
        assert items[at[0]].block == id;
        var k: nat :| Answers(blocks, ids, k, id);
      }
    }
  }

  lemma NoPendingIsEmpty(table: Table)
    requires forall id | id in table :: table[id] != []
    ensures table == map[] <==> forall id :: Pending(table, id) == []
  {
    if forall id :: Pending(table, id) == [] {
      forall id ensures id !in table {
        assert Pending(table, id) == [];
      }
    }
  }

  lemma {:induction false} LeftNonEmpty(blocks: seq<Block>, ids: nat -> string, table: Table, n: nat)
    requires n <= |blocks| && RestoreTo(blocks, ids, table, n).Some? && forall id | id in table :: table[id] != []
    ensures var left := RestoreTo(blocks, ids, table, n).value.table; forall id | id in left :: left[id] != []
  {
    if n > 0 {
      LeftNonEmpty(blocks, ids, table, n - 1);
    }
  }

  /** Restore succeeds exactly for restorable input. */
  lemma {:induction false} RestoreIff(public: Message, items: seq<Item>, ids: nat -> string, valid: seq<Item> -> bool)
    ensures Restore(public, items, ids, valid).Some? <==> Restorable(public, items, ids, valid)
  {
    var blocks, table := public.blocks, Group(items);
    NoEmptyGroup(items);
    RestoreBlocksIff(blocks, ids, table, |blocks|);
    LooseFits(public, items, ids);
    MetaTakes(public.meta, Loose(items));
    var r := RestoreTo(blocks, ids, table, |blocks|);
    if r.Some? {
      LeftNonEmpty(blocks, ids, table, |blocks|);
      NoPendingIsEmpty(r.value.table);
    }
    if Restorable(public, items, ids, valid) {
      forall k: nat | k < |blocks| ensures BlockFits(blocks, ids, table, k) {
        PlacedBlocksFit(public, items, ids, k);
      }
      forall i | 0 <= i < |items| && items[i].block != ""
        ensures exists k: nat :: Answers(blocks, ids, k, items[i].block) {
        assert Placed(public, ids, items[i]);
      }
      NothingLeftOver(blocks, ids, items, r.value.table);
    }
    if Restore(public, items, ids, valid).Some? {
      FitsArePlaced(public, items, ids);
    }
  }

  /** What a restored message is: each item's content in the block it is for, the other blocks
      as they were. */
  lemma {:induction false} RestoreContents(public: Message, items: seq<Item>, ids: nat -> string,
                                           valid: seq<Item> -> bool, k: nat)
    requires Restore(public, items, ids, valid).Some? && k < |public.blocks|
    ensures var r := Restore(public, items, ids, valid).value;
            && |r.blocks| == |public.blocks| && !r.extra
            && (forall i: nat | i < |items| && items[i].block != "" && Answers(public.blocks, ids, k, items[i].block) ::
                  Fits(public.blocks[k], items[i].data) && PutBack(public.blocks[k], items[i].data, r.blocks[k]))
            && ((forall i: nat | i < |items| :: items[i].block == "" || !Answers(public.blocks, ids, k, items[i].block))
                ==> r.blocks[k] == public.blocks[k])
  {
    var blocks, table, id := public.blocks, Group(items), ids(k);
    var r := Restore(public, items, ids, valid).value;
    RestoreIff(public, items, ids, valid);
    RestoreBlocksIff(blocks, ids, table, |blocks|);
    NoEmptyGroup(items);
    assert BlockRestored(blocks, ids, table, k, r.blocks[k]);
    forall i: nat | i < |items| && items[i].block != "" && Answers(blocks, ids, k, items[i].block)
      ensures Fits(blocks[k], items[i].data) && PutBack(blocks[k], items[i].data, r.blocks[k]) {
      GroupIsOne(items, items[i].block);
    }
    if Answers(blocks, ids, k, id) && Pending(table, id) != [] {
      var at := GroupedAt(items, id);
      assert items[at[0]].block == id;
    }
  }
}
