/** What the canonical encoding means: a reader gets every string back, so payloads with equal
    encodings are equal (runtime/admission_fingerprint.go; section 7 of RFC 8259). */
module Literals {
  import opened Options
  import opened Orders
  import opened Json
  import opened Fingerprint

  // ----- reading a string literal

  function HexValue(b: Byte): Option<nat> {
    if '0' as int <= b <= '9' as int then Some(b - '0' as int)
    else if 'a' as int <= b <= 'f' as int then Some(b - 'a' as int + 10)
    else if 'A' as int <= b <= 'F' as int then Some(b - 'A' as int + 10)
    else None
  }

  /** The code point of a two-character escape, by the letter after the backslash. */
  function ShortMeaning(b: Byte): Option<Scalar> {
    if b == '"' as int || b == '\\' as int || b == '/' as int then Some(b)
    else if b == 'b' as int then Some(8)
    else if b == 'f' as int then Some(12)
    else if b == 'n' as int then Some(10)
    else if b == 'r' as int then Some(13)
    else if b == 't' as int then Some(9)
    else None
  }

  /** The code point of four hexadecimal digits; surrogates are not read. */
  function HexMeaning(b: Bytes): Option<Scalar>
    requires |b| >= 4
  {
    var d := [HexValue(b[0]), HexValue(b[1]), HexValue(b[2]), HexValue(b[3])];
    if d[0].None? || d[1].None? || d[2].None? || d[3].None? then None
    else
      var r := d[0].value * 0x1000 + d[1].value * 0x100 + d[2].value * 0x10 + d[3].value;
      if 0xD800 <= r < 0xE000 then None else Some(r)
  }

  /** One character of a literal: its code point and its width. */
  function ReadChar(b: Bytes): (r: Option<(Scalar, nat)>)
    requires b != []
    ensures r.Some? ==> 1 <= r.value.1 <= |b|
  {
    if b[0] < 0x20 || b[0] == QUOTATION then None
    else if b[0] != BACKSLASH then
      var d := DecodeRune(b);
      if d.None? then None
      else
        Utf8OfDecode(b);
        d
    else if |b| >= 2 && ShortMeaning(b[1]).Some? then Some((ShortMeaning(b[1]).value, 2))
    else if |b| >= 6 && b[1] == 'u' as int && HexMeaning(b[2..]).Some? then Some((HexMeaning(b[2..]).value, 6))
    else None
  }

  /** The characters up to the closing quotation mark, and what follows it. */
  function ReadBody(b: Bytes): Option<(seq<Scalar>, Bytes)> {
    if b == [] then None
    else if b[0] == QUOTATION then Some(([], b[1..]))
    else
      var c := ReadChar(b);
      if c.None? then None
      else
        var rest := ReadBody(b[c.value.1..]);
        if rest.None? then None else Some(([c.value.0] + rest.value.0, rest.value.1))
  }

  lemma HexDigitReads(d: nat)
    requires d < 16
    ensures HexValue(HexDigit(d)) == Some(d)
  {
  }

  lemma HexReads(r: Scalar, rest: Bytes)
    requires r < 0x10000
    ensures HexMeaning([HexDigit(r / 0x1000), HexDigit(r / 0x100 % 0x10), HexDigit(r / 0x10 % 0x10),
                        HexDigit(r % 0x10)] + rest) == Some(r)
  {
    HexDigitReads(r / 0x1000);
    HexDigitReads(r / 0x100 % 0x10);
    HexDigitReads(r / 0x10 % 0x10);
    HexDigitReads(r % 0x10);
    assert r / 0x10 == r / 0x100 * 0x10 + r / 0x10 % 0x10;
    assert r / 0x100 == r / 0x1000 * 0x10 + r / 0x100 % 0x10;
  }

  lemma PlainReads(r: Scalar, rest: Bytes)
    requires r >= 0x20 && r != QUOTATION && r != BACKSLASH
    ensures ReadChar(Utf8(r) + rest) == Some((r, |Utf8(r)|))
  {
    var b := Utf8(r) + rest;
    DecodeOfUtf8(r, rest);
    assert b[0] == Utf8(r)[0];
    if r >= 0x80 {
      assert b[0] >= 0x80;
    }
  }

  lemma UnicodeReads(r: Scalar, rest: Bytes)
    requires ShortEscape(r).None? && NeedsUnicodeEscape(r)
    ensures ReadChar(Escape(r) + rest) == Some((r, 6))
  {
    var digits := [HexDigit(r / 0x1000), HexDigit(r / 0x100 % 0x10), HexDigit(r / 0x10 % 0x10), HexDigit(r % 0x10)];
    HexReads(r, rest);
    var b := Escape(r) + rest;
    assert b[2..] == digits + rest && b[0] == BACKSLASH && b[1] == 'u' as int;
  }

  /** Every escape is read as the code point it stands for. */
  lemma EscapeReads(r: Scalar, rest: Bytes)
    ensures ReadChar(Escape(r) + rest) == Some((r, |Escape(r)|)) && Escape(r)[0] != QUOTATION
  {
    if ShortEscape(r).Some? {
      var b := Escape(r) + rest;
      assert b[0] == BACKSLASH && b[1] == ShortEscape(r).value;
    } else if NeedsUnicodeEscape(r) {
      UnicodeReads(r, rest);
    } else {
      PlainReads(r, rest);
      assert (Utf8(r) + rest)[0] == Utf8(r)[0];
    }
  }

  lemma {:induction false} BodyReads(rs: seq<Scalar>, rest: Bytes)
    ensures ReadBody(EscapeAll(rs) + [QUOTATION] + rest) == Some((rs, rest))
  {
    var b := EscapeAll(rs) + [QUOTATION] + rest;
    if rs == [] {
      assert b == [QUOTATION] + rest;
    } else {
      var tail := EscapeAll(rs[1..]) + [QUOTATION] + rest;
      assert b == Escape(rs[0]) + tail;
      EscapeReads(rs[0], tail);
      assert b[0] == Escape(rs[0])[0] && b[|Escape(rs[0])|..] == tail;
      BodyReads(rs[1..], rest);
      assert [rs[0]] + rs[1..] == rs;
    }
  }

  /** A reader of a literal gets exactly the string back, and stops at its end. */
  lemma {:induction false} QuoteReads(v: Bytes, rest: Bytes)
    requires ValidString(v)
    ensures Quote(v)[0] == QUOTATION && ReadBody((Quote(v) + rest)[1..]) == Some((Runes(v).value, rest))
  {
    BodyReads(Runes(v).value, rest);
    assert (Quote(v) + rest)[1..] == EscapeAll(Runes(v).value) + [QUOTATION] + rest;
  }

  /** The short escapes that Go writes. */
  lemma ShortEscapesAre()
    ensures Escape(0x22) == [0x5C, 0x22] && Escape(0x5C) == [0x5C, 0x5C] && Escape(8) == [0x5C, 'b' as int]
    ensures Escape(12) == [0x5C, 'f' as int] && Escape(10) == [0x5C, 'n' as int] && Escape(13) == [0x5C, 'r' as int]
    ensures Escape(9) == [0x5C, 't' as int]
  {
  }

  /** Six bytes for the other control characters, the HTML ones and two separators; everything
      else is the UTF-8 form of its code point. */
  lemma OtherEscapesAre(r: Scalar)
    requires r !in {0x22, 0x5C, 8, 9, 10, 12, 13}
    ensures if r < 0x20 || r in {0x3C, 0x3E, 0x26, 0x2028, 0x2029} then |Escape(r)| == 6 else Escape(r) == Utf8(r)
  {
  }

  // ----- what stands where in an encoding

  ghost predicate At(b: Bytes, i: nat, w: Bytes) {
    i + |w| <= |b| && b[i..i + |w|] == w
  }

  lemma At2(b: Bytes, i: nat, x: Bytes, y: Bytes)
    requires At(b, i, x + y)
    ensures At(b, i, x) && At(b, i + |x|, y)
  {
    var w := b[i..i + |x + y|];
    assert b[i..i + |x|] == w[..|x|] && b[i + |x|..i + |x| + |y|] == w[|x|..];
  }

  lemma FirstAt(b: Bytes, i: nat, x: Bytes)
    requires At(b, i, x) && x != []
    ensures i < |b| && b[i] == x[0]
  {
    assert b[i..i + |x|][0] == b[i];
  }

  /** Two literals at one place are the literals of one string. */
  lemma {:induction false} SameQuote(b: Bytes, i: nat, v: Bytes, w: Bytes)
    requires ValidString(v) && ValidString(w) && At(b, i, Quote(v)) && At(b, i, Quote(w))
    ensures v == w
  {
    QuoteReads(v, b[i + |Quote(v)|..]);
    QuoteReads(w, b[i + |Quote(w)|..]);
    assert b[i..] == Quote(v) + b[i + |Quote(v)|..];
    assert b[i..] == Quote(w) + b[i + |Quote(w)|..];
    Utf8OfRunes(v);
    Utf8OfRunes(w);
  }

  // ----- lists of parts

  /** Parts of a kind that are told apart by the bytes at their place. */
  ghost predicate Distinguished(b: Bytes, ps: seq<Bytes>, qs: seq<Bytes>) {
    forall j: nat, x, y | x in ps && y in qs && At(b, j, x) && At(b, j, y) :: x == y
  }

  ghost predicate Begin(ps: seq<Bytes>, first: Byte) {
    forall x | x in ps :: x != [] && x[0] == first
  }

  lemma {:induction false} JoinedPrefix(b: Bytes, i: nat, ps: seq<Bytes>, k: nat, n: nat)
    requires k <= n <= |ps| && At(b, i, JoinedTo(ps, n))
    ensures At(b, i, JoinedTo(ps, k))
  {
    if k < n {
      if n > 1 {
        At2(b, i, JoinedTo(ps, n - 1) + Lit(","), ps[n - 1]);
        At2(b, i, JoinedTo(ps, n - 1), Lit(","));
      } else {
        assert JoinedTo(ps, k) == [];
      }
      JoinedPrefix(b, i, ps, k, n - 1);
    }
  }

  /** Part k of a list, and the comma in front of it. */
  lemma {:induction false} PartAt(b: Bytes, i: nat, ps: seq<Bytes>, k: nat)
    requires k < |ps| && At(b, i, Joined(ps))
    ensures var at := i + |JoinedTo(ps, k)|;
            if k == 0 then At(b, at, ps[k]) else At(b, at, Lit(",")) && At(b, at + 1, ps[k])
  {
    JoinedPrefix(b, i, ps, k + 1, |ps|);
    if k > 0 {
      At2(b, i, JoinedTo(ps, k) + Lit(","), ps[k]);
      At2(b, i, JoinedTo(ps, k), Lit(","));
    }
  }

  /** What comes after the first k parts: another part, or the end. */
  lemma {:induction false} NextByte(b: Bytes, i: nat, ps: seq<Bytes>, k: nat, first: Byte, close: Byte)
    requires k <= |ps| && At(b, i, Joined(ps) + [close]) && Begin(ps, first)
    ensures var at := i + |JoinedTo(ps, k)|;
            at < |b| && b[at] == if k == |ps| then close else if k == 0 then first else ',' as int
  {
    At2(b, i, Joined(ps), [close]);
    if k == |ps| {
      FirstAt(b, i + |JoinedTo(ps, k)|, [close]);
    } else {
      PartAt(b, i, ps, k);
      assert ps[k] in ps;
      FirstAt(b, i + |JoinedTo(ps, k)|, if k == 0 then ps[k] else Lit(","));
      assert Lit(",")[0] == ',' as int;
    }
  }

  lemma {:induction false} SameNext(b: Bytes, i: nat, ps: seq<Bytes>, qs: seq<Bytes>, k: nat)
    requires k < |ps| && k < |qs| && ps[..k] == qs[..k] && At(b, i, Joined(ps)) && At(b, i, Joined(qs))
    requires Distinguished(b, ps, qs)
    ensures ps[..k + 1] == qs[..k + 1]
  {
    SameJoined(ps, qs, k);
    PartAt(b, i, ps, k);
    PartAt(b, i, qs, k);
    assert ps[k] in ps && qs[k] in qs;
    var at := if k == 0 then i + |JoinedTo(ps, k)| else i + |JoinedTo(ps, k)| + 1;
    assert At(b, at, ps[k]) && At(b, at, qs[k]);
    assert ps[..k + 1] == ps[..k] + [ps[k]] && qs[..k + 1] == qs[..k] + [qs[k]];
  }

  lemma {:induction false} SameJoined(ps: seq<Bytes>, qs: seq<Bytes>, k: nat)
    requires k <= |ps| && k <= |qs| && ps[..k] == qs[..k]
    ensures JoinedTo(ps, k) == JoinedTo(qs, k)
  {
    if k > 0 {
      assert ps[k - 1] == ps[..k][k - 1] == qs[k - 1];
      assert ps[..k - 1] == ps[..k][..k - 1] == qs[..k - 1];
      SameJoined(ps, qs, k - 1);
    }
  }

  lemma {:induction false} SamePartsTo(b: Bytes, i: nat, ps: seq<Bytes>, qs: seq<Bytes>, first: Byte, close: Byte,
                                       k: nat)
    requires At(b, i, Joined(ps) + [close]) && At(b, i, Joined(qs) + [close]) && Distinguished(b, ps, qs)
    requires Begin(ps, first) && Begin(qs, first) && first != close && close != ',' as int
    requires k <= |ps|
    ensures k <= |qs| && ps[..k] == qs[..k]
  {
    if k > 0 {
      SamePartsTo(b, i, ps, qs, first, close, k - 1);
      SameJoined(ps, qs, k - 1);
      NextByte(b, i, ps, k - 1, first, close);
      NextByte(b, i, qs, k - 1, first, close);
      At2(b, i, Joined(ps), [close]);
      At2(b, i, Joined(qs), [close]);
      SameNext(b, i, ps, qs, k - 1);
    }
  }

  /** Two lists at one place have the same parts. */
  lemma {:induction false} SameParts(b: Bytes, i: nat, ps: seq<Bytes>, qs: seq<Bytes>, first: Byte, close: Byte)
    requires At(b, i, Joined(ps) + [close]) && At(b, i, Joined(qs) + [close]) && Distinguished(b, ps, qs)
    requires Begin(ps, first) && Begin(qs, first) && first != close && close != ',' as int
    ensures ps == qs
  {
    SamePartsTo(b, i, ps, qs, first, close, |ps|);
    SameJoined(ps, qs, |ps|);
    NextByte(b, i, ps, |ps|, first, close);
    NextByte(b, i, qs, |ps|, first, close);
    assert ps[..|ps|] == ps && qs[..|qs|] == qs;
  }

  // ----- the parts of a payload

  lemma SameString(c: Coder, b: Bytes, i: nat, v: Bytes, w: Bytes)
    requires IsJson(c) && c.valid(v) && c.valid(w) && At(b, i, c.quote(v)) && At(b, i, c.quote(w))
    ensures v == w
  {
    assert ValidString(v) && ValidString(w);
    SameQuote(b, i, v, w);
  }

  /** A field: fixed bytes, then a string. */
  lemma SameField(c: Coder, b: Bytes, i: nat, l: Bytes, v: Bytes, w: Bytes)
    requires IsJson(c) && c.valid(v) && c.valid(w) && At(b, i, l + c.quote(v)) && At(b, i, l + c.quote(w))
    ensures v == w
  {
    At2(b, i, l, c.quote(v));
    At2(b, i, l, c.quote(w));
    SameString(c, b, i + |l|, v, w);
  }

  /** Three fields, as in a selection and a permission. */
  lemma SameTriple(c: Coder, b: Bytes, i: nat, l: seq<Bytes>, vs: seq<Bytes>, ws: seq<Bytes>, close: Bytes)
    requires IsJson(c) && |l| == |vs| == |ws| == 3 && AllValid(c, vs) && AllValid(c, ws)
    requires At(b, i, Triple(c, l, vs, close)) && At(b, i, Triple(c, l, ws, close))
    ensures vs == ws
  {
    FirstFields(c, b, i, l, vs, close);
    FirstFields(c, b, i, l, ws, close);
    SameField(c, b, i, l[0], vs[0], ws[0]);
    var one := l[0] + c.quote(vs[0]);
    SameField(c, b, i + |one|, l[1], vs[1], ws[1]);
    var two := one + l[1] + c.quote(vs[1]);
    SameField(c, b, i + |two|, l[2], vs[2], ws[2]);
  }

  function Triple(c: Coder, l: seq<Bytes>, vs: seq<Bytes>, close: Bytes): Bytes
    requires |l| == |vs| == 3
  {
    l[0] + c.quote(vs[0]) + l[1] + c.quote(vs[1]) + l[2] + c.quote(vs[2]) + close
  }

  lemma FirstFields(c: Coder, b: Bytes, i: nat, l: seq<Bytes>, vs: seq<Bytes>, close: Bytes)
    requires |l| == |vs| == 3 && At(b, i, Triple(c, l, vs, close))
    ensures var one := l[0] + c.quote(vs[0]);
            var two := one + l[1] + c.quote(vs[1]);
            && At(b, i, one) && At(b, i + |one|, l[1] + c.quote(vs[1])) && At(b, i + |two|, l[2] + c.quote(vs[2]))
  {
    var one := l[0] + c.quote(vs[0]);
    var two := one + l[1] + c.quote(vs[1]);
    At2(b, i, two + l[2] + c.quote(vs[2]), close);
    assert two + l[2] + c.quote(vs[2]) == two + (l[2] + c.quote(vs[2]));
    At2(b, i, two, l[2] + c.quote(vs[2]));
    assert two == one + (l[1] + c.quote(vs[1]));
    At2(b, i, one, l[1] + c.quote(vs[1]));
  }

  predicate SelectionValid(c: Coder, s: Selection) {
    c.valid(s.provider) && c.valid(s.model) && c.valid(s.variant)
  }

  /** The fixed bytes of an encoding, whatever they are. */
  datatype Labels = Labels(selection: seq<Bytes>, rule: seq<Bytes>, tools: seq<Bytes>, agent: seq<Bytes>,
                           payload: seq<Bytes>)

  ghost predicate Fixed(l: Labels) {
    && |l.selection| == 4 && |l.rule| == 4 && |l.tools| == 4 && |l.agent| == 6 && |l.payload| == 7
    && l.rule[0] != [] && l.rule[0][0] == '{' as int
  }

  function SelectionWith(c: Coder, l: Labels, s: Selection): Bytes
    requires Fixed(l)
  {
    Triple(c, l.selection[..3], [s.provider, s.model, s.variant], l.selection[3])
  }

  lemma SameSelection(c: Coder, l: Labels, b: Bytes, i: nat, s: Selection, t: Selection)
    requires Fixed(l) && IsJson(c) && SelectionValid(c, s) && SelectionValid(c, t)
    requires At(b, i, SelectionWith(c, l, s)) && At(b, i, SelectionWith(c, l, t))
    ensures s == t
  {
    var vs, ws := [s.provider, s.model, s.variant], [t.provider, t.model, t.variant];
    SameTriple(c, b, i, l.selection[..3], vs, ws, l.selection[3]);
    assert vs[0] == ws[0] && vs[1] == ws[1] && vs[2] == ws[2];
  }

  function RuleWith(c: Coder, l: Labels, r: Permission): Bytes
    requires Fixed(l)
  {
    Triple(c, l.rule[..3], Rule(r), l.rule[3])
  }

  lemma SameRule(c: Coder, l: Labels, b: Bytes, i: nat, r: Permission, q: Permission)
    requires Fixed(l) && IsJson(c) && AllValid(c, Rule(r)) && AllValid(c, Rule(q))
    requires At(b, i, RuleWith(c, l, r)) && At(b, i, RuleWith(c, l, q))
    ensures r == q
  {
    SameTriple(c, b, i, l.rule[..3], Rule(r), Rule(q), l.rule[3]);
    assert Rule(r)[0] == Rule(q)[0] && Rule(r)[1] == Rule(q)[1] && Rule(r)[2] == Rule(q)[2];
  }

  lemma QuotesBegin(c: Coder, vs: seq<Bytes>)
    requires IsJson(c) && AllValid(c, vs)
    ensures Begin(Quotes(c, vs), QUOTATION)
  {
    forall x | x in Quotes(c, vs) ensures x != [] && x[0] == QUOTATION {
      var i :| 0 <= i < |vs| && x == c.quote(vs[i]);
      assert ValidString(vs[i]);
    }
  }

  lemma {:induction false} SameStrings(c: Coder, b: Bytes, i: nat, vs: seq<Bytes>, ws: seq<Bytes>)
    requires IsJson(c) && AllValid(c, vs) && AllValid(c, ws)
    requires At(b, i, EncodeList(c, vs)) && At(b, i, EncodeList(c, ws))
    ensures vs == ws
  {
    ListParts(b, i, Lit("["), Quotes(c, vs), Lit("]"));
    ListParts(b, i, Lit("["), Quotes(c, ws), Lit("]"));
    QuotesBegin(c, vs);
    QuotesBegin(c, ws);
    forall j: nat, x, y | x in Quotes(c, vs) && y in Quotes(c, ws) && At(b, j, x) && At(b, j, y) ensures x == y {
      var k :| 0 <= k < |vs| && x == c.quote(vs[k]);
      var l :| 0 <= l < |ws| && y == c.quote(ws[l]);
      SameString(c, b, j, vs[k], ws[l]);
    }
    assert Lit("]") == [']' as int];
    SameParts(b, i + 1, Quotes(c, vs), Quotes(c, ws), QUOTATION, ']' as int);
    forall k | 0 <= k < |vs| ensures vs[k] == ws[k] {
      assert Quotes(c, vs)[k] == Quotes(c, ws)[k];
      QuoteOnce(c, vs[k], ws[k]);
    }
  }

  lemma QuoteOnce(c: Coder, v: Bytes, w: Bytes)
    requires IsJson(c) && c.valid(v) && c.valid(w) && c.quote(v) == c.quote(w)
    ensures v == w
  {
    var b := c.quote(v);
    assert At(b, 0, c.quote(v)) && At(b, 0, c.quote(w));
    SameString(c, b, 0, v, w);
  }

  /** An opening byte, the parts and the closing one. */
  lemma ListParts(b: Bytes, i: nat, open: Bytes, ps: seq<Bytes>, close: Bytes)
    requires At(b, i, open + Joined(ps) + close)
    ensures At(b, i + |open|, Joined(ps) + close)
  {
    assert open + Joined(ps) + close == open + (Joined(ps) + close);
    At2(b, i, open, Joined(ps) + close);
  }

  // ----- maps

  lemma SameMember(c: Coder, b: Bytes, i: nat, k: Bytes, v: Bytes, l: Bytes, w: Bytes)
    requires IsJson(c) && c.valid(k) && c.valid(v) && c.valid(l) && c.valid(w)
    requires At(b, i, c.quote(k) + Lit(":") + c.quote(v)) && At(b, i, c.quote(l) + Lit(":") + c.quote(w))
    ensures k == l && v == w
  {
    At2(b, i, c.quote(k) + Lit(":"), c.quote(v));
    At2(b, i, c.quote(k), Lit(":"));
    At2(b, i, c.quote(l) + Lit(":"), c.quote(w));
    At2(b, i, c.quote(l), Lit(":"));
    SameString(c, b, i, k, l);
    SameString(c, b, i + |c.quote(k) + Lit(":")|, v, w);
  }

  lemma MembersBegin(c: Coder, m: map<Bytes, Bytes>, ks: seq<Bytes>)
    requires IsJson(c) && MapValid(c, m) && forall k | k in ks :: k in m
    ensures Begin(Members(c, m, ks), QUOTATION)
  {
    forall x | x in Members(c, m, ks) ensures x != [] && x[0] == QUOTATION {
      var i :| 0 <= i < |ks| && x == Member(c, m, ks[i]);
      assert ks[i] in ks && ValidString(ks[i]);
    }
  }

  lemma {:induction false} SameMembers(c: Coder, b: Bytes, i: nat, m: map<Bytes, Bytes>, ks: seq<Bytes>,
                                       n: map<Bytes, Bytes>, ls: seq<Bytes>)
    requires IsJson(c) && MapValid(c, m) && MapValid(c, n)
    requires (forall k | k in ks :: k in m) && (forall k | k in ls :: k in n)
    requires At(b, i, EncodeMap(c, m, ks)) && At(b, i, EncodeMap(c, n, ls))
    ensures Members(c, m, ks) == Members(c, n, ls)
  {
    ListParts(b, i, Lit("{"), Members(c, m, ks), Lit("}"));
    ListParts(b, i, Lit("{"), Members(c, n, ls), Lit("}"));
    MembersBegin(c, m, ks);
    MembersBegin(c, n, ls);
    forall j: nat, x, y | x in Members(c, m, ks) && y in Members(c, n, ls) && At(b, j, x) && At(b, j, y)
      ensures x == y {
      var k :| 0 <= k < |ks| && x == Member(c, m, ks[k]);
      var l :| 0 <= l < |ls| && y == Member(c, n, ls[l]);
      assert ks[k] in ks && ls[l] in ls;
      SameMember(c, b, j, ks[k], m[ks[k]], ls[l], n[ls[l]]);
    }
    assert Lit("}") == ['}' as int];
    SameParts(b, i + 1, Members(c, m, ks), Members(c, n, ls), QUOTATION, '}' as int);
  }

  lemma MemberOnce(c: Coder, m: map<Bytes, Bytes>, k: Bytes, n: map<Bytes, Bytes>, l: Bytes)
    requires IsJson(c) && MapValid(c, m) && MapValid(c, n) && k in m && l in n && Member(c, m, k) == Member(c, n, l)
    ensures k == l && m[k] == n[l]
  {
    var b := Member(c, m, k);
    assert At(b, 0, Member(c, m, k)) && At(b, 0, Member(c, n, l));
    SameMember(c, b, 0, k, m[k], l, n[l]);
  }

  /** Two encoded maps at one place are one map, whatever orders their keys were written in. */
  lemma {:induction false} SameMap(c: Coder, b: Bytes, i: nat, m: map<Bytes, Bytes>, ks: seq<Bytes>,
                                   n: map<Bytes, Bytes>, ls: seq<Bytes>)
    requires IsJson(c) && MapValid(c, m) && MapValid(c, n) && Enumerates(ks, m) && Enumerates(ls, n)
    requires At(b, i, EncodeMap(c, m, ks)) && At(b, i, EncodeMap(c, n, ls))
    ensures m == n && ks == ls
  {
    SameMembers(c, b, i, m, ks, n, ls);
    assert |ks| == |Members(c, m, ks)| == |ls|;
    forall j | 0 <= j < |ks| ensures ks[j] == ls[j] && m[ks[j]] == n[ls[j]] {
      assert Members(c, m, ks)[j] == Members(c, n, ls)[j] && ks[j] in ks && ls[j] in ls;
      MemberOnce(c, m, ks[j], n, ls[j]);
    }
    forall k | k in m ensures k in n && m[k] == n[k] {
      assert k in ks;
    }
    forall k | k in n ensures k in m {
      assert k in ls;
    }
  }

  // ----- tools, agent and payload

  function RulesWith(c: Coder, l: Labels, rules: seq<Permission>): (r: seq<Bytes>)
    requires Fixed(l)
    ensures |r| == |rules| && forall i | 0 <= i < |rules| :: r[i] == RuleWith(c, l, rules[i])
  {
    seq(|rules|, i requires 0 <= i < |rules| => RuleWith(c, l, rules[i]))
  }

  lemma RulesBegin(c: Coder, l: Labels, rules: seq<Permission>)
    requires Fixed(l)
    ensures Begin(RulesWith(c, l, rules), '{' as int)
  {
    forall x | x in RulesWith(c, l, rules) ensures x != [] && x[0] == '{' as int {
      var i :| 0 <= i < |rules| && x == RuleWith(c, l, rules[i]);
      assert x[0] == l.rule[0][0];
    }
  }

  lemma {:induction false} SameRules(c: Coder, l: Labels, b: Bytes, i: nat, rules: seq<Permission>,
                                     others: seq<Permission>)
    requires Fixed(l) && IsJson(c) && RulesValid(c, rules) && RulesValid(c, others)
    requires At(b, i, Joined(RulesWith(c, l, rules)) + Lit("]")) && At(b, i, Joined(RulesWith(c, l, others)) + Lit("]"))
    ensures rules == others
  {
    RulesBegin(c, l, rules);
    RulesBegin(c, l, others);
    forall j: nat, x, y | x in RulesWith(c, l, rules) && y in RulesWith(c, l, others) && At(b, j, x) && At(b, j, y)
      ensures x == y {
      var k :| 0 <= k < |rules| && x == RuleWith(c, l, rules[k]);
      var m :| 0 <= m < |others| && y == RuleWith(c, l, others[m]);
      SameRule(c, l, b, j, rules[k], others[m]);
    }
    assert Lit("]") == [']' as int];
    SameParts(b, i, RulesWith(c, l, rules), RulesWith(c, l, others), '{' as int, ']' as int);
    assert |rules| == |RulesWith(c, l, rules)| == |others|;
    forall k | 0 <= k < |rules| ensures rules[k] == others[k] {
      var w := RulesWith(c, l, rules)[k];
      assert w == RulesWith(c, l, others)[k];
      assert At(w, 0, RuleWith(c, l, rules[k])) && At(w, 0, RuleWith(c, l, others[k]));
      SameRule(c, l, w, 0, rules[k], others[k]);
    }
  }

  /** One more section at the end of an encoding: fixed bytes and a part. */
  lemma LastSection(b: Bytes, i: nat, front: Bytes, l: Bytes, x: Bytes)
    requires At(b, i, front + l + x)
    ensures At(b, i, front) && At(b, i + |front + l|, x)
  {
    At2(b, i, front + l, x);
    At2(b, i, front, l);
  }

  predicate ToolsValid(c: Coder, t: Tools) {
    AllValid(c, t.enabled) && AllValid(c, t.disabled) && RulesValid(c, t.permissions)
  }

  /** The tools up to their second list, and all of them. */
  function ListsWith(c: Coder, l: Labels, t: Tools): Bytes
    requires Fixed(l)
  {
    l.tools[0] + EncodeList(c, t.enabled) + l.tools[1] + EncodeList(c, t.disabled)
  }

  function ToolsWith(c: Coder, l: Labels, t: Tools): Bytes
    requires Fixed(l)
  {
    ListsWith(c, l, t) + l.tools[2] + (Joined(RulesWith(c, l, t.permissions)) + Lit("]")) + l.tools[3]
  }

  lemma ToolsAt(c: Coder, l: Labels, b: Bytes, i: nat, t: Tools)
    requires Fixed(l) && At(b, i, ToolsWith(c, l, t))
    ensures At(b, i + |l.tools[0]|, EncodeList(c, t.enabled))
    ensures At(b, i + |l.tools[0] + EncodeList(c, t.enabled) + l.tools[1]|, EncodeList(c, t.disabled))
    ensures At(b, i + |ListsWith(c, l, t) + l.tools[2]|, Joined(RulesWith(c, l, t.permissions)) + Lit("]"))
  {
    var rules := Joined(RulesWith(c, l, t.permissions)) + Lit("]");
    At2(b, i, ListsWith(c, l, t) + l.tools[2] + rules, l.tools[3]);
    LastSection(b, i, ListsWith(c, l, t), l.tools[2], rules);
    LastSection(b, i, l.tools[0] + EncodeList(c, t.enabled), l.tools[1], EncodeList(c, t.disabled));
    At2(b, i, l.tools[0], EncodeList(c, t.enabled));
  }

  lemma {:induction false} SameLists(c: Coder, l: Labels, b: Bytes, i: nat, t: Tools, u: Tools)
    requires Fixed(l) && IsJson(c) && ToolsValid(c, t) && ToolsValid(c, u)
    requires At(b, i + |l.tools[0]|, EncodeList(c, t.enabled)) && At(b, i + |l.tools[0]|, EncodeList(c, u.enabled))
    requires At(b, i + |l.tools[0] + EncodeList(c, t.enabled) + l.tools[1]|, EncodeList(c, t.disabled))
    requires At(b, i + |l.tools[0] + EncodeList(c, u.enabled) + l.tools[1]|, EncodeList(c, u.disabled))
    ensures t.enabled == u.enabled && t.disabled == u.disabled
  {
    SameStrings(c, b, i + |l.tools[0]|, t.enabled, u.enabled);
    SameStrings(c, b, i + |l.tools[0] + EncodeList(c, t.enabled) + l.tools[1]|, t.disabled, u.disabled);
  }

  lemma {:induction false} SameTools(c: Coder, l: Labels, b: Bytes, i: nat, t: Tools, u: Tools)
    requires Fixed(l) && IsJson(c) && ToolsValid(c, t) && ToolsValid(c, u)
    requires At(b, i, ToolsWith(c, l, t)) && At(b, i, ToolsWith(c, l, u))
    ensures t == u
  {
    ToolsAt(c, l, b, i, t);
    ToolsAt(c, l, b, i, u);
    SameLists(c, l, b, i, t, u);
    var front := ListsWith(c, l, t);
    assert front == ListsWith(c, l, u);
    SameRules(c, l, b, i + |front + l.tools[2]|, t.permissions, u.permissions);
  }

  predicate AgentValid(c: Coder, a: Agent) {
    && AllValid(c, [a.name, a.systemPrompt, a.mode]) && SelectionValid(c, a.model) && MapValid(c, a.options)
  }

  function AgentFront(c: Coder, l: Labels, a: Agent): Bytes
    requires Fixed(l)
  {
    Triple(c, l.agent[..3], [a.name, a.systemPrompt, a.mode], l.agent[3])
  }

  function AgentWith(c: Coder, l: Labels, a: Agent, ks: seq<Bytes>): Bytes
    requires Fixed(l) && forall k | k in ks :: k in a.options
  {
    AgentFront(c, l, a) + SelectionWith(c, l, a.model) + l.agent[4] + EncodeMap(c, a.options, ks) + l.agent[5]
  }

  lemma AgentAt(c: Coder, l: Labels, b: Bytes, i: nat, a: Agent, ks: seq<Bytes>)
    requires Fixed(l) && (forall k | k in ks :: k in a.options) && At(b, i, AgentWith(c, l, a, ks))
    ensures At(b, i, AgentFront(c, l, a)) && At(b, i + |AgentFront(c, l, a)|, SelectionWith(c, l, a.model))
    ensures At(b, i + |AgentFront(c, l, a) + SelectionWith(c, l, a.model) + l.agent[4]|, EncodeMap(c, a.options, ks))
  {
    var first := AgentFront(c, l, a) + SelectionWith(c, l, a.model);
    At2(b, i, first + l.agent[4] + EncodeMap(c, a.options, ks), l.agent[5]);
    LastSection(b, i, first, l.agent[4], EncodeMap(c, a.options, ks));
    At2(b, i, AgentFront(c, l, a), SelectionWith(c, l, a.model));
  }

  lemma {:induction false} SameNames(c: Coder, l: Labels, b: Bytes, i: nat, a: Agent, d: Agent)
    requires Fixed(l) && IsJson(c) && AgentValid(c, a) && AgentValid(c, d)
    requires At(b, i, AgentFront(c, l, a)) && At(b, i, AgentFront(c, l, d))
    ensures a.name == d.name && a.systemPrompt == d.systemPrompt && a.mode == d.mode
  {
    var vs, ws := [a.name, a.systemPrompt, a.mode], [d.name, d.systemPrompt, d.mode];
    SameTriple(c, b, i, l.agent[..3], vs, ws, l.agent[3]);
    assert vs[0] == ws[0] && vs[1] == ws[1] && vs[2] == ws[2];
  }

  lemma {:induction false} SameAgent(c: Coder, l: Labels, b: Bytes, i: nat, a: Agent, ks: seq<Bytes>, d: Agent,
                                     ls: seq<Bytes>)
    requires Fixed(l) && IsJson(c) && AgentValid(c, a) && AgentValid(c, d)
    requires Enumerates(ks, a.options) && Enumerates(ls, d.options)
    requires At(b, i, AgentWith(c, l, a, ks)) && At(b, i, AgentWith(c, l, d, ls))
    ensures a == d && ks == ls
  {
    AgentAt(c, l, b, i, a, ks);
    AgentAt(c, l, b, i, d, ls);
    SameNames(c, l, b, i, a, d);
    SameRest(c, l, b, i, AgentFront(c, l, a), a, ks, d, ls);
  }

  lemma {:induction false} SameRest(c: Coder, l: Labels, b: Bytes, i: nat, front: Bytes, a: Agent, ks: seq<Bytes>,
                                    d: Agent, ls: seq<Bytes>)
    requires Fixed(l) && IsJson(c) && SelectionValid(c, a.model) && SelectionValid(c, d.model)
    requires MapValid(c, a.options) && MapValid(c, d.options) && Enumerates(ks, a.options) && Enumerates(ls, d.options)
    requires At(b, i + |front|, SelectionWith(c, l, a.model)) && At(b, i + |front|, SelectionWith(c, l, d.model))
    requires At(b, i + |front + SelectionWith(c, l, a.model) + l.agent[4]|, EncodeMap(c, a.options, ks))
    requires At(b, i + |front + SelectionWith(c, l, d.model) + l.agent[4]|, EncodeMap(c, d.options, ls))
    ensures a.model == d.model && a.options == d.options && ks == ls
  {
    SameSelection(c, l, b, i + |front|, a.model, d.model);
    SameMap(c, b, i + |front + SelectionWith(c, l, a.model) + l.agent[4]|, a.options, ks, d.options, ls);
  }

  // ----- labels and parts in turn

  /** The first n parts, each behind its label. */
  function Chain(l: seq<Bytes>, x: seq<Bytes>, n: nat): Bytes
    requires n <= |l| && n <= |x|
  {
    if n == 0 then [] else Chain(l, x, n - 1) + l[n - 1] + x[n - 1]
  }

  /** Where part k of a chain stands. */
  function Place(l: seq<Bytes>, x: seq<Bytes>, k: nat): nat
    requires k < |l| && k <= |x|
  {
    |Chain(l, x, k) + l[k]|
  }

  lemma {:induction false} ChainAt(b: Bytes, l: seq<Bytes>, x: seq<Bytes>, k: nat, n: nat)
    requires k < n <= |l| && n <= |x| && At(b, 0, Chain(l, x, n))
    ensures At(b, Place(l, x, k), x[k])
  {
    LastSection(b, 0, Chain(l, x, n - 1), l[n - 1], x[n - 1]);
    if k < n - 1 {
      ChainAt(b, l, x, k, n - 1);
    }
  }

  lemma {:induction false} SameChain(l: seq<Bytes>, x: seq<Bytes>, y: seq<Bytes>, n: nat)
    requires n <= |l| && n <= |x| && n <= |y| && x[..n] == y[..n]
    ensures Chain(l, x, n) == Chain(l, y, n)
  {
    if n > 0 {
      assert x[n - 1] == x[..n][n - 1] == y[n - 1];
      assert x[..n - 1] == x[..n][..n - 1] == y[..n - 1];
      SameChain(l, x, y, n - 1);
    }
  }

  lemma SixInChain(l: seq<Bytes>, x: seq<Bytes>)
    requires |l| >= 6 && |x| == 6
    ensures Chain(l, x, 6) ==
              l[0] + x[0] + l[1] + x[1] + l[2] + x[2] + l[3] + x[3] + l[4] + x[4] + l[5] + x[5]
  {
    assert Chain(l, x, 1) == l[0] + x[0];
    assert Chain(l, x, 2) == Chain(l, x, 1) + l[1] + x[1];
    assert Chain(l, x, 3) == Chain(l, x, 2) + l[2] + x[2];
    assert Chain(l, x, 4) == Chain(l, x, 3) + l[3] + x[3];
    assert Chain(l, x, 5) == Chain(l, x, 4) + l[4] + x[4];
  }

  function PayloadParts(c: Coder, l: Labels, p: Payload, o: KeyOrders): seq<Bytes>
    requires Fixed(l) && OrdersFit(p, o)
  {
    [p.message, AgentWith(c, l, p.agent, o.options), SelectionWith(c, l, p.model), ToolsWith(c, l, p.tools),
     EncodeMap(c, p.configMetadata, o.config), EncodeMap(c, p.requestMetadata, o.request)]
  }

  function PayloadWith(c: Coder, l: Labels, p: Payload, o: KeyOrders): Bytes
    requires Fixed(l) && OrdersFit(p, o)
  {
    Chain(l.payload, PayloadParts(c, l, p, o), 6) + l.payload[6]
  }

  predicate SectionsValid(c: Coder, p: Payload) {
    && AgentValid(c, p.agent) && SelectionValid(c, p.model) && ToolsValid(c, p.tools)
    && MapValid(c, p.configMetadata) && MapValid(c, p.requestMetadata)
  }

  lemma FieldsValid(c: Coder, p: Payload)
    requires PayloadValid(c, p)
    ensures SectionsValid(c, p)
  {
    var f := Fields(p);
    assert c.valid(f[0]) && c.valid(f[1]) && c.valid(f[2]) && c.valid(f[3]) && c.valid(f[4]) && c.valid(f[5]);
    assert c.valid(f[6]) && c.valid(f[7]) && c.valid(f[8]);
  }

  lemma PrefixAt(b: Bytes, i: nat, x: Bytes, y: Bytes)
    requires At(b, i, x) && At(b, i, y) && |x| <= |y|
    ensures x <= y
  {
    assert y[..|x|] == b[i..i + |y|][..|x|] == b[i..i + |x|];
  }

  lemma SameMessage(b: Bytes, i: nat, x: Bytes, y: Bytes)
    requires At(b, i, x) && At(b, i, y) && !(x < y) && !(y < x)
    ensures x == y
  {
    if |x| <= |y| {
      PrefixAt(b, i, x, y);
    } else {
      PrefixAt(b, i, y, x);
    }
  }

  /** Chains at one place that agree up to part k have both their parts k at one place. */
  lemma {:induction false} BothAt(b: Bytes, l: seq<Bytes>, x: seq<Bytes>, y: seq<Bytes>, k: nat, n: nat)
    requires k < n <= |l| && n == |x| == |y| && At(b, 0, Chain(l, x, n)) && At(b, 0, Chain(l, y, n))
    requires x[..k] == y[..k]
    ensures At(b, Place(l, x, k), x[k]) && At(b, Place(l, x, k), y[k])
    ensures x[k] == y[k] ==> x[..k + 1] == y[..k + 1]
  {
    SameChain(l, x, y, k);
    ChainAt(b, l, x, k, n);
    ChainAt(b, l, y, k, n);
    assert x[..k + 1] == x[..k] + [x[k]] && y[..k + 1] == y[..k] + [y[k]];
  }

  /** Two chains of parts at one place. */
  ghost predicate Together(b: Bytes, l: seq<Bytes>, x: seq<Bytes>, y: seq<Bytes>) {
    |l| == 7 && |x| == |y| == 6 && At(b, 0, Chain(l, x, 6)) && At(b, 0, Chain(l, y, 6))
  }

  lemma {:induction false} MessagePart(b: Bytes, l: seq<Bytes>, x: seq<Bytes>, y: seq<Bytes>)
    requires Together(b, l, x, y) && !(x[0] < y[0]) && !(y[0] < x[0])
    ensures x[0] == y[0] && x[..1] == y[..1]
  {
    BothAt(b, l, x, y, 0, 6);
    SameMessage(b, Place(l, x, 0), x[0], y[0]);
  }

  lemma {:induction false} AgentPart(c: Coder, l: Labels, b: Bytes, x: seq<Bytes>, y: seq<Bytes>, a: Agent,
                                     ks: seq<Bytes>, d: Agent, ls: seq<Bytes>)
    requires Fixed(l) && Together(b, l.payload, x, y) && x[..1] == y[..1] && IsJson(c)
    requires AgentValid(c, a) && AgentValid(c, d) && Enumerates(ks, a.options) && Enumerates(ls, d.options)
    requires x[1] == AgentWith(c, l, a, ks) && y[1] == AgentWith(c, l, d, ls)
    ensures a == d && ks == ls && x[..2] == y[..2]
  {
    BothAt(b, l.payload, x, y, 1, 6);
    SameAgent(c, l, b, Place(l.payload, x, 1), a, ks, d, ls);
  }

  lemma {:induction false} ModelPart(c: Coder, l: Labels, b: Bytes, x: seq<Bytes>, y: seq<Bytes>, s: Selection,
                                     t: Selection)
    requires Fixed(l) && Together(b, l.payload, x, y) && x[..2] == y[..2] && IsJson(c)
    requires SelectionValid(c, s) && SelectionValid(c, t)
    requires x[2] == SelectionWith(c, l, s) && y[2] == SelectionWith(c, l, t)
    ensures s == t && x[..3] == y[..3]
  {
    BothAt(b, l.payload, x, y, 2, 6);
    SameSelection(c, l, b, Place(l.payload, x, 2), s, t);
  }

  lemma {:induction false} ToolsPart(c: Coder, l: Labels, b: Bytes, x: seq<Bytes>, y: seq<Bytes>, s: Tools, t: Tools)
    requires Fixed(l) && Together(b, l.payload, x, y) && x[..3] == y[..3] && IsJson(c)
    requires ToolsValid(c, s) && ToolsValid(c, t)
    requires x[3] == ToolsWith(c, l, s) && y[3] == ToolsWith(c, l, t)
    ensures s == t && x[..4] == y[..4]
  {
    BothAt(b, l.payload, x, y, 3, 6);
    SameTools(c, l, b, Place(l.payload, x, 3), s, t);
  }

  lemma {:induction false} MapPart(c: Coder, l: Labels, b: Bytes, x: seq<Bytes>, y: seq<Bytes>, k: nat,
                                   m: map<Bytes, Bytes>, ks: seq<Bytes>, n: map<Bytes, Bytes>, ls: seq<Bytes>)
    requires k < 6 && Together(b, l.payload, x, y) && x[..k] == y[..k] && IsJson(c) && MapValid(c, m) && MapValid(c, n)
    requires Enumerates(ks, m) && Enumerates(ls, n) && x[k] == EncodeMap(c, m, ks) && y[k] == EncodeMap(c, n, ls)
    ensures m == n && ks == ls && x[..k + 1] == y[..k + 1]
  {
    BothAt(b, l.payload, x, y, k, 6);
    SameMap(c, b, Place(l.payload, x, k), m, ks, n, ls);
  }

  ghost predicate PartsOf(c: Coder, l: Labels, x: seq<Bytes>, p: Payload, o: KeyOrders) {
    && Fixed(l) && OrdersFit(p, o) && |x| == 6 && x[0] == p.message && x[1] == AgentWith(c, l, p.agent, o.options)
    && x[2] == SelectionWith(c, l, p.model) && x[3] == ToolsWith(c, l, p.tools)
    && x[4] == EncodeMap(c, p.configMetadata, o.config) && x[5] == EncodeMap(c, p.requestMetadata, o.request)
  }

  lemma {:induction false} PartsDetermine(c: Coder, l: Labels, b: Bytes, x: seq<Bytes>, y: seq<Bytes>, p: Payload,
                                          o: KeyOrders, q: Payload, u: KeyOrders)
    requires Fixed(l) && Together(b, l.payload, x, y) && IsJson(c) && Canonical(p, o) && Canonical(q, u)
    requires PartsOf(c, l, x, p, o) && PartsOf(c, l, y, q, u) && SectionsValid(c, p) && SectionsValid(c, q)
    requires !(p.message < q.message) && !(q.message < p.message)
    ensures p == q && o == u
  {
    MessagePart(b, l.payload, x, y);
    AgentPart(c, l, b, x, y, p.agent, o.options, q.agent, u.options);
    ModelPart(c, l, b, x, y, p.model, q.model);
    ToolsPart(c, l, b, x, y, p.tools, q.tools);
    MapPart(c, l, b, x, y, 4, p.configMetadata, o.config, q.configMetadata, u.config);
    MapPart(c, l, b, x, y, 5, p.requestMetadata, o.request, q.requestMetadata, u.request);
  }

  lemma PayloadAt(c: Coder, l: Labels, b: Bytes, p: Payload, o: KeyOrders) returns (x: seq<Bytes>)
    requires Fixed(l) && OrdersFit(p, o) && b == PayloadWith(c, l, p, o)
    ensures PartsOf(c, l, x, p, o) && At(b, 0, Chain(l.payload, x, 6))
  {
    x := PayloadParts(c, l, p, o);
    assert b[0..0 + |b|] == b;
    At2(b, 0, Chain(l.payload, x, 6), l.payload[6]);
  }

  // ----- the labels of the payload

  function JsonLabels(): Labels {
    Labels([Lit("{\"provider_id\":"), Lit(",\"model_id\":"), Lit(",\"variant\":"), Lit("}")],
           [Lit("{\"permission\":"), Lit(",\"pattern\":"), Lit(",\"action\":"), Lit("}")],
           [Lit("{\"enabled\":"), Lit(",\"disabled\":"), Lit(",\"permissions\":["), Lit("}")],
           [Lit("{\"name\":"), Lit(",\"system_prompt\":"), Lit(",\"mode\":"), Lit(",\"model\":"),
            Lit(",\"options\":"), Lit("}")],
           [Lit("{\"message\":"), Lit(",\"agent\":"), Lit(",\"model\":"), Lit(",\"tools\":"),
            Lit(",\"config_metadata\":"), Lit(",\"request_metadata\":"), Lit("}")])
  }

  lemma JsonLabelsFixed()
    ensures Fixed(JsonLabels())
  {
  }

  lemma SelectionIs(c: Coder, s: Selection)
    requires Fixed(JsonLabels())
    ensures EncodeSelection(c, s) == SelectionWith(c, JsonLabels(), s)
  {
  }

  lemma RulesAre(c: Coder, rules: seq<Permission>)
    requires Fixed(JsonLabels())
    ensures RuleParts(c, rules) == RulesWith(c, JsonLabels(), rules)
  {
  }

  lemma ToolsAre(c: Coder, t: Tools)
    requires Fixed(JsonLabels())
    ensures EncodeTools(c, t) == ToolsWith(c, JsonLabels(), t)
  {
    RulesAre(c, t.permissions);
    var rules := Joined(RuleParts(c, t.permissions));
    assert Lit("]}") == Lit("]") + Lit("}");
    assert rules + Lit("]") + Lit("}") == rules + (Lit("]") + Lit("}"));
  }

  lemma AgentIs(c: Coder, a: Agent, ks: seq<Bytes>)
    requires Fixed(JsonLabels()) && forall k | k in ks :: k in a.options
    ensures EncodeAgent(c, a, ks) == AgentWith(c, JsonLabels(), a, ks)
  {
    SelectionIs(c, a.model);
  }

  lemma PayloadIs(c: Coder, p: Payload, o: KeyOrders)
    requires Fixed(JsonLabels()) && OrdersFit(p, o)
    ensures Encode(c, p, o) == PayloadWith(c, JsonLabels(), p, o)
  {
    AgentIs(c, p.agent, o.options);
    SelectionIs(c, p.model);
    ToolsAre(c, p.tools);
    SixInChain(JsonLabels().payload, PayloadParts(c, JsonLabels(), p, o));
  }

  /** Valid payloads with one encoding are one payload: nothing of an admission is lost before
      the hash. Message encodings are JSON values, none of which is a proper prefix of another. */
  lemma {:induction false} EncodingDetermines(c: Coder, p: Payload, o: KeyOrders, q: Payload, u: KeyOrders)
    requires IsJson(c) && PayloadValid(c, p) && PayloadValid(c, q) && Canonical(p, o) && Canonical(q, u)
    requires !(p.message < q.message) && !(q.message < p.message) && SameEncoding(c, p, o, q, u)
    ensures p == q && o == u
  {
    var b, l, x, y := BothInParts(c, p, o, q, u);
    ValidPartsDetermine(c, l, b, x, y, p, o, q, u);
  }

  ghost predicate SameEncoding(c: Coder, p: Payload, o: KeyOrders, q: Payload, u: KeyOrders) {
    OrdersFit(p, o) && OrdersFit(q, u) && Encode(c, p, o) == Encode(c, q, u)
  }

  lemma ValidPartsDetermine(c: Coder, l: Labels, b: Bytes, x: seq<Bytes>, y: seq<Bytes>, p: Payload, o: KeyOrders,
                            q: Payload, u: KeyOrders)
    requires Fixed(l) && Together(b, l.payload, x, y) && PartsOf(c, l, x, p, o) && PartsOf(c, l, y, q, u)
    requires IsJson(c) && PayloadValid(c, p) && PayloadValid(c, q) && Canonical(p, o) && Canonical(q, u)
    requires !(p.message < q.message) && !(q.message < p.message)
    ensures p == q && o == u
  {
    FieldsValid(c, p);
    FieldsValid(c, q);
    PartsDetermine(c, l, b, x, y, p, o, q, u);
  }

  lemma BothInParts(c: Coder, p: Payload, o: KeyOrders, q: Payload, u: KeyOrders)
    returns (b: Bytes, l: Labels, x: seq<Bytes>, y: seq<Bytes>)
    requires SameEncoding(c, p, o, q, u)
    ensures Fixed(l) && PartsOf(c, l, x, p, o) && PartsOf(c, l, y, q, u) && Together(b, l.payload, x, y)
  {
    b, l := Encode(c, p, o), JsonLabels();
    JsonLabelsFixed();
    PayloadIs(c, p, o);
    PayloadIs(c, q, u);
    x := PayloadAt(c, l, b, p, o);
    y := PayloadAt(c, l, b, q, u);
  }
}
