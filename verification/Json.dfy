/** UTF-8 (RFC 3629) and JSON strings (section 7 of RFC 8259, with the escapes Go adds for
    HTML and for U+2028 and U+2029), and the byte count that predicts the encoding
    (runtime/admission_fingerprint.go). */
module Json {
  import opened Options

  type Byte = x: int | 0 <= x < 0x100
  type Scalar = x: int | 0 <= x < 0x110000 && !(0xD800 <= x < 0xE000)
  type Bytes = seq<Byte>

  /** The continuation byte for the low six bits. */
  function Low(r: nat): Byte {
    0x80 + r % 0x40
  }

  function Utf8(r: Scalar): (b: Bytes)
    ensures 1 <= |b| <= 4
  {
    if r < 0x80 then [r]
    else if r < 0x800 then [0xC0 + r / 0x40, Low(r)]
    else if r < 0x10000 then [0xE0 + r / 0x40 / 0x40, Low(r / 0x40), Low(r)]
    else [0xF0 + r / 0x40 / 0x40 / 0x40, Low(r / 0x40 / 0x40), Low(r / 0x40), Low(r)]
  }

  function Utf8All(rs: seq<Scalar>): Bytes {
    if rs == [] then [] else Utf8(rs[0]) + Utf8All(rs[1..])
  }

  predicate Continues(v: Bytes, i: nat) {
    i < |v| && 0x80 <= v[i] < 0xC0
  }

  /** hi, followed by the six bits of a continuation byte. */
  function Join(hi: int, b: Byte): int {
    hi * 0x40 + (b - 0x80)
  }

  /** The first code point of v: its value and width, if v begins with a well-formed sequence. */
  function DecodeRune(v: Bytes): (r: Option<(Scalar, nat)>)
    requires v != []
  {
    var c: int := v[0];
    if c < 0x80 then Some((c, 1))
    else if 0xC2 <= c < 0xE0 && Continues(v, 1) then Some((Join(c - 0xC0, v[1]), 2))
    else if 0xE0 <= c < 0xF0 && Continues(v, 1) && Continues(v, 2) then
      var r := Join(Join(c - 0xE0, v[1]), v[2]);
      if r < 0x800 || 0xD800 <= r < 0xE000 then None else Some((r, 3))
    else if 0xF0 <= c < 0xF5 && Continues(v, 1) && Continues(v, 2) && Continues(v, 3) then
      var r := Join(Join(Join(c - 0xF0, v[1]), v[2]), v[3]);
      if r < 0x10000 || r >= 0x110000 then None else Some((r, 4))
    else None
  }

  lemma SplitJoin(r: nat)
    ensures Join(r / 0x40, Low(r)) == r && 0x80 <= Low(r) < 0xC0
  {
  }

  lemma JoinSplit(hi: nat, b: Byte)
    requires 0x80 <= b < 0xC0
    ensures Join(hi, b) >= 0 && Join(hi, b) / 0x40 == hi && Low(Join(hi, b)) == b
  {
    assert (hi * 0x40 + (b - 0x80)) / 0x40 == hi;
    assert (hi * 0x40 + (b - 0x80)) % 0x40 == b - 0x80;
  }

  lemma DecodeOfUtf8(r: Scalar, rest: Bytes)
    ensures DecodeRune(Utf8(r) + rest) == Some((r, |Utf8(r)|))
  {
    var v := Utf8(r) + rest;
    assert v[..|Utf8(r)|] == Utf8(r);
    if r >= 0x80 {
      SplitJoin(r);
      SplitJoin(r / 0x40);
      SplitJoin(r / 0x40 / 0x40);
      if r < 0x800 {
        assert v[0] == 0xC0 + r / 0x40 && v[1] == Low(r);
      } else if r < 0x10000 {
        assert v[0] == 0xE0 + r / 0x40 / 0x40 && v[1] == Low(r / 0x40) && v[2] == Low(r);
      } else {
        assert v[0] == 0xF0 + r / 0x40 / 0x40 / 0x40 && v[1] == Low(r / 0x40 / 0x40) && v[2] == Low(r / 0x40)
                 && v[3] == Low(r);
      }
    }
  }

  lemma Utf8OfDecode(v: Bytes)
    requires v != [] && DecodeRune(v).Some?
    ensures var (r, w) := DecodeRune(v).value; w <= |v| && v[..w] == Utf8(r)
  {
    var c: int := v[0];
    if c < 0x80 {
    } else if c < 0xE0 {
      JoinSplit(c - 0xC0, v[1]);
      assert v[..2] == [v[0], v[1]];
    } else if c < 0xF0 {
      JoinSplit(c - 0xE0, v[1]);
      JoinSplit(Join(c - 0xE0, v[1]), v[2]);
      assert v[..3] == [v[0], v[1], v[2]];
    } else {
      JoinSplit(c - 0xF0, v[1]);
      JoinSplit(Join(c - 0xF0, v[1]), v[2]);
      JoinSplit(Join(Join(c - 0xF0, v[1]), v[2]), v[3]);
      assert v[..4] == [v[0], v[1], v[2], v[3]];
    }
  }

  /** All code points of v, if v is well-formed throughout. */
  function Runes(v: Bytes): (rs: Option<seq<Scalar>>)
  {
    if v == [] then Some([])
    else
      var d := DecodeRune(v);
      if d.None? then None
      else
        Utf8OfDecode(v);
        var rest := Runes(v[d.value.1..]);
        if rest.None? then None else Some([d.value.0] + rest.value)
  }

  predicate ValidString(v: Bytes) {
    Runes(v).Some?
  }

  lemma {:induction false} RunesOfUtf8(rs: seq<Scalar>)
    ensures Runes(Utf8All(rs)) == Some(rs)
  {
    if rs != [] {
      var v := Utf8All(rs);
      DecodeOfUtf8(rs[0], Utf8All(rs[1..]));
      assert v[|Utf8(rs[0])|..] == Utf8All(rs[1..]);
      RunesOfUtf8(rs[1..]);
      assert [rs[0]] + rs[1..] == rs;
    }
  }

  lemma {:induction false} Utf8OfRunes(v: Bytes)
    requires ValidString(v)
    ensures Utf8All(Runes(v).value) == v
  {
    if v != [] {
      var d := DecodeRune(v).value;
      Utf8OfDecode(v);
      Utf8OfRunes(v[d.1..]);
      assert Runes(v).value[1..] == Runes(v[d.1..]).value;
      assert v == v[..d.1] + v[d.1..];
    }
  }

  /** A byte string is valid exactly when it is the UTF-8 form of some code points. */
  lemma ValidIffUtf8(v: Bytes)
    ensures ValidString(v) <==> exists rs :: Utf8All(rs) == v
  {
    if ValidString(v) {
      Utf8OfRunes(v);
    } else if rs :| Utf8All(rs) == v {
      RunesOfUtf8(rs);
    }
  }

  // ----- JSON strings

  /** The bytes of an ASCII literal. */
  function Lit(s: string): (b: Bytes)
    ensures |b| == |s|
  {
    seq(|s|, i requires 0 <= i < |s| => s[i] as int % 0x100)
  }

  function HexDigit(d: nat): Byte
    requires d < 16
  {
    if d < 10 then '0' as int + d else 'a' as int + d - 10
  }

  const QUOTATION: Byte := 0x22
  const BACKSLASH: Byte := 0x5C

  /** The short escapes: the letter that follows the backslash. */
  function ShortEscape(r: Scalar): Option<Byte> {
    if r == QUOTATION || r == BACKSLASH then Some(r)
    else if r == 0x08 then Some('b' as int)
    else if r == 0x0C then Some('f' as int)
    else if r == 0x0A then Some('n' as int)
    else if r == 0x0D then Some('r' as int)
    else if r == 0x09 then Some('t' as int)
    else None
  }

  predicate NeedsUnicodeEscape(r: Scalar) {
    r < 0x20 || r == '<' as int || r == '>' as int || r == '&' as int || r == 0x2028 || r == 0x2029
  }

  function Escape(r: Scalar): Bytes {
    if ShortEscape(r).Some? then [BACKSLASH, ShortEscape(r).value]
    else if NeedsUnicodeEscape(r) then
      [BACKSLASH, 'u' as int, HexDigit(r / 0x1000), HexDigit(r / 0x100 % 0x10), HexDigit(r / 0x10 % 0x10),
          HexDigit(r % 0x10)]
    else Utf8(r)
  }

  function EscapeAll(rs: seq<Scalar>): Bytes {
    if rs == [] then [] else Escape(rs[0]) + EscapeAll(rs[1..])
  }

  /** A JSON string literal. */
  function Quote(v: Bytes): Bytes
    requires ValidString(v)
  {
    [QUOTATION] + EscapeAll(Runes(v).value) + [QUOTATION]
  }

  /** What one code point adds to the count. */
  lemma EscapeSize(r: Scalar)
    ensures |Escape(r)| == Size(r, |Utf8(r)|)
  {
  }

  /** The first code point, seen from the bytes, and what remains. */
  lemma FirstRune(v: Bytes)
    requires v != [] && ValidString(v)
    ensures DecodeRune(v).Some?
    ensures var (r, w) := DecodeRune(v).value;
            && 1 <= w == |Utf8(r)| <= |v| && ValidString(v[w..])
            && |EscapeAll(Runes(v).value)| == |Escape(r)| + |EscapeAll(Runes(v[w..]).value)|
            && if v[0] < 0x80 then r == v[0] && w == 1 else r >= 0x80
  {
    Utf8OfDecode(v);
    var (r, w) := DecodeRune(v).value;
    assert Runes(v).value[1..] == Runes(v[w..]).value;
    assert v[0] == Utf8(r)[0];
  }

  /** What one code point of the string adds to the count, seen from the bytes. */
  lemma FirstRuneAt(v: Bytes, index: nat)
    requires index < |v| && ValidString(v[index..])
    ensures DecodeRune(v[index..]).Some?
    ensures var (r, w) := DecodeRune(v[index..]).value;
            && 1 <= w && index + w <= |v| && ValidString(v[index + w..])
            && |EscapeAll(Runes(v[index..]).value)| == |EscapeAll(Runes(v[index + w..]).value)| + Size(r, w)
            && if v[index] < 0x80 then r == v[index] && w == 1 else r >= 0x80
  {
    FirstRune(v[index..]);
    var (r, w) := DecodeRune(v[index..]).value;
    EscapeSize(r);
    assert v[index..][w..] == v[index + w..];
  }

  function Size(r: Scalar, width: nat): nat {
    if r in {'\\' as int, '"' as int, 0x08, 0x0C, 0x0A, 0x0D, 0x09} then 2
    else if r in {'<' as int, '>' as int, '&' as int, 0x2028, 0x2029} || r < 0x20 then 6
    else width
  }

  /** The switch on a single byte. */
  method AsciiSize(c: Byte) returns (n: nat)
    requires c < 0x80
    ensures n == Size(c, 1)
  {
    if c in {'\\' as int, '"' as int, 0x08, 0x0C, 0x0A, 0x0D, 0x09} {
      n := 2;
    } else if c in {'<' as int, '>' as int, '&' as int} {
      n := 6;
    } else if c < 0x20 {
      n := 6;
    } else {
      n := 1;
    }
  }

  lemma WideSize(r: Scalar, width: nat)
    requires r >= 0x80
    ensures Size(r, width) == if r == 0x2028 || r == 0x2029 then 6 else width
  {
  }

  /** encodedJSONStringBytes: exactly the length of the literal, for exactly the valid strings. */
  method EncodedJSONStringBytes(v: Bytes) returns (size: nat, valid: bool)
    ensures valid <==> ValidString(v)
    ensures valid ==> size == |Quote(v)|
  {
    if !ValidString(v) {
      return 0, false;
    }
    size := 2;
    var index := 0;
    while index < |v|
      invariant index <= |v| && ValidString(v[index..])
      invariant size + |EscapeAll(Runes(v[index..]).value)| == |Quote(v)|
    {
      var c := v[index];
      FirstRuneAt(v, index);
      if c < 0x80 {
        index := index + 1;
        var n := AsciiSize(c);
        size := size + n;
      } else {
        var (r, width) := DecodeRune(v[index..]).value;
        WideSize(r, width);
        if r == 0x2028 || r == 0x2029 {
          size := size + 6;
        } else {
          size := size + width;
        }
        index := index + width;
      }
    }
    valid := true;
  }
}
