/** Hexadecimal and base64 text, as Go's encoding/hex and base64.StdEncoding read and write it. */
module Encodings {
  import opened Bytes

  // Hexadecimal.

  function HexDigit(n: nat): char
    requires n < 16
  {
    if n < 10 then ('0' as int + n) as char else ('a' as int + n - 10) as char
  }

  /** Both cases are read, only lower case is written. */
  function HexValue(c: char): Option<nat> {
    if '0' <= c <= '9' then Some(c as int - '0' as int)
    else if 'a' <= c <= 'f' then Some(c as int - 'a' as int + 10)
    else if 'A' <= c <= 'F' then Some(c as int - 'A' as int + 10)
    else None
  }

  predicate IsLowerHex(c: char) {
    '0' <= c <= '9' || 'a' <= c <= 'f'
  }

  function HexEncode(s: Bytes): (t: string)
    ensures |t| == 2 * |s|
    ensures forall i :: 0 <= i < |t| ==> IsLowerHex(t[i])
  {
    if s == [] then "" else [HexDigit(s[0] / 16), HexDigit(s[0] % 16)] + HexEncode(s[1..])
  }

  function HexDecode(t: string): Option<Bytes> {
    if t == "" then Some([])
    else if |t| == 1 then None
    else
      match (HexValue(t[0]), HexValue(t[1]), HexDecode(t[2..]))
      case (Some(a), Some(b), Some(rest)) => if a < 16 && b < 16 then Some([16 * a + b] + rest) else None
      case _ => None
  }

  lemma {:induction false} HexRoundTrip(s: Bytes)
    ensures HexDecode(HexEncode(s)) == Some(s)
  {
    if s != [] {
      HexRoundTrip(s[1..]);
      assert HexEncode(s)[2..] == HexEncode(s[1..]);
      assert s == [s[0]] + s[1..];
    }
  }

  /** Two digits for each byte, the high one first. */
  lemma {:induction false} HexPlaces(s: Bytes, i: nat)
    requires i < |s|
    ensures HexEncode(s)[2 * i] == HexDigit(s[i] / 16) && HexEncode(s)[2 * i + 1] == HexDigit(s[i] % 16)
  {
    if i > 0 {
      HexPlaces(s[1..], i - 1);
      assert HexEncode(s)[2..] == HexEncode(s[1..]);
      assert HexEncode(s)[2 * i] == HexEncode(s)[2..][2 * (i - 1)];
      assert HexEncode(s)[2 * i + 1] == HexEncode(s)[2..][2 * (i - 1) + 1];
    }
  }

  predicate IsHex(c: char) {
    IsLowerHex(c) || 'A' <= c <= 'F'
  }

  /** Exactly which texts are read: digits of either case, in pairs. */
  lemma {:induction false} HexDecodeAccepts(t: string)
    ensures HexDecode(t).Some? <==> |t| % 2 == 0 && forall i :: 0 <= i < |t| ==> IsHex(t[i])
    decreases |t|
  {
    if |t| >= 2 {
      HexDecodeAccepts(t[2..]);
      assert forall i :: 2 <= i < |t| ==> t[i] == t[2..][i - 2];
    }
  }

  // Base64 (section 4 of RFC 4648).

  function Char64(v: nat): char
    requires v < 64
  {
    if v < 26 then ('A' as int + v) as char
    else if v < 52 then ('a' as int + v - 26) as char
    else if v < 62 then ('0' as int + v - 52) as char
    else if v == 62 then '+' else '/'
  }

  function Value64(c: char): (v: Option<nat>)
    ensures v.Some? ==> v.value < 64
  {
    if 'A' <= c <= 'Z' then Some(c as int - 'A' as int)
    else if 'a' <= c <= 'z' then Some(c as int - 'a' as int + 26)
    else if '0' <= c <= '9' then Some(c as int - '0' as int + 52)
    else if c == '+' then Some(62)
    else if c == '/' then Some(63)
    else None
  }

  predicate IsBase64(c: char) {
    Value64(c).Some? || c == '='
  }

  lemma Value64OfChar(v: nat)
    requires v < 64
    ensures Value64(Char64(v)) == Some(v)
  {
  }

  /** The four characters for up to three bytes. */
  function Quad(a: Byte, b: Byte, c: Byte): string {
    [Char64(a / 4), Char64(a % 4 * 16 + b / 16), Char64(b % 16 * 4 + c / 64), Char64(c % 64)]
  }

  lemma QuadValues(a: Byte, b: Byte, c: Byte)
    ensures var q := Quad(a, b, c);
            && Value64(q[0]) == Some(a / 4) && Value64(q[1]) == Some(a % 4 * 16 + b / 16)
            && Value64(q[2]) == Some(b % 16 * 4 + c / 64) && Value64(q[3]) == Some(c % 64)
  {
    Value64OfChar(a / 4);
    Value64OfChar(a % 4 * 16 + b / 16);
    Value64OfChar(b % 16 * 4 + c / 64);
    Value64OfChar(c % 64);
  }

  lemma QuadIsBase64(a: Byte, b: Byte, c: Byte)
    ensures forall i :: 0 <= i < 4 ==> IsBase64(Quad(a, b, c)[i])
  {
    QuadValues(a, b, c);
  }

  function Base64Encode(s: Bytes): (t: string)
    ensures forall i :: 0 <= i < |t| ==> IsBase64(t[i])
  {
    QuadIsBase64(if s != [] then s[0] else 0, if |s| > 1 then s[1] else 0, if |s| > 2 then s[2] else 0);
    if s == [] then ""
    else if |s| == 1 then Quad(s[0], 0, 0)[..2] + "=="
    else if |s| == 2 then Quad(s[0], s[1], 0)[..3] + "="
    else Quad(s[0], s[1], s[2]) + Base64Encode(s[3..])
  }

  function Byte0(v: nat, w: nat): Byte
    requires v < 64 && w < 64
  {
    v * 4 + w / 16
  }

  function Byte1(v: nat, w: nat): Byte
    requires v < 64 && w < 64
  {
    v % 16 * 16 + w / 4
  }

  function Byte2(v: nat, w: nat): Byte
    requires v < 64 && w < 64
  {
    v % 4 * 64 + w
  }

  /** Padding ends the text; unused low bits in front of it are ignored. */
  function DecodeQuads(t: string): Option<Bytes>
    decreases |t|
  {
    if t == "" then Some([])
    else if |t| < 4 then None
    else
      match (Value64(t[0]), Value64(t[1]), Value64(t[2]), Value64(t[3]))
      case (Some(a), Some(b), Some(c), Some(d)) =>
        (match DecodeQuads(t[4..])
         case None => None
         case Some(rest) => Some([Byte0(a, b), Byte1(b, c), Byte2(c, d)] + rest))
      case (Some(a), Some(b), Some(c), None) => if t[3..] == "=" then Some([Byte0(a, b), Byte1(b, c)]) else None
      case (Some(a), Some(b), None, None) => if t[2..] == "==" then Some([Byte0(a, b)]) else None
      case _ => None
  }

  function WithoutNewlines(t: string): string {
    if t == "" then ""
    else (if t[0] == '\r' || t[0] == '\n' then "" else [t[0]]) + WithoutNewlines(t[1..])
  }

  /** Line breaks inside the text are skipped. */
  function Base64Decode(t: string): Option<Bytes> {
    DecodeQuads(WithoutNewlines(t))
  }

  lemma QuadBytes(a: Byte, b: Byte, c: Byte)
    ensures Byte0(a / 4, a % 4 * 16 + b / 16) == a
    ensures Byte1(a % 4 * 16 + b / 16, b % 16 * 4 + c / 64) == b
    ensures Byte2(b % 16 * 4 + c / 64, c % 64) == c
  {
    assert (a % 4 * 16 + b / 16) / 16 == a % 4 && (a % 4 * 16 + b / 16) % 16 == b / 16;
    assert (b % 16 * 4 + c / 64) / 4 == b % 16 && (b % 16 * 4 + c / 64) % 4 == c / 64;
  }

  lemma OneByte(a: Byte)
    ensures DecodeQuads(Quad(a, 0, 0)[..2] + "==") == Some([a])
  {
    var t := Quad(a, 0, 0)[..2] + "==";
    QuadValues(a, 0, 0);
    QuadBytes(a, 0, 0);
    assert t[2..] == "==";
  }

  lemma TwoBytes(a: Byte, b: Byte)
    ensures DecodeQuads(Quad(a, b, 0)[..3] + "=") == Some([a, b])
  {
    var q := Quad(a, b, 0);
    var t := q[..3] + "=";
    QuadValues(a, b, 0);
    QuadBytes(a, b, 0);
    assert t[0] == q[0] && t[1] == q[1] && t[2] == q[2] && t[3..] == "=";
    assert Value64(t[3]) == None;
  }

  lemma ThreeBytes(a: Byte, b: Byte, c: Byte, rest: string, tail: Bytes)
    requires DecodeQuads(rest) == Some(tail)
    ensures DecodeQuads(Quad(a, b, c) + rest) == Some([a, b, c] + tail)
  {
    QuadValues(a, b, c);
    QuadBytes(a, b, c);
    assert (Quad(a, b, c) + rest)[4..] == rest;
  }

  lemma LastBytes(s: Bytes)
    requires |s| == 1 || |s| == 2
    ensures DecodeQuads(Base64Encode(s)) == Some(s)
  {
    if |s| == 1 {
      OneByte(s[0]);
      assert s == [s[0]];
    } else {
      TwoBytes(s[0], s[1]);
      assert s == [s[0], s[1]];
    }
  }

  lemma ThreeAndRest(s: Bytes)
    requires |s| >= 3
    ensures s == [s[0], s[1], s[2]] + s[3..]
  {
  }

  lemma FirstBytes(s: Bytes)
    requires |s| >= 3 && DecodeQuads(Base64Encode(s[3..])) == Some(s[3..])
    ensures DecodeQuads(Base64Encode(s)) == Some(s)
  {
    ThreeBytes(s[0], s[1], s[2], Base64Encode(s[3..]), s[3..]);
    ThreeAndRest(s);
  }

  lemma {:induction false} QuadsRoundTrip(s: Bytes)
    ensures DecodeQuads(Base64Encode(s)) == Some(s)
    decreases |s|
  {
    if |s| == 1 || |s| == 2 {
      LastBytes(s);
    } else if s != [] {
      QuadsRoundTrip(s[3..]);
      FirstBytes(s);
    }
  }

  lemma {:induction false} NothingToSkip(t: string)
    requires forall i :: 0 <= i < |t| ==> IsBase64(t[i])
    ensures WithoutNewlines(t) == t
  {
    if t != "" {
      NothingToSkip(t[1..]);
      assert t == [t[0]] + t[1..];
    }
  }

  lemma HasOnlyBase64(t: string)
    requires forall i :: 0 <= i < |t| ==> IsBase64(t[i])
    ensures ':' !in t && '\n' !in t
  {
    assert !IsBase64(':') && !IsBase64('\n');
  }

  lemma Base64RoundTrip(s: Bytes)
    ensures Base64Decode(Base64Encode(s)) == Some(s)
    ensures ':' !in Base64Encode(s) && '\n' !in Base64Encode(s)
  {
    QuadsRoundTrip(s);
    NothingToSkip(Base64Encode(s));
    HasOnlyBase64(Base64Encode(s));
  }

  /** Bits that belong to no byte are not looked at. */
  lemma LooseBitsAreIgnored(v: nat, w: nat)
    requires v < 64 && w < 64
    ensures DecodeQuads([Char64(v), Char64(w)] + "==") == Some([4 * v + w / 16])
  {
    Value64OfChar(v);
    Value64OfChar(w);
    var t := [Char64(v), Char64(w)] + "==";
    assert t[2..] == "==" && Value64(t[2]) == None && Value64(t[3]) == None;
  }

  /** The examples of section 10 of RFC 4648. */
  lemma Base64Examples()
    ensures Base64Encode([]) == ""
    ensures Base64Encode([0x66]) == "Zg=="
    ensures Base64Encode([0x66, 0x6f]) == "Zm8="
    ensures Base64Encode([0x66, 0x6f, 0x6f]) == "Zm9v"
  {
    var foo: Bytes := [0x66, 0x6f, 0x6f];
    assert foo[3..] == [];
    assert Quad(0x66, 0x6f, 0x6f) == "Zm9v";
    assert Quad(0x66, 0x6f, 0)[..3] + "=" == "Zm8=";
    assert Quad(0x66, 0, 0)[..2] + "==" == "Zg==";
  }

  lemma {:induction false} WithoutNewlinesAppend(a: string, b: string)
    ensures WithoutNewlines(a + b) == WithoutNewlines(a) + WithoutNewlines(b)
  {
    if a == "" {
      assert a + b == b;
    } else {
      WithoutNewlinesAppend(a[1..], b);
      assert (a + b)[1..] == a[1..] + b;
      Concatenation(if a[0] == '\r' || a[0] == '\n' then "" else [a[0]], WithoutNewlines(a[1..]), WithoutNewlines(b));
    }
  }

  lemma SkippedBetween(a: string, skipped: string, b: string)
    requires WithoutNewlines(skipped) == ""
    ensures Base64Decode(a + skipped + b) == Base64Decode(a + b)
  {
    WithoutNewlinesAppend(a, b);
    WithoutNewlinesAppend(a, skipped);
    WithoutNewlinesAppend(a + skipped, b);
    assert WithoutNewlines(a) + "" == WithoutNewlines(a);
  }

  /** A line break anywhere in the text makes no difference. */
  lemma LineBreaksAreSkipped(a: string, b: string)
    ensures Base64Decode(a + "\n" + b) == Base64Decode(a + b)
    ensures Base64Decode(a + "\r\n" + b) == Base64Decode(a + b)
  {
    assert "\n"[1..] == "" && "\r\n"[1..] == "\n";
    assert WithoutNewlines("\n") == "";
    SkippedBetween(a, "\n", b);
    SkippedBetween(a, "\r\n", b);
  }
}
