/**
 * googletest's UTF-8 validator and encoder against the definition of UTF-8 in sections 3 and 4 of
 * RFC 3629.  Bit patterns are numbers: keeping the n lowest bits is the remainder by 2^n, shifting
 * right the quotient, and OR-ing a marker into bits it does not share is a sum.
 */
module Utf8 {

  type Byte = b: int | 0 <= b < 256

  // ---------- the definition ----------

  predicate IsScalar(c: int) { 0 <= c <= 0x10FFFF && !(0xD800 <= c <= 0xDFFF) }

  /** The byte pattern for a number of up to 21 bits. */
  function Encode(c: int): (r: seq<Byte>)
    requires 0 <= c < 0x200000
    ensures 1 <= |r| <= 4
  {
    if c < 0x80 then [c]
    else if c < 0x800 then [0xC0 + c / 64, 0x80 + c % 64]
    else if c < 0x10000 then [0xE0 + c / 4096, 0x80 + c / 64 % 64, 0x80 + c % 64]
    else [0xF0 + c / 262144, 0x80 + c / 4096 % 64, 0x80 + c / 64 % 64, 0x80 + c % 64]
  }

  predicate AllScalars(cs: seq<int>) { forall i :: 0 <= i < |cs| ==> IsScalar(cs[i]) }

  function EncodeAll(cs: seq<int>): seq<Byte>
    requires AllScalars(cs)
  {
    if cs == [] then [] else Encode(cs[0]) + EncodeAll(cs[1..])
  }

  /** UTF-8 text: the encodings of some Unicode scalar values, one after the other. */
  ghost predicate IsText(s: seq<Byte>) {
    exists cs :: AllScalars(cs) && EncodeAll(cs) == s
  }

  // ---------- one character ----------

  predicate IsUTF8TrailByte(t: Byte) { 0x80 <= t <= 0xbf }

  /** The length of the character the text starts with, 0 if it starts with none. */
  function CharLength(s: seq<Byte>): nat
    requires s != []
  {
    var lead := s[0];
    if lead <= 0x7f then 1
    else if lead < 0xc2 then 0
    else if lead <= 0xdf && |s| >= 2 && IsUTF8TrailByte(s[1]) then 2
    else if 0xe0 <= lead <= 0xef && |s| >= 3 && IsUTF8TrailByte(s[1]) && IsUTF8TrailByte(s[2])
            && (lead != 0xe0 || s[1] >= 0xa0) && (lead != 0xed || s[1] < 0xa0) then 3
    else if 0xf0 <= lead <= 0xf4 && |s| >= 4 && IsUTF8TrailByte(s[1]) && IsUTF8TrailByte(s[2]) && IsUTF8TrailByte(s[3])
            && (lead != 0xf0 || s[1] >= 0x90) && (lead != 0xf4 || s[1] < 0x90) then 4
    else 0
  }

  /** A number put together from base-64 digits gives them back. */
  lemma Digits(a: int, b: int, d: int, e: int)
    requires 0 <= a && 0 <= b < 64 && 0 <= d < 64 && 0 <= e < 64
    ensures var c := a * 262144 + b * 4096 + d * 64 + e;
            c / 262144 == a && c / 4096 == a * 64 + b && c / 64 == a * 4096 + b * 64 + d
            && c / 4096 % 64 == b && c / 64 % 64 == d && c % 64 == e
  {
    var c := a * 262144 + b * 4096 + d * 64 + e;
    var q := a * 4096 + b * 64 + d;
    assert c == q * 64 + e;
    assert c / 64 == q && c % 64 == e;
    var p := a * 64 + b;
    assert q == p * 64 + d;
    assert c / 4096 == p && q / 64 == p && q % 64 == d;
    assert p / 64 == a && p % 64 == b;
  }

  /** What the byte tests accept is the encoding of a scalar value. */
  lemma AcceptedIsScalar(s: seq<Byte>) returns (c: int)
    requires s != [] && CharLength(s) > 0
    ensures CharLength(s) <= |s| && IsScalar(c) && Encode(c) == s[..CharLength(s)]
  {
    var n := CharLength(s);
    if n == 1 {
      c := s[0];
    } else if n == 2 {
      c := Accepted2(s[0], s[1]);
      assert s[..2] == [s[0], s[1]];
    } else if n == 3 {
      c := Accepted3(s[0], s[1], s[2]);
      assert s[..3] == [s[0], s[1], s[2]];
    } else {
      c := Accepted4(s[0], s[1], s[2], s[3]);
      assert s[..4] == [s[0], s[1], s[2], s[3]];
    }
  }

  lemma Accepted2(a: Byte, b: Byte) returns (c: int)
    requires 0xc2 <= a <= 0xdf && IsUTF8TrailByte(b)
    ensures IsScalar(c) && Encode(c) == [a, b]
  {
    var a', b' := (a as int) - 0xC0, (b as int) - 0x80;
    c := a' * 64 + b';
    Digits(0, 0, a', b');
  }

  lemma Accepted3(a: Byte, b: Byte, d: Byte) returns (c: int)
    requires 0xe0 <= a <= 0xef && IsUTF8TrailByte(b) && IsUTF8TrailByte(d)
    requires (a != 0xe0 || b >= 0xa0) && (a != 0xed || b < 0xa0)
    ensures IsScalar(c) && Encode(c) == [a, b, d]
  {
    var a', b', d' := (a as int) - 0xE0, (b as int) - 0x80, (d as int) - 0x80;
    c := a' * 4096 + b' * 64 + d';
    Digits(0, a', b', d');
  }

  lemma Accepted4(a: Byte, b: Byte, d: Byte, e: Byte) returns (c: int)
    requires 0xf0 <= a <= 0xf4 && IsUTF8TrailByte(b) && IsUTF8TrailByte(d) && IsUTF8TrailByte(e)
    requires (a != 0xf0 || b >= 0x90) && (a != 0xf4 || b < 0x90)
    ensures IsScalar(c) && Encode(c) == [a, b, d, e]
  {
    var a', b', d', e' := (a as int) - 0xF0, (b as int) - 0x80, (d as int) - 0x80, (e as int) - 0x80;
    c := a' * 262144 + b' * 4096 + d' * 64 + e';
    Digits(a', b', d', e');
  }

  /** A number's pattern passes the byte tests exactly when it is a scalar value. */
  lemma ScalarIsAccepted(c: int, rest: seq<Byte>)
    requires 0 <= c < 0x200000
    ensures CharLength(Encode(c) + rest) == if IsScalar(c) then |Encode(c)| else 0
  {
    if c < 0x800 {
      AcceptsTwo(c, rest);
    } else if c < 0x10000 {
      AcceptsThree(c, rest);
    } else {
      AcceptsFour(c, rest);
    }
  }

  lemma AcceptsTwo(c: int, rest: seq<Byte>)
    requires 0 <= c < 0x800
    ensures CharLength(Encode(c) + rest) == |Encode(c)|
  {
    var s := Encode(c) + rest;
    assert s[0] == Encode(c)[0];
    if c >= 0x80 { assert s[1] == Encode(c)[1]; }
  }

  lemma AcceptsThree(c: int, rest: seq<Byte>)
    requires 0x800 <= c < 0x10000
    ensures CharLength(Encode(c) + rest) == if IsScalar(c) then 3 else 0
  {
    var s := Encode(c) + rest;
    var q := c / 64;
    assert s[0] == 0xE0 + q / 64 && s[1] == 0x80 + q % 64 && s[2] == 0x80 + c % 64 && |s| >= 3;
    assert !(s[0] == 0xe0 && s[1] < 0xa0);
    assert 0xD800 / 64 <= q <= 0xDFFF / 64 <==> s[0] == 0xed && s[1] >= 0xa0;
  }

  lemma AcceptsFour(c: int, rest: seq<Byte>)
    requires 0x10000 <= c < 0x200000
    ensures CharLength(Encode(c) + rest) == if IsScalar(c) then 4 else 0
  {
    var s := Encode(c) + rest;
    var q := c / 4096;
    assert s[0] == 0xF0 + q / 64 && s[1] == 0x80 + q % 64 && |s| >= 4;
    assert s[2] == 0x80 + c / 64 % 64 && s[3] == 0x80 + c % 64;
    assert !(s[0] == 0xf0 && s[1] < 0x90);
    assert q <= 0x10F <==> s[0] < 0xf4 || (s[0] == 0xf4 && s[1] < 0x90);
  }

  /** A text is a character and a text. */
  lemma TextSplits(s: seq<Byte>)
    requires s != []
    ensures IsText(s) <==> CharLength(s) > 0 && CharLength(s) <= |s| && IsText(s[CharLength(s)..])
  {
    if IsText(s) {
      var cs :| AllScalars(cs) && EncodeAll(cs) == s;
      ScalarIsAccepted(cs[0], EncodeAll(cs[1..]));
      assert s[|Encode(cs[0])|..] == EncodeAll(cs[1..]);
    }
    if CharLength(s) > 0 && CharLength(s) <= |s| && IsText(s[CharLength(s)..]) {
      var c := AcceptedIsScalar(s);
      var cs :| AllScalars(cs) && EncodeAll(cs) == s[CharLength(s)..];
      assert ([c] + cs)[1..] == cs;
      assert EncodeAll([c] + cs) == s;
    }
  }

  // ---------- the validator ----------

  method IsValidUTF8(s: seq<Byte>) returns (r: bool)
    ensures r <==> IsText(s)
  {
    var length := |s|;
    var i := 0;
    assert s[0..] == s;
    while i < length
      invariant 0 <= i <= length
      invariant IsText(s) <==> IsText(s[i..])
    {
      TextSplits(s[i..]);
      ghost var start := i;
      var lead := s[i];
      i := i + 1;
      if lead <= 0x7f {
        assert s[start..][1..] == s[i..];
        continue;
      }
      if lead < 0xc2 {
        return false;
      } else if lead <= 0xdf && i + 1 <= length && IsUTF8TrailByte(s[i]) {
        i := i + 1;
      } else if 0xe0 <= lead && lead <= 0xef && i + 2 <= length &&
                IsUTF8TrailByte(s[i]) && IsUTF8TrailByte(s[i + 1]) &&
                (lead != 0xe0 || s[i] >= 0xa0) && (lead != 0xed || s[i] < 0xa0) {
        i := i + 2;
      } else if 0xf0 <= lead && lead <= 0xf4 && i + 3 <= length &&
                IsUTF8TrailByte(s[i]) && IsUTF8TrailByte(s[i + 1]) && IsUTF8TrailByte(s[i + 2]) &&
                (lead != 0xf0 || s[i] >= 0x90) && (lead != 0xf4 || s[i] < 0x90) {
        i := i + 3;
      } else {
        return false;
      }
      assert s[start..][CharLength(s[start..])..] == s[i..];
    }
    assert IsText([]) by { assert EncodeAll([]) == []; }
    return true;
  }

  // ---------- the encoder ----------

  const MAX_CODE_POINT_1 := 0x7F
  const MAX_CODE_POINT_2 := 0x7FF
  const MAX_CODE_POINT_3 := 0xFFFF
  const MAX_CODE_POINT_4 := 0x1FFFFF

  function Pow2(n: nat): int { if n == 0 then 1 else 2 * Pow2(n - 1) }

  /** Splits a bit pattern into its n lowest bits and what is left after shifting them out. */
  method ChopLowBits(bits: nat, n: nat) returns (low: nat, rest: nat)
    ensures low < Pow2(n) && bits == rest * Pow2(n) + low
  {
    Pow2Positive(n);
    low, rest := DivMod(bits, Pow2(n));
  }

  method DivMod(bits: nat, unit: int) returns (low: nat, rest: nat)
    requires unit > 0
    ensures low < unit && bits == rest * unit + low
  {
    low := bits % unit;
    rest := bits / unit;
    assert bits == unit * rest + low;
  }

  lemma {:induction false} Pow2Positive(n: nat)
    ensures Pow2(n) > 0
  {
    if n > 0 { Pow2Positive(n - 1); }
  }

  function HexDigit(d: int): Byte
    requires 0 <= d < 16
  {
    if d < 10 then 0x30 + d else 0x41 + d - 10
  }

  function FormatHex(value: nat): (r: seq<Byte>)
    ensures forall i :: 0 <= i < |r| ==> 0 < r[i] < 0x80
  {
    (if value < 16 then [] else FormatHex(value / 16)) + [HexDigit(value % 16)]
  }

  /** What a string of upper-case hexadecimal digits stands for. */
  predicate IsHex(s: seq<Byte>) { forall i :: 0 <= i < |s| ==> 0x30 <= s[i] <= 0x39 || 0x41 <= s[i] <= 0x46 }

  function HexValue(s: seq<Byte>): nat
    requires IsHex(s)
  {
    if s == [] then 0
    else
      var d := s[|s| - 1];
      HexValue(s[..|s| - 1]) * 16 + if d <= 0x39 then d - 0x30 else d - 0x37
  }

  lemma OneMoreDigit(front: seq<Byte>, d: int)
    requires IsHex(front) && 0 <= d < 16
    ensures IsHex(front + [HexDigit(d)]) && HexValue(front + [HexDigit(d)]) == HexValue(front) * 16 + d
  {
    assert (front + [HexDigit(d)])[..|front|] == front;
  }

  /** The digits stand for the number, without a leading zero. */
  lemma {:induction false} HexRoundTrip(value: nat)
    ensures IsHex(FormatHex(value)) && HexValue(FormatHex(value)) == value
    ensures FormatHex(value) != [] && (value > 0 ==> FormatHex(value)[0] != 0x30)
  {
    if value < 16 {
      OneMoreDigit([], value);
      assert [] + [HexDigit(value)] == FormatHex(value);
    } else {
      HexRoundTrip(value / 16);
      OneMoreDigit(FormatHex(value / 16), value % 16);
    }
  }

  /** "(Invalid Unicode 0x", the number in hexadecimal, ")". */
  function InvalidMessage(codePoint: nat): (r: seq<Byte>)
    ensures forall i :: 0 <= i < |r| ==> 0 < r[i] < 0x80
  {
    [0x28, 0x49, 0x6E, 0x76, 0x61, 0x6C, 0x69, 0x64, 0x20, 0x55, 0x6E, 0x69, 0x63, 0x6F, 0x64, 0x65, 0x20, 0x30, 0x78]
    + FormatHex(codePoint) + [0x29]
  }

  /** The C string in a buffer: the bytes before the first zero. */
  function CString(s: seq<Byte>): seq<Byte> {
    if s == [] || s[0] == 0 then [] else [s[0]] + CString(s[1..])
  }

  lemma {:induction false} CStringIs(s: seq<Byte>, n: nat)
    requires n < |s| && s[n] == 0 && forall i :: 0 <= i < n ==> s[i] != 0
    ensures CString(s) == s[..n]
  {
    if n > 0 {
      CStringIs(s[1..], n - 1);
      assert s[..n] == [s[0]] + s[1..][..n - 1];
    }
  }

  /** For every 32-bit number: nothing for 0, the byte pattern up to 21 bits, a message above. */
  method CodePointToUtf8(codePoint: nat) returns (r: seq<Byte>)
    requires codePoint < 0x1_0000_0000
    ensures codePoint == 0 ==> r == []
    ensures 0 < codePoint <= MAX_CODE_POINT_4 ==> r == Encode(codePoint)
    ensures codePoint > MAX_CODE_POINT_4 ==> r == InvalidMessage(codePoint)
  {
    if codePoint > MAX_CODE_POINT_4 {
      return InvalidMessage(codePoint);
    }
    assert Pow2(6) == 64 by { assert Pow2(3) == 8; }
    var str := new Byte[5](_ => 0);
    var bits := codePoint;
    if codePoint <= MAX_CODE_POINT_1 {
      str[1] := 0;
      str[0] := bits;
      if codePoint > 0 { CStringIs(str[..], 1); }
      r := CString(str[..]);
    } else if codePoint <= MAX_CODE_POINT_2 {
      r := TwoBytes(codePoint, str);
    } else if codePoint <= MAX_CODE_POINT_3 {
      r := ThreeBytes(codePoint, str);
    } else {
      r := FourBytes(codePoint, str);
    }
  }

  method TwoBytes(codePoint: nat, str: array<Byte>) returns (r: seq<Byte>)
    requires MAX_CODE_POINT_1 < codePoint <= MAX_CODE_POINT_2 && Pow2(6) == 64 && str.Length == 5
    modifies str
    ensures r == Encode(codePoint)
  {
    var bits, low := codePoint, 0;
    str[2] := 0;
    low, bits := ChopLowBits(bits, 6);
    str[1] := 0x80 + low;
    str[0] := 0xC0 + bits;
    Digits(0, 0, bits, low);
    CStringIs(str[..], 2);
    r := CString(str[..]);
  }

  method ThreeBytes(codePoint: nat, str: array<Byte>) returns (r: seq<Byte>)
    requires MAX_CODE_POINT_2 < codePoint <= MAX_CODE_POINT_3 && Pow2(6) == 64 && str.Length == 5
    modifies str
    ensures r == Encode(codePoint)
  {
    var bits, low, low2 := codePoint, 0, 0;
    str[3] := 0;
    low, bits := ChopLowBits(bits, 6);
    str[2] := 0x80 + low;
    low2, bits := ChopLowBits(bits, 6);
    str[1] := 0x80 + low2;
    str[0] := 0xE0 + bits;
    Digits(0, bits, low2, low);
    CStringIs(str[..], 3);
    r := CString(str[..]);
  }

  method FourBytes(codePoint: nat, str: array<Byte>) returns (r: seq<Byte>)
    requires MAX_CODE_POINT_3 < codePoint <= MAX_CODE_POINT_4 && Pow2(6) == 64 && str.Length == 5
    modifies str
    ensures r == Encode(codePoint)
  {
    var bits, low, low2, low3 := codePoint, 0, 0, 0;
    str[4] := 0;
    low, bits := ChopLowBits(bits, 6);
    str[3] := 0x80 + low;
    low2, bits := ChopLowBits(bits, 6);
    str[2] := 0x80 + low2;
    low3, bits := ChopLowBits(bits, 6);
    str[1] := 0x80 + low3;
    str[0] := 0xF0 + bits;
    Digits(bits, low3, low2, low);
    CStringIs(str[..], 4);
    r := CString(str[..]);
  }

  lemma {:induction false} AsciiIsText(s: seq<Byte>)
    requires forall i :: 0 <= i < |s| ==> s[i] < 0x80
    ensures IsText(s)
  {
    if s == [] {
      assert EncodeAll([]) == [];
    } else {
      AsciiIsText(s[1..]);
      TextSplits(s);
    }
  }

  /** The validator accepts the encoder's output for exactly the numbers that are Unicode scalar
      values or so large that the output is a message; surrogates and the range from U+110000 to
      U+1FFFFF come out as bytes that are not UTF-8. */
  method EncodeThenValidate(codePoint: nat) returns (valid: bool)
    requires codePoint < 0x1_0000_0000
    ensures valid <==> IsScalar(codePoint) || codePoint > MAX_CODE_POINT_4
  {
    var s := CodePointToUtf8(codePoint);
    valid := IsValidUTF8(s);
    if codePoint == 0 || codePoint > MAX_CODE_POINT_4 {
      AsciiIsText(s);
    } else {
      ScalarIsAccepted(codePoint, []);
      assert Encode(codePoint) + [] == s;
      TextSplits(s);
      assert IsText([]) by { assert EncodeAll([]) == []; }
      if IsScalar(codePoint) { assert s[|s|..] == []; }
    }
  }
}
