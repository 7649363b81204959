/** UTF-8, the encoding the Redis client uses for every string it sends or
    reads back: a Dafny `char` is a Unicode scalar value and becomes one to
    four bytes (Table 3-6 of the Unicode Standard); decoding accepts exactly
    the well-formed byte sequences of Table 3-7 and replaces each maximal
    ill-formed subpart by U+FFFD, as .NET's UTF8Encoding does. */
module Utf8 {
  newtype byte = b: int | 0 <= b < 256

  /** The character a decoder substitutes for an ill-formed subpart. */
  const Replacement: char := 0xFFFD as char

  /** The six low bits of `n`, and what is left above them. */
  function Low6(n: int): int { n % 64 }
  function High(n: int): int { n / 64 }

  /** The UTF-8 bytes of one scalar value. */
  function EncodeChar(c: char): (r: seq<byte>)
    ensures 1 <= |r| <= 4
  {
    var n := c as int;
    if n < 0x80 then [n as byte]
    else if n < 0x800 then [(0xC0 + High(n)) as byte, (0x80 + Low6(n)) as byte]
    else if n < 0x10000 then
      [(0xE0 + High(High(n))) as byte, (0x80 + Low6(High(n))) as byte, (0x80 + Low6(n)) as byte]
    else
      [(0xF0 + High(High(High(n)))) as byte, (0x80 + Low6(High(High(n)))) as byte,
       (0x80 + Low6(High(n))) as byte, (0x80 + Low6(n)) as byte]
  }

  /** `Encoding.UTF8.GetBytes`: the characters' encodings, in order. */
  function Encode(s: string): (r: seq<byte>)
    ensures |r| >= |s|
  {
    if s == [] then [] else EncodeChar(s[0]) + Encode(s[1..])
  }

  /** A continuation byte, 10xxxxxx. */
  predicate Trail(b: byte) { 0x80 <= b < 0xC0 }

  /** The length of the well-formed sequence a byte begins, or 0 for a byte
      that begins none (a continuation byte, C0, C1, F5..FF). */
  function Width(b0: byte): nat {
    if b0 < 0x80 then 1
    else if 0xC2 <= b0 < 0xE0 then 2
    else if 0xE0 <= b0 < 0xF0 then 3
    else if 0xF0 <= b0 < 0xF5 then 4
    else 0
  }

  /** The range Table 3-7 allows for the byte after a lead byte: narrower
      after E0 and F0 (no overlong forms), ED (no surrogates) and F4 (nothing
      above U+10FFFF). */
  predicate SecondOk(b0: byte, b1: byte) {
    if b0 == 0xE0 then 0xA0 <= b1 < 0xC0
    else if b0 == 0xED then 0x80 <= b1 < 0xA0
    else if b0 == 0xF0 then 0x90 <= b1 < 0xC0
    else if b0 == 0xF4 then 0x80 <= b1 < 0x90
    else Trail(b1)
  }

  /** How many bytes at the head of `b` begin a well-formed sequence: the
      whole sequence when it is complete, otherwise the maximal subpart. */
  function Subpart(b: seq<byte>): (m: nat)
    requires b != []
    ensures m <= |b| && m <= Width(b[0])
  {
    var w := Width(b[0]);
    if w <= 1 then w
    else if |b| < 2 || !SecondOk(b[0], b[1]) then 1
    else if w == 2 then 2
    else if |b| < 3 || !Trail(b[2]) then 2
    else if w == 3 then 3
    else if |b| < 4 || !Trail(b[3]) then 3
    else 4
  }

  /** The scalar value the complete sequence at the head of `b` encodes. */
  function Scalar(b: seq<byte>): int
    requires b != [] && Width(b[0]) >= 1 && Subpart(b) == Width(b[0])
  {
    var w := Width(b[0]);
    if w == 1 then b[0] as int
    else if w == 2 then (b[0] as int - 0xC0) * 64 + (b[1] as int - 0x80)
    else if w == 3 then ((b[0] as int - 0xE0) * 64 + (b[1] as int - 0x80)) * 64 + (b[2] as int - 0x80)
    else (((b[0] as int - 0xF0) * 64 + (b[1] as int - 0x80)) * 64 + (b[2] as int - 0x80)) * 64 + (b[3] as int - 0x80)
  }

  /** Every complete sequence encodes a scalar value, so it is a `char`. */
  function ScalarChar(b: seq<byte>): (c: char)
    requires b != [] && Width(b[0]) >= 1 && Subpart(b) == Width(b[0])
    ensures c as int == Scalar(b)
  {
    var n := Scalar(b);
    assert 0 <= n < 0xD800 || 0xE000 <= n < 0x110000;
    n as char
  }

  /** `Encoding.UTF8.GetString`: complete sequences become their
      characters, each maximal ill-formed subpart (or stray byte) one
      U+FFFD. */
  function Decode(b: seq<byte>): (s: string)
    ensures |s| <= |b|
    decreases |b|
  {
    if b == [] then []
    else
      var w := Width(b[0]);
      var m := Subpart(b);
      if w >= 1 && m == w then [ScalarChar(b)] + Decode(b[w..])
      else [Replacement] + Decode(b[if m == 0 then 1 else m..])
  }

  /** A string of code points below 0x80. */
  predicate Ascii(s: string) {
    forall i :: 0 <= i < |s| ==> s[i] < 0x80 as char
  }

  // ---------------------------------------------------------------------
  // Properties.
  // ---------------------------------------------------------------------

  /** The encoding of a character, followed by anything, decodes to that
      character first and then to whatever the rest decodes to. */
  lemma DecodeCharThen(c: char, rest: seq<byte>)
    ensures Decode(EncodeChar(c) + rest) == [c] + Decode(rest)
  {
    var e := EncodeChar(c);
    var b := e + rest;
    var n := c as int;
    assert n == 64 * High(n) + Low6(n);
    assert High(n) == 64 * High(High(n)) + Low6(High(n));
    assert High(High(n)) == 64 * High(High(High(n))) + Low6(High(High(n)));
    assert b[..|e|] == e && b[|e|..] == rest;
    assert Width(b[0]) == |e| && Subpart(b) == |e|;
    assert Scalar(b) == n;
  }

  /** Decoding undoes encoding for every string. */
  lemma {:induction false} DecodeEncode(s: string)
    ensures Decode(Encode(s)) == s
  {
    if s != [] {
      DecodeCharThen(s[0], Encode(s[1..]));
      DecodeEncode(s[1..]);
      assert [s[0]] + s[1..] == s;
    }
  }

  /** An ASCII string encodes to its code points, one byte per character. */
  lemma {:induction false} EncodeAscii(s: string)
    requires Ascii(s)
    ensures |Encode(s)| == |s|
    ensures forall i :: 0 <= i < |s| ==> Encode(s)[i] as int == s[i] as int
  {
    if s != [] {
      assert Ascii(s[1..]) by {
        forall i | 0 <= i < |s[1..]| ensures s[1..][i] < 0x80 as char {
          assert s[1..][i] == s[i + 1];
        }
      }
      EncodeAscii(s[1..]);
    }
  }

  /** U+00E9 is the two bytes C3 A9, and they decode back to it. */
  lemma EAcute()
    ensures Encode("é") == [0xC3, 0xA9]
    ensures Decode([0xC3, 0xA9]) == "é"
  {
    DecodeEncode("é");
  }
}
