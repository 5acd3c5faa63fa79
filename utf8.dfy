/** UTF-8, as the JDK applies it to a Java `String`: `getBytes(UTF_8)`
    writes each code unit, or surrogate pair, as one to four bytes and an
    unpaired surrogate as '?'; `new String(bytes, UTF_8)` reads well-formed
    sequences back and puts U+FFFD for a byte that starts none. */
module Utf8 {
  import opened JavaLang

  predicate IsHighSurrogate(c: JChar) { 0xD800 <= c <= 0xDBFF }
  predicate IsLowSurrogate(c: JChar) { 0xDC00 <= c <= 0xDFFF }
  predicate IsSurrogate(c: JChar) { 0xD800 <= c <= 0xDFFF }

  /** A string without unpaired surrogates: every high surrogate is followed
      by a low one and every low surrogate follows a high one. */
  predicate WellFormed(s: JString)
    decreases |s|
  {
    if s == [] then true
    else if IsHighSurrogate(s[0]) then |s| >= 2 && IsLowSurrogate(s[1]) && WellFormed(s[2..])
    else !IsLowSurrogate(s[0]) && WellFormed(s[1..])
  }

  predicate IsAscii(s: JString) { forall i :: 0 <= i < |s| ==> s[i] < 0x80 }

  predicate IsAsciiBytes(b: seq<byte>) { forall i :: 0 <= i < |b| ==> 0 <= b[i] }

  /** The code point of a surrogate pair. */
  function CodePoint(hi: JChar, lo: JChar): (cp: int)
    requires IsHighSurrogate(hi) && IsLowSurrogate(lo)
    ensures 0x10000 <= cp <= 0x10FFFF
  {
    0x10000 + (hi as int - 0xD800) * 1024 + (lo as int - 0xDC00)
  }

  function TwoBytes(c: int): seq<byte>
    requires 0x80 <= c < 0x800
  {
    [Signed(0xC0 + c / 64), Signed(0x80 + c % 64)]
  }

  function ThreeBytes(c: int): seq<byte>
    requires 0x800 <= c < 0x1_0000
  {
    [Signed(0xE0 + c / 0x1000), Signed(0x80 + (c / 64) % 64), Signed(0x80 + c % 64)]
  }

  function FourBytes(cp: int): seq<byte>
    requires 0x10000 <= cp <= 0x10FFFF
  {
    [Signed(0xF0 + cp / 0x40000), Signed(0x80 + (cp / 0x1000) % 64),
     Signed(0x80 + (cp / 64) % 64), Signed(0x80 + cp % 64)]
  }

  /** `s.getBytes(UTF_8)`. */
  function Encode(s: JString): (r: seq<byte>)
    decreases |s|
  {
    if s == [] then []
    else
      var c := s[0] as int;
      if c < 0x80 then [Signed(c)] + Encode(s[1..])
      else if c < 0x800 then TwoBytes(c) + Encode(s[1..])
      else if IsHighSurrogate(s[0]) && |s| >= 2 && IsLowSurrogate(s[1]) then
        FourBytes(CodePoint(s[0], s[1])) + Encode(s[2..])
      else if IsSurrogate(s[0]) then [Signed('?' as int)] + Encode(s[1..])
      else ThreeBytes(c) + Encode(s[1..])
  }

  predicate IsContinuation(b: byte) { 0x80 <= Unsigned(b) <= 0xBF }

  /** `new String(bytes, UTF_8)`. */
  function Decode(b: seq<byte>): (r: JString)
    decreases |b|
  {
    if b == [] then []
    else
      var b0 := Unsigned(b[0]);
      if b0 < 0x80 then [b0 as JChar] + Decode(b[1..])
      else if 0xC2 <= b0 <= 0xDF && |b| >= 2 && IsContinuation(b[1]) then
        [((b0 - 0xC0) * 64 + (Unsigned(b[1]) - 0x80)) as JChar] + Decode(b[2..])
      else if 0xE0 <= b0 <= 0xEF && |b| >= 3 && IsContinuation(b[1]) && IsContinuation(b[2])
              && (b0 == 0xE0 ==> Unsigned(b[1]) >= 0xA0) && (b0 == 0xED ==> Unsigned(b[1]) < 0xA0) then
        [((b0 - 0xE0) * 0x1000 + (Unsigned(b[1]) - 0x80) * 64 + (Unsigned(b[2]) - 0x80)) as JChar]
          + Decode(b[3..])
      else if 0xF0 <= b0 <= 0xF4 && |b| >= 4
              && IsContinuation(b[1]) && IsContinuation(b[2]) && IsContinuation(b[3])
              && (b0 == 0xF0 ==> Unsigned(b[1]) >= 0x90) && (b0 == 0xF4 ==> Unsigned(b[1]) < 0x90) then
        var cp := (b0 - 0xF0) * 0x40000 + (Unsigned(b[1]) - 0x80) * 0x1000
                  + (Unsigned(b[2]) - 0x80) * 64 + (Unsigned(b[3]) - 0x80);
        [(0xD800 + (cp - 0x10000) / 1024) as JChar, (0xDC00 + (cp - 0x10000) % 1024) as JChar]
          + Decode(b[4..])
      else [0xFFFD as JChar] + Decode(b[1..])
  }

  lemma DecodeOne(c: int, rest: seq<byte>)
    requires 0 <= c < 0x80
    ensures Decode([Signed(c)] + rest) == [c as JChar] + Decode(rest)
  {
    assert ([Signed(c)] + rest)[1..] == rest;
  }

  lemma DecodeTwo(c: int, rest: seq<byte>)
    requires 0x80 <= c < 0x800
    ensures Decode(TwoBytes(c) + rest) == [c as JChar] + Decode(rest)
  {
    var b := TwoBytes(c) + rest;
    assert Unsigned(b[0]) == 0xC0 + c / 64;
    assert Unsigned(b[1]) == 0x80 + c % 64;
    assert b[2..] == rest;
  }

  lemma DecodeThree(c: int, rest: seq<byte>)
    requires 0x800 <= c < 0x1_0000 && !(0xD800 <= c <= 0xDFFF)
    ensures Decode(ThreeBytes(c) + rest) == [c as JChar] + Decode(rest)
  {
    var b := ThreeBytes(c) + rest;
    var q, m := c / 64, c % 64;
    assert c == q * 64 + m;
    assert q == (q / 64) * 64 + q % 64;
    assert c / 0x1000 == q / 64;
    assert Unsigned(b[0]) == 0xE0 + q / 64;
    assert Unsigned(b[1]) == 0x80 + q % 64;
    assert Unsigned(b[2]) == 0x80 + m;
    assert b[3..] == rest;
  }

  /** The four bytes of a supplementary code point, read as unsigned
      values, give back its 3 + 6 + 6 + 6 bits. */
  lemma FourBytesBits(cp: int)
    requires 0x10000 <= cp <= 0x10FFFF
    ensures var b := FourBytes(cp);
      && 0xF0 <= Unsigned(b[0]) <= 0xF4
      && IsContinuation(b[1]) && IsContinuation(b[2]) && IsContinuation(b[3])
      && (Unsigned(b[0]) - 0xF0) * 0x40000 + (Unsigned(b[1]) - 0x80) * 0x1000
         + (Unsigned(b[2]) - 0x80) * 64 + (Unsigned(b[3]) - 0x80) == cp
      && (Unsigned(b[0]) == 0xF0 ==> Unsigned(b[1]) >= 0x90)
      && (Unsigned(b[0]) == 0xF4 ==> Unsigned(b[1]) < 0x90)
  {
    var b := FourBytes(cp);
    var q1, m1 := cp / 64, cp % 64;
    var q2, m2 := q1 / 64, q1 % 64;
    var q3, m3 := q2 / 64, q2 % 64;
    assert cp == q1 * 64 + m1;
    assert q1 == q2 * 64 + m2;
    assert q2 == q3 * 64 + m3;
    assert cp / 0x1000 == q2;
    assert cp / 0x40000 == q3;
    assert Unsigned(b[0]) == 0xF0 + q3;
    assert Unsigned(b[1]) == 0x80 + m3;
    assert Unsigned(b[2]) == 0x80 + m2;
    assert Unsigned(b[3]) == 0x80 + m1;
  }

  /** Splitting a supplementary code point gives back its surrogate pair. */
  lemma SurrogatePair(hi: JChar, lo: JChar)
    requires IsHighSurrogate(hi) && IsLowSurrogate(lo)
    ensures (CodePoint(hi, lo) - 0x10000) / 1024 == hi as int - 0xD800
    ensures (CodePoint(hi, lo) - 0x10000) % 1024 == lo as int - 0xDC00
  {
  }

  lemma DecodeFour(hi: JChar, lo: JChar, rest: seq<byte>)
    requires IsHighSurrogate(hi) && IsLowSurrogate(lo)
    ensures Decode(FourBytes(CodePoint(hi, lo)) + rest) == [hi, lo] + Decode(rest)
  {
    var cp := CodePoint(hi, lo);
    FourBytesBits(cp);
    SurrogatePair(hi, lo);
    var b := FourBytes(cp) + rest;
    assert b[..4] == FourBytes(cp);
    assert b[4..] == rest;
  }

  /** Decoding inverts encoding on every string without unpaired surrogates. */
  lemma {:induction false} DecodeEncode(s: JString)
    requires WellFormed(s)
    ensures Decode(Encode(s)) == s
    decreases |s|
  {
    if s != [] {
      var c := s[0] as int;
      if c < 0x80 {
        var b := Encode(s);
        assert b[1..] == Encode(s[1..]);
        DecodeEncode(s[1..]);
      } else if c < 0x800 {
        DecodeTwo(c, Encode(s[1..]));
        DecodeEncode(s[1..]);
      } else if IsHighSurrogate(s[0]) {
        DecodeFour(s[0], s[1], Encode(s[2..]));
        DecodeEncode(s[2..]);
        assert s == [s[0], s[1]] + s[2..];
      } else {
        DecodeThree(c, Encode(s[1..]));
        DecodeEncode(s[1..]);
      }
    }
  }

  /** An unpaired surrogate is written as '?': the encoding of such a string
      does not decode back to it. */
  lemma UnpairedSurrogate(c: JChar)
    requires IsSurrogate(c)
    ensures Encode([c]) == [Signed('?' as int)]
    ensures Decode(Encode([c])) == ['?' as int as JChar]
  {
    assert Encode([c])[1..] == [];
  }

  /** A string with an unpaired surrogate anywhere does not come back: the
      surrogate is read back as '?'. */
  lemma {:induction false} NotWellFormedLost(s: JString)
    requires !WellFormed(s)
    ensures Decode(Encode(s)) != s
    decreases |s|
  {
    var c := s[0] as int;
    if c < 0x80 {
      DecodeOne(c, Encode(s[1..]));
      NotWellFormedLost(s[1..]);
    } else if c < 0x800 {
      DecodeTwo(c, Encode(s[1..]));
      NotWellFormedLost(s[1..]);
    } else if IsHighSurrogate(s[0]) && |s| >= 2 && IsLowSurrogate(s[1]) {
      DecodeFour(s[0], s[1], Encode(s[2..]));
      NotWellFormedLost(s[2..]);
      assert s == [s[0], s[1]] + s[2..];
    } else if IsSurrogate(s[0]) {
      DecodeOne('?' as int, Encode(s[1..]));
      assert Decode(Encode(s))[0] == '?' as int as JChar;
    } else {
      DecodeThree(c, Encode(s[1..]));
      NotWellFormedLost(s[1..]);
    }
  }

  /** A string comes back from its UTF-8 bytes exactly when it has no
      unpaired surrogate. */
  lemma RoundTripExactlyWellFormed(s: JString)
    ensures Decode(Encode(s)) == s <==> WellFormed(s)
  {
    if WellFormed(s) {
      DecodeEncode(s);
    } else {
      NotWellFormedLost(s);
    }
  }

  /** ASCII text is written byte for byte: one byte per code unit, equal to it. */
  lemma {:induction false} EncodeAscii(s: JString)
    requires IsAscii(s)
    ensures |Encode(s)| == |s|
    ensures forall i :: 0 <= i < |s| ==> Encode(s)[i] as int == s[i] as int
    decreases |s|
  {
    if s != [] {
      EncodeAscii(s[1..]);
      assert Encode(s) == [Signed(s[0] as int)] + Encode(s[1..]);
      forall i | 1 <= i < |s|
        ensures Encode(s)[i] as int == s[i] as int
      {
        assert s[1..][i - 1] == s[i];
      }
    }
  }

  /** Bytes 0..127 are read back one code unit each, unchanged. */
  lemma {:induction false} DecodeAscii(b: seq<byte>)
    requires IsAsciiBytes(b)
    ensures |Decode(b)| == |b|
    ensures forall i :: 0 <= i < |b| ==> Decode(b)[i] as int == b[i] as int
    decreases |b|
  {
    if b != [] {
      DecodeAscii(b[1..]);
      assert Decode(b) == [b[0] as int as JChar] + Decode(b[1..]);
      forall i | 1 <= i < |b|
        ensures Decode(b)[i] as int == b[i] as int
      {
        assert b[1..][i - 1] == b[i];
      }
    }
  }
}
