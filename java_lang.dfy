/** Java value types shared by the modelled classes: nullable references,
    the signed `byte`, UTF-16 code units and the decimal text that
    `Integer.toString` / `Long.toString` produce. */
module JavaLang {

  /** A Java reference that may be null. */
  datatype Option<+T> = None | Some(value: T)

  /** Java's signed 8-bit `byte`. */
  newtype byte = b: int | -128 <= b < 128

  /** One UTF-16 code unit, Java's `char`. */
  newtype JChar = c: int | 0 <= c < 0x1_0000

  /** A Java `String`: a sequence of UTF-16 code units. */
  type JString = seq<JChar>

  /** The value of a byte read as unsigned, 0..255. */
  function Unsigned(b: byte): (u: int)
    ensures 0 <= u < 256
    ensures u % 256 == (b as int) % 256
  {
    if b < 0 then b as int + 256 else b as int
  }

  /** The byte whose unsigned value is `u`: the narrowing `(byte) u`
      applied to a value in 0..255. */
  function Signed(u: int): (b: byte)
    requires 0 <= u < 256
    ensures Unsigned(b) == u
  {
    if u >= 128 then (u - 256) as byte else u as byte
  }

  /** The Java narrowing cast `(byte) c`: the low 8 bits of a char,
      read as a signed byte. */
  function LowByte(c: JChar): (b: byte)
    ensures Unsigned(b) == (c as int) % 256
    ensures c < 128 ==> b as int == c as int
  {
    Signed((c as int) % 256)
  }

  /** The ASCII character of a decimal digit. */
  function DigitChar(d: int): (c: char)
    requires 0 <= d < 10
    ensures '0' <= c <= '9' && c as int - '0' as int == d
  {
    (d + '0' as int) as char
  }

  /** The digits of `n` without a sign or leading zeros. */
  function Digits(n: nat): (s: string)
    decreases n
  {
    if n < 10 then [DigitChar(n)] else Digits(n / 10) + [DigitChar(n % 10)]
  }

  /** `Integer.toString(v)` / `Long.toString(v)`: a leading '-' for a
      negative value, then the digits of its magnitude. */
  function DecimalText(v: int): (s: string)
  {
    if v < 0 then "-" + Digits(-v) else Digits(v)
  }

  predicate IsDigit(c: char) { '0' <= c <= '9' }

  /** The value of a string of decimal digits, read most significant first. */
  function DigitsValue(s: string): (n: nat)
    requires forall i :: 0 <= i < |s| ==> IsDigit(s[i])
    decreases |s|
  {
    if s == [] then 0
    else
      assert IsDigit(s[|s| - 1]);
      10 * DigitsValue(s[..|s| - 1]) + (s[|s| - 1] as int - '0' as int)
  }

  /** Reads back the text `DecimalText` writes (an optional '-' and digits). */
  function ParseDecimal(s: string): (v: Option<int>)
  {
    if |s| > 0 && s[0] == '-' && |s| > 1 && forall i :: 1 <= i < |s| ==> IsDigit(s[i]) then
      Some(0 - DigitsValue(s[1..]) as int)
    else if |s| > 0 && forall i :: 0 <= i < |s| ==> IsDigit(s[i]) then
      Some(DigitsValue(s))
    else None
  }

  lemma {:induction false} DigitsShape(n: nat)
    ensures |Digits(n)| > 0
    ensures forall i :: 0 <= i < |Digits(n)| ==> IsDigit(Digits(n)[i])
    ensures DigitsValue(Digits(n)) == n
    decreases n
  {
    if n >= 10 {
      DigitsShape(n / 10);
      var s := Digits(n);
      assert s[..|s| - 1] == Digits(n / 10);
    }
  }

  /** The decimal text is never empty, holds only ASCII digits after an
      optional leading '-', and reads back as the value it was written from. */
  lemma DecimalTextRoundTrip(v: int)
    ensures |DecimalText(v)| > 0
    ensures forall i :: 0 <= i < |DecimalText(v)| ==>
      IsDigit(DecimalText(v)[i]) || (i == 0 && v < 0 && DecimalText(v)[i] == '-')
    ensures ParseDecimal(DecimalText(v)) == Some(v)
  {
    if v < 0 {
      DigitsShape(-v);
      assert DecimalText(v)[1..] == Digits(-v);
    } else {
      DigitsShape(v);
    }
  }

  /** Decimal text is injective: two values never share a text. */
  lemma DecimalTextInjective(v: int, w: int)
    requires DecimalText(v) == DecimalText(w)
    ensures v == w
  {
    DecimalTextRoundTrip(v);
    DecimalTextRoundTrip(w);
  }

  /** Every character of a decimal text is ASCII. */
  lemma DecimalTextAscii(v: int)
    ensures forall i :: 0 <= i < |DecimalText(v)| ==> DecimalText(v)[i] as int < 128
  {
    DecimalTextRoundTrip(v);
  }

  /** The UTF-16 code units of a string whose characters are all in the
      Basic Multilingual Plane (one unit per character). */
  function Units(s: string): (u: JString)
    requires forall i :: 0 <= i < |s| ==> s[i] as int < 0x1_0000
    ensures |u| == |s|
    ensures forall i :: 0 <= i < |s| ==> u[i] as int == s[i] as int
  {
    seq(|s|, i requires 0 <= i < |s| => s[i] as int as JChar)
  }
}
