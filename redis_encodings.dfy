/** `RedisEncodings`: the byte arrays the Redis client sends as command
    arguments. Strings are written as UTF-8, integers as the ASCII bytes of
    their decimal text (0..255 from a cache built once), and multi-argument
    commands as an array laid out `key, v1 .. vn` or `key, k1, v1, ...`. */
module RedisEncodings {
  import opened JavaLang
  import Utf8

  /** `RedisException` and its message. */
  datatype RedisException = RedisException(message: string)

  datatype Result<+T> = Ok(value: T) | Err(error: RedisException)

  /** One entry of a Java `Map<String, String>`, in iteration order. */
  datatype Entry = Entry(key: Option<JString>, value: Option<JString>)

  /** The decimal text of `v` as a Java string. */
  function DecimalUnits(v: int): (u: JString)
    ensures Utf8.IsAscii(u)
    ensures |u| == |DecimalText(v)|
    ensures forall i :: 0 <= i < |u| ==> u[i] as int == DecimalText(v)[i] as int
  {
    DecimalTextAscii(v);
    Units(DecimalText(v))
  }

  /** `r` holds the low 8 bits of each char of `text`, as `bytes` writes them. */
  predicate LowBytesOf(r: seq<byte>, text: JString)
  {
    |r| == |text| && forall i :: 0 <= i < |r| ==> r[i] == LowByte(text[i])
  }

  /** For ASCII text, the low bytes are its UTF-8 encoding. */
  lemma AsciiLowBytes(r: seq<byte>, text: JString)
    requires Utf8.IsAscii(text) && LowBytesOf(r, text)
    ensures r == Utf8.Encode(text)
  {
    Utf8.EncodeAscii(text);
    var e := Utf8.Encode(text);
    forall i | 0 <= i < |r|
      ensures r[i] == e[i]
    {
      assert r[i] as int == text[i] as int;
    }
  }

  /** `bytes(text)`: a new array with the low 8 bits of each char. */
  method Bytes(text: JString) returns (r: seq<byte>)
    ensures |r| == |text|
    ensures forall i :: 0 <= i < |r| ==> Unsigned(r[i]) == (text[i] as int) % 256
    ensures LowBytesOf(r, text)
  {
    var bytes := new byte[|text|];
    for i := 0 to |text|
      invariant forall j :: 0 <= j < i ==> bytes[j] == LowByte(text[j])
    {
      bytes[i] := LowByte(text[i]);
    }
    r := bytes[..];
  }

  /** `encode(String)`: `Strings.bytes`, the UTF-8 encoding, of a non-null
      string. */
  function EncodeString(value: Option<JString>): (r: Result<seq<byte>>)
    ensures r.Err? <==> value.None?
    ensures r.Err? ==> r.error == RedisException("value must not be null")
    ensures r.Ok? ==> r.value == Utf8.Encode(value.value)
  {
    match value
    case None => Err(RedisException("value must not be null"))
    case Some(s) => Ok(Utf8.Encode(s))
  }

  /** `decode`: null for null, otherwise the UTF-8 decoding. */
  function Decode(value: Option<seq<byte>>): (r: Option<JString>)
    ensures r.None? <==> value.None?
    ensures value.Some? ==> r == Some(Utf8.Decode(value.value))
  {
    match value
    case None => None
    case Some(b) => Some(Utf8.Decode(b))
  }

  /** Every string without unpaired surrogates comes back from Redis as it
      was stored. */
  lemma DecodeEncodeString(s: JString)
    requires Utf8.WellFormed(s)
    ensures EncodeString(Some(s)).Ok?
    ensures Decode(Some(EncodeString(Some(s)).value)) == Some(s)
  {
    Utf8.DecodeEncode(s);
  }

  /** The statics of `RedisEncodings`: `INT_BYTES_CACHE`. */
  class RedisEncodings {
    const intBytesCache: array<seq<byte>>

    /** The cache holds, at each i in 0..255, the bytes of i's decimal text. */
    ghost predicate Valid()
      reads this, intBytesCache
    {
      intBytesCache.Length == 256
      && forall i :: 0 <= i < 256 ==> LowBytesOf(intBytesCache[i], DecimalUnits(i))
    }

    /** The static initialiser. */
    constructor ()
      ensures Valid() && fresh(intBytesCache)
    {
      var cache := new seq<byte>[256];
      for i := 0 to 256
        invariant forall j :: 0 <= j < i ==> LowBytesOf(cache[j], DecimalUnits(j))
      {
        var text := DecimalUnits(i);
        cache[i] := Bytes(text);
      }
      intBytesCache := cache;
    }

    /** `encode(int)` / `encode(long)` for any value of the type: the cached
        array for 0..255, otherwise the bytes of the decimal text. Both
        branches give the UTF-8 encoding of the decimal text. */
    method EncodeInteger(value: int) returns (r: seq<byte>)
      requires Valid()
      ensures r == Utf8.Encode(DecimalUnits(value))
    {
      if 0 <= value <= 255 {
        r := intBytesCache[value];
        AsciiLowBytes(r, DecimalUnits(value));
        return;
      }
      var text := DecimalUnits(value);
      r := Bytes(text);
      AsciiLowBytes(r, text);
    }

    /** `encode(int)`: a 32-bit value. */
    method EncodeInt(value: int) returns (r: seq<byte>)
      requires Valid()
      requires -0x8000_0000 <= value < 0x8000_0000
      ensures r == Utf8.Encode(DecimalUnits(value))
    {
      r := EncodeInteger(value);
    }

    /** `encode(long)`: a 64-bit value. */
    method EncodeLong(value: int) returns (r: seq<byte>)
      requires Valid()
      requires -0x8000_0000_0000_0000 <= value < 0x8000_0000_0000_0000
      ensures r == Utf8.Encode(DecimalUnits(value))
    {
      r := EncodeInteger(value);
    }
  }

  /** The bytes written for an integer decode to its decimal text, which
      parses back to the integer. */
  lemma DecodeEncodeInteger(value: int)
    ensures Decode(Some(Utf8.Encode(DecimalUnits(value)))) == Some(DecimalUnits(value))
    ensures ParseDecimal(DecimalText(value)) == Some(value)
  {
    var u := DecimalUnits(value);
    Utf8.EncodeAscii(u);
    var b := Utf8.Encode(u);
    assert Utf8.IsAsciiBytes(b) by {
      forall i | 0 <= i < |b| ensures 0 <= b[i] { assert b[i] as int == u[i] as int; }
    }
    Utf8.DecodeAscii(b);
    assert Utf8.Decode(b) == u;
    DecimalTextRoundTrip(value);
  }

  /** `encode(key, values...)`: `key, v1 .. vn`. */
  method EncodeKeyValues(key: Option<JString>, values: seq<Option<JString>>) returns (r: Result<array<seq<byte>>>)
    ensures r.Err? <==> |values| == 0 || key.None? || exists i :: 0 <= i < |values| && values[i].None?
    ensures |values| == 0 ==> r == Err(RedisException("values must not be empty"))
    ensures |values| > 0 && r.Err? ==> r.error == RedisException("value must not be null")
    ensures r.Ok? ==> fresh(r.value)
    ensures r.Ok? ==>
      && r.value.Length == |values| + 1
      && r.value[0] == Utf8.Encode(key.value)
      && forall i :: 0 <= i < |values| ==> r.value[i + 1] == Utf8.Encode(values[i].value)
  {
    if |values| == 0 {
      return Err(RedisException("values must not be empty"));
    }
    var length := |values|;
    var result := new seq<byte>[length + 1];
    var k := EncodeString(key);
    if k.Err? {
      return Err(k.error);
    }
    result[0] := k.value;
    for i := 0 to length
      invariant result[0] == Utf8.Encode(key.value)
      invariant forall j :: 0 <= j < i ==> values[j].Some? && result[j + 1] == Utf8.Encode(values[j].value)
    {
      var v := EncodeString(values[i]);
      if v.Err? {
        return Err(v.error);
      }
      result[i + 1] := v.value;
    }
    return Ok(result);
  }

  /** The map's entries are all non-null. */
  predicate NoNulls(entries: seq<Entry>)
  {
    forall j :: 0 <= j < |entries| ==> entries[j].key.Some? && entries[j].value.Some?
  }

  /** `encode(map)`: `k1, v1, k2, v2, ...` in iteration order. */
  method EncodeMap(entries: seq<Entry>) returns (r: Result<array<seq<byte>>>)
    ensures r.Err? <==> |entries| == 0 || !NoNulls(entries)
    ensures |entries| == 0 ==> r == Err(RedisException("values must not be empty"))
    ensures |entries| > 0 && r.Err? ==> r.error == RedisException("value must not be null")
    ensures r.Ok? ==> fresh(r.value)
    ensures r.Ok? ==>
      && r.value.Length == 2 * |entries|
      && forall j :: 0 <= j < |entries| ==>
           && r.value[2 * j] == Utf8.Encode(entries[j].key.value)
           && r.value[2 * j + 1] == Utf8.Encode(entries[j].value.value)
  {
    if |entries| == 0 {
      return Err(RedisException("values must not be empty"));
    }
    var result := new seq<byte>[|entries| * 2];
    var index := 0;
    for j := 0 to |entries|
      invariant index == 2 * j
      invariant NoNulls(entries[..j])
      invariant forall m :: 0 <= m < j ==>
        && result[2 * m] == Utf8.Encode(entries[m].key.value)
        && result[2 * m + 1] == Utf8.Encode(entries[m].value.value)
    {
      var k := EncodeString(entries[j].key);
      if k.Err? {
        return Err(k.error);
      }
      result[index] := k.value;
      index := index + 1;
      var v := EncodeString(entries[j].value);
      if v.Err? {
        return Err(v.error);
      }
      result[index] := v.value;
      index := index + 1;
      assert entries[..j + 1] == entries[..j] + [entries[j]];
    }
    assert entries[..|entries|] == entries;
    return Ok(result);
  }

  /** `encode(key, map)`: `key, k1, v1, k2, v2, ...` in iteration order. */
  method EncodeKeyMap(key: Option<JString>, entries: seq<Entry>) returns (r: Result<array<seq<byte>>>)
    ensures r.Err? <==> |entries| == 0 || key.None? || !NoNulls(entries)
    ensures |entries| == 0 ==> r == Err(RedisException("values must not be empty"))
    ensures |entries| > 0 && r.Err? ==> r.error == RedisException("value must not be null")
    ensures r.Ok? ==> fresh(r.value)
    ensures r.Ok? ==>
      && r.value.Length == 2 * |entries| + 1
      && r.value[0] == Utf8.Encode(key.value)
      && forall j :: 0 <= j < |entries| ==>
           && r.value[2 * j + 1] == Utf8.Encode(entries[j].key.value)
           && r.value[2 * j + 2] == Utf8.Encode(entries[j].value.value)
  {
    if |entries| == 0 {
      return Err(RedisException("values must not be empty"));
    }
    var result := new seq<byte>[|entries| * 2 + 1];
    var k := EncodeString(key);
    if k.Err? {
      return Err(k.error);
    }
    result[0] := k.value;
    var index := 1;
    for j := 0 to |entries|
      invariant index == 2 * j + 1
      invariant NoNulls(entries[..j])
      invariant result[0] == Utf8.Encode(key.value)
      invariant forall m :: 0 <= m < j ==>
        && result[2 * m + 1] == Utf8.Encode(entries[m].key.value)
        && result[2 * m + 2] == Utf8.Encode(entries[m].value.value)
    {
      var ek := EncodeString(entries[j].key);
      if ek.Err? {
        return Err(ek.error);
      }
      result[index] := ek.value;
      index := index + 1;
      var ev := EncodeString(entries[j].value);
      if ev.Err? {
        return Err(ev.error);
      }
      result[index] := ev.value;
      index := index + 1;
      assert entries[..j + 1] == entries[..j] + [entries[j]];
    }
    assert entries[..|entries|] == entries;
    return Ok(result);
  }
}
