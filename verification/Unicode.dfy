/** Code points as UTF-16 code units and as UTF-8 bytes (section 3 of RFC 3629). */
module Unicode {
  import opened Wrappers

  /** A UTF-16 code unit, as charCodeAt gives it. */
  type Unit = x: int | 0 <= x < 0x1_0000

  type Byte = x: int | 0 <= x < 0x100

  predicate IsSurrogate(u: int) { 0xD800 <= u < 0xE000 }

  predicate IsHigh(u: int) { 0xD800 <= u < 0xDC00 }

  predicate IsLow(u: int) { 0xDC00 <= u < 0xE000 }

  /** A code point that is not a surrogate. */
  predicate IsScalar(cp: int) { 0 <= cp <= 0x10_FFFF && !IsSurrogate(cp) }

  function Utf16(cp: int): (units: seq<Unit>)
    requires IsScalar(cp)
    ensures units != []
  {
    if cp < 0x1_0000 then [cp] else [0xD800 + (cp - 0x1_0000) / 0x400, 0xDC00 + (cp - 0x1_0000) % 0x400]
  }

  /** The surrogates are the units of the code points that one unit has no room for. */
  lemma SurrogatesAre(u: int)
    ensures IsSurrogate(u)
            <==> exists cp: int ::
                   0x1_0000 <= cp <= 0x10_FFFF && IsScalar(cp) && (Utf16(cp)[0] == u || Utf16(cp)[1] == u)
  {
    if 0xD800 <= u < 0xDC00 {
      assert Utf16(0x1_0000 + (u - 0xD800) * 0x400)[0] == u;
    } else if 0xDC00 <= u < 0xE000 {
      assert Utf16(0x1_0000 + (u - 0xDC00))[1] == u;
    }
  }

  /** Surrogates come in pairs. */
  predicate WellFormed(s: seq<Unit>)
    decreases |s|
  {
    if s == [] then true
    else if !IsSurrogate(s[0]) then WellFormed(s[1..])
    else IsHigh(s[0]) && |s| > 1 && IsLow(s[1]) && WellFormed(s[2..])
  }

  /** Well-formed strings are those that code points spell. */
  lemma Utf16IsWellFormed(cp: int, rest: seq<Unit>)
    requires IsScalar(cp)
    ensures WellFormed(Utf16(cp) + rest) <==> WellFormed(rest)
  {
    var s := Utf16(cp) + rest;
    if cp < 0x1_0000 {
      assert s[0] == cp && s[1..] == rest;
    } else {
      assert s[0] == Utf16(cp)[0] && s[1] == Utf16(cp)[1] && s[2..] == rest;
    }
  }

  function Utf8(cp: int): (bytes: seq<Byte>)
    requires IsScalar(cp)
    ensures 0 < |bytes| <= 4
  {
    if cp < 0x80 then [cp]
    else if cp < 0x800 then [0xC0 + cp / 0x40, 0x80 + cp % 0x40]
    else if cp < 0x1_0000 then [0xE0 + cp / 0x1000, 0x80 + cp / 0x40 % 0x40, 0x80 + cp % 0x40]
    else [0xF0 + cp / 0x4_0000, 0x80 + cp / 0x1000 % 0x40, 0x80 + cp / 0x40 % 0x40, 0x80 + cp % 0x40]
  }

  predicate IsContinuation(b: int) { 0x80 <= b < 0xC0 }

  function Two(a: int, b: int): int { (a - 0xC0) * 0x40 + (b - 0x80) }

  function Three(a: int, b: int, c: int): int { (a - 0xE0) * 0x1000 + (b - 0x80) * 0x40 + (c - 0x80) }

  function Four(a: int, b: int, c: int, d: int): int {
    (a - 0xF0) * 0x4_0000 + (b - 0x80) * 0x1000 + (c - 0x80) * 0x40 + (d - 0x80)
  }

  /** The code point of one valid UTF-8 sequence: shortest, in range and no surrogate. */
  function FromUtf8(bytes: seq<Byte>): (r: Option<int>) {
    if |bytes| == 1 then (if bytes[0] < 0x80 then Some(bytes[0]) else None)
    else if |bytes| == 2 then
      if 0xC2 <= bytes[0] < 0xE0 && IsContinuation(bytes[1]) then Some(Two(bytes[0], bytes[1])) else None
    else if |bytes| == 3 then
      if 0xE0 <= bytes[0] < 0xF0 && IsContinuation(bytes[1]) && IsContinuation(bytes[2]) then
        var cp := Three(bytes[0], bytes[1], bytes[2]);
        if 0x800 <= cp && !IsSurrogate(cp) then Some(cp) else None
      else None
    else if |bytes| == 4 then
      if 0xF0 <= bytes[0] < 0xF8 && IsContinuation(bytes[1]) && IsContinuation(bytes[2])
        && IsContinuation(bytes[3]) then
        var cp := Four(bytes[0], bytes[1], bytes[2], bytes[3]);
        if 0x1_0000 <= cp <= 0x10_FFFF then Some(cp) else None
      else None
    else None
  }

  lemma Digit64(x: int, y: int)
    requires 0 <= y < 0x40
    ensures (x * 0x40 + y) / 0x40 == x && (x * 0x40 + y) % 0x40 == y
  {}

  lemma Nested(n: int)
    ensures n / 0x1000 == n / 0x40 / 0x40
    ensures n / 0x4_0000 == n / 0x1000 / 0x40
  {}

  lemma TwoSplits(a: int, b: int)
    requires IsContinuation(b)
    ensures Two(a, b) / 0x40 == a - 0xC0 && Two(a, b) % 0x40 == b - 0x80
  {
    Digit64(a - 0xC0, b - 0x80);
  }

  lemma ThreeSplits(a: int, b: int, c: int)
    requires IsContinuation(b) && IsContinuation(c)
    ensures var cp := Three(a, b, c); cp / 0x1000 == a - 0xE0 && cp / 0x40 % 0x40 == b - 0x80 && cp % 0x40 == c - 0x80
  {
    var high := (a - 0xE0) * 0x40 + (b - 0x80);
    assert Three(a, b, c) == high * 0x40 + (c - 0x80);
    Digit64(high, c - 0x80);
    Digit64(a - 0xE0, b - 0x80);
    Nested(Three(a, b, c));
  }

  lemma FourSplits(a: int, b: int, c: int, d: int)
    requires IsContinuation(b) && IsContinuation(c) && IsContinuation(d)
    ensures var cp := Four(a, b, c, d);
            && cp / 0x4_0000 == a - 0xF0 && cp / 0x1000 % 0x40 == b - 0x80
            && cp / 0x40 % 0x40 == c - 0x80 && cp % 0x40 == d - 0x80
  {
    var high := Three(a - 0x10, b, c);
    ThreeSplits(a - 0x10, b, c);
    assert Four(a, b, c, d) == high * 0x40 + (d - 0x80);
    Digit64(high, d - 0x80);
    hide Three, Four;
    Nested(Four(a, b, c, d));
    Nested(high);
    assert Four(a, b, c, d) / 0x4_0000 == high / 0x1000;
  }

  lemma Splits(cp: int)
    requires 0 <= cp <= 0x10_FFFF
    ensures cp == cp / 0x40 * 0x40 + cp % 0x40
    ensures cp == cp / 0x1000 * 0x1000 + cp / 0x40 % 0x40 * 0x40 + cp % 0x40
    ensures cp == cp / 0x4_0000 * 0x4_0000 + cp / 0x1000 % 0x40 * 0x1000 + cp / 0x40 % 0x40 * 0x40 + cp % 0x40
  {}

  lemma Utf8Decodes(cp: int)
    requires IsScalar(cp)
    ensures FromUtf8(Utf8(cp)) == Some(cp)
  {
    Splits(cp);
  }

  lemma DecodedReencodes(bytes: seq<Byte>)
    requires FromUtf8(bytes).Some?
    ensures IsScalar(FromUtf8(bytes).value) && Utf8(FromUtf8(bytes).value) == bytes
  {
    hide Two, Three, Four;
    if |bytes| == 2 {
      TwoSplits(bytes[0], bytes[1]);
    } else if |bytes| == 3 {
      ThreeSplits(bytes[0], bytes[1], bytes[2]);
    } else if |bytes| == 4 {
      FourSplits(bytes[0], bytes[1], bytes[2], bytes[3]);
    }
  }

  /** The valid sequences are exactly the encodings of code points. */
  lemma Utf8IsExact(bytes: seq<Byte>, cp: int)
    ensures FromUtf8(bytes) == Some(cp) <==> IsScalar(cp) && bytes == Utf8(cp)
  {
    hide FromUtf8, Utf8;
    if FromUtf8(bytes) == Some(cp) { DecodedReencodes(bytes); }
    if IsScalar(cp) { Utf8Decodes(cp); }
  }
}
