/** application/x-www-form-urlencoded data, as in lib/whatwg/url.js: the encoder, the printer
    and the parser of query parameters, with decodeURIComponent of ECMA-262, section 19.2.6. */
module UrlEncoded {
  import opened Wrappers
  import opened Unicode
  import opened Splitting

  const AMPERSAND: Unit := 0x26
  const EQUALS: Unit := 0x3D
  const PERCENT: Unit := 0x25
  const PLUS: Unit := 0x2B
  const SPACE: Unit := 0x20

  // ---- escaping --------------------------------------------------------------------------

  /** The ones of the noEscape table: letters, digits and * - . _ */
  predicate NoEscape(u: int) {
    0x30 <= u <= 0x39 || 0x41 <= u <= 0x5A || 0x61 <= u <= 0x7A || u == 0x2A || u == 0x2D || u == 0x2E || u == 0x5F
  }

  function HexDigit(d: int): (u: Unit)
    requires 0 <= d < 16
    ensures NoEscape(u)
  {
    if d < 10 then 0x30 + d else 0x41 + d - 10
  }

  /** An entry of paramHexTable. */
  function Escape(b: Byte): seq<Unit> {
    if b == SPACE then [PLUS] else [PERCENT, HexDigit(b / 16), HexDigit(b % 16)]
  }

  function EncodeByte(b: Byte): seq<Unit> { if NoEscape(b) then [b] else Escape(b) }

  function EncodeBytes(bytes: seq<Byte>): seq<Unit> {
    if bytes == [] then [] else EncodeByte(bytes[0]) + EncodeBytes(bytes[1..])
  }

  function Combine(high: int, low: int): (cp: int)
    ensures 0x1_0000 <= cp <= 0x10_FFFF
  {
    0x1_0000 + high % 0x400 * 0x400 + low % 0x400
  }

  /** The first code point and how many units it has. A surrogate takes the unit after it for
      its low half, whatever that is. */
  function First(s: seq<Unit>): (r: (int, nat))
    requires s != []
    ensures IsScalar(r.0) && 0 < r.1 <= |s|
  {
    if !IsSurrogate(s[0]) then (s[0], 1)
    else if |s| == 1 then (Combine(s[0], 0), 1)
    else (Combine(s[0], s[1]), 2)
  }

  /** Each code point in UTF-8, each byte encoded. */
  function Encode(s: seq<Unit>): seq<Unit> {
    if s == [] then [] else
      var (cp, n) := First(s);
      EncodeBytes(Utf8(cp)) + Encode(s[n..])
  }

  // ---- the encoder -----------------------------------------------------------------------

  lemma EncodeUnfolds(s: seq<Unit>, i: nat)
    requires i < |s|
    ensures var (cp, n) := First(s[i..]);
            i + n <= |s| && Encode(s[i..]) == EncodeBytes(Utf8(cp)) + Encode(s[i + n..])
  {
    var (cp, n) := First(s[i..]);
    assert s[i..][n..] == s[i + n..];
  }

  lemma EncodeBytesUnfolds(bytes: seq<Byte>)
    requires |bytes| <= 4
    ensures |bytes| == 1 ==> EncodeBytes(bytes) == EncodeByte(bytes[0])
    ensures |bytes| == 2 ==> EncodeBytes(bytes) == EncodeByte(bytes[0]) + EncodeByte(bytes[1])
    ensures |bytes| == 3 ==> EncodeBytes(bytes) == EncodeByte(bytes[0]) + EncodeByte(bytes[1]) + EncodeByte(bytes[2])
    ensures |bytes| == 4 ==>
      EncodeBytes(bytes) == EncodeByte(bytes[0]) + EncodeByte(bytes[1]) + EncodeByte(bytes[2]) + EncodeByte(bytes[3])
  {
    hide EncodeByte;
    if |bytes| >= 2 { assert bytes[1..][0] == bytes[1]; }
    if |bytes| >= 3 { assert bytes[1..][1..][0] == bytes[2]; }
    if |bytes| == 4 { assert bytes[1..][1..][1..][0] == bytes[3]; }
  }

  /** What is written for the code point at `i`; the source has one case for each length. */
  method EscapeCodePoint(cp: int) returns (out: seq<Unit>)
    requires IsScalar(cp) && !NoEscape(cp)
    ensures out == EncodeBytes(Utf8(cp))
  {
    EncodeBytesUnfolds(Utf8(cp));
    if cp < 0x80 {
      out := Escape(cp);
    } else if cp < 0x800 {
      out := Escape(0xC0 + cp / 0x40) + Escape(0x80 + cp % 0x40);
    } else if cp < 0x1_0000 {
      out := Escape(0xE0 + cp / 0x1000) + Escape(0x80 + cp / 0x40 % 0x40) + Escape(0x80 + cp % 0x40);
    } else {
      out := Escape(0xF0 + cp / 0x4_0000) + Escape(0x80 + cp / 0x1000 % 0x40) + Escape(0x80 + cp / 0x40 % 0x40)
             + Escape(0x80 + cp % 0x40);
    }
  }

  /** A unit that needs no escape joins the run before it. */
  lemma RunGrows(out: seq<Unit>, str: seq<Unit>, lastPos: nat, i: nat)
    requires lastPos <= i < |str| && NoEscape(str[i])
    ensures Text(out, str[lastPos..i + 1], Encode(str[i + 1..])) == Text(out, str[lastPos..i], Encode(str[i..]))
  {
    EncodeUnfolds(str, i);
    EncodeBytesUnfolds([str[i]]);
    assert Encode(str[i..]) == [str[i]] + Encode(str[i + 1..]);
    hide Encode;
    assert str[lastPos..i + 1] == str[lastPos..i] + [str[i]];
    assert str[lastPos..i] + [str[i]] + Encode(str[i + 1..]) == str[lastPos..i] + ([str[i]] + Encode(str[i + 1..]));
  }

  /** What is written, what is to be copied, and what is to be encoded. */
  function Text(out: seq<Unit>, run: seq<Unit>, rest: seq<Unit>): seq<Unit> { out + (run + rest) }

  lemma Emits(out: seq<Unit>, run: seq<Unit>, escaped: seq<Unit>, rest: seq<Unit>)
    ensures Text(out + run + escaped, [], rest) == Text(out, run, escaped + rest)
    ensures Text(out, run, escaped) == out + run + escaped
  {}

  /** The code point at `i`, and the index of its last unit. */
  method EncodeAt(str: seq<Unit>, i: nat) returns (escaped: seq<Unit>, last: nat)
    requires i < |str| && !NoEscape(str[i])
    ensures i <= last <= |str| && IsEscaped(str, i, escaped, last)
  {
    EncodeUnfolds(str, i);
    var c: int := str[i];
    last := i;
    if IsSurrogate(c) {
      last := i + 1;
      c := Combine(c, if last < |str| then str[last] else 0);
    }
    assert First(str[i..]) == (c, if last < |str| then last + 1 - i else |str| - i);
    hide Encode, First, Combine;
    escaped := EscapeCodePoint(c);
    NothingLeft(str, escaped);
  }

  lemma NothingLeft(str: seq<Unit>, escaped: seq<Unit>)
    ensures escaped + Encode(str[|str|..]) == escaped
  {}

  /** The code point at `i` is written as `escaped`; its last unit is at `last`. */
  predicate IsEscaped(str: seq<Unit>, i: nat, escaped: seq<Unit>, last: nat) {
    && i <= last <= |str|
    && Encode(str[i..]) == if last < |str| then escaped + Encode(str[last + 1..]) else escaped
  }

  /** What is written after the run and the escape are. */
  function Flushed(out: seq<Unit>, str: seq<Unit>, lastPos: nat, i: nat, escaped: seq<Unit>): seq<Unit>
    requires lastPos <= i <= |str|
  {
    out + str[lastPos..i] + escaped
  }

  /** What is written at the end. */
  function Flush(out: seq<Unit>, str: seq<Unit>, lastPos: nat): seq<Unit> {
    if lastPos <= |str| then out + str[lastPos..] else out
  }

  /** Copies the run before a unit that needs escaping, and adds the escape. */
  method CopyRun(out: seq<Unit>, str: seq<Unit>, lastPos: nat, i: nat, escaped: seq<Unit>) returns (r: seq<Unit>)
    requires lastPos <= i <= |str|
    ensures r == Flushed(out, str, lastPos, i, escaped)
  {
    r := out;
    if lastPos < i {
      r := r + str[lastPos..i];
    }
    r := r + escaped;
  }

  /** What encodeStr returns, after its loop. */
  method Finish(out: seq<Unit>, str: seq<Unit>, lastPos: nat) returns (r: seq<Unit>)
    requires lastPos == 0 ==> out == []
    ensures r == Flush(out, str, lastPos)
  {
    if lastPos == 0 {
      return str;
    }
    if lastPos < |str| {
      return out + str[lastPos..];
    }
    return out;
  }

  /** The state of the loop: all of the text is written, in the run, or still to be encoded. */
  predicate Sofar(str: seq<Unit>, out: seq<Unit>, lastPos: nat, i: nat) {
    && (lastPos == 0 ==> out == [])
    && if i <= |str| then lastPos <= i && Text(out, str[lastPos..i], Encode(str[i..])) == Encode(str)
       else lastPos == i && out == Encode(str)
  }

  lemma SofarMeans(str: seq<Unit>, out: seq<Unit>, lastPos: nat, i: nat)
    requires Sofar(str, out, lastPos, i)
    ensures lastPos <= i && (lastPos == 0 ==> out == [])
  {}

  lemma Starts(str: seq<Unit>)
    ensures Sofar(str, [], 0, 0)
  {
    assert str[0..] == str;
  }

  lemma Skips(str: seq<Unit>, out: seq<Unit>, lastPos: nat, i: nat)
    requires i < |str| && Sofar(str, out, lastPos, i) && NoEscape(str[i])
    ensures Sofar(str, out, lastPos, i + 1)
  {
    RunGrows(out, str, lastPos, i);
  }

  lemma Escapes(str: seq<Unit>, out: seq<Unit>, lastPos: nat, i: nat, escaped: seq<Unit>, last: nat)
    requires lastPos <= i < |str| && Sofar(str, out, lastPos, i) && IsEscaped(str, i, escaped, last)
    ensures Sofar(str, Flushed(out, str, lastPos, i, escaped), last + 1, last + 1)
  {
    Emits(out, str[lastPos..i], escaped, if last < |str| then Encode(str[last + 1..]) else []);
    hide Text, Encode;
    if last < |str| { assert str[last + 1..last + 1] == []; }
  }

  lemma Ends(str: seq<Unit>, out: seq<Unit>, lastPos: nat, i: nat)
    requires i >= |str| && Sofar(str, out, lastPos, i)
    ensures Encode(str) == Flush(out, str, lastPos)
  {
    if i == |str| {
      assert Encode(str[i..]) == [];
      assert str[lastPos..i] == str[lastPos..];
    }
    hide Encode;
  }

  /** encodeStr: runs of units that need no escape are copied late, from `lastPos` on. */
  method EncodeStr(str: seq<Unit>) returns (r: seq<Unit>)
    ensures r == Encode(str)
  {
    var len := |str|;
    if len == 0 {
      return [];
    }
    var out: seq<Unit> := [];
    var lastPos: nat, i: nat := 0, 0;
    Starts(str);
    hide *;
    while i < len
      invariant Sofar(str, out, lastPos, i)
      decreases len + 1 - i
    {
      SofarMeans(str, out, lastPos, i);
      if NoEscape(str[i]) {
        Skips(str, out, lastPos, i);
        i := i + 1;
        continue;
      }
      var escaped, last := EncodeAt(str, i);
      Escapes(str, out, lastPos, i, escaped, last);
      out := CopyRun(out, str, lastPos, i, escaped);
      i, lastPos := last + 1, last + 1;
    }
    SofarMeans(str, out, lastPos, i);
    Ends(str, out, lastPos, i);
    r := Finish(out, str, lastPos);
  }

  // ---- decodeURIComponent ------------------------------------------------------------------

  function HexValue(u: int): (d: Option<int>)
    ensures d.Some? ==> 0 <= d.value < 16
  {
    if 0x30 <= u <= 0x39 then Some(u - 0x30)
    else if 0x41 <= u <= 0x46 then Some(u - 0x41 + 10)
    else if 0x61 <= u <= 0x66 then Some(u - 0x61 + 10)
    else None
  }

  /** The byte of the escape at the start. */
  function ReadEscape(s: seq<Unit>): Option<Byte> {
    if |s| < 3 || s[0] != PERCENT || HexValue(s[1]) == None || HexValue(s[2]) == None then None
    else Some(HexValue(s[1]).value * 16 + HexValue(s[2]).value)
  }

  /** The bytes of `n` escapes in a row. */
  function ReadEscapes(s: seq<Unit>, n: nat): (r: Option<seq<Byte>>)
    ensures r.Some? ==> |r.value| == n && 3 * n <= |s|
  {
    if n == 0 then Some([])
    else
      match ReadEscape(s)
      case None => None
      case Some(b) =>
        match ReadEscapes(s[3..], n - 1)
        case None => None
        case Some(rest) => Some([b] + rest)
  }

  /** How long a UTF-8 sequence is that starts with `b`; 0 when none does. */
  function SequenceLength(b: Byte): nat {
    if b < 0x80 then 1
    else if b < 0xC0 then 0
    else if b < 0xE0 then 2
    else if b < 0xF0 then 3
    else if b < 0xF8 then 4
    else 0
  }

  function Prepend(units: seq<Unit>, rest: Option<seq<Unit>>): Option<seq<Unit>> {
    match rest
    case None => None
    case Some(t) => Some(units + t)
  }

  /** decodeURIComponent; None is its URIError. */
  function Decode(s: seq<Unit>): Option<seq<Unit>>
    decreases |s|
  {
    if s == [] then Some([])
    else if s[0] != PERCENT then Prepend([s[0]], Decode(s[1..]))
    else
      match ReadEscape(s)
      case None => None
      case Some(b) =>
        var n := SequenceLength(b);
        if n == 0 then None
        else
          match ReadEscapes(s, n)
          case None => None
          case Some(bytes) =>
            match FromUtf8(bytes)
            case None => None
            case Some(cp) => if IsScalar(cp) then Prepend(Utf16(cp), Decode(s[3 * n..])) else None
  }

  /** Every plus replaced by a space. */
  function Spaces(s: seq<Unit>): (r: seq<Unit>)
    ensures |r| == |s| && forall i :: 0 <= i < |s| ==> r[i] == if s[i] == PLUS then SPACE else s[i]
  {
    seq(|s|, i requires 0 <= i < |s| => if s[i] == PLUS then SPACE else s[i])
  }

  lemma SpacesConcat(a: seq<Unit>, b: seq<Unit>)
    ensures Spaces(a + b) == Spaces(a) + Spaces(b)
  {}

  // ---- decoding undoes encoding --------------------------------------------------------------

  function PercentByte(b: Byte): seq<Unit> { [PERCENT, HexDigit(b / 16), HexDigit(b % 16)] }

  function PercentBytes(bytes: seq<Byte>): seq<Unit> {
    if bytes == [] then [] else PercentByte(bytes[0]) + PercentBytes(bytes[1..])
  }

  lemma EscapeIsRead(b: Byte, rest: seq<Unit>)
    ensures ReadEscape(PercentByte(b) + rest) == Some(b) && (PercentByte(b) + rest)[3..] == rest
    ensures (PercentByte(b) + rest)[0] == PERCENT
  {}

  lemma {:induction false} EscapesAreRead(bytes: seq<Byte>, rest: seq<Unit>)
    ensures ReadEscapes(PercentBytes(bytes) + rest, |bytes|) == Some(bytes)
    ensures |PercentBytes(bytes)| == 3 * |bytes| && (PercentBytes(bytes) + rest)[3 * |bytes|..] == rest
  {
    if bytes == [] {
      assert [] + rest == rest;
    } else {
      var b, tail := bytes[0], PercentBytes(bytes[1..]);
      EscapesAreRead(bytes[1..], rest);
      EscapeIsRead(b, tail + rest);
      assert PercentBytes(bytes) + rest == PercentByte(b) + (tail + rest);
      assert [b] + bytes[1..] == bytes;
    }
  }

  /** An escaped code point is read back. */
  lemma EscapedIsRead(cp: int, rest: seq<Unit>)
    requires IsScalar(cp)
    ensures Decode(PercentBytes(Utf8(cp)) + rest) == Prepend(Utf16(cp), Decode(rest))
  {
    var bytes := Utf8(cp);
    var s := PercentBytes(bytes) + rest;
    EscapesAreRead(bytes, rest);
    Utf8Decodes(cp);
    FirstEscape(bytes, rest);
    assert SequenceLength(bytes[0]) == |bytes|;
    hide ReadEscape, ReadEscapes, PercentBytes, FromUtf8, Utf8, Utf16, SequenceLength;
    assert s[0] == PERCENT;
  }

  lemma FirstEscape(bytes: seq<Byte>, rest: seq<Unit>)
    requires bytes != []
    ensures var s := PercentBytes(bytes) + rest; s != [] && s[0] == PERCENT && ReadEscape(s) == Some(bytes[0])
  {
    var tail := PercentBytes(bytes[1..]);
    EscapeIsRead(bytes[0], tail + rest);
    assert PercentBytes(bytes) + rest == PercentByte(bytes[0]) + (tail + rest);
  }

  lemma PlainIsRead(u: Unit, rest: seq<Unit>)
    requires u != PERCENT
    ensures Decode([u] + rest) == Prepend([u], Decode(rest))
  {
    assert ([u] + rest)[1..] == rest;
  }

  /** What the encoder writes for a code point: itself, a plus, or escapes. */
  lemma EncodedForms(cp: int)
    requires IsScalar(cp)
    ensures Spaces(EncodeBytes(Utf8(cp))) == if NoEscape(cp) || cp == SPACE then [cp] else PercentBytes(Utf8(cp))
  {
    var bytes := Utf8(cp);
    EncodeBytesUnfolds(bytes);
    if cp < 0x80 {
      assert bytes == [cp];
      assert PercentBytes(bytes) == PercentByte(cp) + [];
    } else {
      HighBytes(cp);
      hide Utf8;
      HighBytesArePercent(bytes);
    }
  }

  lemma HighBytes(cp: int)
    requires IsScalar(cp) && cp >= 0x80
    ensures forall i :: 0 <= i < |Utf8(cp)| ==> Utf8(cp)[i] >= 0x80
  {}

  lemma {:induction false} HighBytesArePercent(bytes: seq<Byte>)
    requires forall i :: 0 <= i < |bytes| ==> bytes[i] >= 0x80
    ensures EncodeBytes(bytes) == PercentBytes(bytes) && Spaces(PercentBytes(bytes)) == PercentBytes(bytes)
  {
    if bytes != [] {
      HighBytesArePercent(bytes[1..]);
      SpacesConcat(PercentByte(bytes[0]), PercentBytes(bytes[1..]));
      assert Spaces(PercentByte(bytes[0])) == PercentByte(bytes[0]);
    }
  }

  lemma FirstOfWellFormed(s: seq<Unit>)
    requires s != [] && WellFormed(s)
    ensures var (cp, n) := First(s);
            s == Utf16(cp) + s[n..] && WellFormed(s[n..]) && (cp < 0x1_0000 ==> Utf16(cp) == [cp])
  {}

  /** Decoding what was encoded gives back a well-formed string. */
  lemma {:induction false} EncodedIsRead(s: seq<Unit>)
    requires WellFormed(s)
    ensures Decode(Spaces(Encode(s))) == Some(s)
    decreases |s|
  {
    if s == [] {
      assert Spaces([]) == [];
    } else {
      var (cp, n) := First(s);
      var rest := s[n..];
      FirstOfWellFormed(s);
      hide Decode, Utf8, Utf16, Spaces, EncodeBytes, NoEscape, First, WellFormed, PercentBytes;
      EncodedIsRead(rest);
      EncodedForms(cp);
      SpacesConcat(EncodeBytes(Utf8(cp)), Encode(rest));
      if NoEscape(cp) || cp == SPACE {
        PlainIsRead(cp, Spaces(Encode(rest)));
      } else {
        EscapedIsRead(cp, Spaces(Encode(rest)));
      }
    }
  }

  // ---- decoding keeps strings well-formed ------------------------------------------------------

  /** Escapes are no surrogates. */
  lemma {:induction false} EscapesWellFormed(s: seq<Unit>, n: nat)
    requires ReadEscapes(s, n).Some?
    ensures WellFormed(s) <==> WellFormed(s[3 * n..])
  {
    if n > 0 {
      EscapesWellFormed(s[3..], n - 1);
      assert s[1..][1..] == s[2..] && s[2..][1..] == s[3..] && s[3..][3 * (n - 1)..] == s[3 * n..];
      assert WellFormed(s) <==> WellFormed(s[1..]);
      assert WellFormed(s[1..]) <==> WellFormed(s[2..]);
    } else {
      assert s[3 * n..] == s;
    }
  }

  /** What an escape at the start of `s` stands for, and what comes after it. */
  lemma EscapeDecodes(s: seq<Unit>) returns (cp: int, rest: seq<Unit>)
    requires s != [] && s[0] == PERCENT && Decode(s).Some?
    ensures IsScalar(cp) && |rest| < |s| && Decode(rest).Some? && Decode(s).value == Utf16(cp) + Decode(rest).value
    ensures WellFormed(s) <==> WellFormed(rest)
  {
    var n := SequenceLength(ReadEscape(s).value);
    cp, rest := FromUtf8(ReadEscapes(s, n).value).value, s[3 * n..];
    EscapesWellFormed(s, n);
  }

  lemma LowComesFirst(s: seq<Unit>)
    requires s != [] && Decode(s).Some? && Decode(s).value != []
    ensures IsLow(Decode(s).value[0]) <==> IsLow(s[0])
  {
    if s[0] == PERCENT {
      var cp, rest := EscapeDecodes(s);
      hide Decode;
    }
  }

  lemma SurrogatePair(a: Unit, b: Unit, rest: seq<Unit>)
    requires IsHigh(a)
    ensures WellFormed([a] + ([b] + rest)) <==> IsLow(b) && WellFormed(rest)
  {
    var s := [a] + ([b] + rest);
    assert s[0] == a && s[1] == b && s[2..] == rest;
  }

  /** Decoding neither makes a lone surrogate nor takes one away. */
  lemma {:induction false} DecodedIsWellFormed(s: seq<Unit>)
    requires Decode(s).Some?
    ensures WellFormed(Decode(s).value) <==> WellFormed(s)
    decreases |s|
  {
    if s != [] {
      if s[0] == PERCENT {
        var cp, rest := EscapeDecodes(s);
        hide Decode, WellFormed, Utf16;
        DecodedIsWellFormed(rest);
        Utf16IsWellFormed(cp, Decode(rest).value);
      } else if !IsSurrogate(s[0]) {
        DecodedIsWellFormed(s[1..]);
        Utf16IsWellFormed(s[0], Decode(s[1..]).value);
      } else if IsHigh(s[0]) && |s| > 1 {
        HighDecodes(s);
        if IsLow(s[1]) { DecodedIsWellFormed(s[2..]); }
      }
    }
  }

  lemma HighDecodes(s: seq<Unit>)
    requires |s| > 1 && IsHigh(s[0]) && Decode(s).Some?
    ensures IsLow(s[1]) ==> Decode(s[2..]).Some? && (WellFormed(Decode(s).value) <==> WellFormed(Decode(s[2..]).value))
    ensures !IsLow(s[1]) ==> !WellFormed(Decode(s).value)
  {
    var rest := Decode(s[1..]).value;
    assert s[1..][1..] == s[2..];
    if IsLow(s[1]) {
      SurrogatePair(s[0], s[1], Decode(s[2..]).value);
    } else if rest != [] {
      LowComesFirst(s[1..]);
      assert ([s[0]] + rest)[1] == rest[0];
    }
  }

  // ---- lists of pairs --------------------------------------------------------------------------

  type Pair = (seq<Unit>, seq<Unit>)

  predicate PairWellFormed(p: Pair) { WellFormed(p.0) && WellFormed(p.1) }

  function EncodePair(p: Pair): seq<Unit> { Encode(p.0) + [EQUALS] + Encode(p.1) }

  function EncodePairs(list: seq<Pair>): (parts: seq<seq<Unit>>)
    ensures |parts| == |list|
  {
    if list == [] then [] else EncodePairs(list[..|list| - 1]) + [EncodePair(list[|list| - 1])]
  }

  function Serialize(list: seq<Pair>): seq<Unit> { Join(EncodePairs(list), AMPERSAND) }

  method SerializeSearchParams(list: seq<Pair>) returns (output: seq<Unit>)
    ensures output == Serialize(list)
  {
    if |list| == 0 {
      return [];
    }
    output := [];
    assert list[..0] == [];
    for i := 0 to |list|
      invariant output == Serialize(list[..i])
    {
      assert list[..i + 1][..i] == list[..i];
      var encodedParam := EncodeStr(list[i].0);
      var encodedValue := EncodeStr(list[i].1);
      JoinAppend(EncodePairs(list[..i]), EncodePair(list[i]), AMPERSAND);
      output := output + (if i == 0 then [] else [AMPERSAND]) + (encodedParam + [EQUALS] + encodedValue);
    }
    assert list[..|list|] == list;
  }

  /** The name and the value of one part; what follows a second '=' is dropped. */
  function NameAndValue(part: seq<Unit>): Pair {
    var pieces := Split(part, EQUALS);
    (pieces[0], if |pieces| > 1 then pieces[1] else [])
  }

  function ParsePair(part: seq<Unit>): Option<Pair> {
    var (name, value) := NameAndValue(part);
    match Decode(Spaces(name))
    case None => None
    case Some(n) =>
      match Decode(Spaces(value))
      case None => None
      case Some(v) => Some((n, v))
  }

  function ParseParts(parts: seq<seq<Unit>>): Option<seq<Pair>> {
    if parts == [] then Some([])
    else
      match ParseParts(parts[..|parts| - 1])
      case None => None
      case Some(list) =>
        var part := parts[|parts| - 1];
        if part == [] then Some(list)
        else
          match ParsePair(part)
          case None => None
          case Some(p) => Some(list + [p])
  }

  function Parse(input: seq<Unit>): Option<seq<Pair>> { ParseParts(Split(input, AMPERSAND)) }

  lemma {:induction false} NothingAfterFailure(parts: seq<seq<Unit>>, k: nat)
    requires k <= |parts| && ParseParts(parts[..k]) == None
    ensures ParseParts(parts) == None
  {
    hide ParsePair;
    if k == |parts| {
      assert parts[..k] == parts;
    } else {
      var n := |parts| - 1;
      assert parts[..n][..k] == parts[..k];
      NothingAfterFailure(parts[..n], k);
    }
  }

  /** parseParams; None is the URIError it throws. */
  method ParseParams(input: seq<Unit>) returns (output: Option<seq<Pair>>)
    ensures output == Parse(input)
  {
    var sequences := Split(input, AMPERSAND);
    var list: seq<Pair> := [];
    assert sequences[..0] == [];
    for i := 0 to |sequences|
      invariant ParseParts(sequences[..i]) == Some(list)
    {
      var bytes := sequences[i];
      assert sequences[..i + 1][..i] == sequences[..i];
      if bytes == [] {
        continue;
      }
      var pieces := Split(bytes, EQUALS);
      var name, value := pieces[0], [];
      if |pieces| > 1 {
        value := pieces[1];
      }
      var nameString := Decode(Spaces(name));
      if nameString == None {
        NothingAfterFailure(sequences, i + 1);
        return None;
      }
      var valueString := Decode(Spaces(value));
      if valueString == None {
        NothingAfterFailure(sequences, i + 1);
        return None;
      }
      list := list + [(nameString.value, valueString.value)];
    }
    assert sequences[..|sequences|] == sequences;
    output := Some(list);
  }

  // ---- the round trip --------------------------------------------------------------------------

  /** The units that encoded text is made of: none of them separates. */
  predicate IsSafe(u: int) { NoEscape(u) || u == PLUS || u == PERCENT }

  predicate AllSafe(s: seq<Unit>) { forall i :: 0 <= i < |s| ==> IsSafe(s[i]) }

  lemma {:induction false} EncodedBytesAreSafe(bytes: seq<Byte>)
    ensures AllSafe(EncodeBytes(bytes))
  {
    if bytes != [] { EncodedBytesAreSafe(bytes[1..]); }
  }

  lemma {:induction false} EncodedIsSafe(s: seq<Unit>)
    ensures AllSafe(Encode(s))
    decreases |s|
  {
    if s != [] {
      var (cp, n) := First(s);
      EncodedBytesAreSafe(Utf8(cp));
      EncodedIsSafe(s[n..]);
    }
  }

  lemma {:induction false} SafeIsFree(s: seq<Unit>)
    requires AllSafe(s)
    ensures Free(s, AMPERSAND) && Free(s, EQUALS) && WellFormed(Spaces(s))
  {
    if s != [] {
      SafeIsFree(s[1..]);
      assert Spaces(s)[1..] == Spaces(s[1..]);
    }
  }

  lemma EncodedPairSplits(p: Pair)
    ensures Free(EncodePair(p), AMPERSAND) && NameAndValue(EncodePair(p)) == (Encode(p.0), Encode(p.1))
  {
    var name, value := Encode(p.0), Encode(p.1);
    EncodedIsSafe(p.0);
    EncodedIsSafe(p.1);
    SafeIsFree(name);
    SafeIsFree(value);
    SplitStarts(name, EQUALS, value);
    SplitOne(value, EQUALS);
  }

  /** A pair comes back exactly when its strings have no lone surrogate. */
  lemma PairRoundTrip(p: Pair)
    ensures ParsePair(EncodePair(p)) == Some(p) <==> PairWellFormed(p)
  {
    EncodedPairSplits(p);
    EncodedIsSafe(p.0);
    EncodedIsSafe(p.1);
    SafeIsFree(Encode(p.0));
    SafeIsFree(Encode(p.1));
    if PairWellFormed(p) {
      EncodedIsRead(p.0);
      EncodedIsRead(p.1);
    }
    if ParsePair(EncodePair(p)) == Some(p) {
      DecodedIsWellFormed(Spaces(Encode(p.0)));
      DecodedIsWellFormed(Spaces(Encode(p.1)));
    }
  }

  predicate ListWellFormed(list: seq<Pair>) { forall i :: 0 <= i < |list| ==> PairWellFormed(list[i]) }

  lemma PartsUnfold(parts: seq<seq<Unit>>, part: seq<Unit>)
    requires part != []
    ensures ParseParts(parts + [part]) ==
              if ParseParts(parts) == None || ParsePair(part) == None then None
              else Some(ParseParts(parts).value + [ParsePair(part).value])
  {
    assert (parts + [part])[..|parts|] == parts;
  }

  lemma PairsUnfold(init: seq<Pair>, last: Pair)
    ensures EncodePairs(init + [last]) == EncodePairs(init) + [EncodePair(last)] && EncodePair(last) != []
    ensures ListWellFormed(init + [last]) <==> ListWellFormed(init) && PairWellFormed(last)
  {
    assert (init + [last])[..|init|] == init;
    hide EncodePairs, PairWellFormed;
    if ListWellFormed(init + [last]) {
      forall i | 0 <= i < |init| ensures PairWellFormed(init[i]) { assert (init + [last])[i] == init[i]; }
      assert (init + [last])[|init|] == last;
    }
  }

  lemma {:induction false} PartsRoundTrip(list: seq<Pair>)
    ensures ParseParts(EncodePairs(list)).Some? ==> |ParseParts(EncodePairs(list)).value| == |list|
    ensures ParseParts(EncodePairs(list)) == Some(list) <==> ListWellFormed(list)
  {
    if list != [] {
      var init, last := list[..|list| - 1], list[|list| - 1];
      assert list == init + [last];
      PartsRoundTrip(init);
      PairRoundTrip(last);
      hide *;
      PairsUnfold(init, last);
      PartsUnfold(EncodePairs(init), EncodePair(last));
      if ParseParts(EncodePairs(list)).Some? {
        SameEnds(ParseParts(EncodePairs(init)).value, ParsePair(EncodePair(last)).value, init, last);
      }
    }
  }

  lemma SameEnds(a: seq<Pair>, x: Pair, b: seq<Pair>, y: Pair)
    requires |a| == |b|
    ensures a + [x] == b + [y] <==> a == b && x == y
  {
    if a + [x] == b + [y] {
      assert (a + [x])[..|a|] == a && (b + [y])[..|b|] == b;
      assert (a + [x])[|a|] == x && (b + [y])[|b|] == y;
    }
  }

  /** parseParams of what serializeSearchParams prints is the list itself, exactly when no
      string of the list has a lone surrogate. */
  lemma SearchParamsRoundTrip(list: seq<Pair>)
    ensures Parse(Serialize(list)) == Some(list) <==> ListWellFormed(list)
  {
    PartsRoundTrip(list);
    if list == [] {
      var parts: seq<seq<Unit>> := [[]];
      assert Split([], AMPERSAND) == parts && parts[..0] == [];
      assert ParseParts(parts) == Some([]);
    } else {
      forall i | 0 <= i < |list| ensures Free(EncodePairs(list)[i], AMPERSAND) {
        PartIs(list, i);
        EncodedPairSplits(list[i]);
      }
      SplitJoin(EncodePairs(list), AMPERSAND);
    }
  }

  lemma {:induction false} PartIs(list: seq<Pair>, i: nat)
    requires i < |list|
    ensures EncodePairs(list)[i] == EncodePair(list[i])
  {
    if i < |list| - 1 { PartIs(list[..|list| - 1], i); }
  }
}
