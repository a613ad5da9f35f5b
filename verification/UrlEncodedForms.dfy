/** The texts of application/x-www-form-urlencoded data: which characters stand for themselves, what
    an escape looks like, what decodeURIComponent accepts, and how a query falls into pairs. */
module UrlEncodedForms {
  import opened Wrappers
  import opened Unicode
  import opened Splitting
  import opened UrlEncoded

  // ---- characters ------------------------------------------------------------------------

  /** The characters that the encoder leaves as they are. */
  lemma UnescapedAre(c: char)
    ensures NoEscape(c as int) <==> '0' <= c <= '9' || 'A' <= c <= 'Z' || 'a' <= c <= 'z' || c in "*-._"
  {
    assert "*-._"[0] == '*' && "*-._"[1] == '-' && "*-._"[2] == '.' && "*-._"[3] == '_';
  }

  /** Any other byte becomes a percent sign and two digits in upper case, but for the space, which
      becomes a plus. */
  lemma EscapesAre(b: Byte)
    ensures Escape(b) == if b == ' ' as int then ['+' as int]
                         else ['%' as int, "0123456789ABCDEF"[b / 16] as int, "0123456789ABCDEF"[b % 16] as int]
  {
    UpperDigit(b / 16);
    UpperDigit(b % 16);
  }

  lemma UpperDigit(d: int)
    requires 0 <= d < 16
    ensures HexDigit(d) == "0123456789ABCDEF"[d] as int
  {
    if d < 10 {
      assert "0123456789ABCDEF"[d] as int == 0x30 + d;
    } else {
      assert "0123456789ABCDEF"[d] as int == 0x41 + d - 10;
    }
  }

  /** Escapes are read with digits in either case. */
  lemma EscapeDigitsAre(d: int)
    requires 0 <= d < 16
    ensures HexValue("0123456789ABCDEF"[d] as int) == HexValue("0123456789abcdef"[d] as int) == Some(d)
  {
    UpperDigit(d);
    if d < 10 {
      assert "0123456789abcdef"[d] as int == 0x30 + d;
    } else {
      assert "0123456789abcdef"[d] as int == 0x61 + d - 10;
    }
  }

  // ---- what decodeURIComponent accepts -----------------------------------------------------

  /** A unit that stands for itself, or the escapes of one code point, each as its two digits. */
  datatype Item = Plain(u: Unit) | Escapes(digits: seq<(Unit, Unit)>) {
    predicate Valid() {
      match this
      case Plain(u) => u != PERCENT
      case Escapes(digits) => AreDigits(digits) && FromUtf8(BytesOf(digits)).Some?
    }

    function Text(): seq<Unit> {
      match this
      case Plain(u) => [u]
      case Escapes(digits) => Percents(digits)
    }

    function Meaning(): seq<Unit>
      requires Valid()
    {
      match this
      case Plain(u) => [u]
      case Escapes(digits) =>
        Utf8IsExact(BytesOf(digits), FromUtf8(BytesOf(digits)).value);
        Utf16(FromUtf8(BytesOf(digits)).value)
    }
  }

  predicate AreDigits(digits: seq<(Unit, Unit)>) {
    forall i :: 0 <= i < |digits| ==> HexValue(digits[i].0).Some? && HexValue(digits[i].1).Some?
  }

  function BytesOf(digits: seq<(Unit, Unit)>): (bytes: seq<Byte>)
    requires AreDigits(digits)
    ensures |bytes| == |digits|
  {
    if digits == [] then []
    else [HexValue(digits[0].0).value * 16 + HexValue(digits[0].1).value] + BytesOf(digits[1..])
  }

  function Percents(digits: seq<(Unit, Unit)>): (s: seq<Unit>)
    ensures |s| == 3 * |digits|
  {
    if digits == [] then [] else [PERCENT, digits[0].0, digits[0].1] + Percents(digits[1..])
  }

  predicate AllItems(items: seq<Item>) { forall i :: 0 <= i < |items| ==> items[i].Valid() }

  function TextOf(items: seq<Item>): seq<Unit> {
    if items == [] then [] else items[0].Text() + TextOf(items[1..])
  }

  function MeaningOf(items: seq<Item>): seq<Unit>
    requires AllItems(items)
  {
    if items == [] then [] else items[0].Meaning() + MeaningOf(items[1..])
  }

  lemma {:induction false} PercentsAreRead(digits: seq<(Unit, Unit)>, rest: seq<Unit>)
    requires AreDigits(digits)
    ensures var s := Percents(digits) + rest;
            ReadEscapes(s, |digits|) == Some(BytesOf(digits)) && s[3 * |digits|..] == rest
    ensures digits != [] ==>
              var s := Percents(digits) + rest; s[0] == PERCENT && ReadEscape(s) == Some(BytesOf(digits)[0])
  {
    var s := Percents(digits) + rest;
    if digits == [] {
      assert s == rest;
    } else {
      PercentsAreRead(digits[1..], rest);
      assert s[3..] == Percents(digits[1..]) + rest;
      assert s[0] == PERCENT && s[1] == digits[0].0 && s[2] == digits[0].1;
      assert s[3 * |digits|..] == s[3..][3 * (|digits| - 1)..];
    }
  }

  lemma LengthIsKnown(bytes: seq<Byte>)
    requires FromUtf8(bytes).Some?
    ensures 0 < |bytes| && SequenceLength(bytes[0]) == |bytes| && IsScalar(FromUtf8(bytes).value)
  {
    Utf8IsExact(bytes, FromUtf8(bytes).value);
  }

  lemma ItemIsRead(item: Item, rest: seq<Unit>)
    requires item.Valid()
    ensures Decode(item.Text() + rest) == Prepend(item.Meaning(), Decode(rest))
  {
    match item
    case Plain(u) => PlainIsRead(u, rest);
    case Escapes(digits) =>
      LengthIsKnown(BytesOf(digits));
      PercentsAreRead(digits, rest);
      hide FromUtf8, ReadEscape, ReadEscapes, BytesOf, Percents, Utf16, SequenceLength, IsScalar;
  }

  lemma {:induction false} ItemsAreRead(items: seq<Item>)
    requires AllItems(items)
    ensures Decode(TextOf(items)) == Some(MeaningOf(items))
  {
    if items != [] {
      ItemsAreRead(items[1..]);
      ItemIsRead(items[0], TextOf(items[1..]));
    }
  }

  /** The digits of `n` escapes. */
  lemma {:induction false} DigitsOf(s: seq<Unit>, n: nat) returns (digits: seq<(Unit, Unit)>)
    requires ReadEscapes(s, n).Some?
    ensures |digits| == n && AreDigits(digits) && BytesOf(digits) == ReadEscapes(s, n).value
    ensures s == Percents(digits) + s[3 * n..]
  {
    digits := [];
    if n > 0 {
      var rest := DigitsOf(s[3..], n - 1);
      digits := [(s[1], s[2])] + rest;
      assert digits[1..] == rest;
      assert s[3 * n..] == s[3..][3 * (n - 1)..];
      assert s == [s[0], s[1], s[2]] + s[3..];
    } else {
      assert s == s[0..];
    }
  }

  lemma {:induction false} AcceptedIsItems(s: seq<Unit>) returns (items: seq<Item>)
    requires Decode(s).Some?
    ensures AllItems(items) && TextOf(items) == s && MeaningOf(items) == Decode(s).value
    decreases |s|
  {
    items := [];
    if s != [] {
      var first: Item, rest: seq<Unit>;
      if s[0] != PERCENT {
        first, rest := Plain(s[0]), s[1..];
        assert s == [s[0]] + rest;
      } else {
        var n := SequenceLength(ReadEscape(s).value);
        var digits := DigitsOf(s, n);
        first, rest := Escapes(digits), s[3 * n..];
      }
      assert first.Valid() && Decode(rest).Some? && s == first.Text() + rest;
      ItemIsRead(first, rest);
      var later := AcceptedIsItems(rest);
      items := [first] + later;
      assert items[1..] == later;
    }
  }

  /** decodeURIComponent returns `t` exactly if its argument is made of units other than the percent sign
      and of escapes of code points, one after the other, that stand for `t`; and so it throws exactly
      if it is not. */
  lemma DecodedExactly(s: seq<Unit>, t: seq<Unit>)
    ensures Decode(s) == Some(t)
            <==> exists items: seq<Item> :: AllItems(items) && TextOf(items) == s && MeaningOf(items) == t
  {
    if Decode(s) == Some(t) {
      var items := AcceptedIsItems(s);
    }
    forall items: seq<Item> | AllItems(items) && TextOf(items) == s && MeaningOf(items) == t
      ensures Decode(s) == Some(t)
    {
      ItemsAreRead(items);
    }
  }

  // ---- pairs -----------------------------------------------------------------------------

  /** A part without an equals sign is a name with an empty value; with more than one, what comes from
      the second on is dropped. */
  lemma PartSplits(name: seq<Unit>, value: seq<Unit>, rest: seq<Unit>)
    requires Free(name, EQUALS) && Free(value, EQUALS)
    ensures NameAndValue(name) == (name, [])
    ensures NameAndValue(name + [EQUALS] + value) == (name, value)
    ensures NameAndValue(name + [EQUALS] + (value + [EQUALS] + rest)) == (name, value)
  {
    SplitOne(name, EQUALS);
    SplitOne(value, EQUALS);
    SplitStarts(name, EQUALS, value);
    SplitStarts(name, EQUALS, value + [EQUALS] + rest);
    SplitStarts(value, EQUALS, rest);
  }

  /** The parts that are not empty. */
  function Kept(parts: seq<seq<Unit>>): seq<seq<Unit>> {
    if parts == [] then []
    else Kept(parts[..|parts| - 1]) + if parts[|parts| - 1] == [] then [] else [parts[|parts| - 1]]
  }

  /** Plus signs are spaces, and escapes are read, in name and value alike. */
  predicate IsPair(part: seq<Unit>, p: Pair) {
    var (name, value) := NameAndValue(part);
    Decode(Spaces(name)) == Some(p.0) && Decode(Spaces(value)) == Some(p.1)
  }

  ghost predicate ArePairs(parts: seq<seq<Unit>>, list: seq<Pair>) {
    |list| == |parts| && forall i :: 0 <= i < |parts| ==> IsPair(parts[i], list[i])
  }

  /** A query falls into the parts between its ampersands; the empty ones are skipped, and the others give
      one pair each, in order; if one cannot be decoded there is no result. */
  lemma {:induction false} QueryIsParsed(parts: seq<seq<Unit>>, list: seq<Pair>)
    ensures ParseParts(parts) == Some(list) <==> ArePairs(Kept(parts), list)
  {
    if parts != [] {
      var n := |parts| - 1;
      var part, kept := parts[n], Kept(parts[..n]);
      if part == [] {
        QueryIsParsed(parts[..n], list);
        assert kept + [] == kept;
      } else {
        PairIs(part);
        hide ParsePair, IsPair;
        if ParseParts(parts) == Some(list) {
          QueryIsParsed(parts[..n], ParseParts(parts[..n]).value);
        }
        if ArePairs(Kept(parts), list) {
          var init := list[..|list| - 1];
          assert ArePairs(kept, init) by {
            forall i | 0 <= i < |kept| ensures IsPair(kept[i], init[i]) { assert Kept(parts)[i] == kept[i]; }
          }
          QueryIsParsed(parts[..n], init);
          assert IsPair(Kept(parts)[|kept|], list[|kept|]);
          assert list == init + [list[|init|]];
        }
      }
    }
  }

  lemma PairIs(part: seq<Unit>)
    ensures forall p: Pair :: ParsePair(part) == Some(p) <==> IsPair(part, p)
  {}

  /** For a whole query. */
  lemma QueryPairs(parts: seq<seq<Unit>>, list: seq<Pair>)
    requires parts != [] && forall i :: 0 <= i < |parts| ==> Free(parts[i], AMPERSAND)
    ensures Parse(Join(parts, AMPERSAND)) == Some(list) <==> ArePairs(Kept(parts), list)
  {
    SplitJoin(parts, AMPERSAND);
    QueryIsParsed(parts, list);
  }
}
