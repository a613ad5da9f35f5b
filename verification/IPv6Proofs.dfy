/** The IPv6 parser accepts exactly the texts of IPv6 addresses, and reads off their pieces. */
module IPv6Proofs {
  import opened Wrappers
  import opened Digits
  import opened IPv6Grammar

  // ---- numerals --------------------------------------------------------------------------

  lemma PrefixOf(a: string, b: string, n: nat)
    requires n <= |a|
    ensures (a + b)[..n] == a[..n] && (n == |a| ==> (a + b)[..n] == a) && (a + b)[n..] == a[n..] + b
    ensures n < |a| ==> (a + b)[n] == a[n]
    ensures n == |a| && b != [] ==> (a + b)[n] == b[0]
    ensures (a + b)[|a|..] == b
  {}

  lemma {:induction false} HexRunEnds(s: string, n: nat, max: nat)
    requires n <= max && n <= |s| && AllHex(s[..n])
    requires n == max || n == |s| || !IsHex(s[n])
    ensures HexRun(s, max) == n
  {
    if n > 0 {
      assert s[0] == s[..n][0] && s[1..][..n - 1] == s[..n][1..];
      HexRunEnds(s[1..], n - 1, max - 1);
    }
  }

  /** A group is read whole when something other than a hex digit follows it. */
  lemma HexRunOfGroup(g: string, rest: string)
    requires IsGroup(g) && (rest == "" || !IsHex(rest[0]))
    ensures HexRun(g + rest, 4) == |g| && (g + rest)[..|g|] == g && (g + rest)[|g|..] == rest
  {
    PrefixOf(g, rest, |g|);
    HexRunEnds(g + rest, |g|, 4);
  }

  lemma DigitsAreHex(s: string)
    requires AllDigits(s)
    ensures AllHex(s)
  {}

  lemma ValueOfPrefix(s: string, n: nat, base: nat)
    requires AllHex(s) && n < |s|
    ensures AllHex(s[..n]) && AllHex(s[..n + 1])
    ensures Value(s[..n + 1], base) == Value(s[..n], base) * base + DigitValue(s[n])
  {
    assert s[..n + 1] == s[..n] + [s[n]];
    ValueAppend(s[..n], s[n], base);
  }

  lemma ValueOfOne(s: string, base: nat)
    requires AllHex(s) && |s| > 0
    ensures AllHex(s[..1]) && Value(s[..1], base) == DigitValue(s[0])
  {
    assert s[..0] == "";
    ValueOfPrefix(s, 0, base);
  }

  // ---- octets ------------------------------------------------------------------------------

  /** An octet is read whole when something other than a digit follows it. */
  lemma {:induction false} OctetIsRead(o: string, rest: string, n: nat)
    requires IsOctet(o) && (rest == "" || !IsDigit(rest[0])) && n <= |o|
    ensures AllDigits((o + rest)[..n]) && OctetEnd(o + rest, n) == Some(|o|)
    decreases |o| - n
  {
    PrefixOf(o, rest, n);
    if n < |o| {
      PrefixOf(o, rest, n + 1);
      OctetIsRead(o, rest, n + 1);
      OctetPrefix(o, n);
    }
  }

  lemma OctetPrefix(o: string, n: nat)
    requires IsOctet(o) && n < |o|
    ensures Value(o[..n + 1], 10) <= 255 && (n > 0 ==> Value(o[..n], 10) > 0)
  {
    DigitsAreHex(o);
    assert o[..|o|] == o;
    ValueOfOne(o, 10);
    if |o| > 1 { ValueOfPrefix(o, 1, 10); }
    if |o| > 2 { ValueOfPrefix(o, 2, 10); }
  }

  /** How far into an octet `n` digits can be. */
  predicate OctetSoFar(s: string, n: nat)
    requires n <= |s| && AllDigits(s[..n])
  {
    && n <= 3 && (n > 0 ==> Value(s[..n], 10) <= 255) && (n > 1 ==> s[0] != '0')
    && (n == 2 ==> Value(s[..n], 10) >= 10) && (n == 3 ==> Value(s[..n], 10) >= 100)
  }

  lemma OctetGoesOn(s: string, n: nat)
    requires n < |s| && AllDigits(s[..n]) && OctetSoFar(s, n) && IsDigit(s[n]) && AllDigits(s[..n + 1])
    requires (n > 0 ==> Value(s[..n], 10) != 0) && Value(s[..n + 1], 10) <= 255
    ensures OctetSoFar(s, n + 1)
  {
    var t := s[..n + 1];
    assert t[..n] == s[..n];
    ValueOfPrefix(t, n, 10);
    if n == 1 { ValueOfOne(t, 10); }
  }

  lemma {:induction false} OctetIsSound(s: string, n: nat)
    requires n <= |s| && AllDigits(s[..n]) && OctetSoFar(s, n)
    requires OctetEnd(s, n).Some?
    ensures IsOctet(s[..OctetEnd(s, n).value])
    decreases |s| - n
  {
    hide Value;
    if n < |s| && IsDigit(s[n]) {
      assert AllDigits(s[..n + 1]);
      OctetGoesOn(s, n);
      OctetIsSound(s, n + 1);
    }
  }

  // ---- the dotted tail -----------------------------------------------------------------------

  function Dot(goesOn: bool, t: string): string { if goesOn then "." + t else t }

  lemma DottedUnfolds(t: string, parts: seq<nat>, n: nat)
    requires t != "" && |parts| < 4 && OctetEnd(t, 0) == Some(n)
    ensures Dotted(Dot(parts != [], t), parts) == Dotted(t[n..], parts + [Value(t[..n], 10)])
  {
    if parts != [] { assert ("." + t)[1..] == t; }
  }

  lemma DottedFails(s: string, parts: seq<nat>)
    requires s != "" && parts != [] && (s[0] != '.' || |parts| >= 4)
    ensures Dotted(s, parts) == None
  {}

  lemma DottedFailsLater(t: string, parts: seq<nat>)
    requires |parts| < 4 && OctetEnd(t, 0) == None && (parts == [] ==> t != "")
    ensures Dotted(Dot(parts != [], t), parts) == None
  {
    if parts != [] { assert ("." + t)[1..] == t; }
  }

  lemma DottedTextUnfolds(o: string, octets: seq<string>, goesOn: bool)
    ensures DottedText([o] + octets, goesOn) == Dot(goesOn, o + DottedText(octets, true))
  {
    assert ([o] + octets)[1..] == octets;
    if goesOn { assert "." + o + DottedText(octets, true) == "." + (o + DottedText(octets, true)); }
    else { assert "" + o + DottedText(octets, true) == o + DottedText(octets, true); }
  }

  lemma OctetValuesUnfold(o: string, octets: seq<string>, parts: seq<nat>)
    requires IsOctet(o) && AllOctets(octets)
    ensures AllOctets([o] + octets)
    ensures parts + OctetValues([o] + octets) == parts + [Value(o, 10)] + OctetValues(octets)
  {
    assert ([o] + octets)[1..] == octets;
  }

  lemma {:induction false} DottedIsRead(octets: seq<string>, parts: seq<nat>)
    requires AllOctets(octets) && |parts| + |octets| == 4
    ensures Dotted(DottedText(octets, parts != []), parts) == Some(parts + OctetValues(octets))
    decreases |octets|
  {
    if octets == [] {
      assert parts + OctetValues(octets) == parts;
    } else {
      var o, rest := octets[0], octets[1..];
      var tail := DottedText(rest, true);
      assert octets == [o] + rest;
      assert tail == "" || !IsDigit(tail[0]) by { TailStarts(rest); }
      hide Dotted, DottedText, OctetValues, OctetEnd, Value, IsOctet, Dot;
      OctetIsRead(o, tail, 0);
      PrefixOf(o, tail, |o|);
      DottedTextUnfolds(o, rest, parts != []);
      DottedUnfolds(o + tail, parts, |o|);
      OctetValuesUnfold(o, rest, parts);
      DottedIsRead(rest, parts + [Value(o, 10)]);
    }
  }

  lemma TailStarts(octets: seq<string>)
    ensures DottedText(octets, true) == "" || DottedText(octets, true)[0] == '.'
  {}

  /** What the parser takes first from a dotted text it accepts. */
  lemma DottedCases(s: string, parts: seq<nat>) returns (o: string, tail: string)
    requires s != "" && Dotted(s, parts).Some?
    ensures s == Dot(parts != [], o + tail) && |tail| < |s| && IsOctet(o) && |parts| < 4
    ensures Dotted(s, parts) == Dotted(tail, parts + [Value(o, 10)])
  {
    hide Value;
    var t := if parts != [] then s[1..] else s;
    var n := OctetEnd(t, 0).value;
    o, tail := t[..n], t[n..];
    OctetIsSound(t, 0);
    assert o + tail == t;
  }

  lemma DottedEnds(parts: seq<nat>)
    requires Dotted("", parts).Some?
    ensures |parts| == 4 && Dotted("", parts).value == parts + OctetValues([]) && DottedText([], parts != []) == ""
  {
    assert parts + OctetValues([]) == parts;
  }

  lemma {:induction false} DottedIsSound(s: string, parts: seq<nat>) returns (octets: seq<string>)
    requires Dotted(s, parts).Some?
    ensures AllOctets(octets) && |parts| + |octets| == 4
    ensures s == DottedText(octets, parts != []) && Dotted(s, parts).value == parts + OctetValues(octets)
    decreases |s|
  {
    if s == "" {
      DottedEnds(parts);
      octets := [];
    } else {
      var o, tail := DottedCases(s, parts);
      hide *;
      var rest := DottedIsSound(tail, parts + [Value(o, 10)]);
      octets := [o] + rest;
      DottedTextUnfolds(o, rest, parts != []);
      OctetValuesUnfold(o, rest, parts);
    }
  }

  // ---- unfolding texts and the parser --------------------------------------------------------

  lemma SideUnfolds(g: string, side: Side)
    ensures Side([g] + side.groups, side.octets).Text()
         == g + (if side.groups == [] && side.octets == [] then "" else ":") + side.Text()
  {
    assert ([g] + side.groups)[1..] == side.groups;
  }

  lemma SidePiecesUnfold(g: string, side: Side, pieces: seq<nat>)
    requires IsGroup(g) && side.Valid()
    ensures var more := Side([g] + side.groups, side.octets);
            more.Valid() && pieces + more.Pieces() == pieces + [Value(g, 16)] + side.Pieces()
            && |more.Pieces()| == 1 + |side.Pieces()|
  {
    assert ([g] + side.groups)[1..] == side.groups;
  }

  lemma SideIsEmpty(side: Side)
    requires side.Valid()
    ensures side.Text() == "" <==> side.groups == [] && side.octets == []
    ensures side.Text() != "" <==> |side.Pieces()| > 0
  {}

  lemma ColonsUnfold(g: string, groups: seq<string>, pieces: seq<nat>)
    requires IsGroup(g) && AllGroups(groups)
    ensures Colons([g] + groups) == g + ":" + Colons(groups) && AllGroups([g] + groups)
    ensures pieces + GroupValues([g] + groups) == pieces + [Value(g, 16)] + GroupValues(groups)
  {
    assert ([g] + groups)[1..] == groups;
  }

  lemma LastGroup(g: string, pieces: seq<nat>, compress: Option<nat>)
    requires IsGroup(g) && |pieces| < 8
    ensures Groups(g, pieces, compress) == Some(Scan(pieces + [Value(g, 16)], compress))
  {
    HexRunOfGroup(g, "");
    assert g + "" == g;
  }

  lemma GroupAndColon(g: string, rest: string, pieces: seq<nat>, compress: Option<nat>)
    requires IsGroup(g) && |pieces| < 8 && rest != ""
    ensures Groups(g + ":" + rest, pieces, compress) == Groups(rest, pieces + [Value(g, 16)], compress)
  {
    var s := g + ":" + rest;
    assert s == g + (":" + rest);
    HexRunOfGroup(g, ":" + rest);
    assert s[|g| + 1..] == rest && s[0] == g[0] && s[|g|] == ':';
  }

  lemma SecondColon(rest: string, pieces: seq<nat>)
    requires |pieces| < 8
    ensures Groups(":" + rest, pieces, None) == Groups(rest, pieces + [0], Some(|pieces| + 1))
  {
    assert (":" + rest)[1..] == rest;
  }

  lemma TailIsTaken(o: string, tail: string, octets: seq<nat>, pieces: seq<nat>, compress: Option<nat>)
    requires IsGroup(o) && tail != "" && tail[0] == '.' && Dotted(o + tail, []) == Some(octets) && |pieces| <= 6
    ensures Groups(o + tail, pieces, compress) == Some(Scan(pieces + TailPieces(octets), compress))
  {
    hide Dotted;
    HexRunOfGroup(o, tail);
    assert (o + tail)[0] == o[0] && (o + tail)[|o|] == '.';
  }

  lemma OctetIsGroup(o: string)
    requires IsOctet(o)
    ensures IsGroup(o)
  {}

  lemma DottedTail(octets: seq<string>, pieces: seq<nat>, compress: Option<nat>)
    requires AllOctets(octets) && |octets| == 4 && |pieces| <= 6
    ensures Groups(DottedText(octets, false), pieces, compress)
         == Some(Scan(pieces + TailPieces(OctetValues(octets)), compress))
  {
    var o, rest := octets[0], octets[1..];
    assert octets == [o] + rest;
    OctetIsGroup(o);
    DottedStarts(rest);
    DottedIsRead(octets, []);
    hide *;
    assert [] + OctetValues(octets) == OctetValues(octets);
    DottedTextUnfolds(o, rest, false);
    NoDot(o + DottedText(rest, true));
    TailIsTaken(o, DottedText(rest, true), OctetValues(octets), pieces, compress);
  }

  lemma NoDot(t: string)
    ensures Dot(false, t) == t
  {}

  lemma DottedStarts(octets: seq<string>)
    requires octets != []
    ensures |DottedText(octets, true)| > 0 && DottedText(octets, true)[0] == '.'
  {}

  // ---- every text of the grammar is read ------------------------------------------------------

  lemma {:induction false} SideIsRead(side: Side, pieces: seq<nat>, compress: Option<nat>)
    requires side.Valid() && |pieces| + |side.Pieces()| <= 8
    ensures Groups(side.Text(), pieces, compress) == Some(Scan(pieces + side.Pieces(), compress))
    decreases |side.groups|
  {
    if side.groups == [] {
      if side.octets == [] {
        assert side.Pieces() == [] && pieces + side.Pieces() == pieces;
      } else {
        DottedTail(side.octets, pieces, compress);
        assert side.Pieces() == TailPieces(OctetValues(side.octets));
      }
    } else {
      var g, rest := side.groups[0], Side(side.groups[1..], side.octets);
      assert side == Side([g] + rest.groups, rest.octets);
      hide Groups, Side.Text, Side.Pieces;
      SideUnfolds(g, rest);
      SidePiecesUnfold(g, rest, pieces);
      SideIsEmpty(rest);
      if rest.groups == [] && rest.octets == [] {
        assert g + "" + "" == g;
        LastGroup(g, pieces, compress);
        NoPieces(rest, pieces + [Value(g, 16)]);
      } else {
        GroupAndColon(g, rest.Text(), pieces, compress);
        SideIsRead(rest, pieces + [Value(g, 16)], compress);
      }
    }
  }

  lemma NoPieces(side: Side, pieces: seq<nat>)
    requires side.groups == [] && side.octets == []
    ensures side.Valid() && pieces + side.Pieces() == pieces && side.Text() == ""
  {}

  /** The rest of an elided text, from its groups on the left, and what it adds to `pieces`. */
  function ElidedText(left: seq<string>, side: Side): string { Colons(left) + ":" + side.Text() }

  function ElidedScan(pieces: seq<nat>, left: seq<string>, side: Side): Scan
    requires AllGroups(left) && side.Valid()
  {
    Scan(pieces + GroupValues(left) + [0] + side.Pieces(), Some(|pieces| + |left| + 1))
  }

  lemma ElidedUnfolds(g: string, rest: seq<string>, side: Side, pieces: seq<nat>)
    requires IsGroup(g) && AllGroups(rest) && side.Valid()
    ensures AllGroups([g] + rest) && ElidedText([g] + rest, side) == g + ":" + ElidedText(rest, side)
    ensures ElidedScan(pieces, [g] + rest, side) == ElidedScan(pieces + [Value(g, 16)], rest, side)
    ensures ElidedText(rest, side) != ""
  {
    ColonsUnfold(g, rest, pieces);
    hide Colons, GroupValues, Side.Text, Side.Pieces, Side.Valid, Value;
    Regroup(g, Colons(rest), side.Text());
  }

  lemma ElisionAlone(side: Side, pieces: seq<nat>)
    requires side.Valid() && |pieces| + 1 + |side.Pieces()| <= 8
    ensures Groups(ElidedText([], side), pieces, None) == Some(ElidedScan(pieces, [], side))
  {
    NoColons();
    SecondColon(side.Text(), pieces);
    SideIsRead(side, pieces + [0], Some(|pieces| + 1));
    hide Groups, Side.Text, Side.Pieces, Colons, GroupValues, Side.Valid;
    assert "" + ":" == ":" && pieces + [] == pieces;
  }

  lemma {:induction false} ElisionIsRead(left: seq<string>, side: Side, pieces: seq<nat>)
    requires AllGroups(left) && side.Valid() && |pieces| + |left| + 1 + |side.Pieces()| <= 8
    ensures Groups(ElidedText(left, side), pieces, None) == Some(ElidedScan(pieces, left, side))
    decreases |left|
  {
    if left == [] {
      ElisionAlone(side, pieces);
    } else {
      var g, rest := left[0], left[1..];
      assert left == [g] + rest && AllGroups(rest) && IsGroup(g);
      hide *;
      ElidedUnfolds(g, rest, side, pieces);
      GroupAndColon(g, ElidedText(rest, side), pieces, None);
      ElisionIsRead(rest, side, pieces + [Value(g, 16)]);
    }
  }

  lemma Regroup(g: string, colons: string, text: string)
    ensures g + ":" + colons + ":" + text == g + ":" + (colons + ":" + text)
  {}

  /** Every text of an address is accepted, and gives the pieces it stands for. */
  lemma FormIsRead(f: Form)
    requires f.Valid()
    ensures Start(f.Text()).Some? && ScanFits(Start(f.Text()).value)
            && Expand(Start(f.Text()).value) == Some(f.Pieces())
  {
    match f
    case Whole(side) =>
      SideIsRead(side, [], None);
      SideIsEmpty(side);
      SideStarts(side);
      hide Groups, Side.Text, Side.Pieces;
      assert [] + side.Pieces() == side.Pieces();
    case Elided(left, side) =>
      if left == [] { ElisionFirst(side); } else { ElisionLater(left, side); }
  }

  lemma ElisionFirst(side: Side)
    requires Elided([], side).Valid()
    ensures var f := Elided([], side);
            Start(f.Text()).Some? && ScanFits(Start(f.Text()).value)
              && Expand(Start(f.Text()).value) == Some(f.Pieces())
  {
    NoColons();
    SideIsRead(side, [0], Some(1));
    ElisionExpands([], side.Pieces());
    SkipColons(side.Text());
    hide Groups, Side.Text, Side.Pieces, Expand, GroupValues, Side.Valid, Filled;
    assert [] + [0] == [0];
  }

  lemma SkipColons(text: string)
    ensures |":" + ":" + text| >= 2 && (":" + ":" + text)[0] == ':' && (":" + ":" + text)[1] == ':'
    ensures (":" + ":" + text)[2..] == text
  {}

  lemma ElisionLater(left: seq<string>, side: Side)
    requires Elided(left, side).Valid() && left != []
    ensures var f := Elided(left, side);
            Start(f.Text()).Some? && ScanFits(Start(f.Text()).value)
              && Expand(Start(f.Text()).value) == Some(f.Pieces())
  {
    ElisionIsRead(left, side, []);
    ElisionExpands(GroupValues(left), side.Pieces());
    ElidedStarts(left, side);
    assert Elided(left, side).Text() == ElidedText(left, side);
    hide Groups, Side.Text, Side.Pieces, Expand, Colons, GroupValues, Side.Valid, AllGroups, ElidedText, Form.Text,
         Filled;
    assert [] + GroupValues(left) == GroupValues(left);
  }

  lemma ElidedStarts(left: seq<string>, side: Side)
    requires AllGroups(left) && left != []
    ensures ElidedText(left, side) != "" && ElidedText(left, side)[0] != ':'
  {
    assert Colons(left)[0] == left[0][0];
    hide Colons;
    assert (Colons(left) + ":" + side.Text())[0] == Colons(left)[0];
  }

  predicate ScanFits(scan: Scan) {
    |scan.pieces| <= 8 && (scan.compress.Some? ==> scan.compress.value <= |scan.pieces|)
  }

  lemma SideStarts(side: Side)
    requires side.Valid() && side.Text() != ""
    ensures side.Text()[0] != ':'
  {}

  /** The one zero read for the two colons grows to as many as are missing. */
  lemma ElisionExpands(left: seq<nat>, right: seq<nat>)
    requires |left| + |right| <= 7
    ensures Expand(Scan(left + [0] + right, Some(|left| + 1))) == Some(Filled(left, right))
  {
    var p := left + [0] + right;
    assert p[..|left| + 1] == left + [0] && p[|left| + 1..] == right;
    assert [0] + Zeros(8 - |p|) == Zeros(8 - |left| - |right|);
    assert left + [0] + Zeros(8 - |p|) == left + ([0] + Zeros(8 - |p|));
  }

  // ---- nothing else is read ---------------------------------------------------------------------

  datatype Taken = Colon | Last | More | Tail

  /** What the parser takes first from a text it accepts. */
  lemma GroupsCases(s: string, pieces: seq<nat>, compress: Option<nat>)
    returns (taken: Taken, g: string, rest: string, octets: seq<string>)
    requires s != "" && Groups(s, pieces, compress).Some?
    ensures |pieces| != 8 && |rest| < |s|
    ensures taken.Colon? ==> compress.None? && s == ":" + rest
                             && Groups(s, pieces, compress) == Groups(rest, pieces + [0], Some(|pieces| + 1))
    ensures taken.Last? ==>
              IsGroup(g) && s == g && Groups(s, pieces, compress) == Some(Scan(pieces + [Value(g, 16)], compress))
    ensures taken.More? ==> IsGroup(g) && s == g + ":" + rest && rest != ""
                            && Groups(s, pieces, compress) == Groups(rest, pieces + [Value(g, 16)], compress)
    ensures taken.Tail? ==> AllOctets(octets) && |octets| == 4 && s == DottedText(octets, false) && |pieces| <= 6
                            && Groups(s, pieces, compress)
                               == Some(Scan(pieces + TailPieces(OctetValues(octets)), compress))
  {
    g, rest, octets := "", "", [];
    if s[0] == ':' {
      taken, rest := Colon, s[1..];
      assert s == ":" + rest;
    } else {
      var n := HexRun(s, 4);
      if n == |s| {
        taken, g := Last, s;
        assert s[..n] == s;
      } else if s[n] == '.' {
        taken := Tail;
        octets := DottedIsSound(s, []);
        assert [] + OctetValues(octets) == OctetValues(octets);
      } else {
        taken, g, rest := More, s[..n], s[n + 1..];
        assert s == g + ":" + rest;
      }
    }
  }

  lemma EmptySide()
    ensures Side([], []).Valid() && Side([], []).Text() == "" && Side([], []).Pieces() == []
  {}

  lemma TailSide(octets: seq<string>)
    requires AllOctets(octets) && |octets| == 4
    ensures var side := Side([], octets);
            side.Valid() && side.Text() == DottedText(octets, false) && side.Pieces() == TailPieces(OctetValues(octets))
  {
    assert [] + TailPieces(OctetValues(octets)) == TailPieces(OctetValues(octets));
  }

  lemma GroupSide(g: string)
    requires IsGroup(g)
    ensures Side([g], []).Valid() && Side([g], []).Text() == g && Side([g], []).Pieces() == [Value(g, 16)]
  {
    EmptySide();
    SideUnfolds(g, Side([], []));
    SidePiecesUnfold(g, Side([], []), []);
    hide *;
    assert [g] + [] == [g] && g + "" + "" == g;
    assert [] + Side([g], []).Pieces() == Side([g], []).Pieces();
    assert [] + [Value(g, 16)] + [] == [Value(g, 16)];
  }

  lemma MoreSide(g: string, rest: Side, text: string)
    requires IsGroup(g) && rest.Valid() && rest.Text() == text && text != ""
    ensures var side := Side([g] + rest.groups, rest.octets);
            side.Valid() && side.Text() == g + ":" + text && |side.Pieces()| == 1 + |rest.Pieces()|
            && forall pieces: seq<nat> :: pieces + side.Pieces() == pieces + [Value(g, 16)] + rest.Pieces()
  {
    SideIsEmpty(rest);
    SideUnfolds(g, rest);
    forall pieces: seq<nat>
      ensures pieces + Side([g] + rest.groups, rest.octets).Pieces() == pieces + [Value(g, 16)] + rest.Pieces()
    {
      SidePiecesUnfold(g, rest, pieces);
    }
    SidePiecesUnfold(g, rest, []);
  }

  lemma {:induction false} SideIsSound(s: string, pieces: seq<nat>, compress: Option<nat>) returns (side: Side)
    requires compress.Some? && |pieces| <= 8 && Groups(s, pieces, compress).Some?
    ensures side.Valid() && s == side.Text() && |pieces| + |side.Pieces()| <= 8
    ensures Groups(s, pieces, compress).value == Scan(pieces + side.Pieces(), compress)
    decreases |s|
  {
    EmptySide();
    side := Side([], []);
    if s == "" {
      assert pieces + [] == pieces;
    } else {
      var taken, g, rest, octets := GroupsCases(s, pieces, compress);
      hide *;
      match taken
      case Colon =>
      case Last => GroupSide(g); side := Side([g], []);
      case More =>
        var more := SideIsSound(rest, pieces + [Value(g, 16)], compress);
        MoreSide(g, more, rest);
        side := Side([g] + more.groups, more.octets);
      case Tail =>
        TailSide(octets);
        TwoPieces(octets);
        side := Side([], octets);
    }
  }

  lemma TwoPieces(octets: seq<string>)
    requires AllOctets(octets) && |octets| == 4
    ensures |TailPieces(OctetValues(octets))| == 2
  {}

  lemma NoColons()
    ensures AllGroups([]) && Colons([]) == "" && GroupValues([]) == []
  {}

  /** `s`, read after `pieces`, is a side, or groups, the second colon and a side. */
  predicate IsRead(s: string, pieces: seq<nat>, elided: bool, left: seq<string>, side: Side, r: Scan) {
    && side.Valid() && AllGroups(left)
    && if elided then
         && s == Colons(left) + (":" + side.Text()) && |pieces| + |left| + 1 + |side.Pieces()| <= 8
         && r == Scan(pieces + GroupValues(left) + [0] + side.Pieces(), Some(|pieces| + |left| + 1))
       else
         s == side.Text() && |pieces| + |side.Pieces()| <= 8 && r == Scan(pieces + side.Pieces(), None)
  }

  lemma ColonIsRead(rest: string, pieces: seq<nat>, side: Side)
    requires side.Valid() && rest == side.Text() && |pieces| + 1 + |side.Pieces()| <= 8
    ensures IsRead(":" + rest, pieces, true, [], side, Scan(pieces + [0] + side.Pieces(), Some(|pieces| + 1)))
  {
    NoColons();
    assert "" + (":" + rest) == ":" + rest;
    assert pieces + [] + [0] == pieces + [0];
  }

  lemma MoreIsRead(g: string, rest: string, pieces: seq<nat>, elided: bool, left: seq<string>, side: Side, r: Scan)
    returns (newLeft: seq<string>, newSide: Side)
    requires IsGroup(g) && rest != "" && IsRead(rest, pieces + [Value(g, 16)], elided, left, side, r)
    ensures IsRead(g + ":" + rest, pieces, elided, newLeft, newSide, r)
  {
    newLeft, newSide := left, side;
    hide Side.Text, Side.Pieces, Colons, GroupValues, IsGroup, AllGroups, Value;
    if elided {
      newLeft := [g] + left;
      ColonsUnfold(g, left, pieces);
      assert g + ":" + (Colons(left) + (":" + side.Text())) == g + ":" + Colons(left) + (":" + side.Text());
    } else {
      MoreSide(g, side, rest);
      newSide := Side([g] + side.groups, side.octets);
    }
  }

  lemma {:induction false} GroupsIsSound(s: string, pieces: seq<nat>)
    returns (elided: bool, left: seq<string>, side: Side)
    requires |pieces| <= 8 && Groups(s, pieces, None).Some?
    ensures IsRead(s, pieces, elided, left, side, Groups(s, pieces, None).value)
    decreases |s|
  {
    EmptySide();
    elided, left, side := false, [], Side([], []);
    if s == "" {
      assert pieces + [] == pieces;
    } else {
      var taken, g, rest, octets := GroupsCases(s, pieces, None);
      hide Groups, Side.Text, Side.Pieces, Colons, GroupValues, IsGroup, Value, Side.Valid, DottedText, TailPieces,
           OctetValues;
      match taken
      case Colon =>
        side := SideIsSound(rest, pieces + [0], Some(|pieces| + 1));
        elided := true;
        ColonIsRead(rest, pieces, side);
      case Last => GroupSide(g); side := Side([g], []);
      case More =>
        hide IsRead;
        elided, left, side := GroupsIsSound(rest, pieces + [Value(g, 16)]);
        left, side := MoreIsRead(g, rest, pieces, elided, left, side, Groups(s, pieces, None).value);
      case Tail =>
        TailSide(octets);
        TwoPieces(octets);
        side := Side([], octets);
    }
  }

  // ---- both ------------------------------------------------------------------------------------

  function Parsed(s: string): (r: Option<seq<nat>>)
    ensures r.Some? ==> |r.value| == 8
  {
    match Start(s)
    case None => None
    case Some(scan) => if ScanFits(scan) then Expand(scan) else None
  }

  lemma FormStartingWithColons(text: string) returns (f: Form)
    requires Groups(text, [0], Some(1)).Some? && ScanFits(Groups(text, [0], Some(1)).value)
    ensures f.Valid() && f.Text() == ":" + ":" + text
    ensures Expand(Groups(text, [0], Some(1)).value) == Some(f.Pieces())
  {
    var side := SideIsSound(text, [0], Some(1));
    f := Elided([], side);
    hide *;
    FormElidedAtStart(side);
  }

  lemma FormElidedAtStart(side: Side)
    requires side.Valid() && |side.Pieces()| <= 7
    ensures var f := Elided([], side);
            f.Valid() && f.Text() == ":" + ":" + side.Text()
              && Expand(Scan([0] + side.Pieces(), Some(1))) == Some(f.Pieces())
  {
    NoColons();
    ElisionExpands([], side.Pieces());
    hide Side.Text, Side.Pieces, Expand, GroupValues, Side.Valid, Filled;
    assert [] + [0] == [0];
  }

  lemma FormStartingWithGroup(s: string) returns (f: Form)
    requires (s == "" || s[0] != ':') && Groups(s, [], None).Some?
    requires ScanFits(Groups(s, [], None).value) && Expand(Groups(s, [], None).value).Some?
    ensures f.Valid() && f.Text() == s && Expand(Groups(s, [], None).value) == Some(f.Pieces())
  {
    var elided, left, side := GroupsIsSound(s, []);
    hide *;
    if elided {
      FormElided(s, left, side, Groups(s, [], None).value);
      f := Elided(left, side);
    } else {
      FormWhole(s, left, side, Groups(s, [], None).value);
      f := Whole(side);
    }
  }

  lemma FormWhole(s: string, left: seq<string>, side: Side, r: Scan)
    requires IsRead(s, [], false, left, side, r) && ScanFits(r) && Expand(r).Some?
    ensures var f := Whole(side); f.Valid() && f.Text() == s && Expand(r) == Some(f.Pieces())
  {
    hide Side.Text, Side.Pieces, Side.Valid;
    assert [] + side.Pieces() == side.Pieces();
  }

  lemma ColonFirst(text: string)
    ensures ("" + (":" + text)) != "" && ("" + (":" + text))[0] == ':'
  {}

  lemma FormElided(s: string, left: seq<string>, side: Side, r: Scan)
    requires IsRead(s, [], true, left, side, r) && (s == "" || s[0] != ':')
    ensures ScanFits(r) && var f := Elided(left, side); f.Valid() && f.Text() == s && Expand(r) == Some(f.Pieces())
  {
    ElisionExpands(GroupValues(left), side.Pieces());
    NoColons();
    ColonFirst(side.Text());
    hide Side.Text, Side.Pieces, Expand, Colons, GroupValues, Side.Valid, AllGroups, Filled;
    assert [] + GroupValues(left) == GroupValues(left);
    assert Colons(left) + (":" + side.Text()) == Colons(left) + ":" + side.Text();
  }

  lemma Whether(s: string) returns (f: Form)
    requires Parsed(s).Some?
    ensures f.Valid() && f.Text() == s && f.Pieces() == Parsed(s).value
  {
    hide Groups, Expand, ScanFits, Form.Valid, Form.Text, Form.Pieces;
    if s != "" && s[0] == ':' {
      f := FormStartingWithColons(s[2..]);
      assert s == ":" + ":" + s[2..];
    } else {
      f := FormStartingWithGroup(s);
    }
  }

  /** The parser accepts exactly the texts of addresses, and returns what they stand for. */
  lemma ParsedIffForm(s: string, pieces: seq<nat>)
    ensures Parsed(s) == Some(pieces) <==> exists f: Form :: f.Valid() && f.Text() == s && f.Pieces() == pieces
  {
    if Parsed(s) == Some(pieces) {
      var f := Whether(s);
    }
    forall f: Form | f.Valid() && f.Text() == s && f.Pieces() == pieces
      ensures Parsed(s) == Some(pieces)
    {
      FormIsRead(f);
    }
  }

  // ---- bounds ----------------------------------------------------------------------------------

  /** A hex numeral of up to four digits is below 2^16. */
  lemma {:induction false} HexBound(s: string, k: nat)
    requires AllHex(s) && |s| <= k <= 4
    ensures Value(s, 16) < (match k case 0 => 1 case 1 => 0x10 case 2 => 0x100 case 3 => 0x1000 case _ => 0x1_0000)
  {
    if |s| > 0 {
      HexBound(s[..|s| - 1], k - 1);
    }
  }

  lemma {:induction false} GroupsAreBounded(groups: seq<string>)
    requires AllGroups(groups)
    ensures Bounded(GroupValues(groups))
  {
    hide Value;
    if groups != [] {
      HexBound(groups[0], 4);
      GroupsAreBounded(groups[1..]);
    }
  }

  lemma FormIsBounded(f: Form)
    requires f.Valid()
    ensures Bounded(f.Pieces())
  {
    hide Value, GroupValues, OctetValues;
    GroupsAreBounded(f.side.groups);
    assert Bounded(f.side.Pieces());
    if f.Elided? {
      GroupsAreBounded(f.left);
    }
  }

  /** Whatever the parser accepts, an embedded IPv4 address included, every piece has 16 bits. */
  lemma ParsedIsBounded(s: string)
    requires Parsed(s).Some?
    ensures |Parsed(s).value| == 8 && Bounded(Parsed(s).value)
  {
    var f := Whether(s);
    hide *;
    FormIsBounded(f);
  }
}
