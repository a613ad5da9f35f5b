/** Printing IPv6 addresses, as in lib/whatwg/url.js and section 4 of RFC 5952: shortest
    lower-case groups, and two colons for the leftmost longest run of zeros. */
module IPv6Print {
  import opened Wrappers
  import opened Digits
  import opened IPv6Grammar
  import IPv6Proofs

  // ---- the run to elide --------------------------------------------------------------------

  predicate ZeroRun(arr: seq<nat>, start: nat, length: nat) {
    start + length <= |arr| && forall k :: start <= k < start + length ==> arr[k] == 0
  }

  /** The leftmost of the longest runs of two or more zeros; `idx` is None when there is none. */
  ghost predicate IsElided(arr: seq<nat>, idx: Option<nat>, len: nat) {
    match idx
    case None => forall j: nat, m: nat :: ZeroRun(arr, j, m) ==> m <= 1
    case Some(i) =>
      && len >= 2 && ZeroRun(arr, i, len)
      && forall j: nat, m: nat :: ZeroRun(arr, j, m) ==> m < len || (m == len && i <= j)
  }

  /** There is one answer. */
  lemma ElidedIsUnique(arr: seq<nat>, idx: Option<nat>, len: nat, other: Option<nat>, length: nat)
    requires IsElided(arr, idx, len) && IsElided(arr, other, length)
    ensures idx == other && (idx.Some? ==> len == length)
  {
    hide ZeroRun;
  }

  /** The best run among those that end at or before `n`: maxLen and maxIdx of the loop. */
  ghost predicate BestUpTo(arr: seq<nat>, n: nat, idx: Option<nat>, len: nat) {
    && (idx == None ==> len == 1)
    && (idx.Some? ==> len >= 2 && ZeroRun(arr, idx.value, len) && idx.value + len <= n)
    && forall j: nat, m: nat :: ZeroRun(arr, j, m) && m > 0 && j + m <= n ==>
         m < len || (m == len && (idx == None || idx.value <= j))
  }

  method FindLongestZeroSequence(arr: seq<nat>) returns (idx: Option<nat>, len: nat)
    ensures IsElided(arr, idx, len)
  {
    idx, len := None, 1;
    var currStart: Option<nat>, currLen: nat := None, 0;
    ghost var done := 0;
    for i := 0 to |arr|
      invariant 0 <= done <= i && currLen == i - done && currStart == (if currLen == 0 then None else Some(done))
      invariant done > 0 ==> arr[done - 1] != 0
      invariant ZeroRun(arr, done, currLen) && BestUpTo(arr, done, idx, len)
    {
      if arr[i] != 0 {
        RunsUpTo(arr, done, currLen, idx, len);
        if currLen > len {
          idx, len := currStart, currLen;
        }
        currStart, currLen, done := None, 0, i + 1;
      } else {
        if currStart == None {
          currStart := Some(i);
        }
        currLen := currLen + 1;
      }
    }
    RunsUpTo(arr, done, currLen, idx, len);
    if currLen > len {
      idx, len := currStart, currLen;
    }
  }

  lemma RunAvoids(arr: seq<nat>, j: nat, m: nat, k: nat)
    requires ZeroRun(arr, j, m) && k < |arr| && arr[k] != 0
    ensures k < j || j + m <= k
  {}

  lemma LongerRun(arr: seq<nat>, j: nat, m: nat)
    requires ZeroRun(arr, j, m) && j + m < |arr|
    ensures arr[j + m] == 0 <==> ZeroRun(arr, j, m + 1)
  {}

  /** A run ends before the zeros counted now, or lies among them. */
  lemma RunsUpTo(arr: seq<nat>, done: nat, currLen: nat, idx: Option<nat>, len: nat)
    requires ZeroRun(arr, done, currLen) && BestUpTo(arr, done, idx, len)
    requires done > 0 ==> arr[done - 1] != 0
    ensures var (newIdx, newLen) := if currLen > len then (Some(done), currLen) else (idx, len);
            BestUpTo(arr, done + currLen, newIdx, newLen)
            && (done + currLen < |arr| && arr[done + currLen] != 0 ==>
               BestUpTo(arr, done + currLen + 1, newIdx, newLen))
  {
    forall j: nat, m: nat | ZeroRun(arr, j, m) && m > 0 && done < j + m
      ensures done <= j
    {
      if done > 0 { RunAvoids(arr, j, m, done - 1); }
    }
    if done + currLen < |arr| && arr[done + currLen] != 0 {
      forall j: nat, m: nat | ZeroRun(arr, j, m) && m > 0
        ensures j + m != done + currLen + 1
      {
        RunAvoids(arr, j, m, done + currLen);
      }
    }
  }

  // ---- the text ------------------------------------------------------------------------------

  function HexGroups(pieces: seq<nat>): (gs: seq<string>)
    ensures |gs| == |pieces|
  {
    if pieces == [] then [] else [Render(pieces[0], 16)] + HexGroups(pieces[1..])
  }

  /** The text of RFC 5952, given the run to elide. */
  function FormOf(pieces: seq<nat>, idx: Option<nat>, len: nat): Form
    requires idx.Some? ==> ZeroRun(pieces, idx.value, len)
  {
    match idx
    case None => Whole(Side(HexGroups(pieces), []))
    case Some(i) => Elided(HexGroups(pieces[..i]), Side(HexGroups(pieces[i + len..]), []))
  }

  lemma {:induction false} HexGroupsMean(pieces: seq<nat>)
    requires Bounded(pieces)
    ensures AllGroups(HexGroups(pieces)) && GroupValues(HexGroups(pieces)) == pieces
  {
    if pieces != [] {
      HexGroupsMean(pieces[1..]);
      HexLength(pieces[0], 4);
      RenderValue(pieces[0], 16);
    }
  }

  lemma HexSide(pieces: seq<nat>)
    requires Bounded(pieces)
    ensures Side(HexGroups(pieces), []).Valid() && Side(HexGroups(pieces), []).Pieces() == pieces
  {
    HexGroupsMean(pieces);
  }

  /** The text of an address stands for that address, wherever its zeros are. */
  lemma FormOfMeans(pieces: seq<nat>, idx: Option<nat>, len: nat)
    requires |pieces| == 8 && Bounded(pieces) && IsElided(pieces, idx, len)
    ensures FormOf(pieces, idx, len).Valid() && FormOf(pieces, idx, len).Pieces() == pieces
  {
    match idx
    case None => HexSide(pieces);
    case Some(i) =>
      HexGroupsMean(pieces[..i]);
      HexSide(pieces[i + len..]);
      FilledRun(pieces, i, len);
      hide AllGroups, GroupValues, HexGroups, Side.Valid, Side.Pieces, Filled, IsElided;
      assert len >= 2 by { LongEnough(pieces, i, len); }
  }

  lemma LongEnough(pieces: seq<nat>, i: nat, len: nat)
    requires IsElided(pieces, Some(i), len)
    ensures len >= 2 && i + len <= |pieces|
  {}

  lemma FilledRun(pieces: seq<nat>, i: nat, len: nat)
    requires |pieces| == 8 && ZeroRun(pieces, i, len)
    ensures Filled(pieces[..i], pieces[i + len..]) == pieces
  {}

  /** The printed form of an address, in its brackets. */
  ghost predicate IsPrinted(pieces: seq<nat>, output: string)
    requires |pieces| == 8
  {
    exists idx: Option<nat>, len: nat :: IsElided(pieces, idx, len)
      && output == "[" + FormOf(pieces, idx, len).Text() + "]"
  }

  /** An address has one printed form. */
  lemma PrintedIsUnique(pieces: seq<nat>, a: string, b: string)
    requires |pieces| == 8 && IsPrinted(pieces, a) && IsPrinted(pieces, b)
    ensures a == b
  {
    var i: Option<nat>, m: nat :| IsElided(pieces, i, m) && a == "[" + FormOf(pieces, i, m).Text() + "]";
    var j: Option<nat>, n: nat :| IsElided(pieces, j, n) && b == "[" + FormOf(pieces, j, n).Text() + "]";
    ElidedIsUnique(pieces, i, m, j, n);
    hide IsElided, Form.Text, HexGroups;
  }

  /** Parsing what was printed gives the address back. */
  lemma PrintedIsParsed(pieces: seq<nat>, output: string)
    requires |pieces| == 8 && Bounded(pieces) && IsPrinted(pieces, output)
    ensures |output| >= 2 && output[0] == '[' && output[|output| - 1] == ']'
    ensures IPv6Proofs.Parsed(output[1..|output| - 1]) == Some(pieces)
  {
    var idx: Option<nat>, len: nat :| IsElided(pieces, idx, len)
      && output == "[" + FormOf(pieces, idx, len).Text() + "]";
    var text := FormOf(pieces, idx, len).Text();
    assert output[1..|output| - 1] == text;
    FormOfMeans(pieces, idx, len);
    IPv6Proofs.ParsedIffForm(text, pieces);
  }

  /** Printing what was parsed, and parsing that, changes nothing. */
  lemma ReprintedIsParsed(s: string, output: string)
    requires IPv6Proofs.Parsed(s).Some? && IsPrinted(IPv6Proofs.Parsed(s).value, output)
    ensures |output| >= 2 && IPv6Proofs.Parsed(output[1..|output| - 1]) == IPv6Proofs.Parsed(s)
  {
    IPv6Proofs.ParsedIsBounded(s);
    PrintedIsParsed(IPv6Proofs.Parsed(s).value, output);
  }

  // ---- printing -------------------------------------------------------------------------------

  /** The text still to come from piece `p` on. */
  ghost function Remaining(pieces: seq<nat>, idx: Option<nat>, len: nat, p: nat): string
    requires |pieces| == 8 && p <= 8 && (idx.Some? ==> len > 0 && ZeroRun(pieces, idx.value, len))
  {
    match idx
    case None => Side(HexGroups(pieces[p..]), []).Text()
    case Some(i) =>
      if p <= i then
        (if i == 0 then ":" else Colons(HexGroups(pieces[p..i]))) + ":" + Side(HexGroups(pieces[i + len..]), []).Text()
      else Side(HexGroups(pieces[if p < i + len then i + len else p..]), []).Text()
  }

  lemma RemainingAtStart(pieces: seq<nat>, idx: Option<nat>, len: nat)
    requires |pieces| == 8 && (idx.Some? ==> len > 0 && ZeroRun(pieces, idx.value, len))
    ensures "" + Remaining(pieces, idx, len, 0) == FormOf(pieces, idx, len).Text()
  {
    hide HexGroups, Side.Text, Colons;
    assert pieces[0..] == pieces;
    if idx.Some? {
      assert pieces[0..idx.value] == pieces[..idx.value];
      if idx.value == 0 { assert HexGroups(pieces[..0]) == []; }
      else { assert HexGroups(pieces[..idx.value]) != []; }
    }
  }

  lemma RemainingAtEnd(pieces: seq<nat>, idx: Option<nat>, len: nat)
    requires |pieces| == 8 && (idx.Some? ==> len > 0 && ZeroRun(pieces, idx.value, len))
    ensures Remaining(pieces, idx, len, 8) == ""
  {}

  lemma HexGroupsUnfold(pieces: seq<nat>, p: nat, end: nat)
    requires p < end <= |pieces|
    ensures HexGroups(pieces[p..end]) == [Render(pieces[p], 16)] + HexGroups(pieces[p + 1..end])
  {
    assert pieces[p..end][1..] == pieces[p + 1..end];
  }

  /** A group that is printed. */
  lemma Prints(pieces: seq<nat>, idx: Option<nat>, len: nat, p: nat)
    requires |pieces| == 8 && p < 8 && (idx.Some? ==> len > 0 && ZeroRun(pieces, idx.value, len))
    requires idx.Some? ==> p < idx.value || idx.value + len <= p
    ensures Remaining(pieces, idx, len, p) ==
              Render(pieces[p], 16) + (if p != 7 then ":" else "") + Remaining(pieces, idx, len, p + 1)
  {
    var g := Render(pieces[p], 16);
    if idx.Some? && p < idx.value {
      var i := idx.value;
      HexGroupsUnfold(pieces, p, i);
      var rest := HexGroups(pieces[p + 1..i]);
      assert ([g] + rest)[1..] == rest;
      assert Colons([g] + rest) == g + ":" + Colons(rest);
      hide Colons, HexGroups, Side.Text, Render;
      Shift(g, Colons(rest), Side(HexGroups(pieces[i + len..]), []).Text());
    } else {
      HexGroupsUnfold(pieces, p, 8);
      assert pieces[p..8] == pieces[p..] && pieces[p + 1..8] == pieces[p + 1..];
      IPv6Proofs.SideUnfolds(g, Side(HexGroups(pieces[p + 1..]), []));
    }
  }

  lemma Shift(g: string, colons: string, text: string)
    ensures g + ":" + colons + ":" + text == g + ":" + (colons + ":" + text)
  {}

  /** The colons that stand for the run, and the zeros of the run. */
  lemma Elides(pieces: seq<nat>, idx: Option<nat>, len: nat, p: nat)
    requires |pieces| == 8 && idx.Some? && len > 0 && ZeroRun(pieces, idx.value, len)
    requires idx.value <= p < idx.value + len
    ensures Remaining(pieces, idx, len, p) ==
              (if p > idx.value then "" else if p == 0 then "::" else ":") + Remaining(pieces, idx, len, p + 1)
  {
    hide Side.Text;
    var text := Side(HexGroups(pieces[idx.value + len..]), []).Text();
    if p == idx.value {
      assert pieces[p..p] == [] && Colons(HexGroups([])) == "";
      assert ":" + ":" + text == "::" + text && "" + ":" + text == ":" + text;
    } else {
      assert "" + text == text;
    }
  }

  method SerializeIPv6(pieces: seq<nat>) returns (output: string)
    requires |pieces| == 8
    ensures IsPrinted(pieces, output)
  {
    hide Remaining, FormOf, Render;
    var idx: Option<nat>, len: nat := FindLongestZeroSequence(pieces);
    MaximalRun(pieces, idx, len);
    hide IsElided;
    output := "";
    var ignore0 := false;
    RemainingAtStart(pieces, idx, len);
    for p := 0 to 8
      invariant output + Remaining(pieces, idx, len, p) == FormOf(pieces, idx, len).Text()
      invariant ignore0 <==> idx.Some? && idx.value < p <= idx.value + len
    {
      ghost var before := output;
      if idx.Some? && idx.value <= p < idx.value + len {
        Elides(pieces, idx, len, p);
      } else {
        Prints(pieces, idx, len, p);
      }
      if ignore0 && pieces[p] == 0 {
        assert p < idx.value + len;
        assert output + ("" + Remaining(pieces, idx, len, p + 1)) == output + Remaining(pieces, idx, len, p + 1);
        continue;
      }
      ignore0 := false;
      if idx == Some(p) {
        output := output + if p == 0 then "::" else ":";
        ignore0 := true;
        Associate(before, if p == 0 then "::" else ":", Remaining(pieces, idx, len, p + 1));
        continue;
      }
      output := output + Render(pieces[p], 16);
      if p != 7 {
        output := output + ":";
      }
      Associate3(before, Render(pieces[p], 16), if p != 7 then ":" else "", Remaining(pieces, idx, len, p + 1));
    }
    RemainingAtEnd(pieces, idx, len);
    assert output + "" == output;
    output := "[" + output + "]";
  }

  lemma Associate(a: string, b: string, c: string)
    ensures a + b + c == a + (b + c)
  {}

  lemma Associate3(a: string, b: string, c: string, d: string)
    ensures a + b + c + d == a + (b + c + d)
    ensures c == "" ==> a + b + d == a + (b + c + d)
  {}

  /** The elided run goes as far as it can. */
  lemma MaximalRun(pieces: seq<nat>, idx: Option<nat>, len: nat)
    requires IsElided(pieces, idx, len)
    ensures idx.Some? ==> len > 0 && ZeroRun(pieces, idx.value, len)
    ensures idx.Some? && idx.value + len < |pieces| ==> pieces[idx.value + len] != 0
  {
    if idx.Some? && idx.value + len < |pieces| {
      LongerRun(pieces, idx.value, len);
    }
  }
}
