/** The IPv6 parser of lib/whatwg/url/parser.js and the printer of lib/whatwg/url.js. */
module IPv6 {
  import opened Wrappers
  import opened Digits
  import opened IPv6Grammar
  import IPv6Proofs

  // ---- parsing ---------------------------------------------------------------------------

  method ReadHex(input: string, start: nat) returns (value: nat, length: nat)
    requires start <= |input|
    ensures length == HexRun(input[start..], 4) && value == Value(input[start..][..length], 16)
  {
    value, length := 0, 0;
    ghost var s := input[start..];
    while length < 4 && start + length < |input| && IsHex(input[start + length])
      invariant length <= 4 && start + length <= |input| && AllHex(s[..length]) && value == Value(s[..length], 16)
    {
      assert s[..length + 1] == s[..length] + [s[length]];
      ValueAppend(s[..length], s[length], 16);
      value := value * 0x10 + DigitValue(input[start + length]);
      length := length + 1;
    }
    IPv6Proofs.HexRunEnds(s, length, 4);
  }

  /** One number of a dotted tail. */
  method ReadOctet(input: string, start: nat) returns (number: Option<nat>, end: nat)
    requires start < |input| && IsDigit(input[start])
    ensures number.Some? <==> OctetEnd(input[start..], 0).Some?
    ensures number.Some? ==> start < end <= |input| && OctetEnd(input[start..], 0) == Some(end - start)
                             && number.value == Value(input[start..][..end - start], 10)
  {
    number, end := None, start;
    ghost var s := input[start..];
    ghost var n := 0;
    assert s[..0] == "" && Value(s[..0], 10) == 0;
    hide Value, OctetEnd;
    while end < |input| && IsDigit(input[end])
      invariant n == end - start && start <= end <= |input| && AllDigits(s[..n])
      invariant OctetEnd(s, 0) == OctetEnd(s, n)
      invariant n > 0 ==> number == Some(Value(s[..n], 10))
      invariant n == 0 ==> number == None
    {
      var digit := DigitValue(input[end]);
      OctetEndUnfolds(s, n);
      if number == None {
        number := Some(digit);
      } else if number == Some(0) {
        return None, end;
      } else {
        number := Some(number.value * 10 + digit);
      }
      if number.value > 255 {
        return None, end;
      }
      end, n := end + 1, n + 1;
    }
    OctetEnds(s, n);
  }

  lemma OctetEndUnfolds(s: string, n: nat)
    requires n < |s| && IsDigit(s[n]) && AllDigits(s[..n])
    ensures AllDigits(s[..n + 1])
    ensures OctetEnd(s, n) == if (n > 0 && Value(s[..n], 10) == 0) || Value(s[..n + 1], 10) > 255 then None
                              else OctetEnd(s, n + 1)
    ensures Value(s[..n + 1], 10) == Value(s[..n], 10) * 10 + DigitValue(s[n])
  {
    assert s[..n + 1] == s[..n] + [s[n]];
    ValueAppend(s[..n], s[n], 10);
  }

  lemma OctetEnds(s: string, n: nat)
    requires 0 < n <= |s| && AllDigits(s[..n]) && (n == |s| || !IsDigit(s[n]))
    ensures OctetEnd(s, n) == Some(n)
  {}

  /** What the two pieces of a dotted tail hold after some of its numbers. */
  ghost predicate TailSoFar(address: seq<nat>, first: nat, parts: seq<nat>)
    requires first + 2 <= |address| && |parts| <= 4
  {
    && address[first] == (match |parts| case 0 => 0 case 1 => parts[0] case _ => Pair(parts[0], parts[1]))
    && address[first + 1] == (match |parts| case 3 => parts[2] case 4 => Pair(parts[2], parts[3]) case _ => 0)
  }

  lemma SuffixIsDot(input: string, pointer: nat, goesOn: bool)
    requires pointer < |input|
    ensures goesOn && input[pointer] == '.' ==> input[pointer..] == IPv6Proofs.Dot(true, input[pointer + 1..])
    ensures !goesOn ==> input[pointer..] == IPv6Proofs.Dot(false, input[pointer..])
  {}

  method AddNumber(address: array<nat>, first: nat, ghost parts: seq<nat>, pieceIndex: nat, number: nat)
    requires address.Length == 8 && first <= 6 && |parts| < 4 && TailSoFar(address[..], first, parts)
    requires pieceIndex == first + |parts| / 2
    modifies address
    ensures TailSoFar(address[..], first, parts + [number])
    ensures forall i :: 0 <= i < 8 && i != first && i != first + 1 ==> address[i] == old(address[i])
  {
    address[pieceIndex] := address[pieceIndex] * 0x100 + number;
  }

  /** The dotted tail, to the end of the input. */
  method ReadDotted(input: string, start: nat, address: array<nat>, first: nat) returns (ok: bool)
    requires address.Length == 8 && first <= 6 && start < |input| && TailSoFar(address[..], first, [])
    modifies address
    ensures ok <==> Dotted(input[start..], []).Some?
    ensures ok ==> |Dotted(input[start..], []).value| == 4
    ensures ok ==> TailSoFar(address[..], first, Dotted(input[start..], []).value)
    ensures forall i :: 0 <= i < 8 && i != first && i != first + 1 ==> address[i] == old(address[i])
  {
    hide Dotted, OctetEnd, Value, TailSoFar, IPv6Proofs.Dot;
    var pointer, pieceIndex, numbersSeen := start, first, 0;
    ghost var parts: seq<nat> := [];
    while pointer < |input|
      invariant start <= pointer <= |input| && numbersSeen == |parts| <= 4 && pieceIndex == first + numbersSeen / 2
      invariant Dotted(input[start..], []) == Dotted(input[pointer..], parts)
      invariant TailSoFar(address[..], first, parts)
      invariant forall i :: 0 <= i < 8 && i != first && i != first + 1 ==> address[i] == old(address[i])
      decreases |input| - pointer
    {
      ghost var s := input[pointer..];
      SuffixIsDot(input, pointer, parts != []);
      if numbersSeen > 0 {
        if input[pointer] == '.' && numbersSeen < 4 {
          pointer := pointer + 1;
        } else {
          IPv6Proofs.DottedFails(s, parts);
          return false;
        }
      }
      ghost var t := input[pointer..];
      if pointer == |input| || !IsDigit(input[pointer]) {
        NoOctet(t);
        IPv6Proofs.DottedFailsLater(t, parts);
        return false;
      }
      var number, end := ReadOctet(input, pointer);
      if number == None {
        IPv6Proofs.DottedFailsLater(t, parts);
        return false;
      }
      assert t[end - pointer..] == input[end..];
      IPv6Proofs.DottedUnfolds(t, parts, end - pointer);
      AddNumber(address, first, parts, pieceIndex, number.value);
      parts := parts + [number.value];
      numbersSeen, pointer := numbersSeen + 1, end;
      if numbersSeen == 2 || numbersSeen == 4 {
        pieceIndex := pieceIndex + 1;
      }
    }
    assert input[pointer..] == "";
    DottedEnd(parts);
    ok := numbersSeen == 4;
  }

  lemma NoOctet(t: string)
    requires t == "" || !IsDigit(t[0])
    ensures OctetEnd(t, 0) == None
  {}

  lemma DottedEnd(parts: seq<nat>)
    ensures Dotted("", parts) == if |parts| == 4 then Some(parts) else None
  {}

  /** Exchanges the pieces after the two colons with zeros, from the last one on. */
  method Spread(address: array<nat>, compress: nat, pieces: nat)
    requires address.Length == 8 && 0 < compress <= pieces <= 8
    requires forall i :: pieces <= i < 8 ==> address[i] == 0
    modifies address
    ensures Some(address[..]) == Expand(Scan(old(address[..pieces]), Some(compress)))
  {
    var swaps, pieceIndex := pieces - compress, 7;
    while pieceIndex != 0 && swaps > 0
      invariant 0 <= swaps <= pieces - compress && pieceIndex == 7 - (pieces - compress - swaps)
      invariant forall i :: 0 <= i < compress + swaps ==> address[i] == old(address[i])
      invariant forall i :: compress + swaps <= i <= pieceIndex ==> address[i] == 0
      invariant forall i :: pieceIndex < i < 8 ==> address[i] == old(address[i - (8 - pieces)])
    {
      var t := address[pieceIndex];
      address[pieceIndex] := address[compress + swaps - 1];
      address[compress + swaps - 1] := t;
      pieceIndex, swaps := pieceIndex - 1, swaps - 1;
    }
    assert swaps == 0;
    IsStretched(old(address[..pieces]), address[..], compress);
  }

  lemma IsStretched(was: seq<nat>, now: seq<nat>, compress: nat)
    requires compress <= |was| <= 8 == |now|
    requires forall i :: 0 <= i < compress ==> now[i] == was[i]
    requires forall i :: compress <= i < compress + 8 - |was| ==> now[i] == 0
    requires forall i :: compress + 8 - |was| <= i < 8 ==> now[i] == was[i - (8 - |was|)]
    ensures now == was[..compress] + Zeros(8 - |was|) + was[compress..]
  {}

  lemma TailIs(address: seq<nat>, pieces: seq<nat>, octets: seq<nat>)
    requires |address| == |pieces| + 2 && |octets| == 4 && address[..|pieces|] == pieces
    requires TailSoFar(address, |pieces|, octets)
    ensures address == pieces + TailPieces(octets)
  {}

  lemma NothingToExpand(pieces: seq<nat>)
    requires |pieces| <= 8
    ensures Expand(Scan(pieces, None)) == if |pieces| == 8 then Some(pieces) else None
  {}

  /** A piece that does not start with a colon: a group, or the dotted tail. */
  method ReadPiece(input: string, start: nat, address: array<nat>, pieceIndex: nat, ghost compress: Option<nat>)
    returns (ok: bool, pointer: nat, next: nat)
    requires address.Length == 8 && pieceIndex < 8 && start < |input| && input[start] != ':'
    requires forall i :: pieceIndex <= i < 8 ==> address[i] == 0
    modifies address
    ensures !ok ==> Groups(input[start..], old(address[..pieceIndex]), compress) == None
    ensures ok ==> start < pointer <= |input| && pieceIndex < next <= 8
                   && Groups(input[start..], old(address[..pieceIndex]), compress)
                   == Groups(input[pointer..], address[..next], compress)
    ensures ok ==> forall i :: next <= i < 8 ==> address[i] == 0
  {
    hide Dotted, Value, HexRun, TailPieces;
    ghost var s, pieces := input[start..], address[..pieceIndex];
    var value, length := ReadHex(input, start);
    pointer, next := start + length, pieceIndex;
    if pointer < |input| && input[pointer] == '.' {
      if length == 0 || pieceIndex > 6 {
        return false, pointer, next;
      }
      ok := ReadDotted(input, start, address, pieceIndex);
      if !ok {
        return;
      }
      pointer, next := |input|, pieceIndex + 2;
      TailIs(address[..next], pieces, Dotted(s, []).value);
      return;
    }
    if pointer < |input| {
      if input[pointer] != ':' || pointer + 1 == |input| {
        return false, pointer, next;
      }
      pointer := pointer + 1;
      assert s[length + 1..] == input[pointer..];
    } else {
      assert s[..length] == s;
    }
    ok := true;
    address[pieceIndex] := value;
    next := pieceIndex + 1;
    assert address[..next] == pieces + [value];
  }

  lemma FirstOf(s: string, pieces: seq<nat>, compress: Option<nat>)
    requires s != ""
    ensures |pieces| == 8 || (s[0] == ':' && compress.Some?) ==> Groups(s, pieces, compress) == None
    ensures |pieces| != 8 && s[0] == ':' && compress == None ==>
              Groups(s, pieces, compress) == Groups(s[1..], pieces + [0], Some(|pieces| + 1))
  {}

  lemma Finished(pieces: seq<nat>, compress: Option<nat>)
    ensures Groups("", pieces, compress) == Some(Scan(pieces, compress))
  {}

  method ParseIPv6Host(input: string) returns (r: Option<seq<nat>>)
    ensures r == IPv6Proofs.Parsed(input)
    ensures r.Some? ==> |r.value| == 8 && Bounded(r.value)
  {
    if IPv6Proofs.Parsed(input).Some? { IPv6Proofs.ParsedIsBounded(input); }
    hide Expand, Groups, Bounded;
    var address := new nat[8](_ => 0);
    var pieceIndex: nat, pointer: nat := 0, 0;
    var compress: Option<nat> := None;
    if |input| > 0 && input[0] == ':' {
      if |input| < 2 || input[1] != ':' {
        return None;
      }
      pointer, pieceIndex, compress := 2, 1, Some(1);
      assert address[..1] == [0];
    }
    assert pointer == 0 ==> input[0..] == input && address[..0] == [];
    assert Start(input) == Groups(input[pointer..], address[..pieceIndex], compress);
    hide Start;
    while pointer < |input|
      invariant pointer <= |input| && pieceIndex <= 8 && (compress.Some? ==> 0 < compress.value <= pieceIndex)
      invariant forall i :: pieceIndex <= i < 8 ==> address[i] == 0
      invariant Start(input) == Groups(input[pointer..], address[..pieceIndex], compress)
      decreases |input| - pointer
    {
      ghost var s, pieces := input[pointer..], address[..pieceIndex];
      FirstOf(s, pieces, compress);
      if pieceIndex == 8 {
        return None;
      }
      if input[pointer] == ':' {
        if compress != None {
          return None;
        }
        pointer, pieceIndex := pointer + 1, pieceIndex + 1;
        compress := Some(pieceIndex);
        assert address[..pieceIndex] == pieces + [0] && s[1..] == input[pointer..];
        continue;
      }
      var ok: bool;
      ok, pointer, pieceIndex := ReadPiece(input, pointer, address, pieceIndex, compress);
      if !ok {
        return None;
      }
    }
    Finished(address[..pieceIndex], compress);
    assert input[pointer..] == "";
    if compress != None {
      Spread(address, compress.value, pieceIndex);
    } else {
      NothingToExpand(address[..pieceIndex]);
      if pieceIndex != 8 {
        return None;
      }
      assert address[..pieceIndex] == address[..];
    }
    r := Some(address[..]);
  }
}
