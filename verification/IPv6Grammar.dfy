/** The texts of IPv6 addresses (section 2.2 of RFC 4291) and what they stand for; and the
    parser of lib/whatwg/url/parser.js as a function on what is left of the text. */
module IPv6Grammar {
  import opened Wrappers
  import opened Digits

  // ---- texts ---------------------------------------------------------------------------

  predicate IsGroup(g: string) { 1 <= |g| <= 4 && AllHex(g) }

  predicate IsOctet(o: string) {
    1 <= |o| <= 3 && AllDigits(o) && (|o| > 1 ==> o[0] != '0') && Value(o, 10) <= 255
  }

  predicate AllGroups(groups: seq<string>) { forall i :: 0 <= i < |groups| ==> IsGroup(groups[i]) }

  predicate AllOctets(octets: seq<string>) { forall i :: 0 <= i < |octets| ==> IsOctet(octets[i]) }

  function GroupValues(groups: seq<string>): (vs: seq<nat>)
    requires AllGroups(groups)
    ensures |vs| == |groups|
  {
    if groups == [] then [] else [Value(groups[0], 16)] + GroupValues(groups[1..])
  }

  function OctetValues(octets: seq<string>): (vs: seq<nat>)
    requires AllOctets(octets)
    ensures |vs| == |octets| && forall i :: 0 <= i < |vs| ==> vs[i] <= 255
  {
    if octets == [] then [] else [Value(octets[0], 10)] + OctetValues(octets[1..])
  }

  /** Each group followed by a colon. */
  function Colons(groups: seq<string>): string {
    if groups == [] then "" else groups[0] + ":" + Colons(groups[1..])
  }

  /** Octets with dots between them, and one before them if they go on from others. */
  function DottedText(octets: seq<string>, goesOn: bool): string {
    if octets == [] then "" else (if goesOn then "." else "") + octets[0] + DottedText(octets[1..], true)
  }

  function Pair(high: nat, low: nat): nat { high * 256 + low }

  /** Groups with colons between them, and perhaps an IPv4 address after them for the last two
      pieces. */
  datatype Side = Side(groups: seq<string>, octets: seq<string>) {
    predicate Valid() {
      && AllGroups(groups)
      && AllOctets(octets)
      && (octets == [] || |octets| == 4)
    }

    function Text(): string
      decreases |groups|
    {
      if groups == [] then DottedText(octets, false)
      else groups[0] + (if |groups| == 1 && octets == [] then "" else ":") + Side(groups[1..], octets).Text()
    }

    function Pieces(): seq<nat>
      requires Valid()
    {
      GroupValues(groups) + TailPieces(OctetValues(octets))
    }
  }

  function TailPieces(octets: seq<nat>): seq<nat> {
    if |octets| == 4 then [Pair(octets[0], octets[1]), Pair(octets[2], octets[3])] else []
  }

  function Zeros(n: nat): (z: seq<nat>)
    ensures |z| == n && forall i :: 0 <= i < n ==> z[i] == 0
  {
    seq(n, _ => 0)
  }

  /** Pieces with zeros between them, to make eight. */
  function Filled(left: seq<nat>, right: seq<nat>): (r: seq<nat>)
    requires |left| + |right| <= 8
    ensures |r| == 8
  {
    left + Zeros(8 - |left| - |right|) + right
  }

  /** A text of eight pieces, or of fewer with a run of zeros written as two colons. */
  datatype Form = Whole(side: Side) | Elided(left: seq<string>, side: Side) {
    predicate Valid() {
      && side.Valid()
      && match this
         case Whole(_) => |side.Pieces()| == 8
         case Elided(left, _) => AllGroups(left) && |left| + |side.Pieces()| <= 7
    }

    function Text(): string {
      match this
      case Whole(side) => side.Text()
      case Elided(left, side) => (if left == [] then ":" else Colons(left)) + ":" + side.Text()
    }

    function Pieces(): (p: seq<nat>)
      requires Valid()
      ensures |p| == 8
    {
      match this
      case Whole(side) => side.Pieces()
      case Elided(left, side) => Filled(GroupValues(left), side.Pieces())
    }
  }

  // ---- the parser as a function ----------------------------------------------------------

  /** How many hex digits come first, up to `max`. */
  function HexRun(s: string, max: nat): (n: nat)
    ensures n <= max && n <= |s| && AllHex(s[..n])
    ensures n < max && n < |s| ==> !IsHex(s[n])
  {
    if max == 0 || s == "" || !IsHex(s[0]) then 0 else 1 + HexRun(s[1..], max - 1)
  }

  /** Where the decimal number at the start of `s` ends, `n` digits of it having been read. */
  function OctetEnd(s: string, n: nat): (end: Option<nat>)
    requires n <= |s| && AllDigits(s[..n])
    ensures end.Some? ==> 0 < end.value <= |s| && AllDigits(s[..end.value])
    decreases |s| - n
  {
    if n == |s| || !IsDigit(s[n]) then (if n == 0 then None else Some(n))
    else if n > 0 && Value(s[..n], 10) == 0 then None
    else if Value(s[..n + 1], 10) > 255 then None
    else OctetEnd(s, n + 1)
  }

  function Dotted(s: string, parts: seq<nat>): Option<seq<nat>>
    decreases |s|
  {
    if s == "" then (if |parts| == 4 then Some(parts) else None)
    else if parts != [] && (s[0] != '.' || |parts| >= 4) then None
    else
      var t := if parts != [] then s[1..] else s;
      match OctetEnd(t, 0)
      case None => None
      case Some(n) => Dotted(t[n..], parts + [Value(t[..n], 10)])
  }

  /** The pieces read, a zero where the two colons were, and the index after it. */
  datatype Scan = Scan(pieces: seq<nat>, compress: Option<nat>)

  function Groups(s: string, pieces: seq<nat>, compress: Option<nat>): Option<Scan>
    decreases |s|
  {
    if s == "" then Some(Scan(pieces, compress))
    else if |pieces| == 8 then None
    else if s[0] == ':' then
      if compress.Some? then None else Groups(s[1..], pieces + [0], Some(|pieces| + 1))
    else
      var n := HexRun(s, 4);
      if n == |s| then Some(Scan(pieces + [Value(s, 16)], compress))
      else if s[n] == '.' then
        if n == 0 || |pieces| > 6 then None
        else
          match Dotted(s, [])
          case None => None
          case Some(octets) => Some(Scan(pieces + TailPieces(octets), compress))
      else if s[n] == ':' && n + 1 < |s| then Groups(s[n + 1..], pieces + [Value(s[..n], 16)], compress)
      else None
  }

  function Start(s: string): Option<Scan> {
    if s != "" && s[0] == ':' then
      if |s| < 2 || s[1] != ':' then None else Groups(s[2..], [0], Some(1))
    else Groups(s, [], None)
  }

  /** The eight pieces, with the zeros put where the two colons were. */
  function Expand(scan: Scan): (r: Option<seq<nat>>)
    requires |scan.pieces| <= 8 && (scan.compress.Some? ==> scan.compress.value <= |scan.pieces|)
    ensures r.Some? ==> |r.value| == 8
  {
    var k := |scan.pieces|;
    match scan.compress
    case None => if k == 8 then Some(scan.pieces) else None
    case Some(c) => Some(scan.pieces[..c] + Zeros(8 - k) + scan.pieces[c..])
  }

  ghost predicate Bounded(pieces: seq<nat>) {
    forall i :: 0 <= i < |pieces| ==> pieces[i] < 0x1_0000
  }
}
