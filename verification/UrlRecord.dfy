/** URL records and the tests and small operations on them, from lib/whatwg/url/parser.js and
    lib/whatwg/url/encode_sets.js. Texts are sequences of characters, read one at a time. */
module UrlRecord {
  import opened Wrappers
  import IPv4
  import IPv6Proofs

  datatype Host = Name(text: string) | Number(n: nat) | Pieces(pieces: seq<nat>)

  datatype Owner = Owner(username: string, password: string, host: Option<Host>)

  datatype Flags = Flags(
    hasUsername: bool,
    hasPassword: bool,
    failed: bool,
    terminated: bool,
    isDefaultSchemePort: bool)

  datatype Url = Url(
    scheme: string,
    owner: Owner,
    port: Option<nat>,
    path: seq<string>,
    query: Option<string>,
    fragment: Option<string>,
    special: bool,
    cannotBeBase: bool,
    flags: Flags)
  {
    function WithHost(host: Option<Host>): Url { this.(owner := owner.(host := host)) }
  }

  const BLANK :=
    Url("", Owner("", "", None), None, [], None, None, false, false, Flags(false, false, false, false, true))

  // ---- characters ------------------------------------------------------------------------

  predicate IsAlpha(c: char) { 'a' <= c <= 'z' || 'A' <= c <= 'Z' }

  function Lower(c: char): char { if 'A' <= c <= 'Z' then (c as int + 32) as char else c }

  datatype EncodeSet = UserInfo | C0Control | FragmentSet | PathSet | QuerySet

  /** The bits of the five tables; a character past the tables is in none. */
  predicate InSet(c: char, set_: EncodeSet) {
    var n := c as int;
    n < 0x20 || 0x7F <= n <= 0xFF
    || match set_
       case C0Control => false
       case FragmentSet => n == 0x20 || n == 0x22 || n == 0x3C || n == 0x3E || n == 0x60
       case QuerySet => n == 0x20 || n == 0x22 || n == 0x23 || n == 0x3C || n == 0x3E
       case PathSet =>
         n == 0x20 || n == 0x22 || n == 0x23 || n == 0x3C || n == 0x3E || n == 0x3F || n == 0x60 || n == 0x7B
           || n == 0x7D
       case UserInfo =>
         n == 0x20 || n == 0x22 || n == 0x23 || n == 0x2F || 0x3A <= n <= 0x40 || 0x5B <= n <= 0x5E || n == 0x60
         || 0x7B <= n <= 0x7D
  }

  /** appendOrEscape, as it is: the escape is looked up by the character, not by its number, and
      is always U+0000. */
  function AppendOrEscape(s: string, c: char, set_: EncodeSet): string {
    s + [if InSet(c, set_) then '\0' else c]
  }

  // ---- schemes and ports -----------------------------------------------------------------

  function DefaultPort(scheme: string): Option<int> {
    if scheme == "ftp:" then Some(21)
    else if scheme == "file:" then Some(-1)
    else if scheme == "gopher:" then Some(70)
    else if scheme == "http:" then Some(80)
    else if scheme == "https:" then Some(443)
    else if scheme == "ws:" then Some(80)
    else if scheme == "wss:" then Some(443)
    else None
  }

  predicate IsFile(scheme: string) { scheme == "file:" }

  predicate IsSpecial(scheme: string) { DefaultPort(scheme).Some? }

  function NormalizePort(scheme: string, port: Option<nat>): Option<nat> {
    if port.Some? && DefaultPort(scheme) == Some(port.value as int) then None else port
  }

  // ---- paths -----------------------------------------------------------------------------

  predicate IsDriveLetter(s: string) { |s| >= 2 && IsAlpha(s[0]) && (s[1] == ':' || s[1] == '|') }

  predicate IsNormalizedDriveLetter(s: string) { |s| >= 2 && IsAlpha(s[0]) && s[1] == ':' }

  predicate StartsWithDriveLetter(s: string) {
    && IsDriveLetter(s)
    && (|s| == 2 || s[2] == '/' || s[2] == '\\' || s[2] == '?' || s[2] == '#')
  }

  /** An escaped dot at `i`. */
  predicate EscapedDot(s: string, i: nat) { i + 3 <= |s| && s[i] == '%' && s[i + 1] == '2' && Lower(s[i + 2]) == 'e' }

  predicate IsSingleDot(s: string) { s == "." || (|s| == 3 && EscapedDot(s, 0)) }

  predicate IsDoubleDot(s: string) {
    if |s| == 2 then s == ".."
    else if |s| == 4 then (s[0] == '.' && EscapedDot(s, 1)) || (EscapedDot(s, 0) && s[3] == '.')
    else |s| == 6 && EscapedDot(s, 0) && EscapedDot(s, 3)
  }

  /** shortenURLPath */
  function ShortenPath(scheme: string, path: seq<string>): seq<string> {
    if path == [] then path
    else if |path| == 1 && IsFile(scheme) && IsNormalizedDriveLetter(path[0]) then path
    else path[..|path| - 1]
  }

  /** Empty segments before others. */
  function DropEmpty(path: seq<string>): (r: seq<string>)
    ensures |r| <= |path| && (path != [] ==> r != [])
    ensures r == path[|path| - |r|..]
    ensures path != [] && path[0] != "" ==> r == path
  {
    if |path| > 1 && path[0] == "" then DropEmpty(path[1..]) else path
  }

  // ---- hosts -----------------------------------------------------------------------------

  predicate IsForbidden(c: char) {
    c == '\0' || c == '\t' || c == '\n' || c == '\r' || c == ' ' || c == '#' || c == '/' || c == ':' || c == '?'
      || c == '@'
    || c == '[' || c == '\\' || c == ']'
  }

  predicate ContainsForbidden(s: string) { exists i :: 0 <= i < |s| && IsForbidden(s[i]) }

  /** percentEncode, of a character and not of its number: the character in upper case, after a
      zero or a percent sign. `upper` holds the characters that toUpperCase changes. */
  function PercentEncode(c: char, upper: map<char, string>): string {
    var h := if c in upper then upper[c] else [c];
    if |h| == 1 then "0" + h else "%" + h
  }

  /** parseOpaqueHost, on a text without forbidden characters. */
  function OpaqueHost(input: string, upper: map<char, string>): string {
    if input == "" then ""
    else
      var c := input[0];
      (if c as int <= 0x1F || c as int > 0x7E then PercentEncode(c, upper) else [c]) + OpaqueHost(input[1..], upper)
  }

  /** parseHost, on a text that is not null; None is its null. */
  function ParseHost(input: string, special: bool, upper: map<char, string>): Option<Host> {
    if input == "" then Some(Name(""))
    else if input[0] == '[' then
      if |input| < 2 || input[|input| - 1] != ']' then None
      else
        match IPv6Proofs.Parsed(input[1..|input| - 1])
        case None => None
        case Some(pieces) => Some(Pieces(pieces))
    else if ContainsForbidden(input) then None
    else if !special then Some(Name(OpaqueHost(input, upper)))
    else
      match IPv4.IPv4Of(input)
      case Address(n) => Some(Number(n))
      case Failure => None
      case NotAnAddress => Some(Name(input))
  }

  /** Whether a host counts as true in the source. */
  predicate Truthy(host: Option<Host>) {
    match host
    case Some(Name(text)) => text != ""
    case Some(Number(n)) => n != 0
    case Some(Pieces(_)) => true
    case None => false
  }

  // ---- records ---------------------------------------------------------------------------

  predicate NoDots(path: seq<string>) {
    forall i :: 0 <= i < |path| ==> !IsSingleDot(path[i]) && !IsDoubleDot(path[i])
  }

  predicate GoodPort(scheme: string, port: Option<nat>) {
    port.Some? ==> port.value <= 0xFFFF && DefaultPort(scheme) != Some(port.value as int)
  }

  /** What a record that can be a base satisfies. */
  predicate Good(u: Url) {
    && GoodPort(u.scheme, u.port)
    && (u.special <==> IsSpecial(u.scheme))
    && (u.cannotBeBase ==> !IsSpecial(u.scheme))
    && (!u.cannotBeBase ==> NoDots(u.path))
    && (IsFile(u.scheme) ==> u.path != [])
  }
}
