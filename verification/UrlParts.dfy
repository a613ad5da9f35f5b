/** What the small operations on URL records come to: escapes, ports, hosts, and the segments of a path. */
module UrlParts {
  import opened Wrappers
  import opened UrlRecord
  import opened UrlParser
  import opened UrlSafety
  import opened UrlRuns
  import opened UrlReading
  import IPv4
  import IPv6Grammar
  import IPv6Print
  import IPv6Proofs
  import UrlTexts

  // ---- the input -----------------------------------------------------------------------------------

  predicate Blank(s: string) { forall i :: 0 <= i < |s| ==> s[i] <= ' ' }

  lemma {:induction false} BlanksOnTheLeft(blanks: string, rest: string)
    requires Blank(blanks) && (rest == "" || rest[0] > ' ')
    ensures StripLeft(blanks + rest) == rest
  {
    if blanks == "" {
      assert blanks + rest == rest;
    } else {
      assert (blanks + rest)[1..] == blanks[1..] + rest;
      BlanksOnTheLeft(blanks[1..], rest);
    }
  }

  lemma {:induction false} BlanksOnTheRight(rest: string, blanks: string)
    requires Blank(blanks) && (rest == "" || rest[|rest| - 1] > ' ')
    ensures StripRight(rest + blanks) == rest
  {
    if blanks == "" {
      assert rest + blanks == rest;
    } else {
      var n := |blanks| - 1;
      assert (rest + blanks)[..|rest + blanks| - 1] == rest + blanks[..n];
      BlanksOnTheRight(rest, blanks[..n]);
    }
  }

  /** What a parse reads of a text: not the spaces and controls around it, nor a tab or line break within. */
  lemma InputIsCleaned(before: string, text: string, after: string)
    requires Blank(before) && Blank(after) && (text == "" || (text[0] > ' ' && text[|text| - 1] > ' '))
    ensures Clean(before + text + after) == DropTabs(text)
  {
    hide StripLeft, StripRight, DropTabs;
    if text == "" {
      assert before + text + after == (before + after) + "";
      BlanksOnTheLeft(before + after, "");
      BlanksOnTheRight("", "");
      assert "" + "" == "";
    } else {
      assert before + text + after == before + (text + after);
      BlanksOnTheLeft(before, text + after);
      BlanksOnTheRight(text, after);
    }
  }

  /** Every input falls into these three. */
  lemma InputFalls(input: string) returns (before: string, text: string, after: string)
    ensures input == before + text + after && Blank(before) && Blank(after)
    ensures text == "" || (text[0] > ' ' && text[|text| - 1] > ' ')
  {
    before, text, after := "", input, "";
    while text != "" && text[0] <= ' '
      invariant input == before + text && Blank(before)
      decreases |text|
    {
      assert before + text == before + [text[0]] + text[1..];
      before, text := before + [text[0]], text[1..];
    }
    while text != "" && text[|text| - 1] <= ' '
      invariant input == before + text + after && Blank(after)
      invariant text == "" || text[0] > ' '
      decreases |text|
    {
      var n := |text| - 1;
      assert before + text + after == before + text[..n] + ([text[n]] + after);
      text, after := text[..n], [text[n]] + after;
    }
  }

  /** Tabs and line breaks are dropped one by one, wherever they are, and nothing else is. */
  lemma {:induction false} TabsAreDropped(a: string, c: char, b: string)
    ensures DropTabs(a + [c] + b) == DropTabs(a) + (if c in "\t\n\r" then "" else [c]) + DropTabs(b)
    ensures DropTabs("") == ""
    decreases |a|
  {
    var t := "\t\n\r";
    assert t[0] == '\t' && t[1] == '\n' && t[2] == '\r';
    if a == "" {
      assert (a + [c] + b)[1..] == b;
    } else {
      assert (a + [c] + b)[1..] == a[1..] + [c] + b;
      TabsAreDropped(a[1..], c, b);
    }
  }

  // ---- characters ----------------------------------------------------------------------------------

  const UPPER := "ABCDEFGHIJKLMNOPQRSTUVWXYZ"
  const LOWER := "abcdefghijklmnopqrstuvwxyz"

  lemma UpperAre(c: char)
    ensures c in UPPER <==> 'A' <= c <= 'Z'
  {
    if 'A' <= c <= 'Z' { assert UPPER[c as int - 'A' as int] == c; }
  }

  lemma LowerAre(c: char)
    ensures c in LOWER <==> 'a' <= c <= 'z'
  {
    if 'a' <= c <= 'z' { assert LOWER[c as int - 'a' as int] == c; }
  }

  /** The letters, and the lower case of each. */
  lemma LettersAre(c: char)
    ensures IsAlpha(c) <==> c in LOWER || c in UPPER
    ensures c !in UPPER ==> Lower(c) == c
    ensures c in UPPER ==> Lower(c) in LOWER && Lower(c) as int - 'a' as int == c as int - 'A' as int
  {
    UpperAre(c);
    LowerAre(c);
    LowerAre(Lower(c));
  }

  /** What a scheme is made of, what counts as a slash, and where an authority ends. */
  lemma MarksAre(c: Context, i: nat, special: bool)
    requires i < |c.input|
    ensures var ch := c.input[i];
            && (IsSchemeChar(ch) <==> ch in LOWER || ch in UPPER || '0' <= ch <= '9' || ch in "+-.")
            && (IsSlash(c, i) <==> ch in "/\\")
            && (EndsAuthority(c, i, special) <==> ch in (if special then "/?#\\" else "/?#"))
    ensures EndsAuthority(c, |c.input|, special) && !IsSlash(c, |c.input|)
  {
    LettersAre(c.input[i]);
    var marks, ends, slashes := "+-.", "/?#\\", "/\\";
    assert marks[0] == '+' && marks[1] == '-' && marks[2] == '.' && slashes[0] == '/' && slashes[1] == '\\';
    assert ends[0] == '/' && ends[1] == '?' && ends[2] == '#' && ends[3] == '\\';
    assert "/?#" == ends[..3];
  }

  /** The hosts that do not count as true in the source: none, the empty name and the number zero. */
  lemma FalseHostsAre(host: Option<Host>)
    ensures !Truthy(host) <==> host in {None, Some(Name("")), Some(Number(0))}
  {}

  /** A drive letter is a letter and a colon or bar; a text starts with one if a slash, a query, a fragment
      or nothing comes after these two. */
  lemma DrivesAre(a: char, b: char, rest: string)
    ensures IsDriveLetter([a, b] + rest) <==> IsAlpha(a) && b in ":|"
    ensures IsNormalizedDriveLetter([a, b] + rest) <==> IsAlpha(a) && b == ':'
    ensures StartsWithDriveLetter([a, b] + rest)
            <==> IsAlpha(a) && b in ":|" && (rest == "" || rest[0] in "/\\?#")
    ensures !IsDriveLetter([a]) && !IsNormalizedDriveLetter([a]) && !StartsWithDriveLetter([a])
    ensures !IsDriveLetter("") && !IsNormalizedDriveLetter("") && !StartsWithDriveLetter("")
  {
    var ends, marks := "/\\?#", ":|";
    assert ends[0] == '/' && ends[1] == '\\' && ends[2] == '?' && ends[3] == '#';
    assert marks[0] == ':' && marks[1] == '|';
    if rest != "" { assert ([a, b] + rest)[2] == rest[0]; }
  }

  /** What is dropped from the start of a file path are its empty segments, all of them but a last one. */
  lemma {:induction false} EmptyStartIsDropped(path: seq<string>)
    ensures var r := DropEmpty(path);
            && (|r| > 1 ==> r[0] != "")
            && forall i :: 0 <= i < |path| - |r| ==> path[i] == ""
  {
    if |path| > 1 && path[0] == "" {
      EmptyStartIsDropped(path[1..]);
      var r := DropEmpty(path);
      forall i | 0 <= i < |path| - |r| ensures path[i] == "" {
        if i > 0 { assert path[1..][i - 1] == path[i]; }
      }
    }
  }

  // ---- escapes and ports ---------------------------------------------------------------------------

  /** The sets as section 1.3 of the URL Standard builds them, each from a smaller one. */
  lemma EscapeSetsNest(c: char)
    ensures InSet(c, C0Control) <==> c < ' ' || '\U{007F}' <= c <= '\U{00FF}'
    ensures InSet(c, FragmentSet) <==> InSet(c, C0Control) || c in " \"<>`"
    ensures InSet(c, QuerySet) <==> InSet(c, C0Control) || c in " \"#<>"
    ensures InSet(c, PathSet) <==> InSet(c, FragmentSet) || c in "#?{}"
    ensures InSet(c, UserInfo) <==> InSet(c, PathSet) || c in "/:;=@[\\]^|"
  {
    var f, q, p, u := " \"<>`", " \"#<>", "#?{}", "/:;=@[\\]^|";
    assert f[0] == ' ' && f[1] == '"' && f[2] == '<' && f[3] == '>' && f[4] == '`';
    assert q[0] == ' ' && q[1] == '"' && q[2] == '#' && q[3] == '<' && q[4] == '>';
    assert p[0] == '#' && p[1] == '?' && p[2] == '{' && p[3] == '}';
    assert u[0] == '/' && u[1] == ':' && u[2] == ';' && u[3] == '=' && u[4] == '@' && u[5] == '[' && u[6] == '\\'
           && u[7] == ']' && u[8] == '^' && u[9] == '|';
  }

  /** A port is left out exactly if it is the scheme's. */
  lemma DefaultPortIsDropped(scheme: string, port: nat)
    ensures NormalizePort(scheme, None) == None
    ensures NormalizePort(scheme, Some(port)) ==
              if (scheme, port) in {("ftp:", 21), ("gopher:", 70), ("http:", 80), ("https:", 443), ("ws:", 80),
                                    ("wss:", 443)}
              then None else Some(port)
  {}

  // ---- hosts ---------------------------------------------------------------------------------------

  /** A text in brackets is an address exactly if the grammar of IPv6 addresses has it, and stands for
      what the grammar says. */
  lemma BracketedHost(text: string, special: bool, upper: map<char, string>, pieces: seq<nat>)
    ensures ParseHost("[" + text + "]", special, upper) == Some(Pieces(pieces))
            <==> exists f: IPv6Grammar.Form :: f.Valid() && f.Text() == text && f.Pieces() == pieces
  {
    assert ("[" + text + "]")[1..|"[" + text + "]"| - 1] == text;
    IPv6Proofs.ParsedIffForm(text, pieces);
    hide IPv6Proofs.Parsed;
  }

  /** A bracket that is not closed is no host. */
  lemma OpenBracket(text: string, special: bool, upper: map<char, string>)
    requires text == "" || text[|text| - 1] != ']'
    ensures ParseHost("[" + text, special, upper) == None
  {}

  /** Printing an address and reading the host gives it back. */
  lemma PrintedHostIsRead(special: bool, upper: map<char, string>, pieces: seq<nat>, output: string)
    requires |pieces| == 8 && (forall i :: 0 <= i < 8 ==> pieces[i] <= 0xFFFF) && IPv6Print.IsPrinted(pieces, output)
    ensures ParseHost(output, special, upper) == Some(Pieces(pieces))
  {
    IPv6Print.PrintedIsParsed(pieces, output);
    hide IPv6Proofs.Parsed, IPv6Print.IsPrinted;
  }

  /** The characters that no host has outside of brackets. */
  const FORBIDDEN := "\0\t\n\r #/:?@[\\]"

  /** A text without brackets is no host exactly if it has a forbidden character, or if its scheme is
      special and it looks like an IPv4 address but is none. An address it is with a special scheme
      exactly if the IPv4 parser says so, and else it is a name, escaped if the scheme is not special. */
  lemma TextHost(input: string, special: bool, upper: map<char, string>)
    requires input != "" && input[0] != '['
    ensures var r, address := ParseHost(input, special, upper), IPv4.IPv4Of(input);
            && (r == None <==>
                  (exists i :: 0 <= i < |input| && input[i] in FORBIDDEN) || (special && address == IPv4.Failure))
            && (r.Some? && !special ==> r == Some(Name(OpaqueHost(input, upper))))
            && (r.Some? && special ==>
                  r == match address
                       case Address(n) => Some(Number(n))
                       case _ => Some(Name(input)))
  {
    hide IPv4.IPv4Of, OpaqueHost;
    forall c ensures IsForbidden(c) <==> c in FORBIDDEN {
      var f := FORBIDDEN;
      assert f[0] == '\0' && f[1] == '\t' && f[2] == '\n' && f[3] == '\r' && f[4] == ' ' && f[5] == '#' && f[6] == '/'
             && f[7] == ':' && f[8] == '?' && f[9] == '@' && f[10] == '[' && f[11] == '\\' && f[12] == ']';
    }
  }

  /** A printable opaque host is left as it is. */
  lemma {:induction false} PrintableHostIsKept(input: string, upper: map<char, string>)
    requires forall i :: 0 <= i < |input| ==> 0x20 <= input[i] as int <= 0x7E
    ensures OpaqueHost(input, upper) == input
  {
    if input != "" {
      PrintableHostIsKept(input[1..], upper);
      assert [input[0]] + input[1..] == input;
    }
  }

  // ---- paths ---------------------------------------------------------------------------------------

  /** The spellings of one dot, and of two. */
  const DOT := {".", "%2e", "%2E"}
  const DOTS := {"..", ".%2e", ".%2E", "%2e.", "%2E.", "%2e%2e", "%2e%2E", "%2E%2e", "%2E%2E"}

  lemma DotSpellings(s: string)
    ensures IsSingleDot(s) <==> s in DOT
    ensures IsDoubleDot(s) <==> s in DOTS
  {
    if IsSingleDot(s) && |s| == 3 { assert s == [s[0], s[1], s[2]]; }
    if IsDoubleDot(s) && |s| == 4 { assert s == [s[0], s[1], s[2], s[3]]; }
    if IsDoubleDot(s) && |s| == 6 { assert s == [s[0], s[1], s[2], s[3], s[4], s[5]]; }
  }

  /** The texts between the slashes from `i` to `end`. */
  function Segments(s: string, special: bool, i: nat, end: nat): (r: seq<string>)
    requires i <= end <= |s|
    ensures r != []
    decreases end - i
  {
    var e := SegmentEnd(s, special, i);
    if e >= end then [Escaped(s[i..end], PathSet)]
    else [Escaped(s[i..e], PathSet)] + Segments(s, special, e + 1, end)
  }

  /** A host and the path after it. */
  datatype Place = Place(host: Option<Host>, path: seq<string>)

  /** A drive letter stands alone at the start of a file path; then a host is dropped. */
  predicate StartsDrive(file: bool, p: Place, segment: string) {
    file && p.path == [] && |segment| == 2 && IsAlpha(segment[0]) && segment[1] in ":|"
  }

  /** What the parent of a path is: a drive is its own. */
  function ParentOf(file: bool, path: seq<string>): seq<string> {
    if path == [] || (file && |path| == 1 && IsNormalizedDriveLetter(path[0])) then path else path[..|path| - 1]
  }

  /** Where segments lead from a place: two dots go to the parent, one dot stays, and each of them leaves
      an empty segment at the end of the path. */
  function Resolved(file: bool, p: Place, segments: seq<string>): Place
    requires segments != []
    decreases |segments|
  {
    var s, last := segments[0], |segments| == 1;
    var next :=
      if s in DOTS then p.(path := ParentOf(file, p.path))
      else if s in DOT then p
      else if StartsDrive(file, p, s) then
        Place(if Truthy(p.host) then Some(Name("")) else p.host, [[s[0]] + ":"])
      else p.(path := p.path + [s]);
    if !last then Resolved(file, next, segments[1..])
    else if s in DOTS || s in DOT then next.(path := next.path + [""])
    else next
  }

  function PlaceOf(u: Url): Place { Place(u.owner.host, u.path) }

  function Put(u: Url, p: Place): Url { u.(owner := u.owner.(host := p.host), path := p.path) }

  lemma SegmentResolves(u: Url, segment: string)
    ensures Put(u, Resolved(IsFile(u.scheme), PlaceOf(u), [segment])) == TakeSegment(u, segment, false)
    ensures forall rest: seq<string> | rest != [] ::
              Resolved(IsFile(u.scheme), PlaceOf(u), [segment] + rest)
              == Resolved(IsFile(u.scheme), PlaceOf(TakeSegment(u, segment, true)), rest)
  {
    DotSpellings(segment);
    hide IsSingleDot, IsDoubleDot, Truthy, IsFile, IsNormalizedDriveLetter;
    forall rest: seq<string> | rest != []
      ensures Resolved(IsFile(u.scheme), PlaceOf(u), [segment] + rest)
              == Resolved(IsFile(u.scheme), PlaceOf(TakeSegment(u, segment, true)), rest)
    {
      assert ([segment] + rest)[1..] == rest;
    }
  }

  /** A segment ends with the path, or at a slash. */
  lemma SegmentStops(c: Context, special: bool, i: nat)
    requires i <= |c.input|
    ensures var e, end := SegmentEnd(c.input, special, i), UrlTexts.PathEnd(c, i);
            e <= end && (EndsPath(c, e) <==> e == end) && (e < end ==> UrlTexts.PathEnd(c, e + 1) == end)
  {
    var e, end := SegmentEnd(c.input, special, i), UrlTexts.PathEnd(c, i);
    if e < end {
      PathEndsOnce(c, i, e + 1);
    }
  }

  lemma {:induction false} PathEndsOnce(c: Context, i: nat, j: nat)
    requires i <= |c.input| && i <= j <= UrlTexts.PathEnd(c, i)
    ensures UrlTexts.PathEnd(c, j) == UrlTexts.PathEnd(c, i)
    decreases j - i
  {
    if i < j { PathEndsOnce(c, i + 1, j); }
  }

  /** A record that a path has led somewhere; a file path loses the empty segments before others. */
  function Landed(u: Url, p: Place): Url {
    u.(owner := u.owner.(host := p.host), path := if IsFile(u.scheme) then DropEmpty(p.path) else p.path)
  }

  lemma PathUnfolds(c: Context, u: Url, i: nat)
    requires i <= |c.input|
    ensures var e, end := SegmentEnd(c.input, u.special, i), UrlTexts.PathEnd(c, i);
            var segment := Escaped(c.input[i..e], PathSet);
            && e <= end
            && WithPath(c, u, i) ==
                 if e == end then AfterPath(c, Trim(TakeSegment(u, segment, false), true), end)
                 else WithPath(c, TakeSegment(u, segment, true), e + 1)
  {
    hide EndsPath, TakeSegment, Trim, AfterPath, Escaped, SegmentEnd, InSegment, UrlTexts.PathEnd;
    SegmentStops(c, u.special, i);
  }

  lemma SegmentsUnfold(c: Context, special: bool, i: nat)
    requires i <= |c.input|
    ensures var e, end := SegmentEnd(c.input, special, i), UrlTexts.PathEnd(c, i);
            var segment := Escaped(c.input[i..e], PathSet);
            && e <= end
            && Segments(c.input, special, i, end) ==
                 if e == end then [segment] else [segment] + Segments(c.input, special, e + 1, end)
  {
    hide EndsPath, Escaped, SegmentEnd, InSegment, UrlTexts.PathEnd;
    SegmentStops(c, special, i);
  }

  lemma LastLands(u: Url, segment: string)
    ensures Trim(TakeSegment(u, segment, false), true)
            == Landed(u, Resolved(IsFile(u.scheme), PlaceOf(u), [segment]))
  {
    SegmentResolves(u, segment);
    hide TakeSegment, Resolved, IsFile, DropEmpty;
  }

  lemma NextLands(u: Url, segment: string, rest: seq<string>)
    requires rest != []
    ensures var t := TakeSegment(u, segment, true);
            t.special == u.special
            && Landed(t, Resolved(IsFile(t.scheme), PlaceOf(t), rest))
               == Landed(u, Resolved(IsFile(u.scheme), PlaceOf(u), [segment] + rest))
  {
    SegmentResolves(u, segment);
    TakenIsAlike(u, segment);
    hide TakeSegment, Resolved, IsFile, DropEmpty;
  }

  /** The record after the segments from `i` on: they lead from the host and the path that it had; then
      come the query or the fragment. */
  function AfterSegments(c: Context, u: Url, i: nat): Url
    requires i <= |c.input|
  {
    var end := UrlTexts.PathEnd(c, i);
    var p := Resolved(IsFile(u.scheme), PlaceOf(u), Segments(c.input, u.special, i, end));
    AfterPath(c, Landed(u, p), end)
  }

  lemma LastSegmentLands(c: Context, u: Url, i: nat)
    requires i <= |c.input| && SegmentEnd(c.input, u.special, i) == UrlTexts.PathEnd(c, i)
    ensures WithPath(c, u, i) == AfterSegments(c, u, i)
  {
    hide WithPath, AfterPath, Landed, Resolved, Segments, Escaped, SegmentEnd, UrlTexts.PathEnd, InSegment, EndsPath;
    PathUnfolds(c, u, i);
    SegmentsUnfold(c, u.special, i);
    LastLands(u, Escaped(c.input[i..SegmentEnd(c.input, u.special, i)], PathSet));
  }

  /** One segment less. */
  lemma SegmentLands(c: Context, u: Url, i: nat, e: nat, segment: string)
    requires i <= e < |c.input| && e == SegmentEnd(c.input, u.special, i) && e < UrlTexts.PathEnd(c, i)
    requires segment == Escaped(c.input[i..e], PathSet)
    ensures AfterSegments(c, u, i) == AfterSegments(c, TakeSegment(u, segment, true), e + 1)
  {
    hide AfterPath, Landed, Resolved, Segments, Escaped, SegmentEnd, UrlTexts.PathEnd, InSegment, EndsPath, TakeSegment,
         IsFile;
    SegmentStops(c, u.special, i);
    SegmentsUnfold(c, u.special, i);
    NextLands(u, segment, Segments(c.input, u.special, e + 1, UrlTexts.PathEnd(c, i)));
  }

  lemma {:induction false} PathIsResolved(c: Context, u: Url, i: nat)
    requires i <= |c.input|
    ensures WithPath(c, u, i) == AfterSegments(c, u, i)
    decreases |c.input| - i
  {
    hide *;
    var e := SegmentEnd(c.input, u.special, i);
    SegmentStops(c, u.special, i);
    if e < UrlTexts.PathEnd(c, i) {
      var segment := Escaped(c.input[i..e], PathSet);
      PathUnfolds(c, u, i);
      PathIsResolved(c, TakeSegment(u, segment, true), e + 1);
      SegmentLands(c, u, i, e, segment);
    } else {
      LastSegmentLands(c, u, i);
    }
  }

  lemma TakenIsAlike(u: Url, segment: string)
    ensures var t := TakeSegment(u, segment, true); t == Put(u, PlaceOf(t))
  {
    hide IsSingleDot, IsDoubleDot, Truthy, IsFile, IsNormalizedDriveLetter, ShortenPath;
  }

  /** Segments without dots and drive letters are all kept, in order, after what there was. */
  lemma {:induction false} PlainSegmentsAreKept(file: bool, p: Place, segments: seq<string>)
    requires segments != [] && forall i :: 0 <= i < |segments| ==> segments[i] !in DOT && segments[i] !in DOTS
    requires !StartsDrive(file, p, segments[0])
    ensures Resolved(file, p, segments) == p.(path := p.path + segments)
    decreases |segments|
  {
    var s := segments[0];
    if |segments| == 1 {
      assert segments == [s];
    } else {
      var rest := segments[1..];
      PlainSegmentsAreKept(file, p.(path := p.path + [s]), rest);
      assert p.path + [s] + rest == p.path + segments;
    }
  }
}
