/** What each text means to basicURLParse under a state override, which starts in a blank record: part by
    part, and that it is what the loop makes of it. */
module UrlOverrides {
  import opened Wrappers
  import opened Digits
  import opened Splitting
  import opened UrlRecord
  import opened UrlParser
  import opened UrlSafety
  import opened UrlRuns
  import opened UrlReading
  import opened UrlAuthority
  import opened UrlSchemes
  import opened UrlParts
  import UrlTexts
  import IPv6Proofs

  // ---- what a text means ---------------------------------------------------------------------------

  function Ended(u: Url): Url { u.(flags := u.flags.(terminated := true)) }

  /** A whole text, or no text, as a scheme: one that is special ends the parse, since the record that it
      starts from is not. */
  function OfScheme(c: Context): Option<Url> {
    var end := SchemeEnd(c.input, 0);
    var scheme := Lowered(c.input[..end]) + ":";
    if c.input == "" || !IsAlpha(c.input[0]) || (end < |c.input| && c.input[end] != ':') then None
    else Some(if IsSpecial(scheme) then Ended(BLANK) else BLANK.(scheme := scheme))
  }

  function EscapedParts(parts: seq<string>): (r: seq<string>)
    ensures |r| == |parts|
  {
    seq(|parts|, i requires 0 <= i < |parts| => Escaped(parts[i], PathSet))
  }

  /** A path is the rest of the text, split at slashes: a query or a fragment cannot follow. */
  function OfPath(c: Context, u: Url, i: nat): Url
    requires i <= |c.input|
  {
    Put(u, Resolved(false, PlaceOf(u), EscapedParts(Split(c.input[i..], '/'))))
  }

  /** After a slash, if there is one. */
  function OfPathStart(c: Context, u: Url, i: nat): Url
    requires i <= |c.input|
  {
    if i == |c.input| then u else OfPath(c, u, if c.input[i] == '/' then i + 1 else i)
  }

  /** A port, if `text` is one, and a path from `end` on. Without a port, or with one that is too large,
      a host stands alone, and else the parse ends or fails. */
  function OfDigits(c: Context, u: Url, text: string, end: nat): Option<Url>
    requires end <= |c.input| && AllDigits(text)
  {
    var port := Value(text, 10);
    if text == "" then Some(if c.override == Some(HostState) then u else Ended(u))
    else if port > 0xFFFF then (if c.override == Some(HostState) then Some(u) else None)
    else Some(OfPathStart(c, u.(port := Some(port)), end))
  }

  /** A port is as many digits as there are. */
  function OfPort(c: Context, u: Url, i: nat): Option<Url>
    requires i <= |c.input|
  {
    var end := DigitsEnd(c.input, i, |c.input|);
    OfDigits(c, u, c.input[i..end], end)
  }

  /** A host, before a colon at `end` or the end of the authority. */
  function OfHost(c: Context, u: Url, text: string, end: nat): Option<Url>
    requires end <= |c.input|
  {
    var host := ParseHost(text, false, c.upper);
    if host == None || (text == "" && c.At(end, ':')) then None
    else if c.At(end, ':') && c.override != Some(Hostname) then OfPort(c, u.WithHost(host), end + 1)
    else Some(u.WithHost(host))
  }

  /** A host, after user name and password if there are any. */
  function OfAuthority(c: Context): Option<Url> {
    var p := PartsFrom(c, 0, false);
    if p.at.Some? && p.HostStart() == p.portEnd then None
    else OfHost(c, BLANK.(owner := p.OwnerOf(c)), c.input[p.HostStart()..p.hostEnd], p.hostEnd)
  }

  /** The record that a text means under an override, if it means one. */
  function Meaning(c: Context): Option<Url>
    requires c.Valid() && c.override.Some?
  {
    match c.override.value
    case SchemeStart => OfScheme(c)
    case Authority => OfAuthority(c)
    case PortState => OfPort(c, BLANK, 0)
    case PathStart => Some(OfPathStart(c, BLANK, 0))
    case Fragment => Some(BLANK.(fragment := Some(Escaped(c.input, FragmentSet))))
    case _ =>
      var end := HostEnd(c.input, 0, AuthorityEnd(c, 0, false), false);
      OfHost(c, BLANK, c.input[..end], end)
  }

  // ---- paths ---------------------------------------------------------------------------------------

  lemma SegmentCharStep(c: Context, m: Machine, u: Url)
    requires 0 <= m.index < |c.input| && Placed(c, m) && m.state == Path && c.override.Some? && !u.special
    requires c.input[m.index] != '/'
    ensures Step(c, m, u) == Go(m.(buffer := AppendOrEscape(m.buffer, c.input[m.index], PathSet)).Advance(), u)
  {
    hide AppendOrEscape, TakeSegment, Trim, AfterSegment, Placed;
  }

  lemma {:induction false} WholeSegmentIsRead(c: Context, m: Machine, u: Url, end: nat)
    requires 0 <= m.index <= end <= |c.input| && Placed(c, m) && m.state == Path && c.override.Some? && !u.special
    requires forall k :: m.index <= k < end ==> c.input[k] != '/'
    ensures var n := m.(index := end, buffer := m.buffer + Escaped(c.input[m.index..end], PathSet));
            Placed(c, n) && ParseFrom(c, m, u) == ParseFrom(c, n, u)
    decreases end - m.index
  {
    hide ParseFrom, Placed, AppendOrEscape, Step;
    if m.index == end {
      assert m.buffer + Escaped(c.input[end..end], PathSet) == m.buffer;
    } else {
      var next := m.(buffer := AppendOrEscape(m.buffer, c.input[m.index], PathSet)).Advance();
      SegmentCharStep(c, m, u);
      StepsTo(c, m, u, next, u);
      WholeSegmentIsRead(c, next, u, end);
      OneMore(c.input, m.index, end, m.buffer, PathSet);
    }
  }

  lemma TakenIsNoFile(u: Url, segment: string, more: bool)
    requires !u.special && !IsFile(u.scheme)
    ensures var t := TakeSegment(u, segment, more); !t.special && !IsFile(t.scheme)
  {
    UrlTexts.SegmentKeepsFront(u, segment, more);
    hide TakeSegment;
  }

  lemma SegmentEndStep(c: Context, m: Machine, u: Url)
    requires 0 <= m.index <= |c.input| && Placed(c, m) && m.state == Path && c.override.Some? && !u.special
    requires !IsFile(u.scheme) && (m.index < |c.input| ==> c.input[m.index] == '/')
    ensures Step(c, m, u)
            == Go(m.(index := m.index + 1, buffer := ""), TakeSegment(u, m.buffer, m.index < |c.input|))
  {
    TakenIsNoFile(u, m.buffer, m.index < |c.input|);
    hide TakeSegment, AppendOrEscape, Placed, IsFile;
  }

  /** Where the next slash is. */
  function SlashFrom(s: string, i: nat): (e: nat)
    requires i <= |s|
    ensures i <= e <= |s| && (e < |s| ==> s[e] == '/') && forall k :: i <= k < e ==> s[k] != '/'
    decreases |s| - i
  {
    if i == |s| || s[i] == '/' then i else SlashFrom(s, i + 1)
  }

  lemma PartsUnfold(s: string, i: nat)
    requires i <= |s|
    ensures var e := SlashFrom(s, i);
            var part := Escaped(s[i..e], PathSet);
            EscapedParts(Split(s[i..], '/')) ==
              if e == |s| then [part] else [part] + EscapedParts(Split(s[e + 1..], '/'))
  {
    var e := SlashFrom(s, i);
    if e == |s| {
      SplitOne(s[i..], '/');
      assert s[i..e] == s[i..];
    } else {
      SplitStarts(s[i..e], '/', s[e + 1..]);
      assert s[i..e] + [s[e]] + s[e + 1..] == s[i..];
    }
  }

  lemma PutResolves(u: Url, segment: string, rest: seq<string>)
    requires !IsFile(u.scheme) && rest != []
    ensures Put(u, Resolved(false, PlaceOf(u), [segment])) == TakeSegment(u, segment, false)
    ensures var t := TakeSegment(u, segment, true);
            Put(u, Resolved(false, PlaceOf(u), [segment] + rest)) == Put(t, Resolved(false, PlaceOf(t), rest))
  {
    SegmentResolves(u, segment);
    TakenIsAlike(u, segment);
    hide TakeSegment, Resolved, IsFile;
  }

  lemma PathUnfolds(c: Context, u: Url, i: nat)
    requires i <= |c.input| && !IsFile(u.scheme)
    ensures var e := SlashFrom(c.input, i);
            var segment := Escaped(c.input[i..e], PathSet);
            OfPath(c, u, i) ==
              if e == |c.input| then TakeSegment(u, segment, false)
              else OfPath(c, TakeSegment(u, segment, true), e + 1)
  {
    hide TakeSegment, EscapedParts, Split, Resolved, SlashFrom, Escaped, Put, PlaceOf, IsFile;
    var e := SlashFrom(c.input, i);
    var segment := Escaped(c.input[i..e], PathSet);
    PartsUnfold(c.input, i);
    if e == |c.input| {
      PutResolves(u, segment, [""]);
    } else {
      PutResolves(u, segment, EscapedParts(Split(c.input[e + 1..], '/')));
    }
  }

  /** Under an override a path takes all the rest of a text. */
  lemma {:induction false} WholePathIsRead(c: Context, m: Machine, u: Url)
    requires 0 <= m.index <= |c.input| && Placed(c, m) && m.state == Path && m.buffer == "" && c.override.Some?
    requires !u.special && !IsFile(u.scheme)
    ensures ParseFrom(c, m, u) == OfPath(c, u, m.index)
    decreases |c.input| - m.index
  {
    hide *;
    var e := SlashFrom(c.input, m.index);
    var segment := Escaped(c.input[m.index..e], PathSet);
    var next, taken := m.(index := e + 1, buffer := ""), TakeSegment(u, segment, e < |c.input|);
    assert "" + segment == segment;
    TakenIsNoFile(u, segment, e < |c.input|);
    PathUnfolds(c, u, m.index);
    WholeSegmentIsRead(c, m, u, e);
    SegmentEndStep(c, m.(index := e, buffer := segment), u);
    StepsTo(c, m.(index := e, buffer := segment), u, next, taken);
    if e < |c.input| {
      WholePathIsRead(c, next, taken);
    } else {
      ParseEnds(c, next, taken);
    }
  }

  lemma PathStartStep(c: Context, m: Machine, u: Url)
    requires 0 <= m.index <= |c.input| && Placed(c, m) && m.state == PathStart && c.override.Some?
    requires !IsSpecial(u.scheme)
    ensures Step(c, m, u) ==
              if m.index == |c.input| then Go(m.(index := m.index + 1), u)
              else Go(m.(state := Path, index := if c.input[m.index] == '/' then m.index + 1 else m.index), u)
  {
    hide IsSpecial, Placed;
  }

  /** A record with no scheme, as all under an override are but for a scheme's own. */
  predicate Schemeless(u: Url) { u.scheme == "" && !u.special }

  lemma SchemelessIsPlain(u: Url)
    requires Schemeless(u)
    ensures !IsSpecial(u.scheme) && !IsFile(u.scheme) && !u.special
    ensures forall port :: NormalizePort(u.scheme, port) == port
  {}

  lemma PathStartIsRead(c: Context, m: Machine, u: Url)
    requires 0 <= m.index <= |c.input| && Placed(c, m) && m.state == PathStart && m.buffer == "" && c.override.Some?
    requires Schemeless(u)
    ensures ParseFrom(c, m, u) == OfPathStart(c, u, m.index)
  {
    hide Step, ParseFrom, Placed, OfPath, IsSpecial, IsFile, Schemeless;
    SchemelessIsPlain(u);
    PathStartStep(c, m, u);
    if m.index == |c.input| {
      StepsTo(c, m, u, m.(index := m.index + 1), u);
      ParseEnds(c, m.(index := m.index + 1), u);
    } else {
      var next := m.(state := Path, index := if c.input[m.index] == '/' then m.index + 1 else m.index);
      StepsTo(c, m, u, next, u);
      WholePathIsRead(c, next, u);
    }
  }

  // ---- ports ---------------------------------------------------------------------------------------

  lemma PortEndStep(c: Context, m: Machine, u: Url)
    requires 0 <= m.index <= |c.input| && Placed(c, m) && m.state == PortState && c.override.Some?
    requires Schemeless(u) && u.port == None && u.flags == BLANK.flags
    requires m.index < |c.input| ==> !IsDigit(c.input[m.index])
    ensures AllDigits(m.buffer)
    ensures var port := Value(m.buffer, 10);
            Step(c, m, u) ==
              if m.buffer == "" then Done(if c.override == Some(HostState) then u else Ended(u))
              else if port > 0xFFFF then Done(if c.override == Some(HostState) then u else Failed(u))
              else Go(m.(state := PathStart, buffer := ""), u.(port := Some(port)))
  {
    SchemelessIsPlain(u);
    hide NormalizePort, Value, Schemeless;
    assert BLANK.flags.isDefaultSchemePort;
  }

  /** The record, or a failure where there is none. */
  predicate Is(r: Url, meant: Option<Url>) {
    if meant.Some? then r == meant.value && !r.flags.failed else r.flags.failed
  }

  lemma PathKeepsFlags(c: Context, u: Url, i: nat)
    requires i <= |c.input|
    ensures OfPathStart(c, u, i).flags == u.flags
  {
    hide Resolved, Split, EscapedParts;
  }

  lemma PortEndIsMeant(c: Context, m: Machine, u: Url)
    requires 0 <= m.index <= |c.input| && Placed(c, m) && m.state == PortState && c.override.Some?
    requires Schemeless(u) && u.port == None && u.flags == BLANK.flags
    requires AllDigits(m.buffer) && (m.index < |c.input| ==> !IsDigit(c.input[m.index]))
    ensures Is(ParseFrom(c, m, u), OfDigits(c, u, m.buffer, m.index))
  {
    hide Step, ParseFrom, Placed, Value, IsDigit, OfPathStart;
    PortEndStep(c, m, u);
    if m.buffer == "" || Value(m.buffer, 10) > 0xFFFF {
      StepEnds(c, m, u, Step(c, m, u).url);
    } else {
      var next, ported := m.(state := PathStart, buffer := ""), u.(port := Some(Value(m.buffer, 10)));
      StepsTo(c, m, u, next, ported);
      PathStartIsRead(c, next, ported);
      PathKeepsFlags(c, ported, m.index);
    }
  }

  lemma PortIsMeant(c: Context, m: Machine, u: Url)
    requires 0 <= m.index <= |c.input| && Placed(c, m) && m.state == PortState && m.buffer == "" && c.override.Some?
    requires Schemeless(u) && u.port == None && u.flags == BLANK.flags
    ensures Is(ParseFrom(c, m, u), OfPort(c, u, m.index))
  {
    hide Step, ParseFrom, Placed, IsDigit, ReadTo, OfDigits, Schemeless;
    var end := DigitsEnd(c.input, m.index, |c.input|);
    ReadFromEmpty(m, c.input, end);
    PortIsRead(c, m, u, end);
    PortEndIsMeant(c, ReadTo(m, c.input, end), u);
  }

  // ---- hosts ---------------------------------------------------------------------------------------

  /** Where a host ends: at the first colon outside of brackets, or with the authority. */
  predicate EndsHost(c: Context, m: Machine) {
    || (c.At(m.index, ':') && !m.squareBracketFlag)
    || (EndsAuthority(c, m.index, false) && !c.At(m.index, ':'))
  }

  lemma HostEndStep(c: Context, m: Machine, u: Url)
    requires 0 <= m.index <= |c.input| && Placed(c, m) && (m.state == HostState || m.state == Hostname)
    requires c.override.Some? && Schemeless(u) && u.port == None && EndsHost(c, m)
    requires m.buffer == "" && !c.At(m.index, ':') ==> u.owner.username == "" && u.owner.password == ""
    ensures var r, host := Step(c, m, u), ParseHost(m.buffer, false, c.upper);
            if host == None || (m.buffer == "" && c.At(m.index, ':')) then r.Done? && r.url.flags.failed
            else if c.At(m.index, ':') && c.override != Some(Hostname) then
              r == Go(m.(state := PortState, index := m.index + 1, buffer := ""), u.WithHost(host))
            else r == Done(u.WithHost(host))
  {
    SchemelessIsPlain(u);
    hide ParseHost, Placed;
  }

  lemma HostEndIsMeant(c: Context, m: Machine, u: Url)
    requires 0 <= m.index <= |c.input| && Placed(c, m) && (m.state == HostState || m.state == Hostname)
    requires c.override.Some? && Schemeless(u) && u.port == None && u.flags == BLANK.flags && EndsHost(c, m)
    requires m.buffer == "" && !c.At(m.index, ':') ==> u.owner.username == "" && u.owner.password == ""
    ensures Is(ParseFrom(c, m, u), OfHost(c, u, m.buffer, m.index))
  {
    var host := ParseHost(m.buffer, false, c.upper);
    hide Step, ParseFrom, Placed, ParseHost, OfPort, EndsHost;
    HostEndStep(c, m, u);
    if host == None || (m.buffer == "" && c.At(m.index, ':')) {
      StepEnds(c, m, u, Step(c, m, u).url);
    } else if c.At(m.index, ':') && c.override != Some(Hostname) {
      var next, hosted := m.(state := PortState, index := m.index + 1, buffer := ""), u.WithHost(host);
      StepsTo(c, m, u, next, hosted);
      PortIsMeant(c, next, hosted);
    } else {
      StepEnds(c, m, u, u.WithHost(host));
    }
  }

  lemma HostIsMeant(c: Context, m: Machine, u: Url, end: nat)
    requires 0 <= m.index <= end <= |c.input| && Placed(c, m) && (m.state == HostState || m.state == Hostname)
    requires m.buffer == "" && !m.squareBracketFlag && HostText(c, m.index, end, false, false)
    requires (c.At(end, ':') && !BracketOpen(c.input, m.index, end, false)) || EndsAuthority(c, end, false)
    requires c.override.Some? && Schemeless(u) && u.port == None && u.flags == BLANK.flags
    requires m.index == end && !c.At(end, ':') ==> u.owner.username == "" && u.owner.password == ""
    ensures Is(ParseFrom(c, m, u), OfHost(c, u, c.input[m.index..end], end))
  {
    var n := ReadHostTo(m, c.input, end);
    SchemelessIsPlain(u);
    HostReadFromEmpty(m, c.input, end);
    assert EndsHost(c, n) by { hide BracketOpen, HostText, ReadHostTo, Placed, Schemeless; }
    assert |c.input[m.index..end]| == end - m.index;
    hide *;
    HostIsRead(c, m, u, end) by { assert ReadsHost(c, m, u); }
    HostEndIsMeant(c, n, u);
  }

  lemma AuthorityIsMeant(c: Context)
    requires c.Valid() && c.override.Some?
    ensures Placed(c, At(Authority, 0)) && Is(ParseFrom(c, At(Authority, 0), BLANK), OfAuthority(c))
  {
    var p := PartsFrom(c, 0, false);
    var owned := BLANK.(owner := p.OwnerOf(c));
    hide ParseFrom, Placed, PartsFrom, OfHost, BracketOpen, HostText, EndsAuthority, Credentials, AtsEscaped;
    AtIsPlaced(c, Authority, 0);
    OwnerStage(c, p, BLANK);
    if !(p.at.Some? && p.HostStart() == p.portEnd) {
      HostIsMeant(c, AtHost(c, p), owned, p.hostEnd);
    }
  }

  lemma HostAloneIsMeant(c: Context, state: State)
    requires c.Valid() && c.override.Some? && (state == HostState || state == Hostname)
    ensures Placed(c, At(state, 0))
    ensures Is(ParseFrom(c, At(state, 0), BLANK),
               var end := HostEnd(c.input, 0, AuthorityEnd(c, 0, false), false);
               OfHost(c, BLANK, c.input[..end], end))
  {
    var end := AuthorityEnd(c, 0, false);
    HostEndIsHost(c, 0, end, false, false);
    assert c.input[0..HostEnd(c.input, 0, end, false)] == c.input[..HostEnd(c.input, 0, end, false)];
    hide ParseFrom, Placed, OfHost, BracketOpen, HostText, EndsAuthority, AuthorityEnd, HostEnd;
    AtIsPlaced(c, state, 0);
    HostIsMeant(c, At(state, 0), BLANK, HostEnd(c.input, 0, end, false));
  }

  // ---- schemes -------------------------------------------------------------------------------------

  lemma SchemeStartStep(c: Context, m: Machine)
    requires 0 <= m.index <= |c.input| && Placed(c, m) && m.state == SchemeStart && c.override.Some?
    ensures Step(c, m, BLANK) ==
              if m.index < |c.input| && IsAlpha(c.input[m.index]) then
                Go(m.Append(Lower(c.input[m.index])).To(Scheme).Advance(), BLANK)
              else Done(Failed(BLANK))
  {
    hide Placed, IsAlpha;
  }

  lemma SchemeEndStep(c: Context, m: Machine)
    requires 0 <= m.index <= |c.input| && Placed(c, m) && m.state == Scheme && c.override.Some? && m.buffer != ""
    requires m.index < |c.input| ==> !IsSchemeChar(c.input[m.index])
    ensures var scheme := m.buffer + ":";
            Step(c, m, BLANK) ==
              if m.index < |c.input| && c.input[m.index] != ':' then Done(Failed(BLANK))
              else Done(if IsSpecial(scheme) then Ended(BLANK) else BLANK.(scheme := scheme))
  {
    hide Placed, IsSchemeChar, AfterScheme;
  }

  lemma SchemeIsMeant(c: Context)
    requires c.Valid() && c.override.Some?
    ensures Placed(c, At(SchemeStart, 0)) && Is(ParseFrom(c, At(SchemeStart, 0), BLANK), OfScheme(c))
  {
    var m, end := At(SchemeStart, 0), SchemeEnd(c.input, 0);
    AtIsPlaced(c, SchemeStart, 0);
    SchemeStartStep(c, m);
    if c.input == "" || !IsAlpha(c.input[0]) {
      hide Step, Placed, ParseFrom, IsAlpha;
      StepEnds(c, m, BLANK, Failed(BLANK));
    } else {
      assert IsSchemeChar(c.input[0]) && end > 0;
      var next := m.Append(Lower(c.input[0])).To(Scheme).Advance();
      FirstRead(c.input[0], c.input[1..end]);
      assert [c.input[0]] + c.input[1..end] == c.input[..end];
      assert ReadSchemeTo(next, c.input, end) == AtSchemeEnd(c);
      hide Step, Placed, ParseFrom, ReadSchemeTo, IsSchemeChar, IsAlpha, IsSpecial;
      StepsTo(c, m, BLANK, next, BLANK);
      SchemeIsRead(c, next, BLANK, end);
      SchemeEndStep(c, AtSchemeEnd(c));
      StepEnds(c, AtSchemeEnd(c), BLANK, Step(c, AtSchemeEnd(c), BLANK).url);
    }
  }

  // ---- all texts -----------------------------------------------------------------------------------

  lemma FragmentIsMeant(c: Context)
    requires c.Valid()
    ensures Placed(c, At(Fragment, 0))
    ensures Is(ParseFrom(c, At(Fragment, 0), BLANK), Some(BLANK.(fragment := Some(Escaped(c.input, FragmentSet)))))
  {
    var text := Escaped(c.input, FragmentSet);
    assert c.input[0..] == c.input && "" + text == text;
    hide ParseFrom, Placed, Escaped;
    AtIsPlaced(c, Fragment, 0);
    FragmentIsRead(c, At(Fragment, 0), BLANK);
  }

  lemma PathIsMeant(c: Context)
    requires c.Valid() && c.override.Some?
    ensures Placed(c, At(PathStart, 0))
    ensures Is(ParseFrom(c, At(PathStart, 0), BLANK), Some(OfPathStart(c, BLANK, 0)))
  {
    hide ParseFrom, Placed, OfPathStart;
    AtIsPlaced(c, PathStart, 0);
    PathStartIsRead(c, At(PathStart, 0), BLANK);
    PathKeepsFlags(c, BLANK, 0);
  }

  lemma PortAloneIsMeant(c: Context)
    requires c.Valid() && c.override.Some?
    ensures Placed(c, At(PortState, 0)) && Is(ParseFrom(c, At(PortState, 0), BLANK), OfPort(c, BLANK, 0))
  {
    hide ParseFrom, Placed, OfPort;
    AtIsPlaced(c, PortState, 0);
    PortIsMeant(c, At(PortState, 0), BLANK);
  }

  lemma ParsedIs(c: Context)
    requires c.Valid() && c.override.Some?
    ensures Is(Parse(c), Meaning(c))
  {
    var state := c.override.value;
    assert Start(c.override) == At(state, 0);
    hide ParseFrom, Placed, OfScheme, OfAuthority, OfPort, OfPathStart, OfHost, Escaped, HostEnd, AuthorityEnd, Is;
    AtIsPlaced(c, state, 0);
    match state
    case SchemeStart => SchemeIsMeant(c);
    case Authority => AuthorityIsMeant(c);
    case PortState => PortAloneIsMeant(c);
    case PathStart => PathIsMeant(c);
    case Fragment => FragmentIsMeant(c);
    case _ => HostAloneIsMeant(c, state);
  }

  /** Over all texts and all overrides: the parse fails exactly where the text means nothing, and else
      returns the record that the text means. */
  lemma ParsedIsMeant(c: Context)
    requires c.Valid() && c.override.Some?
    ensures Parse(c).flags.failed <==> Meaning(c) == None
    ensures Meaning(c).Some? ==> Parse(c) == Meaning(c).value
  {
    hide Parse, Meaning;
    ParsedIs(c);
  }

  // ---- what the setters of a URL get ---------------------------------------------------------------

  /** A special scheme empties the scheme of the record that is returned. */
  lemma SpecialSchemeIsEmpty(c: Context)
    requires c.Valid() && c.override == Some(SchemeStart) && c.input != "" && IsAlpha(c.input[0])
    requires var end := SchemeEnd(c.input, 0);
             (end < |c.input| ==> c.input[end] == ':') && IsSpecial(Lowered(c.input[..end]) + ":")
    ensures !Parse(c).flags.failed && Parse(c).scheme == ""
  {
    hide Parse, IsSpecial, IsAlpha, Lowered, SchemeEnd;
    ParsedIsMeant(c);
  }

  lemma SuccessIsMeant(c: Context)
    requires c.Valid() && c.override.Some? && !Parse(c).flags.failed
    ensures Meaning(c) == Some(Parse(c))
  {
    hide Parse, Meaning;
    ParsedIsMeant(c);
  }

  lemma {:induction false} SegmentsKeepHost(p: Place, segments: seq<string>)
    requires segments != []
    ensures Resolved(false, p, segments).host == p.host
    decreases |segments|
  {
    if |segments| > 1 {
      var s := segments[0];
      var next := if s in DOTS then p.(path := ParentOf(false, p.path))
                  else if s in DOT then p
                  else p.(path := p.path + [s]);
      SegmentsKeepHost(next, segments[1..]);
    }
  }

  lemma PathKeepsOwner(c: Context, u: Url, i: nat)
    requires i <= |c.input|
    ensures OfPathStart(c, u, i).owner == u.owner
  {
    hide Resolved, Split, EscapedParts;
    if i < |c.input| {
      var from := if c.input[i] == '/' then i + 1 else i;
      SegmentsKeepHost(PlaceOf(u), EscapedParts(Split(c.input[from..], '/')));
    }
  }

  lemma PortKeepsOwner(c: Context, u: Url, i: nat)
    requires i <= |c.input| && OfPort(c, u, i).Some?
    ensures OfPort(c, u, i).value.owner == u.owner
  {
    hide OfPathStart, Value;
    var end := DigitsEnd(c.input, i, |c.input|);
    if end > i { PathKeepsOwner(c, u.(port := Some(Value(c.input[i..end], 10))), end); }
  }

  /** The owner of a record is the one before the host, with a host that is a name or eight pieces. */
  lemma HostKeepsOwner(c: Context, u: Url, text: string, end: nat)
    requires end <= |c.input| && OfHost(c, u, text, end).Some?
    ensures var owner := OfHost(c, u, text, end).value.owner;
            owner == u.owner.(host := owner.host) && owner.host.Some? && !owner.host.value.Number?
  {
    hide OfPort, OpaqueHost, IPv6Proofs.Parsed, ContainsForbidden;
    var host := ParseHost(text, false, c.upper);
    if c.At(end, ':') && c.override != Some(Hostname) { PortKeepsOwner(c, u.WithHost(host), end + 1); }
  }

  /** A text without an '@' is no user name, nor a password. */
  lemma NoAtIsNoName(c: Context)
    requires c.Valid() && c.override == Some(Authority) && '@' !in c.input && !Parse(c).flags.failed
    ensures Parse(c).owner.username == Parse(c).owner.password == ""
  {
    var p := PartsFrom(c, 0, false);
    assert p.at == None && p.OwnerOf(c) == BLANK.owner;
    hide Parse, PartsFrom, OfHost;
    SuccessIsMeant(c);
    HostKeepsOwner(c, BLANK.(owner := p.OwnerOf(c)), c.input[p.HostStart()..p.hostEnd], p.hostEnd);
  }

  /** A host is never an IPv4 address. */
  lemma HostIsNoNumber(c: Context)
    requires c.Valid() && (c.override == Some(HostState) || c.override == Some(Hostname)) && !Parse(c).flags.failed
    ensures Parse(c).owner.host.Some? && !Parse(c).owner.host.value.Number?
  {
    hide Parse, OfHost, HostEnd, AuthorityEnd;
    SuccessIsMeant(c);
    var end := HostEnd(c.input, 0, AuthorityEnd(c, 0, false), false);
    HostKeepsOwner(c, BLANK, c.input[..end], end);
  }

  /** A port is taken as it is, also the one of the scheme. */
  lemma PortIsTaken(c: Context, n: nat)
    requires c.Valid() && c.override == Some(PortState) && c.input == Render(n, 10)
    ensures if n > 0xFFFF then Parse(c).flags.failed else Parse(c).port == Some(n) && Parse(c).path == []
  {
    RenderIsShortest(n, 10);
    RenderValue(n, 10);
    DigitsWhole(c.input, 0);
    assert c.input[0..] == c.input && c.input[0..|c.input|] == c.input;
    hide Parse, Render, Value, OfPath, DigitsEnd;
    ParsedIsMeant(c);
  }

  lemma {:induction false} DigitsWhole(s: string, i: nat)
    requires i <= |s| && AllDigits(s)
    ensures DigitsEnd(s, i, |s|) == |s|
    decreases |s| - i
  {
    if i < |s| { DigitsWhole(s, i + 1); }
  }

  /** No override makes a scheme special: the record that the parse starts from is not. */
  lemma SchemeIsNeverSpecial(c: Context)
    requires c.Valid() && c.override == Some(SchemeStart) && !Parse(c).flags.failed
    ensures !IsSpecial(Parse(c).scheme)
  {
    assert !IsSpecial("");
    ParsedIsMeant(c);
    hide Parse, IsAlpha, Lowered;
  }
}
