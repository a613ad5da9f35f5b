/** What basicURLParse reads: where each part of a record comes from in the text. */
module UrlReading {
  import opened Wrappers
  import opened Digits
  import opened UrlRecord
  import opened UrlParser
  import opened UrlSafety
  import opened UrlRuns

  /** One iteration of the loop. */
  lemma StepsTo(c: Context, m: Machine, u: Url, next: Machine, record: Url)
    requires 0 <= m.index <= |c.input| && Placed(c, m) && Step(c, m, u) == Go(next, record)
    ensures 0 <= next.index <= |c.input| + 1 && Placed(c, next) && ParseFrom(c, m, u) == ParseFrom(c, next, record)
  {
    StepProgresses(c, m, u);
    hide Step;
  }

  /** The machine when it has read on to `end`, character by character. */
  function ReadTo(m: Machine, s: string, end: nat): (r: Machine)
    requires 0 <= m.index <= end <= |s|
    ensures r.index == end && r.state == m.state
  {
    m.(index := end, buffer := m.buffer + s[m.index..end])
  }

  lemma ReadToUnfolds(m: Machine, s: string, end: nat)
    requires 0 <= m.index <= end <= |s|
    ensures m.index == end ==> ReadTo(m, s, end) == m
    ensures m.index < end ==> ReadTo(m.Append(s[m.index]).Advance(), s, end) == ReadTo(m, s, end)
  {
    if m.index == end {
      assert m.buffer + s[end..end] == m.buffer;
    } else {
      assert m.buffer + [s[m.index]] + s[m.index + 1..end] == m.buffer + s[m.index..end];
    }
  }

  // ---- the end of a text -------------------------------------------------------------------

  lemma OneMore(s: string, i: nat, end: nat, before: string, set_: EncodeSet)
    requires i < end <= |s|
    ensures AppendOrEscape(before, s[i], set_) + Escaped(s[i + 1..end], set_) == before + Escaped(s[i..end], set_)
  {
    assert s[i..end][1..] == s[i + 1..end];
  }

  /** A fragment is the rest of the text. */
  lemma {:induction false} FragmentIsRead(c: Context, m: Machine, u: Url)
    requires 0 <= m.index <= |c.input| && Placed(c, m) && m.state == Fragment
    ensures ParseFrom(c, m, u) == u.(fragment := Some(m.buffer + Escaped(c.input[m.index..], FragmentSet)))
    decreases |c.input| - m.index
  {
    Unfolds(c, m, u);
    var n := |c.input|;
    if m.index == n {
      assert c.input[n..] == "" && m.buffer + "" == m.buffer;
    } else {
      var next := m.(buffer := AppendOrEscape(m.buffer, c.input[m.index], FragmentSet)).Advance();
      assert Step(c, m, u) == Go(next, u);
      FragmentIsRead(c, next, u);
      OneMore(c.input, m.index, n, m.buffer, FragmentSet);
      assert c.input[m.index..n] == c.input[m.index..] && c.input[m.index + 1..n] == c.input[m.index + 1..];
    }
  }

  /** Where a query ends: at the first '#' from `i` on, or at the end. */
  function HashFrom(s: string, i: nat): (h: nat)
    requires i <= |s|
    ensures i <= h <= |s| && (h < |s| ==> s[h] == '#') && forall k :: i <= k < h ==> s[k] != '#'
    decreases |s| - i
  {
    if i == |s| || s[i] == '#' then i else HashFrom(s, i + 1)
  }

  /** The record after a query that starts at `i`, the fragment after it included. */
  function WithQuery(c: Context, u: Url, i: nat, before: string): Url
    requires i <= |c.input|
  {
    var h := HashFrom(c.input, i);
    var queried := u.(query := Some(before + Escaped(c.input[i..h], QuerySet)));
    if h == |c.input| then queried else queried.(fragment := Some(Escaped(c.input[h + 1..], FragmentSet)))
  }

  lemma QueryChar(c: Context, m: Machine, u: Url)
    requires 0 <= m.index < |c.input| && Placed(c, m) && m.state == Query && c.input[m.index] != '#'
    ensures Step(c, m, u) == Go(m.(buffer := AppendOrEscape(m.buffer, c.input[m.index], QuerySet)).Advance(), u)
  {
    hide AppendOrEscape, Placed;
  }

  lemma ThenFragment(c: Context, m: Machine, u: Url, v: Url)
    requires 0 <= m.index < |c.input| && Placed(c, m) && Step(c, m, u) == Go(m.Clear().To(Fragment).Advance(), v)
    ensures ParseFrom(c, m, u) == v.(fragment := Some(Escaped(c.input[m.index + 1..], FragmentSet)))
  {
    hide Step, ParseFrom, Placed, Escaped;
    StepsTo(c, m, u, m.Clear().To(Fragment).Advance(), v);
    FragmentFromEmpty(c, m.Clear().To(Fragment).Advance(), v);
  }

  lemma FragmentFromEmpty(c: Context, m: Machine, u: Url)
    requires 0 <= m.index <= |c.input| && Placed(c, m) && m.state == Fragment && m.buffer == ""
    ensures ParseFrom(c, m, u) == u.(fragment := Some(Escaped(c.input[m.index..], FragmentSet)))
  {
    FragmentIsRead(c, m, u);
    hide *;
    var text := Escaped(c.input[m.index..], FragmentSet);
    assert "" + text == text;
  }

  lemma QueryEnds(c: Context, m: Machine, u: Url)
    requires 0 <= m.index <= |c.input| && Placed(c, m) && m.state == Query && c.override == None
    requires m.index < |c.input| ==> c.input[m.index] == '#'
    ensures var queried := u.(query := Some(m.buffer));
            ParseFrom(c, m, u) ==
              if m.index == |c.input| then queried
              else queried.(fragment := Some(Escaped(c.input[m.index + 1..], FragmentSet)))
  {
    QueryEndStep(c, m, u);
    hide Step, ParseFrom, Placed, Escaped;
    var queried := u.(query := Some(m.buffer));
    if m.index < |c.input| {
      ThenFragment(c, m, u, queried);
    } else {
      StepsTo(c, m, u, m.Clear().Advance(), queried);
      ParseEnds(c, m.Clear().Advance(), queried);
    }
  }

  lemma QueryEndStep(c: Context, m: Machine, u: Url)
    requires 0 <= m.index <= |c.input| && Placed(c, m) && m.state == Query && c.override == None
    requires m.index < |c.input| ==> c.input[m.index] == '#'
    ensures var next := if m.index < |c.input| then m.Clear().To(Fragment) else m.Clear();
            Step(c, m, u) == Go(next.Advance(), u.(query := Some(m.buffer)))
  {
    hide AppendOrEscape, Placed;
  }

  /** A query is the text to the first '#', and what follows that is the fragment. */
  lemma {:induction false} QueryIsRead(c: Context, m: Machine, u: Url)
    requires 0 <= m.index <= |c.input| && Placed(c, m) && m.state == Query && c.override == None
    ensures ParseFrom(c, m, u) == WithQuery(c, u, m.index, m.buffer)
    decreases |c.input| - m.index
  {
    hide Step, ParseFrom, Placed, AppendOrEscape;
    if m.index == |c.input| || c.input[m.index] == '#' {
      QueryEnds(c, m, u);
      assert c.input[m.index..m.index] == "" && m.buffer + "" == m.buffer;
    } else {
      var next := m.(buffer := AppendOrEscape(m.buffer, c.input[m.index], QuerySet)).Advance();
      QueryChar(c, m, u);
      StepsTo(c, m, u, next, u);
      QueryIsRead(c, next, u);
      OneMore(c.input, m.index, HashFrom(c.input, m.index), m.buffer, QuerySet);
    }
  }

  // ---- the path ------------------------------------------------------------------------------

  /** A character that neither ends a segment nor the path. */
  predicate InSegment(ch: char, special: bool) {
    ch != '/' && ch != '?' && ch != '#' && !(special && ch == '\\')
  }

  predicate EndsPath(c: Context, i: nat) { i == |c.input| || c.At(i, '?') || c.At(i, '#') }

  lemma SegmentChar(c: Context, m: Machine, u: Url)
    requires 0 <= m.index < |c.input| && Placed(c, m) && m.state == Path && c.override == None
    requires InSegment(c.input[m.index], u.special)
    ensures Step(c, m, u) == Go(m.(buffer := AppendOrEscape(m.buffer, c.input[m.index], PathSet)).Advance(), u)
  {
    hide AppendOrEscape, TakeSegment, Trim, AfterSegment, Placed;
  }

  lemma {:induction false} SegmentIsRead(c: Context, m: Machine, u: Url, end: nat)
    requires 0 <= m.index <= end <= |c.input| && Placed(c, m) && m.state == Path && c.override == None
    requires forall k :: m.index <= k < end ==> InSegment(c.input[k], u.special)
    ensures var n := m.(index := end, buffer := m.buffer + Escaped(c.input[m.index..end], PathSet));
            Placed(c, n) && ParseFrom(c, m, u) == ParseFrom(c, n, u)
    decreases end - m.index
  {
    hide ParseFrom, Placed, AppendOrEscape, InSegment, Step;
    if m.index == end {
      assert m.buffer + Escaped(c.input[end..end], PathSet) == m.buffer;
    } else {
      var next := m.(buffer := AppendOrEscape(m.buffer, c.input[m.index], PathSet)).Advance();
      SegmentChar(c, m, u);
      StepsTo(c, m, u, next, u);
      SegmentIsRead(c, next, u, end);
      OneMore(c.input, m.index, end, m.buffer, PathSet);
    }
  }

  /** Where the segment that starts at `i` ends. */
  function SegmentEnd(s: string, special: bool, i: nat): (e: nat)
    requires i <= |s|
    ensures i <= e <= |s| && (e < |s| ==> !InSegment(s[e], special))
    ensures forall k :: i <= k < e ==> InSegment(s[k], special)
    decreases |s| - i
  {
    if i == |s| || !InSegment(s[i], special) then i else SegmentEnd(s, special, i + 1)
  }

  /** The record when a path has ended at `i`. */
  function AfterPath(c: Context, u: Url, i: nat): Url
    requires i <= |c.input|
  {
    if i == |c.input| then u
    else if c.input[i] == '?' then WithQuery(c, u, i + 1, "")
    else u.(fragment := Some(Escaped(c.input[i + 1..], FragmentSet)))
  }

  /** The record after a path that starts at `i`: its segments, escaped, one after the other, then
      the query or the fragment. */
  function WithPath(c: Context, u: Url, i: nat): Url
    requires i <= |c.input|
    decreases |c.input| - i
  {
    var e := SegmentEnd(c.input, u.special, i);
    var segment := Escaped(c.input[i..e], PathSet);
    if EndsPath(c, e) then AfterPath(c, Trim(TakeSegment(u, segment, false), true), e)
    else WithPath(c, TakeSegment(u, segment, true), e + 1)
  }

  lemma {:induction false} PathIsRead(c: Context, m: Machine, u: Url)
    requires 0 <= m.index <= |c.input| && Placed(c, m) && m.state == Path && m.buffer == "" && c.override == None
    ensures ParseFrom(c, m, u) == WithPath(c, u, m.index)
    decreases |c.input| - m.index
  {
    hide Step, TakeSegment, Trim, InSegment, ParseFrom, Placed, EndsPath, AfterPath, Escaped;
    var e := SegmentEnd(c.input, u.special, m.index);
    var segment := Escaped(c.input[m.index..e], PathSet);
    SegmentIsRead(c, m, u, e);
    assert "" + segment == segment;
    var n := m.(index := e, buffer := segment);
    if EndsPath(c, e) {
      LastSegmentIsRead(c, n, u);
    } else {
      NotAtEnd(c, e);
      SlashEndsSegment(c, n, u);
      StepsTo(c, n, u, n.Clear().Advance(), TakeSegment(u, segment, true));
      PathIsRead(c, n.Clear().Advance(), TakeSegment(u, segment, true));
    }
  }

  lemma NotAtEnd(c: Context, i: nat)
    requires i <= |c.input| && !EndsPath(c, i)
    ensures i < |c.input|
  {}

  lemma SlashEndsSegment(c: Context, m: Machine, u: Url)
    requires 0 <= m.index < |c.input| && Placed(c, m) && m.state == Path && c.override == None
    requires !InSegment(c.input[m.index], u.special) && !EndsPath(c, m.index)
    ensures Step(c, m, u) == Go(m.Clear().Advance(), TakeSegment(u, m.buffer, true))
  {
    NotTrimmed(TakeSegment(u, m.buffer, true));
    hide TakeSegment, AppendOrEscape, Trim, Placed;
  }

  lemma NotTrimmed(u: Url)
    ensures Trim(u, false) == u
  {}

  lemma LastSegmentStep(c: Context, m: Machine, u: Url)
    requires 0 <= m.index <= |c.input| && Placed(c, m) && m.state == Path && EndsPath(c, m.index) && c.override == None
    ensures Step(c, m, u) == AfterSegment(c, m, Trim(TakeSegment(u, m.buffer, false), true))
  {
    hide TakeSegment, AppendOrEscape, Trim, Placed, AfterSegment;
  }

  lemma ParseEnds(c: Context, m: Machine, u: Url)
    requires m.index == |c.input| + 1 && Placed(c, m)
    ensures ParseFrom(c, m, u) == u
  {}

  lemma PathIsPlaced(c: Context, m: Machine)
    requires c.Valid() && InPath(m.state)
    ensures Placed(c, m)
  {}

  lemma QuestionIsRead(c: Context, m: Machine, u: Url)
    requires 0 <= m.index < |c.input| && Placed(c, m) && c.override == None
    ensures var next := m.Clear().To(Query).Advance();
            Placed(c, next) && ParseFrom(c, next, u.(query := Some(""))) == WithQuery(c, u, m.index + 1, "")
  {
    var next := m.Clear().To(Query).Advance();
    PathIsPlaced(c, next);
    hide Step, ParseFrom, Placed, Escaped;
    QueryIsRead(c, next, u.(query := Some("")));
  }

  lemma HashIsRead(c: Context, m: Machine, u: Url)
    requires 0 <= m.index < |c.input| && Placed(c, m)
    ensures var next := m.Clear().To(Fragment).Advance();
            Placed(c, next)
            && ParseFrom(c, next, u.(fragment := Some("")))
               == u.(fragment := Some(Escaped(c.input[m.index + 1..], FragmentSet)))
  {
    var next := m.Clear().To(Fragment).Advance();
    PathIsPlaced(c, next);
    hide Step, ParseFrom, Placed, Escaped;
    FragmentFromEmpty(c, next, u.(fragment := Some("")));
  }

  lemma AfterSegmentGoes(c: Context, m: Machine, u: Url)
    requires 0 <= m.index <= |c.input| && EndsPath(c, m.index)
    ensures AfterSegment(c, m, u) ==
              if m.index == |c.input| then Go(m.Clear().Advance(), u)
              else if c.input[m.index] == '?' then Go(m.Clear().To(Query).Advance(), u.(query := Some("")))
              else Go(m.Clear().To(Fragment).Advance(), u.(fragment := Some("")))
  {}

  lemma LastSegmentIsRead(c: Context, m: Machine, u: Url)
    requires 0 <= m.index <= |c.input| && Placed(c, m) && m.state == Path && EndsPath(c, m.index) && c.override == None
    ensures ParseFrom(c, m, u) == AfterPath(c, Trim(TakeSegment(u, m.buffer, false), true), m.index)
  {
    var taken := Trim(TakeSegment(u, m.buffer, false), true);
    LastSegmentStep(c, m, u);
    AfterSegmentGoes(c, m, taken);
    hide Step, TakeSegment, Trim, AfterSegment;
    PathEndIsRead(c, m, u, taken);
  }

  lemma PathEndIsRead(c: Context, m: Machine, u: Url, taken: Url)
    requires 0 <= m.index <= |c.input| && Placed(c, m) && c.override == None
    requires Step(c, m, u) ==
               if m.index == |c.input| then Go(m.Clear().Advance(), taken)
               else if c.input[m.index] == '?' then Go(m.Clear().To(Query).Advance(), taken.(query := Some("")))
               else Go(m.Clear().To(Fragment).Advance(), taken.(fragment := Some("")))
    ensures ParseFrom(c, m, u) == AfterPath(c, taken, m.index)
  {
    hide Step, ParseFrom, Placed, WithQuery, Escaped;
    if m.index == |c.input| {
      StepsTo(c, m, u, m.Clear().Advance(), taken);
      ParseEnds(c, m.Clear().Advance(), taken);
    } else if c.input[m.index] == '?' {
      StepsTo(c, m, u, m.Clear().To(Query).Advance(), taken.(query := Some("")));
      QuestionIsRead(c, m, taken);
    } else {
      StepsTo(c, m, u, m.Clear().To(Fragment).Advance(), taken.(fragment := Some("")));
      HashIsRead(c, m, taken);
    }
  }

  /** A segment and a '..' after it leave the path as it was, with an empty last segment. */
  lemma ParentUndoesSegment(u: Url, segment: string, parent: string)
    requires !IsSingleDot(segment) && !IsDoubleDot(segment) && IsDoubleDot(parent)
    requires IsFile(u.scheme) ==> u.path != []
    ensures TakeSegment(TakeSegment(u, segment, true), parent, false).path == u.path + [""]
  {
    assert (u.path + [segment])[..|u.path|] == u.path;
  }

  // ---- the host and the port --------------------------------------------------------------------

  /** Whether a '[' is open after the text from `i` to `end`. */
  function BracketOpen(s: string, i: nat, end: nat, open: bool): bool
    requires i <= end <= |s|
    decreases end - i
  {
    if i == end then open else BracketOpen(s, i + 1, end, s[i] == '[' || (s[i] != ']' && open))
  }

  /** A host text: it holds no end of the authority, and a colon only inside of brackets. */
  predicate HostText(c: Context, i: nat, end: nat, special: bool, open: bool)
    requires i <= end <= |c.input|
    decreases end - i
  {
    i == end
    || (!EndsAuthority(c, i, special) && (c.input[i] == ':' ==> open)
        && HostText(c, i + 1, end, special, c.input[i] == '[' || (c.input[i] != ']' && open)))
  }

  predicate ReadsHost(c: Context, m: Machine, u: Url) {
    (m.state == HostState || m.state == Hostname) && (c.override == None || !IsFile(u.scheme))
  }

  lemma HostChar(c: Context, m: Machine, u: Url)
    requires 0 <= m.index < |c.input| && Placed(c, m) && ReadsHost(c, m, u)
    requires !EndsAuthority(c, m.index, u.special) && (c.input[m.index] == ':' ==> m.squareBracketFlag)
    ensures var ch := c.input[m.index];
            Step(c, m, u)
            == Go(m.(squareBracketFlag := ch == '[' || (ch != ']' && m.squareBracketFlag)).Append(ch).Advance(), u)
  {
    hide ParseHost, EndsAuthority, Placed;
  }

  lemma HostTextUnfolds(c: Context, i: nat, end: nat, special: bool, open: bool)
    requires i < end <= |c.input| && HostText(c, i, end, special, open)
    ensures var next := c.input[i] == '[' || (c.input[i] != ']' && open);
            !EndsAuthority(c, i, special) && (c.input[i] == ':' ==> open) && HostText(c, i + 1, end, special, next)
  {
    hide EndsAuthority;
  }

  /** The machine when it has read a host text. */
  function ReadHostTo(m: Machine, s: string, end: nat): (r: Machine)
    requires 0 <= m.index <= end <= |s|
    ensures r.index == end && r.state == m.state
  {
    ReadTo(m, s, end).(squareBracketFlag := BracketOpen(s, m.index, end, m.squareBracketFlag))
  }

  lemma ReadHostToUnfolds(m: Machine, s: string, end: nat)
    requires 0 <= m.index <= end <= |s|
    ensures m.index == end ==> ReadHostTo(m, s, end) == m
    ensures m.index < end ==>
              var ch := s[m.index];
              var next := m.(squareBracketFlag := ch == '[' || (ch != ']' && m.squareBracketFlag)).Append(ch).Advance();
              ReadHostTo(next, s, end) == ReadHostTo(m, s, end)
  {
    ReadToUnfolds(m, s, end);
    if m.index < end {
      assert m.buffer + [s[m.index]] + s[m.index + 1..end] == m.buffer + s[m.index..end];
    }
  }

  lemma {:induction false} HostIsRead(c: Context, m: Machine, u: Url, end: nat)
    requires 0 <= m.index <= end <= |c.input| && Placed(c, m) && ReadsHost(c, m, u)
    requires HostText(c, m.index, end, u.special, m.squareBracketFlag)
    ensures var n := ReadHostTo(m, c.input, end); Placed(c, n) && ParseFrom(c, m, u) == ParseFrom(c, n, u)
    decreases end - m.index
  {
    if m.index < end { HostTextUnfolds(c, m.index, end, u.special, m.squareBracketFlag); }
    hide Step, Placed, ParseFrom, ReadHostTo, EndsAuthority, HostText;
    ReadHostToUnfolds(m, c.input, end);
    if m.index < end {
      var ch := c.input[m.index];
      var next := m.(squareBracketFlag := ch == '[' || (ch != ']' && m.squareBracketFlag)).Append(ch).Advance();
      HostChar(c, m, u);
      StepsTo(c, m, u, next, u);
      HostIsRead(c, next, u, end);
    }
  }

  lemma PortChar(c: Context, m: Machine, u: Url)
    requires 0 <= m.index < |c.input| && Placed(c, m) && m.state == PortState && IsDigit(c.input[m.index])
    ensures Step(c, m, u) == Go(m.Append(c.input[m.index]).Advance(), u)
  {}

  lemma {:induction false} PortIsRead(c: Context, m: Machine, u: Url, end: nat)
    requires 0 <= m.index <= end <= |c.input| && Placed(c, m) && m.state == PortState
    requires forall k :: m.index <= k < end ==> IsDigit(c.input[k])
    ensures var n := ReadTo(m, c.input, end); Placed(c, n) && ParseFrom(c, m, u) == ParseFrom(c, n, u)
    decreases end - m.index
  {
    hide Step, Placed, ParseFrom, ReadTo, IsDigit;
    ReadToUnfolds(m, c.input, end);
    if m.index < end {
      var next := m.Append(c.input[m.index]).Advance();
      PortChar(c, m, u);
      StepsTo(c, m, u, next, u);
      PortIsRead(c, next, u, end);
    }
  }

  lemma AuthorityChar(c: Context, m: Machine, u: Url)
    requires 0 <= m.index < |c.input| && Placed(c, m) && m.state == Authority
    requires !EndsAuthority(c, m.index, u.special) && c.input[m.index] != '@'
    ensures Step(c, m, u) == Go(m.Append(c.input[m.index]).Advance(), u)
  {
    hide Credentials, EndsAuthority, Placed;
  }

  lemma {:induction false} AuthorityIsScanned(c: Context, m: Machine, u: Url, end: nat)
    requires 0 <= m.index <= end <= |c.input| && Placed(c, m) && m.state == Authority
    requires forall k :: m.index <= k < end ==> !EndsAuthority(c, k, u.special) && c.input[k] != '@'
    ensures var n := ReadTo(m, c.input, end); Placed(c, n) && ParseFrom(c, m, u) == ParseFrom(c, n, u)
    decreases end - m.index
  {
    hide Step, Placed, ParseFrom, ReadTo, EndsAuthority;
    ReadToUnfolds(m, c.input, end);
    if m.index < end {
      var next := m.Append(c.input[m.index]).Advance();
      AuthorityChar(c, m, u);
      StepsTo(c, m, u, next, u);
      AuthorityIsScanned(c, next, u, end);
    }
  }

  // ---- the scheme -----------------------------------------------------------------------------

  function Lowered(s: string): (r: string)
    ensures |r| == |s| && forall i :: 0 <= i < |s| ==> r[i] == Lower(s[i])
  {
    seq(|s|, i requires 0 <= i < |s| => Lower(s[i]))
  }

  /** The machine when it has read a scheme to `end`. */
  function ReadSchemeTo(m: Machine, s: string, end: nat): (r: Machine)
    requires 0 <= m.index <= end <= |s|
    ensures r.index == end && r.state == m.state
  {
    m.(index := end, buffer := m.buffer + Lowered(s[m.index..end]))
  }

  lemma ReadSchemeToUnfolds(m: Machine, s: string, end: nat)
    requires 0 <= m.index <= end <= |s|
    ensures m.index == end ==> ReadSchemeTo(m, s, end) == m
    ensures m.index < end ==> ReadSchemeTo(m.Append(Lower(s[m.index])).Advance(), s, end) == ReadSchemeTo(m, s, end)
  {
    if m.index == end {
      assert m.buffer + Lowered(s[end..end]) == m.buffer;
    } else {
      assert Lowered(s[m.index..end]) == [Lower(s[m.index])] + Lowered(s[m.index + 1..end]);
      assert m.buffer + [Lower(s[m.index])] + Lowered(s[m.index + 1..end]) == m.buffer + Lowered(s[m.index..end]);
    }
  }

  lemma SchemeChar(c: Context, m: Machine, u: Url)
    requires 0 <= m.index < |c.input| && Placed(c, m) && m.state == Scheme && IsSchemeChar(c.input[m.index])
    ensures Step(c, m, u) == Go(m.Append(Lower(c.input[m.index])).Advance(), u)
  {
    hide WithScheme, AfterScheme, Placed, IsSchemeChar;
  }

  lemma {:induction false} SchemeIsRead(c: Context, m: Machine, u: Url, end: nat)
    requires 0 <= m.index <= end <= |c.input| && Placed(c, m) && m.state == Scheme
    requires forall k :: m.index <= k < end ==> IsSchemeChar(c.input[k])
    ensures var n := ReadSchemeTo(m, c.input, end); Placed(c, n) && ParseFrom(c, m, u) == ParseFrom(c, n, u)
    decreases end - m.index
  {
    hide Step, Placed, ParseFrom, ReadSchemeTo, IsSchemeChar;
    ReadSchemeToUnfolds(m, c.input, end);
    if m.index < end {
      var next := m.Append(Lower(c.input[m.index])).Advance();
      SchemeChar(c, m, u);
      StepsTo(c, m, u, next, u);
      SchemeIsRead(c, next, u, end);
    }
  }
}
