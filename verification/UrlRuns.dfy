/** basicURLParse as a whole. */
module UrlRuns {
  import opened Wrappers
  import opened UrlRecord
  import opened UrlParser
  import opened UrlSafety

  // ---- the input -------------------------------------------------------------------------

  predicate IsControlOrSpace(c: char) { c as int <= 0x20 }

  function StripLeft(s: string): string {
    if s != "" && IsControlOrSpace(s[0]) then StripLeft(s[1..]) else s
  }

  function StripRight(s: string): string {
    if s != "" && IsControlOrSpace(s[|s| - 1]) then StripRight(s[..|s| - 1]) else s
  }

  function DropTabs(s: string): string {
    if s == "" then ""
    else if s[0] == '\t' || s[0] == '\n' || s[0] == '\r' then DropTabs(s[1..])
    else [s[0]] + DropTabs(s[1..])
  }

  function Clean(input: string): string { DropTabs(StripRight(StripLeft(input))) }

  function Start(override: Option<State>): Machine {
    Machine(if override.Some? then override.value else SchemeStart, 0, "", false, false, false)
  }

  // ---- the loop --------------------------------------------------------------------------

  /** The record that the loop returns. */
  function ParseFrom(c: Context, m: Machine, u: Url): Url
    requires 0 <= m.index <= |c.input| + 1 && Placed(c, m)
    decreases Rank(m.state), |c.input| + 1 - m.index
  {
    if m.index > |c.input| then u
    else
      match Step(c, m, u)
      case Done(r) => r
      case Go(next, record) =>
        StepProgresses(c, m, u);
        ParseFrom(c, next, record)
  }

  function Parse(c: Context): Url
    requires c.Valid()
  {
    ParseFrom(c, Start(c.override), BLANK)
  }

  lemma ValidContext(c: Context)
    requires c.override.Some? ==> Exported(c.override.value)
    requires c.base.Some? ==> Good(c.base.value)
    ensures c.Valid() && Placed(c, Start(c.override))
  {}

  // ---- good records ------------------------------------------------------------------------

  lemma {:induction false} ParseKeeps(c: Context, m: Machine, u: Url)
    requires 0 <= m.index <= |c.input| + 1 && Placed(c, m)
    requires c.override == None && (c.base.Some? ==> Good(c.base.value)) && SoFar(c, m.state, m.index, u)
    ensures !ParseFrom(c, m, u).flags.failed ==> Good(ParseFrom(c, m, u))
    decreases Rank(m.state), |c.input| + 1 - m.index
  {
    if m.index > |c.input| {
      AtEnd(c, m.state, m.index, u);
    } else {
      StepProgresses(c, m, u);
      StepKeeps(c, m, u);
      hide Step, Good, SoFar, Placed;
      match Step(c, m, u)
      case Done(r) =>
      case Go(next, record) => ParseKeeps(c, next, record);
    }
  }

  lemma AtEnd(c: Context, state: State, index: int, u: Url)
    requires SoFar(c, state, index, u) && index > |c.input|
    ensures Good(u)
  {}

  /** Without a state override, a parse that does not fail returns a good record, which can be a
      base in turn. */
  lemma ParsedIsGood(c: Context)
    requires c.override == None && (c.base.Some? ==> Good(c.base.value))
    ensures c.Valid() && (!Parse(c).flags.failed ==> Good(Parse(c)))
  {
    assert IsSpecial("") == false;
    ParseKeeps(c, Start(None), BLANK);
  }

  // ---- drive letters -----------------------------------------------------------------------

  predicate HasDrive(u: Url) { IsFile(u.scheme) && u.path != [] && IsNormalizedDriveLetter(u.path[0]) }

  predicate InPath(s: State) { s.Path? || s.Query? || s.Fragment? }

  lemma SegmentKeepsDrive(u: Url, segment: string, more: bool, ends: bool)
    requires HasDrive(u)
    ensures var taken := Trim(TakeSegment(u, segment, more), ends); HasDrive(taken) && taken.path[0] == u.path[0]
  {
    hide IsSingleDot, IsDoubleDot;
    var taken := TakeSegment(u, segment, more);
    assert taken.path != [] && taken.path[0] == u.path[0] && taken.path[0] != "";
  }

  lemma AfterSegmentKeepsDrive(c: Context, m: Machine, u: Url)
    requires HasDrive(u) && m.state == Path
    ensures var r := AfterSegment(c, m, u);
            r.Go? && InPath(r.m.state) && HasDrive(r.u) && r.u.path[0] == u.path[0]
  {
    hide IsFile, IsNormalizedDriveLetter, Context.At;
  }

  lemma StepKeepsDrive(c: Context, m: Machine, u: Url)
    requires 0 <= m.index <= |c.input| && Placed(c, m) && InPath(m.state) && HasDrive(u)
    ensures var r := Step(c, m, u);
            r.Go? && InPath(r.m.state) && HasDrive(r.u) && r.u.path[0] == u.path[0]
  {
    hide TakeSegment, Trim, Placed, IsFile, IsNormalizedDriveLetter, AppendOrEscape, Context.At, AfterSegment;
    if m.state.Path? {
      var more := c.At(m.index, '/') || (u.special && c.At(m.index, '\\'));
      var ends := c.Ended(m.index) || c.At(m.index, '?') || c.At(m.index, '#');
      SegmentKeepsDrive(u, m.buffer, more, ends);
      AfterSegmentKeepsDrive(c, m, Trim(TakeSegment(u, m.buffer, more), ends));
    }
  }

  /** Once a file path starts with a normalized drive letter, no segment takes it away. */
  lemma {:induction false} DriveStays(c: Context, m: Machine, u: Url)
    requires 0 <= m.index <= |c.input| + 1 && Placed(c, m) && InPath(m.state) && HasDrive(u)
    ensures HasDrive(ParseFrom(c, m, u)) && ParseFrom(c, m, u).path[0] == u.path[0]
    decreases Rank(m.state), |c.input| + 1 - m.index
  {
    if m.index <= |c.input| {
      StepProgresses(c, m, u);
      StepKeepsDrive(c, m, u);
      hide Step, Placed, HasDrive;
      var r := Step(c, m, u);
      DriveStays(c, r.m, r.u);
    }
  }

  const FILE_BLANK := BLANK.(scheme := "file:", special := true)

  lemma SlashIsNoScheme(c: Context)
    requires c.Valid() && c.override == None && IsSlash(c, 0)
    ensures Step(c, Start(None), BLANK) == Go(Start(None).To(NoScheme), BLANK)
  {}

  lemma NoSchemeIsFile(c: Context, m: Machine)
    requires 0 <= m.index <= |c.input| && Placed(c, m) && m.state == NoScheme
    requires c.base.Some? && !c.base.value.cannotBeBase && IsFile(c.base.value.scheme)
    ensures Step(c, m, BLANK) == Go(m.To(File), FILE_BLANK)
  {}

  lemma FileTakesSlash(c: Context, m: Machine)
    requires 0 <= m.index <= |c.input| && Placed(c, m) && m.state == File && IsSlash(c, m.index)
    ensures Step(c, m, FILE_BLANK) == Go(m.To(FileSlash).Advance(), FILE_BLANK)
  {}

  lemma FileSlashTakesDrive(c: Context, m: Machine)
    requires 0 <= m.index <= |c.input| && Placed(c, m) && m.state == FileSlash
    requires c.base.Some? && HasDrive(c.base.value)
    requires !IsSlash(c, m.index) && !StartsWithDriveLetter(c.input[m.index..])
    ensures Step(c, m, FILE_BLANK) == Go(m.To(Path), FILE_BLANK.(path := [c.base.value.path[0]]))
  {
    hide IsFile, StartsWithDriveLetter, IsNormalizedDriveLetter, Context.At;
    assert FILE_BLANK.path + [c.base.value.path[0]] == [c.base.value.path[0]];
  }

  lemma FileBlankHasDrive(base: Url)
    requires HasDrive(base)
    ensures HasDrive(FILE_BLANK.(path := [base.path[0]]))
  {}

  lemma GoodFileBase(base: Url)
    requires Good(base) && IsFile(base.scheme)
    ensures !base.cannotBeBase && base.path != []
  {
    FileIsSpecial();
  }

  /** A path from the root, against a file base on a drive, stays on that drive. */
  lemma RootedPathStaysOnDrive(c: Context)
    requires c.override == None && c.base.Some? && Good(c.base.value) && HasDrive(c.base.value)
    requires IsSlash(c, 0) && !IsSlash(c, 1) && !StartsWithDriveLetter(c.input[1..])
    ensures c.Valid()
    ensures HasDrive(Parse(c)) && Parse(c).path[0] == c.base.value.path[0]
  {
    var base, m := c.base.value, Start(None);
    GoodFileBase(base);
    ValidContext(c);
    SlashIsNoScheme(c);
    FileBlankHasDrive(base);
    hide Step, ParseFrom, Placed, Good, StartsWithDriveLetter, IsNormalizedDriveLetter;
    Unfolds(c, m, BLANK);
    NoSchemeIsFile(c, m.To(NoScheme));
    Unfolds(c, m.To(NoScheme), BLANK);
    FileTakesSlash(c, m.To(File));
    Unfolds(c, m.To(File), FILE_BLANK);
    var slash := m.To(FileSlash).Advance();
    FileSlashTakesDrive(c, slash);
    Unfolds(c, slash, FILE_BLANK);
    DriveStays(c, slash.To(Path), FILE_BLANK.(path := [base.path[0]]));
  }

  lemma Unfolds(c: Context, m: Machine, u: Url)
    requires 0 <= m.index <= |c.input| && Placed(c, m)
    ensures var r := Step(c, m, u);
            r.Go? ==> 0 <= r.m.index <= |c.input| + 1 && Placed(c, r.m) && ParseFrom(c, m, u) == ParseFrom(c, r.m, r.u)
  {
    StepProgresses(c, m, u);
  }
}
