/** What each text means to basicURLParse, part by part and not step by step; and that it is what the
    loop makes of it, over all texts and bases. */
module UrlTexts {
  import opened Wrappers
  import opened UrlRecord
  import opened UrlParser
  import opened UrlSafety
  import opened UrlRuns
  import opened UrlReading
  import opened UrlAuthority
  import opened UrlSchemes

  // ---- what a text means ---------------------------------------------------------------------------

  /** A record with nothing but a scheme. */
  function Bare(scheme: string): Url { BLANK.(scheme := scheme, special := IsSpecial(scheme)) }

  function FragmentFrom(c: Context, i: nat): Option<string>
    requires i <= |c.input|
  {
    Some(Escaped(c.input[i..], FragmentSet))
  }

  /** An authority that starts at `i`, and what follows it. */
  function OfAuthority(c: Context, scheme: string, i: nat): Option<Url>
    requires i <= |c.input|
  {
    var p := PartsFrom(c, i, IsSpecial(scheme));
    if p.Sound(c) then Some(FromPathStart(c, p.Record(c, scheme), p.portEnd)) else None
  }

  /** A text at `i` that goes on from the path of the base, or a shorter one. */
  function FromBasePath(c: Context, u: Url, base: Url, shorter: seq<string>, i: nat): Url
    requires i <= |c.input|
  {
    if i == |c.input| then u.(path := base.path, query := base.query)
    else if c.input[i] == '?' then WithQuery(c, u.(path := base.path), i + 1, "")
    else if c.input[i] == '#' then
      u.(path := base.path, query := base.query, fragment := FragmentFrom(c, i + 1))
    else WithPath(c, u.(path := shorter), i)
  }

  /** All but the last segment. */
  function Parent(path: seq<string>): seq<string> { if path == [] then [] else path[..|path| - 1] }

  /** What the base gives to a text. */
  function Joined(base: Url): Url {
    Bare(base.scheme).(owner := Owner(base.owner.username, base.owner.password, base.owner.host), port := base.port)
  }

  /** What follows a slash at `i`: an authority after another slash, or else a path. */
  function OfRelativeSlash(c: Context, base: Url, i: nat): Option<Url>
    requires i <= |c.input|
  {
    if IsSpecial(base.scheme) && IsSlash(c, i) then OfAuthority(c, base.scheme, SlashesEnd(c, i + 1))
    else if c.At(i, '/') then OfAuthority(c, base.scheme, i + 1)
    else Some(WithPath(c, Joined(base), i))
  }

  /** A text at `i` against a base of the same scheme, which is no file's: it takes what it does not
      say itself from the base. A backslash may count as a slash. */
  function OfRelative(c: Context, base: Url, i: nat, backslash: bool): Option<Url>
    requires i <= |c.input|
  {
    if c.At(i, '/') || (backslash && c.At(i, '\\')) then OfRelativeSlash(c, base, i + 1)
    else Some(FromBasePath(c, Joined(base), base, Parent(base.path), i))
  }

  function FileHostEnd(c: Context, i: nat): (e: nat)
    requires i <= |c.input|
    ensures i <= e <= |c.input| && EndsAuthority(c, e, true) && forall k :: i <= k < e ==> !EndsAuthority(c, k, true)
  {
    AuthorityEnd(c, i, true)
  }

  /** The host of a file: the local one has no name. */
  function FileHostAt(c: Context, text: string): Option<Host> {
    var host := ParseHost(text, true, c.upper);
    if host == Some(Name("localhost")) then Some(Name("")) else host
  }

  /** A file text after two slashes: a host, unless that is a drive letter, which starts the path. */
  function OfFileHost(c: Context, i: nat): Option<Url>
    requires i <= |c.input|
  {
    var e := FileHostEnd(c, i);
    var text := c.input[i..e];
    if |text| == 2 && IsDriveLetter(text) then Some(WithPath(c, Bare("file:"), i))
    else if FileHostAt(c, text) == None then None
    else Some(WithPath(c, Bare("file:").WithHost(FileHostAt(c, text)), AfterSlash(c, e)))
  }

  /** A file text after one slash: the base gives its drive, or its host if it has no drive. */
  function OfFileSlash(c: Context, i: nat): Url
    requires c.Valid() && i <= |c.input|
  {
    if c.base == None || !IsFile(c.base.value.scheme) || StartsWithDriveLetter(c.input[i..]) then
      WithPath(c, Bare("file:"), i)
    else
      var base := c.base.value;
      if IsNormalizedDriveLetter(base.path[0]) then WithPath(c, Bare("file:").(path := [base.path[0]]), i)
      else WithPath(c, Bare("file:").WithHost(base.owner.host), i)
  }

  /** A file text at `i`. */
  function OfFile(c: Context, i: nat): Option<Url>
    requires c.Valid() && i <= |c.input|
  {
    if IsSlash(c, i) && IsSlash(c, i + 1) then OfFileHost(c, i + 2)
    else if IsSlash(c, i) then Some(OfFileSlash(c, i + 1))
    else if c.base == None || !IsFile(c.base.value.scheme) || StartsWithDriveLetter(c.input[i..]) then
      Some(WithPath(c, Bare("file:"), i))
    else
      var base := c.base.value;
      Some(FromBasePath(c, Bare("file:").WithHost(base.owner.host), base, ShortenPath("file:", base.path), i))
  }

  /** Where a path ends: at a query, a fragment, or the end of the text. */
  function PathEnd(c: Context, i: nat): (e: nat)
    requires i <= |c.input|
    ensures i <= e <= |c.input| && EndsPath(c, e) && forall k :: i <= k < e ==> !EndsPath(c, k)
    decreases |c.input| - i
  {
    if EndsPath(c, i) then i else PathEnd(c, i + 1)
  }

  /** A text at `i` after a scheme that is not special and no slash. */
  function OfOpaque(c: Context, scheme: string, i: nat): Url
    requires i <= |c.input|
  {
    var e := PathEnd(c, i);
    AfterPath(c, Bare(scheme).(cannotBeBase := true, path := [Escaped(c.input[i..e], C0Control)]), e)
  }

  /** A text after its scheme. */
  function OfScheme(c: Context, scheme: string, i: nat): Option<Url>
    requires c.Valid() && i <= |c.input|
  {
    if IsFile(scheme) then OfFile(c, i)
    else if IsSpecial(scheme) && c.base.Some? && c.base.value.scheme == scheme then
      OfRelative(c, c.base.value, i, true)
    else if IsSpecial(scheme) then OfAuthority(c, scheme, SlashesEnd(c, i))
    else if c.At(i, '/') && c.At(i + 1, '/') then OfAuthority(c, scheme, i + 2)
    else if c.At(i, '/') then
      // one slash: the character after it is lost
      Some(if i + 1 == |c.input| then Bare(scheme) else WithPath(c, Bare(scheme), i + 2))
    else Some(OfOpaque(c, scheme, i))
  }

  /** A text without a scheme. */
  function OfNoScheme(c: Context): Option<Url>
    requires c.Valid()
  {
    if c.base == None then None
    else
      var base := c.base.value;
      if base.cannotBeBase then
        if !c.At(0, '#') then None
        else
          Some(Bare(base.scheme).(path := base.path, query := base.query, fragment := FragmentFrom(c, 1),
                                  cannotBeBase := true))
      else if IsFile(base.scheme) then OfFile(c, 0)
      else OfRelative(c, base, 0, false)
  }

  /** The record that a text means, if it means one. */
  function Meaning(c: Context): Option<Url>
    requires c.Valid()
  {
    var colon := SchemeEnd(c.input, 0);
    if SchemeEndsAt(c, colon) then OfScheme(c, Lowered(c.input[..colon]) + ":", colon + 1) else OfNoScheme(c)
  }

  // ---- reading ---------------------------------------------------------------------------------------

  /** The record, or a failure where there is none. */
  predicate Is(r: Url, meant: Option<Url>) { if meant.Some? then r == meant.value else r.flags.failed }

  /** What the loop makes of the rest of a text. */
  predicate Reads(c: Context, m: Machine, u: Url, meant: Option<Url>) {
    0 <= m.index <= |c.input| + 1 && Placed(c, m) && Is(ParseFrom(c, m, u), meant)
  }

  /** What one iteration comes to. */
  predicate Comes(c: Context, m: Machine, u: Url, r: Next) {
    0 <= m.index <= |c.input| && Placed(c, m) && Step(c, m, u) == r
  }

  lemma Then(c: Context, m: Machine, u: Url, next: Machine, v: Url, meant: Option<Url>)
    requires Comes(c, m, u, Go(next, v)) && Reads(c, next, v, meant)
    ensures Reads(c, m, u, meant)
  {
    hide Step, Placed, ParseFrom, Is;
    StepsTo(c, m, u, next, v);
  }

  lemma ThenFails(c: Context, m: Machine, u: Url, r: Url)
    requires Comes(c, m, u, Done(r)) && r.flags.failed
    ensures Reads(c, m, u, None)
  {
    hide Step, Placed, ParseFrom;
    StepEnds(c, m, u, r);
  }

  lemma EndReads(c: Context, state: State, u: Url)
    requires Placed(c, At(state, |c.input| + 1))
    ensures Reads(c, At(state, |c.input| + 1), u, Some(u))
  {
    hide Placed;
    ParseEnds(c, At(state, |c.input| + 1), u);
  }

  lemma PathReads(c: Context, i: nat, u: Url)
    requires c.Valid() && c.override == None && i <= |c.input|
    ensures Reads(c, At(Path, i), u, Some(WithPath(c, u, i)))
  {
    hide Placed, ParseFrom, WithPath;
    AtIsPlaced(c, Path, i);
    PathIsRead(c, At(Path, i), u);
  }

  lemma QueryReads(c: Context, i: nat, u: Url)
    requires c.Valid() && c.override == None && i <= |c.input|
    ensures Reads(c, At(Query, i), u, Some(WithQuery(c, u, i, "")))
  {
    hide Placed, ParseFrom, WithQuery;
    AtIsPlaced(c, Query, i);
    QueryIsRead(c, At(Query, i), u);
  }

  lemma FragmentReads(c: Context, i: nat, u: Url)
    requires c.Valid() && i <= |c.input|
    ensures Reads(c, At(Fragment, i), u, Some(u.(fragment := FragmentFrom(c, i))))
  {
    var text := Escaped(c.input[i..], FragmentSet);
    assert "" + text == text;
    hide Placed, ParseFrom, Escaped;
    AtIsPlaced(c, Fragment, i);
    FragmentIsRead(c, At(Fragment, i), u);
  }

  lemma PathStartReads(c: Context, i: nat, u: Url)
    requires c.Valid() && c.override == None && i <= |c.input|
    ensures Reads(c, At(PathStart, i), u, Some(FromPathStart(c, u, i)))
  {
    hide Placed, ParseFrom, FromPathStart;
    AtIsPlaced(c, PathStart, i);
    PathStage(c, At(PathStart, i), u);
  }

  lemma AuthorityReads(c: Context, scheme: string, i: nat)
    requires c.Valid() && c.override == None && i <= |c.input|
    ensures Reads(c, At(Authority, i), Bare(scheme), OfAuthority(c, scheme, i))
  {
    AuthorityIsRead(c, PartsFrom(c, i, IsSpecial(scheme)), scheme);
    hide ParseFrom, Placed, FromPathStart;
  }

  lemma SlashesRead(c: Context, scheme: string, i: nat)
    requires c.Valid() && c.override == None && i <= |c.input|
    ensures Reads(c, At(SpecialAuthorityIgnoreSlashes, i), Bare(scheme), OfAuthority(c, scheme, SlashesEnd(c, i)))
  {
    hide ParseFrom, Placed, OfAuthority, SlashesEnd;
    AuthorityReads(c, scheme, SlashesEnd(c, i));
    SlashesStage(c, i, Bare(scheme));
  }

  // ---- relative texts ------------------------------------------------------------------------------

  /** Where a text at `i` goes on from a base's path. */
  function OnBasePath(c: Context, state: State, v: Url, base: Url, shorter: seq<string>, i: nat): Next
    requires i <= |c.input|
  {
    var taken := v.(path := base.path);
    if i == |c.input| then Go(At(state, i + 1), taken.(query := base.query))
    else if c.input[i] == '?' then Go(At(Query, i + 1), taken.(query := Some("")))
    else if c.input[i] == '#' then Go(At(Fragment, i + 1), taken.(query := base.query, fragment := Some("")))
    else Go(At(Path, i), v.(path := shorter))
  }

  lemma QueryIsNew(c: Context, u: Url, i: nat)
    requires i <= |c.input|
    ensures WithQuery(c, u.(query := Some("")), i, "") == WithQuery(c, u, i, "")
  {
    hide Escaped;
  }

  lemma BasePathReads(c: Context, state: State, u: Url, v: Url, base: Url, shorter: seq<string>, i: nat)
    requires c.Valid() && c.override == None && i <= |c.input| && Placed(c, At(state, |c.input| + 1))
    requires Comes(c, At(state, i), u, OnBasePath(c, state, v, base, shorter, i))
    ensures Reads(c, At(state, i), u, Some(FromBasePath(c, v, base, shorter, i)))
  {
    hide Comes, Reads, WithPath, WithQuery, Placed, FragmentFrom;
    var r, taken := OnBasePath(c, state, v, base, shorter, i), v.(path := base.path);
    if i == |c.input| {
      EndReads(c, state, r.u);
    } else if c.input[i] == '?' {
      QueryReads(c, i + 1, r.u);
      QueryIsNew(c, taken, i + 1);
    } else if c.input[i] == '#' {
      FragmentReads(c, i + 1, r.u);
    } else {
      PathReads(c, i, r.u);
    }
    Then(c, At(state, i), u, r.m, r.u, Some(FromBasePath(c, v, base, shorter, i)));
  }

  lemma RelativeStep(c: Context, i: nat, u: Url)
    requires c.Valid() && c.base.Some? && i <= |c.input|
    requires u.(scheme := c.base.value.scheme, special := IsSpecial(c.base.value.scheme)) == Bare(c.base.value.scheme)
    ensures var base := c.base.value;
            Comes(c, At(Relative, i), u,
                  if c.At(i, '/') || (u.special && c.At(i, '\\')) then Go(At(RelativeSlash, i + 1), Bare(base.scheme))
                  else OnBasePath(c, Relative, Joined(base), base, Parent(base.path), i))
  {
    AtIsPlaced(c, Relative, i);
    hide Placed, IsSpecial;
  }

  lemma RelativeSlashStep(c: Context, i: nat)
    requires c.Valid() && c.base.Some? && i <= |c.input|
    ensures var base := c.base.value;
            var u := Bare(base.scheme);
            Comes(c, At(RelativeSlash, i), u,
                  if IsSpecial(base.scheme) && IsSlash(c, i) then Go(At(SpecialAuthorityIgnoreSlashes, i + 1), u)
                  else if c.At(i, '/') then Go(At(Authority, i + 1), u)
                  else Go(At(Path, i), Joined(base)))
  {
    AtIsPlaced(c, RelativeSlash, i);
    hide Placed, IsSpecial;
  }

  /** After a slash comes an authority, or a path that starts anew. */
  lemma RelativeSlashReads(c: Context, i: nat)
    requires c.Valid() && c.override == None && i <= |c.input| && c.base.Some?
    ensures Reads(c, At(RelativeSlash, i), Bare(c.base.value.scheme), OfRelativeSlash(c, c.base.value, i))
  {
    hide Comes, Reads, WithPath, OfAuthority, Bare, Joined, IsSpecial, SlashesEnd;
    var base, m := c.base.value, At(RelativeSlash, i);
    var u := Bare(base.scheme);
    RelativeSlashStep(c, i);
    if IsSpecial(base.scheme) && IsSlash(c, i) {
      SlashesRead(c, base.scheme, i + 1);
      Then(c, m, u, At(SpecialAuthorityIgnoreSlashes, i + 1), u, OfRelativeSlash(c, base, i));
    } else if c.At(i, '/') {
      AuthorityReads(c, base.scheme, i + 1);
      Then(c, m, u, At(Authority, i + 1), u, OfRelativeSlash(c, base, i));
    } else {
      PathReads(c, i, Joined(base));
      Then(c, m, u, At(Path, i), Joined(base), OfRelativeSlash(c, base, i));
    }
  }

  lemma RelativeRestReads(c: Context, i: nat, u: Url)
    requires c.Valid() && c.override == None && i <= |c.input| && c.base.Some?
    requires u.(scheme := c.base.value.scheme, special := IsSpecial(c.base.value.scheme)) == Bare(c.base.value.scheme)
    requires !(c.At(i, '/') || (u.special && c.At(i, '\\')))
    ensures var base := c.base.value;
            Reads(c, At(Relative, i), u, Some(FromBasePath(c, Joined(base), base, Parent(base.path), i)))
  {
    hide *;
    RelativeStep(c, i, u);
    AtIsPlaced(c, Relative, |c.input| + 1);
    BasePathReads(c, Relative, u, Joined(c.base.value), c.base.value, Parent(c.base.value.path), i);
  }

  lemma RelativeThenSlash(c: Context, i: nat, u: Url)
    requires c.Valid() && c.override == None && i < |c.input| && c.base.Some?
    requires u.(scheme := c.base.value.scheme, special := IsSpecial(c.base.value.scheme)) == Bare(c.base.value.scheme)
    requires c.At(i, '/') || (u.special && c.At(i, '\\'))
    ensures Reads(c, At(Relative, i), u, OfRelativeSlash(c, c.base.value, i + 1))
  {
    hide *;
    var base := c.base.value;
    RelativeStep(c, i, u);
    RelativeSlashReads(c, i + 1);
    Then(c, At(Relative, i), u, At(RelativeSlash, i + 1), Bare(base.scheme), OfRelativeSlash(c, base, i + 1));
  }

  /** A relative text takes from the base exactly what it does not say itself. */
  lemma RelativeReads(c: Context, i: nat, u: Url)
    requires c.Valid() && c.override == None && i <= |c.input| && c.base.Some?
    requires u.(scheme := c.base.value.scheme, special := IsSpecial(c.base.value.scheme)) == Bare(c.base.value.scheme)
    ensures Reads(c, At(Relative, i), u, OfRelative(c, c.base.value, i, u.special))
  {
    hide Reads, OfRelativeSlash, FromBasePath, Bare, Joined, Parent, IsSpecial, Context.Valid;
    if c.At(i, '/') || (u.special && c.At(i, '\\')) {
      RelativeThenSlash(c, i, u);
    } else {
      RelativeRestReads(c, i, u);
    }
  }

  lemma SameSchemeStep(c: Context, i: nat, u: Url)
    requires c.Valid() && c.base.Some? && i <= |c.input|
    ensures Comes(c, At(SpecialRelativeOrAuthority, i), u,
                  if c.At(i, '/') && c.At(i + 1, '/') then Go(At(SpecialAuthorityIgnoreSlashes, i + 2), u)
                  else Go(At(Relative, i), u))
  {
    AtIsPlaced(c, SpecialRelativeOrAuthority, i);
    hide Placed;
  }

  lemma TwoSlashes(c: Context, base: Url, i: nat)
    requires i + 2 <= |c.input| && c.At(i, '/') && c.At(i + 1, '/') && IsSpecial(base.scheme)
    ensures OfRelative(c, base, i, true) == OfAuthority(c, base.scheme, SlashesEnd(c, i + 2))
  {
    hide OfAuthority, SlashesEnd, IsSpecial;
  }

  /** After a special scheme that is the base's, a text can be relative too. */
  lemma SameSchemeReads(c: Context, i: nat)
    requires c.Valid() && c.override == None && i <= |c.input| && c.base.Some? && IsSpecial(c.base.value.scheme)
    ensures var base := c.base.value;
            Reads(c, At(SpecialRelativeOrAuthority, i), Bare(base.scheme), OfRelative(c, base, i, true))
  {
    var base, m := c.base.value, At(SpecialRelativeOrAuthority, i);
    var u := Bare(base.scheme);
    assert u.special && u.(scheme := base.scheme, special := IsSpecial(base.scheme)) == u;
    hide Comes, Reads, IsSpecial, OfAuthority, OfRelative, SlashesEnd, Bare;
    SameSchemeStep(c, i, u);
    if c.At(i, '/') && c.At(i + 1, '/') {
      TwoSlashes(c, base, i);
      SlashesRead(c, base.scheme, i + 2);
      Then(c, m, u, At(SpecialAuthorityIgnoreSlashes, i + 2), u, OfRelative(c, base, i, true));
    } else {
      RelativeReads(c, i, u);
      Then(c, m, u, At(Relative, i), u, OfRelative(c, base, i, true));
    }
  }

  // ---- files ---------------------------------------------------------------------------------------

  lemma FileStep(c: Context, i: nat)
    requires c.Valid() && i <= |c.input|
    ensures var u := Bare("file:");
            Comes(c, At(File, i), u,
                  if IsSlash(c, i) then Go(At(FileSlash, i + 1), u)
                  else if c.base == None || !IsFile(c.base.value.scheme) || StartsWithDriveLetter(c.input[i..]) then
                    Go(At(Path, i), u)
                  else
                    var base := c.base.value;
                    OnBasePath(c, File, u.WithHost(base.owner.host), base, ShortenPath("file:", base.path), i))
  {
    AtIsPlaced(c, File, i);
    if StartsWithDriveLetter(c.input[i..]) { DriveIsNoEnd(c.input, i); }
    hide Placed, IsSpecial, IsFile, StartsWithDriveLetter, ShortenPath;
  }

  /** A drive letter starts with a letter. */
  lemma DriveIsNoEnd(s: string, i: nat)
    requires i <= |s| && StartsWithDriveLetter(s[i..])
    ensures i < |s| && s[i] != '?' && s[i] != '#'
  {
    assert s[i..][0] == s[i];
  }

  /** The record whose path starts after one slash. */
  function OnDrive(c: Context, i: nat): Url
    requires c.Valid() && i <= |c.input|
  {
    if c.base == None || !IsFile(c.base.value.scheme) || StartsWithDriveLetter(c.input[i..]) then Bare("file:")
    else if IsNormalizedDriveLetter(c.base.value.path[0]) then Bare("file:").(path := [c.base.value.path[0]])
    else Bare("file:").WithHost(c.base.value.owner.host)
  }

  lemma FileSlashStep(c: Context, i: nat)
    requires c.Valid() && i <= |c.input|
    ensures Comes(c, At(FileSlash, i), Bare("file:"),
                  if IsSlash(c, i) then Go(At(FileHost, i + 1), Bare("file:")) else Go(At(Path, i), OnDrive(c, i)))
  {
    AtIsPlaced(c, FileSlash, i);
    hide IsSpecial, IsFile, StartsWithDriveLetter, IsNormalizedDriveLetter;
    if c.base.Some? && IsFile(c.base.value.scheme) {
      assert Bare("file:").path + [c.base.value.path[0]] == [c.base.value.path[0]];
    }
  }

  lemma FileHostChar(c: Context, m: Machine, u: Url)
    requires 0 <= m.index < |c.input| && Placed(c, m) && m.state == FileHost && !EndsAuthority(c, m.index, true)
    ensures Step(c, m, u) == Go(m.Append(c.input[m.index]).Advance(), u)
  {
    hide Placed, IsDriveLetter, ParseHost;
  }

  lemma {:induction false} FileHostIsRead(c: Context, m: Machine, u: Url, end: nat)
    requires 0 <= m.index <= end <= |c.input| && Placed(c, m) && m.state == FileHost
    requires forall k :: m.index <= k < end ==> !EndsAuthority(c, k, true)
    ensures var n := ReadTo(m, c.input, end); Placed(c, n) && ParseFrom(c, m, u) == ParseFrom(c, n, u)
    decreases end - m.index
  {
    hide Step, Placed, ParseFrom, ReadTo, EndsAuthority;
    ReadToUnfolds(m, c.input, end);
    if m.index < end {
      var next := m.Append(c.input[m.index]).Advance();
      FileHostChar(c, m, u);
      StepsTo(c, m, u, next, u);
      FileHostIsRead(c, next, u, end);
    }
  }

  lemma FileHostEndStep(c: Context, m: Machine, u: Url)
    requires 0 <= m.index <= |c.input| && Placed(c, m) && m.state == FileHost && c.override == None && u.special
    requires EndsAuthority(c, m.index, true)
    ensures var r := Step(c, m, u);
            if |m.buffer| == 2 && IsDriveLetter(m.buffer) then r == Go(m.To(Path), u)
            else if FileHostAt(c, m.buffer) == None then r.Done? && r.url.flags.failed
            else r == Go(m.Clear().To(PathStart), u.WithHost(FileHostAt(c, m.buffer)))
  {
    ClearIsIdle(m.Clear());
    if m.buffer == "" { ClearIsIdle(m); }
    hide Placed, IsDriveLetter;
  }

  /** A drive letter has nothing to be escaped. */
  lemma DriveIsPlain(s: string)
    requires |s| == 2 && IsDriveLetter(s)
    ensures Escaped(s, PathSet) == s
  {}

  /** A segment that was read where a host could be is the first of the path. */
  lemma DriveStage(c: Context, m: Machine, u: Url, i: nat)
    requires 0 <= i <= m.index <= |c.input| && Placed(c, m) && m.state == Path && c.override == None && u.special
    requires EndsAuthority(c, m.index, true) && forall k :: i <= k < m.index ==> !EndsAuthority(c, k, true)
    requires m.buffer == c.input[i..m.index] && |m.buffer| == 2 && IsDriveLetter(m.buffer)
    ensures ParseFrom(c, m, u) == WithPath(c, u, i)
  {
    DriveIsPlain(m.buffer);
    var start := m.(index := i).Clear();
    PathIsPlaced(c, start);
    forall k | i <= k < m.index ensures InSegment(c.input[k], u.special) { assert !EndsAuthority(c, k, true); }
    hide Step, Placed, ParseFrom, EndsAuthority, InSegment, WithPath, Escaped, IsDriveLetter;
    SegmentIsRead(c, start, u, m.index);
    assert start.buffer + Escaped(c.input[i..m.index], PathSet) == m.buffer;
    assert start.(index := m.index, buffer := m.buffer) == m;
    PathIsRead(c, start, u);
  }

  /** The host of a file, when its text has been read. */
  lemma FileHostEndReads(c: Context, i: nat, m: Machine)
    requires c.Valid() && c.override == None && i <= |c.input| && Placed(c, m)
    requires m == At(FileHost, FileHostEnd(c, i)).(buffer := c.input[i..FileHostEnd(c, i)])
    ensures Reads(c, m, Bare("file:"), OfFileHost(c, i))
  {
    var u, e, text := Bare("file:"), FileHostEnd(c, i), c.input[i..FileHostEnd(c, i)];
    assert u.special && IsSpecial(u.scheme);
    FileHostEndStep(c, m, u);
    assert m.Clear().To(PathStart) == At(PathStart, e);
    hide Step, Placed, ParseFrom, EndsAuthority, WithPath, Bare, IsSpecial, FileHostAt, IsDriveLetter;
    if |text| == 2 && IsDriveLetter(text) {
      StepsTo(c, m, u, m.To(Path), u);
      DriveStage(c, m.To(Path), u, i);
    } else if FileHostAt(c, text) == None {
      ThenFails(c, m, u, Step(c, m, u).url);
    } else {
      var hosted := u.WithHost(FileHostAt(c, text));
      PathStartReads(c, e, hosted);
      Then(c, m, u, At(PathStart, e), hosted, OfFileHost(c, i));
    }
  }

  lemma FileHostReads(c: Context, i: nat)
    requires c.Valid() && c.override == None && i <= |c.input|
    ensures Reads(c, At(FileHost, i), Bare("file:"), OfFileHost(c, i))
  {
    var m, u, e := At(FileHost, i), Bare("file:"), FileHostEnd(c, i);
    AtIsPlaced(c, FileHost, i);
    ReadFromEmpty(m, c.input, e);
    hide Placed, ParseFrom, ReadTo, EndsAuthority, Bare, OfFileHost;
    FileHostIsRead(c, m, u, e);
    FileHostEndReads(c, i, ReadTo(m, c.input, e));
  }

  lemma FileSlashReads(c: Context, i: nat)
    requires c.Valid() && c.override == None && i <= |c.input|
    ensures Reads(c, At(FileSlash, i), Bare("file:"),
                  if IsSlash(c, i) then OfFileHost(c, i + 1) else Some(OfFileSlash(c, i)))
  {
    var m, u := At(FileSlash, i), Bare("file:");
    hide Comes, Reads, WithPath, Bare, OfFileHost, StartsWithDriveLetter, IsNormalizedDriveLetter, IsFile;
    FileSlashStep(c, i);
    if IsSlash(c, i) {
      FileHostReads(c, i + 1);
      Then(c, m, u, At(FileHost, i + 1), u, OfFileHost(c, i + 1));
    } else {
      PathReads(c, i, OnDrive(c, i));
      Then(c, m, u, At(Path, i), OnDrive(c, i), Some(OfFileSlash(c, i)));
    }
  }

  lemma OfFileIs(c: Context, i: nat)
    requires c.Valid() && i <= |c.input|
    ensures OfFile(c, i) ==
              if IsSlash(c, i) then (if IsSlash(c, i + 1) then OfFileHost(c, i + 2) else Some(OfFileSlash(c, i + 1)))
              else if c.base == None || !IsFile(c.base.value.scheme) || StartsWithDriveLetter(c.input[i..]) then
                Some(WithPath(c, Bare("file:"), i))
              else
                var base := c.base.value;
                Some(FromBasePath(c, Bare("file:").WithHost(base.owner.host), base, ShortenPath("file:", base.path), i))
  {
    hide OfFileHost, OfFileSlash, WithPath, FromBasePath, Bare, IsFile, StartsWithDriveLetter, ShortenPath;
  }

  lemma FileThenSlash(c: Context, i: nat)
    requires c.Valid() && c.override == None && i < |c.input| && IsSlash(c, i)
    ensures Reads(c, At(File, i), Bare("file:"),
                  if IsSlash(c, i + 1) then OfFileHost(c, i + 2) else Some(OfFileSlash(c, i + 1)))
  {
    assert IsSlash(c, i + 1) ==> i + 2 <= |c.input|;
    hide *;
    var u := Bare("file:");
    FileStep(c, i);
    FileSlashReads(c, i + 1);
    Then(c, At(File, i), u, At(FileSlash, i + 1), u,
         if IsSlash(c, i + 1) then OfFileHost(c, i + 2) else Some(OfFileSlash(c, i + 1)));
  }

  lemma FileThenPath(c: Context, i: nat)
    requires c.Valid() && c.override == None && i <= |c.input| && !IsSlash(c, i)
    requires c.base == None || !IsFile(c.base.value.scheme) || StartsWithDriveLetter(c.input[i..])
    ensures Reads(c, At(File, i), Bare("file:"), Some(WithPath(c, Bare("file:"), i)))
  {
    hide *;
    var u := Bare("file:");
    FileStep(c, i);
    PathReads(c, i, u);
    Then(c, At(File, i), u, At(Path, i), u, Some(WithPath(c, u, i)));
  }

  lemma FileRestReads(c: Context, i: nat)
    requires c.Valid() && c.override == None && i <= |c.input|
    requires !IsSlash(c, i) && c.base.Some? && IsFile(c.base.value.scheme) && !StartsWithDriveLetter(c.input[i..])
    ensures var u, base := Bare("file:"), c.base.value;
            var joined := FromBasePath(c, u.WithHost(base.owner.host), base, ShortenPath("file:", base.path), i);
            Reads(c, At(File, i), u, Some(joined))
  {
    hide *;
    var u, base := Bare("file:"), c.base.value;
    FileStep(c, i);
    AtIsPlaced(c, File, |c.input| + 1);
    BasePathReads(c, File, u, u.WithHost(base.owner.host), base, ShortenPath("file:", base.path), i);
  }

  lemma FileReads(c: Context, i: nat)
    requires c.Valid() && c.override == None && i <= |c.input|
    ensures Reads(c, At(File, i), Bare("file:"), OfFile(c, i))
  {
    OfFileIs(c, i);
    assert IsSlash(c, i) ==> i < |c.input|;
    hide *;
    if IsSlash(c, i) {
      FileThenSlash(c, i);
    } else if c.base == None || !IsFile(c.base.value.scheme) || StartsWithDriveLetter(c.input[i..]) {
      FileThenPath(c, i);
    } else {
      FileRestReads(c, i);
    }
  }

  // ---- other schemes -------------------------------------------------------------------------------

  lemma OpaqueStep(c: Context, i: nat, u: Url, before: string)
    requires c.Valid() && i <= |c.input| && u.path == [before]
    ensures Comes(c, At(CannotBeBase, i), u,
                  if i == |c.input| then Go(At(CannotBeBase, i + 1), u)
                  else if c.input[i] == '?' then Go(At(Query, i + 1), u)
                  else if c.input[i] == '#' then Go(At(Fragment, i + 1), u)
                  else
                    Go(At(CannotBeBase, i + 1), u.(path := [AppendOrEscape(before, c.input[i], C0Control)])))
  {
    AtIsPlaced(c, CannotBeBase, i);
    hide Placed, AppendOrEscape;
  }

  lemma OpaqueStops(c: Context, u: Url, before: string)
    requires c.Valid() && u.path == [before]
    ensures Reads(c, At(CannotBeBase, |c.input|), u, Some(u))
  {
    var n := |c.input|;
    hide *;
    OpaqueStep(c, n, u, before);
    AtIsPlaced(c, CannotBeBase, n + 1);
    EndReads(c, CannotBeBase, u);
    Then(c, At(CannotBeBase, n), u, At(CannotBeBase, n + 1), u, Some(u));
  }

  lemma OpaqueThenQuery(c: Context, i: nat, u: Url, before: string)
    requires c.Valid() && c.override == None && i < |c.input| && u.path == [before] && c.input[i] == '?'
    ensures Reads(c, At(CannotBeBase, i), u, Some(WithQuery(c, u, i + 1, "")))
  {
    hide *;
    OpaqueStep(c, i, u, before);
    QueryReads(c, i + 1, u);
    Then(c, At(CannotBeBase, i), u, At(Query, i + 1), u, Some(WithQuery(c, u, i + 1, "")));
  }

  lemma OpaqueThenFragment(c: Context, i: nat, u: Url, before: string)
    requires c.Valid() && c.override == None && i < |c.input| && u.path == [before] && c.input[i] == '#'
    ensures Reads(c, At(CannotBeBase, i), u, Some(u.(fragment := FragmentFrom(c, i + 1))))
  {
    hide *;
    OpaqueStep(c, i, u, before);
    FragmentReads(c, i + 1, u);
    Then(c, At(CannotBeBase, i), u, At(Fragment, i + 1), u, Some(u.(fragment := FragmentFrom(c, i + 1))));
  }

  lemma OpaqueEndReads(c: Context, i: nat, u: Url, before: string)
    requires c.Valid() && c.override == None && i <= |c.input| && u.path == [before] && EndsPath(c, i)
    ensures Reads(c, At(CannotBeBase, i), u, Some(AfterPath(c, u, i)))
  {
    hide Reads, WithQuery, Escaped, Context.Valid;
    if i == |c.input| {
      OpaqueStops(c, u, before);
    } else if c.input[i] == '?' {
      OpaqueThenQuery(c, i, u, before);
    } else {
      OpaqueThenFragment(c, i, u, before);
    }
  }

  /** The path of a record that cannot be a base is the text up to a query or fragment, escaped. */
  lemma {:induction false} OpaqueReads(c: Context, i: nat, u: Url, before: string)
    requires c.Valid() && c.override == None && i <= |c.input| && u.path == [before]
    ensures var e := PathEnd(c, i);
            var path := [before + Escaped(c.input[i..e], C0Control)];
            Reads(c, At(CannotBeBase, i), u, Some(AfterPath(c, u.(path := path), e)))
    decreases |c.input| - i
  {
    hide Comes, Reads, AppendOrEscape, AfterPath;
    if EndsPath(c, i) {
      assert before + Escaped(c.input[i..i], C0Control) == before;
      OpaqueEndReads(c, i, u, before);
    } else {
      var e, more := PathEnd(c, i), AppendOrEscape(before, c.input[i], C0Control);
      var path := [before + Escaped(c.input[i..e], C0Control)];
      OpaqueStep(c, i, u, before);
      OpaqueReads(c, i + 1, u.(path := [more]), more);
      OneMore(c.input, i, e, before, C0Control);
      hide EndsPath, Escaped;
      Then(c, At(CannotBeBase, i), u, At(CannotBeBase, i + 1), u.(path := [more]),
           Some(AfterPath(c, u.(path := path), e)));
    }
  }

  lemma OpaqueIsMeant(c: Context, scheme: string, i: nat)
    requires c.Valid() && c.override == None && i <= |c.input|
    ensures Reads(c, At(CannotBeBase, i), Bare(scheme).(cannotBeBase := true, path := [""]),
                  Some(OfOpaque(c, scheme, i)))
  {
    var text := Escaped(c.input[i..PathEnd(c, i)], C0Control);
    assert "" + text == text;
    hide Reads, AfterPath, Escaped;
    OpaqueReads(c, i, Bare(scheme).(cannotBeBase := true, path := [""]), "");
  }

  lemma SlashAndStep(c: Context, i: nat, u: Url)
    requires c.Valid() && i <= |c.input|
    ensures Comes(c, At(PathOrAuthority, i), u, Go(At(if c.At(i, '/') then Authority else Path, i + 1), u))
  {
    AtIsPlaced(c, PathOrAuthority, i);
    hide Placed;
  }

  lemma SlashStops(c: Context, u: Url)
    requires c.Valid() && !c.At(|c.input|, '/')
    ensures Reads(c, At(PathOrAuthority, |c.input|), u, Some(u))
  {
    var n := |c.input|;
    hide *;
    SlashAndStep(c, n, u);
    AtIsPlaced(c, Path, n + 1);
    EndReads(c, Path, u);
    Then(c, At(PathOrAuthority, n), u, At(Path, n + 1), u, Some(u));
  }

  lemma SlashThenAuthority(c: Context, scheme: string, i: nat)
    requires c.Valid() && c.override == None && i < |c.input| && c.At(i, '/')
    ensures Reads(c, At(PathOrAuthority, i), Bare(scheme), OfAuthority(c, scheme, i + 1))
  {
    hide *;
    SlashAndStep(c, i, Bare(scheme));
    AuthorityReads(c, scheme, i + 1);
    Then(c, At(PathOrAuthority, i), Bare(scheme), At(Authority, i + 1), Bare(scheme), OfAuthority(c, scheme, i + 1));
  }

  lemma SlashThenPath(c: Context, i: nat, u: Url)
    requires c.Valid() && c.override == None && i < |c.input| && !c.At(i, '/')
    ensures Reads(c, At(PathOrAuthority, i), u, Some(WithPath(c, u, i + 1)))
  {
    hide *;
    SlashAndStep(c, i, u);
    PathReads(c, i + 1, u);
    Then(c, At(PathOrAuthority, i), u, At(Path, i + 1), u, Some(WithPath(c, u, i + 1)));
  }

  /** One slash, and another or none. */
  lemma SlashReads(c: Context, scheme: string, i: nat)
    requires c.Valid() && c.override == None && i <= |c.input|
    ensures Reads(c, At(PathOrAuthority, i), Bare(scheme),
                  if c.At(i, '/') then OfAuthority(c, scheme, i + 1)
                  else Some(if i == |c.input| then Bare(scheme) else WithPath(c, Bare(scheme), i + 1)))
  {
    var u := Bare(scheme);
    assert c.At(i, '/') ==> i < |c.input|;
    hide *;
    if c.At(i, '/') {
      SlashThenAuthority(c, scheme, i);
    } else if i == |c.input| {
      SlashStops(c, u);
    } else {
      SlashThenPath(c, i, u);
    }
  }

  // ---- whole texts ---------------------------------------------------------------------------------

  lemma NewSlashesStep(c: Context, i: nat, u: Url)
    requires c.Valid() && i <= |c.input|
    ensures Comes(c, At(SpecialAuthoritySlashes, i), u,
                  Go(At(SpecialAuthorityIgnoreSlashes, if c.At(i, '/') && c.At(i + 1, '/') then i + 2 else i), u))
  {
    AtIsPlaced(c, SpecialAuthoritySlashes, i);
    hide Placed;
  }

  lemma SlashesCount(c: Context, i: nat)
    requires i + 2 <= |c.input| && IsSlash(c, i) && IsSlash(c, i + 1)
    ensures SlashesEnd(c, i) == SlashesEnd(c, i + 2)
  {
    assert SlashesEnd(c, i) == SlashesEnd(c, i + 1);
  }

  lemma NewAuthorityReads(c: Context, scheme: string, i: nat)
    requires c.Valid() && c.override == None && i <= |c.input|
    ensures Reads(c, At(SpecialAuthoritySlashes, i), Bare(scheme), OfAuthority(c, scheme, SlashesEnd(c, i)))
  {
    var u := Bare(scheme);
    hide Comes, Reads, OfAuthority, Bare;
    NewSlashesStep(c, i, u);
    var next := if c.At(i, '/') && c.At(i + 1, '/') then i + 2 else i;
    if next == i + 2 { SlashesCount(c, i); }
    SlashesRead(c, scheme, next);
    Then(c, At(SpecialAuthoritySlashes, i), u, At(SpecialAuthorityIgnoreSlashes, next), u,
         OfAuthority(c, scheme, SlashesEnd(c, i)));
  }

  /** Where a parse goes from each scheme. */
  lemma AfterSchemeGoes(c: Context, colon: nat, scheme: string)
    ensures var i, u := colon + 1, Bare(scheme);
            AfterScheme(c, At(Scheme, colon), u) ==
              if IsFile(scheme) then Go(At(File, i), u)
              else if IsSpecial(scheme) && c.base.Some? && c.base.value.scheme == scheme then
                Go(At(SpecialRelativeOrAuthority, i), u)
              else if IsSpecial(scheme) then Go(At(SpecialAuthoritySlashes, i), u)
              else if c.At(i, '/') then Go(At(PathOrAuthority, i + 1), u)
              else Go(At(CannotBeBase, i), u.(cannotBeBase := true, path := [""]))
  {
    hide IsFile, IsSpecial;
    assert Bare(scheme).path + [""] == [""];
  }

  lemma FileSchemeIs(scheme: string)
    requires IsFile(scheme)
    ensures scheme == "file:"
  {}

  lemma SchemeReads(c: Context, scheme: string, colon: nat)
    requires c.Valid() && c.override == None && colon < |c.input|
    ensures var r := AfterScheme(c, At(Scheme, colon), Bare(scheme));
            r.Go? && Reads(c, r.m, r.u, OfScheme(c, scheme, colon + 1))
  {
    var i, u := colon + 1, Bare(scheme);
    AfterSchemeGoes(c, colon, scheme);
    hide Reads, OfAuthority, OfFile, OfRelative, OfOpaque, Bare, IsFile, IsSpecial, AfterScheme, WithPath, SlashesEnd;
    if IsFile(scheme) {
      FileSchemeIs(scheme);
      FileReads(c, i);
    } else if IsSpecial(scheme) && c.base.Some? && c.base.value.scheme == scheme {
      SameSchemeReads(c, i);
    } else if IsSpecial(scheme) {
      NewAuthorityReads(c, scheme, i);
    } else if c.At(i, '/') {
      SlashReads(c, scheme, i + 1);
    } else {
      OpaqueIsMeant(c, scheme, i);
    }
  }

  lemma NoSchemeStep(c: Context, failed: Url)
    requires c.Valid() && c.override == None
    requires failed == BLANK.(flags := BLANK.flags.(failed := true))
    ensures Comes(c, At(NoScheme, 0), BLANK,
                  if c.base == None || (c.base.value.cannotBeBase && !c.At(0, '#')) then Done(failed)
                  else
                    var base := c.base.value;
                    if base.cannotBeBase then
                      Go(At(Fragment, 1),
                         Bare(base.scheme).(path := base.path, query := base.query, fragment := Some(""),
                                            cannotBeBase := true))
                    else if IsFile(base.scheme) then Go(At(File, 0), Bare("file:"))
                    else Go(At(Relative, 0), BLANK))
  {
    AtIsPlaced(c, NoScheme, 0);
    assert IsSpecial("file:");
    hide IsSpecial, Placed;
  }

  lemma NoSchemeReads(c: Context)
    requires c.Valid() && c.override == None
    ensures Reads(c, At(NoScheme, 0), BLANK, OfNoScheme(c))
  {
    var m, failed := At(NoScheme, 0), BLANK.(flags := BLANK.flags.(failed := true));
    assert c.base.Some? ==> var base := c.base.value;
                            BLANK.(scheme := base.scheme, special := IsSpecial(base.scheme)) == Bare(base.scheme);
    assert !BLANK.special;
    hide Comes, Reads, OfFile, OfRelative, Bare, IsFile, IsSpecial, FragmentFrom;
    NoSchemeStep(c, failed);
    if c.base == None || (c.base.value.cannotBeBase && !c.At(0, '#')) {
      ThenFails(c, m, BLANK, failed);
    } else {
      var base := c.base.value;
      if base.cannotBeBase {
        var u := Bare(base.scheme).(path := base.path, query := base.query, fragment := Some(""), cannotBeBase := true);
        FragmentReads(c, 1, u);
        Then(c, m, BLANK, At(Fragment, 1), u, OfNoScheme(c));
      } else if IsFile(base.scheme) {
        FileReads(c, 0);
        Then(c, m, BLANK, At(File, 0), Bare("file:"), OfNoScheme(c));
      } else {
        RelativeReads(c, 0, BLANK);
        Then(c, m, BLANK, At(Relative, 0), BLANK, OfNoScheme(c));
      }
    }
  }

  lemma ParsedIs(c: Context)
    requires c.Valid() && c.override == None
    ensures Is(Parse(c), Meaning(c))
  {
    var colon := SchemeEnd(c.input, 0);
    if SchemeEndsAt(c, colon) {
      ColonStage(c);
      hide ParseFrom, Placed, Parse, OfScheme, IsSpecial, AfterScheme, Lowered;
      SchemeReads(c, Lowered(c.input[..colon]) + ":", colon);
    } else {
      NoSchemeStage(c);
      hide ParseFrom, Placed, Parse, OfNoScheme;
      NoSchemeReads(c);
    }
  }

  // ---- what a path leaves alone --------------------------------------------------------------------

  /** Two records with the same fields before the path, but for the host of a file. */
  predicate SameFront(u: Url, v: Url) {
    && u.scheme == v.scheme && u.special == v.special && u.port == v.port && u.flags == v.flags
    && u.cannotBeBase == v.cannotBeBase && u.owner.username == v.owner.username
    && u.owner.password == v.owner.password
    && (!IsFile(v.scheme) ==> u.owner.host == v.owner.host)
  }

  lemma SegmentKeepsFront(u: Url, segment: string, more: bool)
    ensures SameFront(TakeSegment(u, segment, more), u)
  {
    hide IsDoubleDot, IsSingleDot, IsDriveLetter, ShortenPath, Truthy, IsFile;
  }

  lemma TrimKeepsFront(u: Url)
    ensures SameFront(Trim(u, true), u)
  {
    hide IsFile, DropEmpty;
  }

  lemma FrontsAgree(u: Url, v: Url, w: Url)
    requires SameFront(u, v) && SameFront(v, w)
    ensures SameFront(u, w)
  {}

  lemma QueryKeepsFront(c: Context, u: Url, i: nat)
    requires i <= |c.input|
    ensures SameFront(WithQuery(c, u, i, ""), u)
  {
    hide Escaped, IsFile;
  }

  lemma EndKeepsFront(c: Context, u: Url, i: nat)
    requires i <= |c.input|
    ensures SameFront(AfterPath(c, u, i), u)
  {
    hide Escaped, WithQuery, IsFile;
    if i < |c.input| { QueryKeepsFront(c, u, i + 1); }
  }

  /** A path, a query and a fragment leave all the other fields of a record as they are, but for the
      host of a file. */
  lemma {:induction false} PathKeepsFront(c: Context, u: Url, i: nat)
    requires i <= |c.input|
    ensures SameFront(WithPath(c, u, i), u)
    decreases |c.input| - i
  {
    hide EndsPath, Escaped, TakeSegment, Trim, AfterPath, InSegment, SameFront;
    var e := SegmentEnd(c.input, u.special, i);
    var segment := Escaped(c.input[i..e], PathSet);
    if EndsPath(c, e) {
      var last := Trim(TakeSegment(u, segment, false), true);
      SegmentKeepsFront(u, segment, false);
      TrimKeepsFront(TakeSegment(u, segment, false));
      EndKeepsFront(c, last, e);
      FrontsAgree(last, TakeSegment(u, segment, false), u);
      FrontsAgree(AfterPath(c, last, e), last, u);
    } else {
      NotAtEnd(c, e);
      var taken := TakeSegment(u, segment, true);
      SegmentKeepsFront(u, segment, true);
      PathKeepsFront(c, taken, e + 1);
      FrontsAgree(WithPath(c, taken, e + 1), taken, u);
    }
  }

  /** No record that a text means has failed. */
  predicate Kept(r: Option<Url>) { r.Some? ==> r.value.flags == BLANK.flags }

  lemma AuthorityIsKept(c: Context, scheme: string, i: nat)
    requires i <= |c.input|
    ensures Kept(OfAuthority(c, scheme, i))
  {
    var p := PartsFrom(c, i, IsSpecial(scheme));
    hide PartsFrom, WithPath, AfterPath, EndsPath, IsSpecial, IsPort, PortFrom, Parts.HostOf, Parts.OwnerOf;
    if p.Sound(c) {
      var u := p.Record(c, scheme);
      PathKeepsFront(c, u, AfterSlash(c, p.portEnd));
      PathKeepsFront(c, u, p.portEnd);
      if c.At(p.portEnd, '/') { PathKeepsFront(c, u, p.portEnd + 1); }
      EndKeepsFront(c, u, p.portEnd);
    }
  }

  lemma BasePathIsKept(c: Context, u: Url, base: Url, shorter: seq<string>, i: nat)
    requires i <= |c.input|
    ensures SameFront(FromBasePath(c, u, base, shorter, i), u)
  {
    hide WithPath, WithQuery, FragmentFrom, IsFile;
    if i < |c.input| && c.input[i] == '?' {
      QueryKeepsFront(c, u.(path := base.path), i + 1);
    } else if i < |c.input| && c.input[i] != '#' {
      PathKeepsFront(c, u.(path := shorter), i);
    }
  }

  lemma RelativeSlashIsKept(c: Context, base: Url, i: nat)
    requires i <= |c.input|
    ensures Kept(OfRelativeSlash(c, base, i))
  {
    hide OfAuthority, WithPath, IsFile, IsSpecial, SlashesEnd, Bare;
    if IsSpecial(base.scheme) && IsSlash(c, i) {
      AuthorityIsKept(c, base.scheme, SlashesEnd(c, i + 1));
    } else if c.At(i, '/') {
      AuthorityIsKept(c, base.scheme, i + 1);
    } else {
      PathKeepsFront(c, Joined(base), i);
      assert Joined(base).flags == BLANK.flags by { BareIsKept(base.scheme); }
    }
  }

  lemma BareIsKept(scheme: string)
    ensures Bare(scheme).flags == BLANK.flags
  {}

  lemma RelativeIsKept(c: Context, base: Url, i: nat, backslash: bool)
    requires i <= |c.input|
    ensures Kept(OfRelative(c, base, i, backslash))
  {
    hide OfRelativeSlash, FromBasePath, IsFile, Bare, Parent;
    BareIsKept(base.scheme);
    if c.At(i, '/') || (backslash && c.At(i, '\\')) {
      RelativeSlashIsKept(c, base, i + 1);
    } else {
      BasePathIsKept(c, Joined(base), base, Parent(base.path), i);
    }
  }

  lemma FileIsKept(c: Context, i: nat)
    requires c.Valid() && i <= |c.input|
    ensures Kept(OfFile(c, i))
  {
    var u := Bare("file:");
    hide WithPath, FromBasePath, FileHostAt, IsDriveLetter, IsNormalizedDriveLetter, StartsWithDriveLetter, IsFile;
    PathKeepsFront(c, u, i);
    if IsSlash(c, i) && IsSlash(c, i + 1) {
      var e := FileHostEnd(c, i + 2);
      PathKeepsFront(c, u, i + 2);
      PathKeepsFront(c, u.WithHost(FileHostAt(c, c.input[i + 2..e])), AfterSlash(c, e));
    } else if IsSlash(c, i) {
      PathKeepsFront(c, u, i + 1);
      if c.base.Some? && IsFile(c.base.value.scheme) {
        PathKeepsFront(c, u.(path := [c.base.value.path[0]]), i + 1);
        PathKeepsFront(c, u.WithHost(c.base.value.owner.host), i + 1);
      }
    } else if c.base.Some? {
      var base := c.base.value;
      BasePathIsKept(c, u.WithHost(base.owner.host), base, ShortenPath("file:", base.path), i);
    }
  }

  lemma SchemeIsKept(c: Context, scheme: string, i: nat)
    requires c.Valid() && i <= |c.input|
    ensures Kept(OfScheme(c, scheme, i))
  {
    hide OfFile, OfAuthority, OfRelative, WithPath, AfterPath, IsFile, IsSpecial, Escaped, SlashesEnd;
    FileIsKept(c, i);
    AuthorityIsKept(c, scheme, SlashesEnd(c, i));
    if c.base.Some? { RelativeIsKept(c, c.base.value, i, true); }
    if c.At(i, '/') {
      if c.At(i + 1, '/') { AuthorityIsKept(c, scheme, i + 2); }
      if i + 2 <= |c.input| { PathKeepsFront(c, Bare(scheme), i + 2); }
    } else {
      var e := PathEnd(c, i);
      EndKeepsFront(c, Bare(scheme).(cannotBeBase := true, path := [Escaped(c.input[i..e], C0Control)]), e);
    }
  }

  lemma MeantIsKept(c: Context)
    requires c.Valid()
    ensures Kept(Meaning(c))
  {
    var colon := SchemeEnd(c.input, 0);
    hide OfFile, OfScheme, OfRelative, IsFile, IsSpecial, Lowered, Escaped;
    if SchemeEndsAt(c, colon) {
      SchemeIsKept(c, Lowered(c.input[..colon]) + ":", colon + 1);
    } else if c.base.Some? {
      FileIsKept(c, 0);
      RelativeIsKept(c, c.base.value, 0, false);
    }
  }

  // ---- all texts -----------------------------------------------------------------------------------

  /** Over all texts, with a base or without: the parse fails exactly where the text means nothing,
      and else returns the record that the text means. */
  lemma ParsedIsMeant(c: Context)
    requires c.Valid() && c.override == None
    ensures Parse(c).flags.failed <==> Meaning(c) == None
    ensures Meaning(c).Some? ==> Parse(c) == Meaning(c).value
  {
    hide Parse, Meaning;
    ParsedIs(c);
    MeantIsKept(c);
  }

  /** A text that starts with a scheme that is special and not "file" and a colon; if the base has
      the same scheme, two slashes of either kind have to follow. */
  predicate IsAbsolute(c: Context) {
    var colon := SchemeEnd(c.input, 0);
    && SchemeEndsAt(c, colon)
    && var scheme := Lowered(c.input[..colon]) + ":";
       && IsSpecial(scheme) && !IsFile(scheme)
       && (c.base.Some? && c.base.value.scheme == scheme ==> IsSlash(c, colon + 1) && IsSlash(c, colon + 2))
  }

  lemma AbsoluteMeans(c: Context)
    requires c.Valid() && IsAbsolute(c)
    ensures var colon := SchemeEnd(c.input, 0);
            var scheme := Lowered(c.input[..colon]) + ":";
            IsSpecial(scheme) && Meaning(c) == OfAuthority(c, scheme, SlashesEnd(c, colon + 1))
  {
    var colon := SchemeEnd(c.input, 0);
    var scheme := Lowered(c.input[..colon]) + ":";
    hide IsFile, IsSpecial, OfAuthority, SchemeEnd, WithPath, Lowered, IsAlpha, IsSchemeChar, OfFile, SlashesEnd,
         OfOpaque, FromBasePath, OfNoScheme;
    if c.base.Some? && c.base.value.scheme == scheme { SlashesCount(c, colon + 1); }
  }

  /** Every absolute text with a special scheme but "file", with a base or without: the parse fails
      exactly when there is no host, or the host or the port is no good; and else the record is made
      of the parts of the text, each from its place. */
  lemma SpecialUrlIsRead(c: Context)
    requires c.Valid() && c.override == None && IsAbsolute(c)
    ensures var colon := SchemeEnd(c.input, 0);
            var scheme := Lowered(c.input[..colon]) + ":";
            var p := PartsFrom(c, SlashesEnd(c, colon + 1), true);
            && (Parse(c).flags.failed <==> !p.Sound(c))
            && (p.Sound(c) ==> Parse(c) == WithPath(c, p.Record(c, scheme), AfterSlash(c, p.portEnd)))
  {
    var colon := SchemeEnd(c.input, 0);
    var scheme := Lowered(c.input[..colon]) + ":";
    AbsoluteMeans(c);
    hide Parse, Meaning, IsFile, PartsFrom, SchemeEnd, SlashesEnd, WithPath, Lowered, IsAlpha, IsSchemeChar, IsSpecial,
         Parts.Sound, Parts.Record, Parts.Fits;
    ParsedIsMeant(c);
  }

  /** A text without a scheme, against a base that is no file and can be one: user name, password,
      host and port are the base's, but after two slashes; and so are the path and the query, as far
      as the text has none. */
  lemma NoSchemeTakesBase(c: Context)
    requires c.Valid() && c.override == None && !SchemeEndsAt(c, SchemeEnd(c.input, 0))
    requires c.base.Some? && !c.base.value.cannotBeBase && !IsFile(c.base.value.scheme)
    requires !(c.At(0, '/') && (c.At(1, '/') || (c.At(1, '\\') && IsSpecial(c.base.value.scheme))))
    ensures var r, base := Parse(c), c.base.value;
            && !r.flags.failed && !r.cannotBeBase
            && r.scheme == base.scheme && r.special == IsSpecial(base.scheme)
            && r.owner == base.owner && r.port == base.port
            && (c.input == "" ==> r.path == base.path && r.query == base.query && r.fragment == None)
            && (c.At(0, '?') ==>
                  r == WithQuery(c, Bare(base.scheme).(owner := base.owner, port := base.port, path := base.path),
                                 1, ""))
            && (c.At(0, '#') ==>
                  r.path == base.path && r.query == base.query
                  && r.fragment == Some(Escaped(c.input[1..], FragmentSet)))
            && (c.At(0, '/') ==>
                  r == WithPath(c, Bare(base.scheme).(owner := base.owner, port := base.port), 1))
            && (!EndsAuthority(c, 0, false) ==>
                  r == WithPath(c, Bare(base.scheme).(owner := base.owner, port := base.port,
                                                      path := Parent(base.path)), 0))
  {
    var base := c.base.value;
    ParsedIsMeant(c);
    BasePathIsKept(c, Joined(base), base, Parent(base.path), 0);
    hide Parse, IsFile, IsSpecial, SchemeEndsAt, SchemeEnd, WithPath, Escaped;
    if c.At(0, '/') { PathKeepsFront(c, Joined(base), 1); }
  }
}
