/** Where the URL parser departs from section 4.4 of the URL Standard, and exactly when. */
module UrlDeviations {
  import opened Wrappers
  import opened UrlRecord
  import opened UrlParser
  import opened UrlSafety
  import opened UrlRuns
  import opened UrlReading
  import opened UrlAuthority
  import opened UrlSchemes
  import opened UrlTexts

  // ---- escapes -------------------------------------------------------------------------------

  /** Nothing that has to be escaped. */
  predicate NeedsNoEscape(s: string, set_: EncodeSet) { forall i :: 0 <= i < |s| ==> !InSet(s[i], set_) }

  /** An escaped text is free of what has to be escaped exactly when the text was: the escape is
      U+0000, which has to be escaped itself. */
  lemma EscapingHelpsNothing(s: string, set_: EncodeSet)
    ensures NeedsNoEscape(Escaped(s, set_), set_) <==> NeedsNoEscape(s, set_)
  {
    forall i | 0 <= i < |s| ensures InSet(Escaped(s, set_)[i], set_) <==> InSet(s[i], set_) {
      assert InSet('\0', set_);
    }
    if NeedsNoEscape(Escaped(s, set_), set_) {
      forall i | 0 <= i < |s| ensures !InSet(s[i], set_) { assert !InSet(Escaped(s, set_)[i], set_); }
    }
  }

  /** A space and a quotation mark in a path come to the same. */
  lemma EscapesCollide()
    ensures Escaped(" ", PathSet) == Escaped("\"", PathSet) == "\0"
  {}

  predicate IsPrintable(c: char) { 0x20 <= c as int <= 0x7E }

  predicate AllPrintable(s: string) { forall i :: 0 <= i < |s| ==> IsPrintable(s[i]) }

  /** Whether the escape of an opaque host does its work on a character. */
  predicate Escapes(c: char, upper: map<char, string>) { IsPrintable(c) || (c in upper && AllPrintable(upper[c])) }

  /** An opaque host ends up printable exactly when each of its characters is, or has a printable
      upper case: percentEncode gets the character and not its number. */
  lemma {:induction false} OpaqueHostIsPrintable(input: string, upper: map<char, string>)
    ensures AllPrintable(OpaqueHost(input, upper)) <==> forall i :: 0 <= i < |input| ==> Escapes(input[i], upper)
  {
    if input != "" {
      var first, rest := input[0], OpaqueHost(input[1..], upper);
      var part := if first as int <= 0x1F || first as int > 0x7E then PercentEncode(first, upper) else [first];
      OpaqueHostIsPrintable(input[1..], upper);
      PartIsPrintable(first, upper);
      PrintableConcat(part, rest);
      assert OpaqueHost(input, upper) == part + rest;
      hide OpaqueHost, PercentEncode, Escapes, AllPrintable;
      assert forall i :: 0 < i < |input| ==> input[i] == input[1..][i - 1];
      if forall i :: 0 <= i < |input| ==> Escapes(input[i], upper) {
        forall i | 0 <= i < |input| - 1 ensures Escapes(input[1..][i], upper) { assert input[1..][i] == input[i + 1]; }
      }
    }
  }

  lemma PartIsPrintable(c: char, upper: map<char, string>)
    ensures AllPrintable(if c as int <= 0x1F || c as int > 0x7E then PercentEncode(c, upper) else [c])
            <==> Escapes(c, upper)
  {
    var h := if c in upper then upper[c] else [c];
    PrintableConcat("0", h);
    PrintableConcat("%", h);
    if c !in upper { assert [c][0] == c; }
  }

  lemma PrintableConcat(a: string, b: string)
    ensures AllPrintable(a + b) <==> AllPrintable(a) && AllPrintable(b)
  {
    if AllPrintable(a + b) {
      forall i | 0 <= i < |a| ensures IsPrintable(a[i]) { assert (a + b)[i] == a[i]; }
      forall i | 0 <= i < |b| ensures IsPrintable(b[i]) { assert (a + b)[|a| + i] == b[i]; }
    }
  }

  /** A control character in a host is left there, behind a zero. */
  lemma ControlIsKept(upper: map<char, string>)
    requires '\U{0001}' !in upper
    ensures OpaqueHost("\U{0001}", upper) == "0\U{0001}"
  {}

  // ---- one slash after a scheme ----------------------------------------------------------------

  /** The state as the standard has it: a character that is not a slash is read again, in the path. */
  function MeantPathOrAuthority(c: Context, m: Machine, u: Url): Next {
    if c.At(m.index, '/') then Go(m.To(Authority).Advance(), u) else Go(m.To(Path), u)
  }

  /** The step is the standard's exactly at a slash. */
  lemma SlashDecides(c: Context, m: Machine, u: Url)
    requires 0 <= m.index <= |c.input| && Placed(c, m) && m.state == PathOrAuthority
    ensures Step(c, m, u) == MeantPathOrAuthority(c, m, u) <==> c.At(m.index, '/')
  {
    hide Placed;
  }

  /** Texts "scheme:/x", where the scheme is not special and x is no slash: the path is read from after
      the x, which is in no part of the record. */
  lemma OneSlashDropsNext(c: Context, colon: nat)
    requires c.Valid() && c.override == None && SchemeEndsAt(c, colon)
    requires c.At(colon + 1, '/') && colon + 2 < |c.input| && c.input[colon + 2] != '/'
    requires !IsSpecial(Lowered(c.input[..colon]) + ":")
    ensures Parse(c) == WithPath(c, BLANK.(scheme := Lowered(c.input[..colon]) + ":"), colon + 3)
  {
    NotAFile(Lowered(c.input[..colon]) + ":");
    SchemeEndsOnce(c, colon);
    hide Parse, WithPath, IsSpecial, IsFile, Lowered, SchemeEnd, IsAlpha, IsSchemeChar;
    ParsedIsMeant(c);
  }

  lemma NotAFile(scheme: string)
    ensures IsFile(scheme) ==> IsSpecial(scheme)
  {}

  lemma SchemeEndsOnce(c: Context, colon: nat)
    requires SchemeEndsAt(c, colon)
    ensures SchemeEnd(c.input, 0) == colon
  {
    assert !IsSchemeChar(':');
  }

  /** Texts "scheme:/" have no path, where the standard gives one empty segment. */
  lemma OneSlashEnds(c: Context, colon: nat)
    requires c.Valid() && c.override == None && SchemeEndsAt(c, colon)
    requires c.At(colon + 1, '/') && colon + 2 == |c.input| && !IsSpecial(Lowered(c.input[..colon]) + ":")
    ensures var u := BLANK.(scheme := Lowered(c.input[..colon]) + ":");
            Parse(c) == u && u.path == [] && WithPath(c, u, colon + 2) == u.(path := [""])
  {
    var scheme := Lowered(c.input[..colon]) + ":";
    NotAFile(scheme);
    SchemeEndsOnce(c, colon);
    EmptyPath(c, BLANK.(scheme := scheme));
    hide Parse, WithPath, IsSpecial, IsFile, Lowered, SchemeEnd, IsAlpha, IsSchemeChar;
    ParsedIsMeant(c);
  }

  lemma EmptyPath(c: Context, u: Url)
    requires u.path == [] && !IsFile(u.scheme)
    ensures WithPath(c, u, |c.input|) == u.(path := [""])
  {
    var n := |c.input|;
    assert SegmentEnd(c.input, u.special, n) == n && Escaped(c.input[n..n], PathSet) == "";
    assert TakeSegment(u, "", false) == u.(path := [""]);
  }

  /** "a:/bc" has the path "c". */
  lemma OneSlashExample(c: Context)
    requires c.Valid() && c.override == None && c.input == "a:/bc"
    ensures Parse(c) == BLANK.(scheme := "a:", path := ["c"])
  {
    assert Lowered(c.input[..1]) + ":" == "a:";
    OneSlashDropsNext(c, 1);
    var u := BLANK.(scheme := "a:");
    assert SegmentEnd(c.input, false, 4) == 5;
    assert Escaped(c.input[4..5], PathSet) == "c";
    assert TakeSegment(u, "c", false).path == [] + ["c"];
  }

  // ---- a backslash against a base ----------------------------------------------------------------

  /** The state as the standard has it: a backslash counts as a slash if the scheme, which is the
      base's, is special; and what the text does not say is the base's. */
  function MeantRelative(c: Context, m: Machine, u: Url): Next
    requires c.base.Some?
  {
    var base := c.base.value;
    var here := u.(scheme := base.scheme, special := IsSpecial(base.scheme));
    var taken := here.(owner := base.owner, port := base.port, path := base.path);
    if c.At(m.index, '/') || (here.special && c.At(m.index, '\\')) then Go(m.To(RelativeSlash).Advance(), here)
    else if c.Ended(m.index) then Go(m.Advance(), taken.(query := base.query))
    else if c.At(m.index, '?') then Go(m.To(Query).Advance(), taken.(query := Some("")))
    else if c.At(m.index, '#') then Go(m.To(Fragment).Advance(), taken.(query := base.query, fragment := Some("")))
    else Go(m.To(Path), taken.(path := Parent(base.path)))
  }

  /** The step is the standard's exactly if no backslash is there, or the record is known to be
      special just when its base is: in a text without a scheme it is not known yet. */
  lemma BackslashDecides(c: Context, m: Machine, u: Url)
    requires 0 <= m.index <= |c.input| && Placed(c, m) && m.state == Relative
    ensures Step(c, m, u) == MeantRelative(c, m, u)
            <==> !c.At(m.index, '\\') || u.special == IsSpecial(c.base.value.scheme)
  {
    hide Placed;
  }

  /** A text that starts with a backslash, against a base with a special scheme but "file": its path
      goes on from the base's, where after a slash it would start anew. */
  lemma BackslashGoesOn(c: Context)
    requires c.Valid() && c.override == None && c.At(0, '\\')
    requires c.base.Some? && IsSpecial(c.base.value.scheme) && !IsFile(c.base.value.scheme)
             && !c.base.value.cannotBeBase
    ensures var base := c.base.value;
            var path := if base.path == [] then [] else base.path[..|base.path| - 1];
            Parse(c) == WithPath(c, BLANK.(scheme := base.scheme, special := true, owner := base.owner,
                                           port := base.port, path := path), 0)
  {
    assert !SchemeEndsAt(c, SchemeEnd(c.input, 0));
    hide Parse, WithPath, IsSpecial, IsFile, SchemeEndsAt, SchemeEnd;
    NoSchemeTakesBase(c);
  }

  /** The path that "\x" gives where a path has one segment left. */
  lemma BackslashSegments(c: Context, u: Url)
    requires c.input == "\\x" && u.special && u.scheme == "http:" && u.path == ["a"]
    ensures WithPath(c, u, 0) == u.(path := ["a", "", "x"])
  {
    assert SegmentEnd(c.input, true, 0) == 0 && SegmentEnd(c.input, true, 1) == 2;
    assert Escaped(c.input[0..0], PathSet) == "" && Escaped(c.input[1..2], PathSet) == "x";
    var v := u.(path := ["a", ""]);
    assert TakeSegment(u, "", true) == v;
    assert TakeSegment(v, "x", false).path == ["a", "", "x"];
    hide TakeSegment;
  }

  /** Against "http://h/a/b" the text "\x" has the path "a", "", "x". */
  lemma BackslashExample(c: Context, h: Host)
    requires c.Valid() && c.override == None && c.input == "\\x"
    requires c.base == Some(BLANK.(scheme := "http:", special := true, owner := Owner("", "", Some(h)),
                                   path := ["a", "b"]))
    ensures Parse(c) == c.base.value.(path := ["a", "", "x"])
  {
    BackslashGoesOn(c);
    assert ["a", "b"][..1] == ["a"];
    BackslashSegments(c, c.base.value.(path := ["a"]));
    hide WithPath, Parse;
  }

  // ---- whole texts -------------------------------------------------------------------------------

  /** What the standard does in a step, in the two states where that differs. */
  function Meant(c: Context, m: Machine, u: Url): Next
    requires 0 <= m.index <= |c.input| && Placed(c, m)
  {
    match m.state
    case PathOrAuthority => MeantPathOrAuthority(c, m, u)
    case Relative => MeantRelative(c, m, u)
    case _ => Step(c, m, u)
  }

  /** Some iteration from here on is not the standard's. */
  predicate Departs(c: Context, m: Machine, u: Url)
    requires 0 <= m.index <= |c.input| + 1 && Placed(c, m)
    decreases Rank(m.state), |c.input| + 1 - m.index
  {
    && m.index <= |c.input|
    && (Step(c, m, u) != Meant(c, m, u)
        || match Step(c, m, u)
           case Done(_) => false
           case Go(next, record) =>
             StepProgresses(c, m, u);
             Departs(c, next, record))
  }

  /** A scheme that is not special, one slash, and no other after it. */
  predicate DropsNext(c: Context) {
    var colon := SchemeEnd(c.input, 0);
    && SchemeEndsAt(c, colon) && !IsSpecial(Lowered(c.input[..colon]) + ":")
    && c.At(colon + 1, '/') && !c.At(colon + 2, '/')
  }

  /** A base that a text without a scheme is read against, with a special scheme. */
  predicate TakesRelative(c: Context) {
    c.base.Some? && !c.base.value.cannotBeBase && IsSpecial(c.base.value.scheme) && !IsFile(c.base.value.scheme)
  }

  lemma DepartsSteps(c: Context, m: Machine, u: Url, next: Machine, record: Url)
    requires 0 <= m.index <= |c.input| && Placed(c, m) && Step(c, m, u) == Go(next, record)
    requires m.state != PathOrAuthority && m.state != Relative
    ensures 0 <= next.index <= |c.input| + 1 && Placed(c, next) && (Departs(c, m, u) <==> Departs(c, next, record))
  {
    StepProgresses(c, m, u);
    hide Step;
  }

  lemma RankGoesDown(c: Context, m: Machine, u: Url)
    requires 0 <= m.index <= |c.input| && Placed(c, m) && Step(c, m, u).Go?
    ensures var next := Step(c, m, u).m;
            && 0 <= next.index <= |c.input| + 1 && Placed(c, next)
            && (Rank(next.state) < Rank(m.state) || (next.state == m.state && next.index > m.index))
  {
    StepProgresses(c, m, u);
    hide Step, Placed;
  }

  /** Past the states of relative texts nothing departs. */
  lemma {:induction false} NeverLater(c: Context, m: Machine, u: Url)
    requires 0 <= m.index <= |c.input| + 1 && Placed(c, m) && Rank(m.state) < Rank(Relative)
    ensures !Departs(c, m, u)
    decreases Rank(m.state), |c.input| + 1 - m.index
  {
    if m.index <= |c.input| && Step(c, m, u).Go? {
      RankGoesDown(c, m, u);
      NeverLater(c, Step(c, m, u).m, Step(c, m, u).u);
    }
    hide Step, Placed;
  }

  /** The states where the code differs are left at once. */
  lemma PathOrAuthorityDeparts(c: Context, m: Machine, u: Url)
    requires 0 <= m.index <= |c.input| && Placed(c, m) && m.state == PathOrAuthority
    ensures Departs(c, m, u) <==> !c.At(m.index, '/')
  {
    SlashDecides(c, m, u);
    RankGoesDown(c, m, u);
    var next := Step(c, m, u).m;
    assert next.state == Authority || next.state == Path;
    hide Placed;
    NeverLater(c, next, u);
  }

  lemma RelativeDeparts(c: Context, m: Machine, u: Url)
    requires 0 <= m.index <= |c.input| && Placed(c, m) && m.state == Relative
    ensures Departs(c, m, u) <==> c.At(m.index, '\\') && u.special != IsSpecial(c.base.value.scheme)
  {
    BackslashDecides(c, m, u);
    RelativeGoes(c, m, u);
    RankGoesDown(c, m, u);
    var r := Step(c, m, u);
    hide Step, Placed, IsSpecial;
    if r.m.state != Relative { NeverLater(c, r.m, r.u); }
  }

  lemma RelativeGoes(c: Context, m: Machine, u: Url)
    requires 0 <= m.index <= |c.input| && Placed(c, m) && m.state == Relative
    ensures Step(c, m, u).Go? && (Step(c, m, u).m.state == Relative ==> Step(c, m, u).m.index > |c.input|)
  {
    hide Placed, IsSpecial, TakeAuthority;
  }

  lemma NoSchemeStep(c: Context)
    requires c.Valid() && c.override == None
    ensures Placed(c, At(NoScheme, 0))
    ensures var r := Step(c, At(NoScheme, 0), BLANK);
            if c.base.Some? && !c.base.value.cannotBeBase && !IsFile(c.base.value.scheme) then
              r == Go(At(Relative, 0), BLANK)
            else r.Go? ==> Rank(r.m.state) < Rank(Relative)
  {
    hide IsSpecial;
  }

  /** A text without a scheme. */
  lemma NoSchemeDeparts(c: Context)
    requires c.Valid() && c.override == None
    ensures Placed(c, At(NoScheme, 0))
    ensures Departs(c, At(NoScheme, 0), BLANK) <==> TakesRelative(c) && c.At(0, '\\')
  {
    NoSchemeStep(c);
    var m := At(NoScheme, 0);
    var r := Step(c, m, BLANK);
    if r.Go? { DepartsSteps(c, m, BLANK, r.m, r.u); }
    hide Step, Placed, IsSpecial, IsFile;
    if r == Go(At(Relative, 0), BLANK) {
      RelativeDeparts(c, At(Relative, 0), BLANK);
    } else if r.Go? {
      NeverLater(c, r.m, r.u);
    }
  }

  lemma {:induction false} SchemeDeparts(c: Context, m: Machine, u: Url, end: nat)
    requires 0 <= m.index <= end <= |c.input| && Placed(c, m) && m.state == Scheme
    requires forall k :: m.index <= k < end ==> IsSchemeChar(c.input[k])
    ensures var n := ReadSchemeTo(m, c.input, end); Placed(c, n) && (Departs(c, m, u) <==> Departs(c, n, u))
    decreases end - m.index
  {
    hide Step, Placed, Departs, ReadSchemeTo, IsSchemeChar;
    ReadSchemeToUnfolds(m, c.input, end);
    if m.index < end {
      var next := m.Append(Lower(c.input[m.index])).Advance();
      SchemeChar(c, m, u);
      DepartsSteps(c, m, u, next, u);
      SchemeDeparts(c, next, u, end);
    }
  }

  lemma SchemeScanned(c: Context)
    requires c.Valid() && c.override == None && c.input != "" && IsAlpha(c.input[0])
    ensures Placed(c, Start(None)) && Placed(c, AtSchemeEnd(c)) && SchemeEnd(c.input, 0) > 0
    ensures Departs(c, Start(None), BLANK) <==> Departs(c, AtSchemeEnd(c), BLANK)
  {
    var end := SchemeEnd(c.input, 0);
    assert IsSchemeChar(c.input[0]) && end > 0;
    var m := Start(None).Append(Lower(c.input[0])).To(Scheme).Advance();
    assert Placed(c, Start(None));
    FirstChar(c, Start(None), BLANK);
    FirstRead(c.input[0], c.input[1..end]);
    assert [c.input[0]] + c.input[1..end] == c.input[..end];
    assert ReadSchemeTo(m, c.input, end) == AtSchemeEnd(c);
    hide Step, Placed, Departs, ReadSchemeTo, IsSchemeChar, IsAlpha;
    DepartsSteps(c, Start(None), BLANK, m, BLANK);
    SchemeDeparts(c, m, BLANK, end);
  }

  lemma AfterSchemeGoes(c: Context, m: Machine, u: Url)
    requires !IsFile(u.scheme) || u.special
    ensures var r := AfterScheme(c, m, u);
            if u.special && !IsFile(u.scheme) && c.base.Some? && c.base.value.scheme == u.scheme then
              r == Go(m.To(SpecialRelativeOrAuthority).Advance(), u)
            else if !u.special && c.At(m.index + 1, '/') then r == Go(m.To(PathOrAuthority).Advance().Advance(), u)
            else r.Go? && Rank(r.m.state) < Rank(Relative)
  {}

  lemma SameSchemeDeparts(c: Context, m: Machine, u: Url)
    requires 0 <= m.index <= |c.input| && Placed(c, m) && m.state == SpecialRelativeOrAuthority
    requires u.special && IsSpecial(u.scheme) && c.base.Some? && c.base.value.scheme == u.scheme
    ensures !Departs(c, m, u)
  {
    var r := Step(c, m, u);
    assert r == Go(m.To(Relative), u) || Rank(r.m.state) < Rank(Relative);
    RankGoesDown(c, m, u);
    DepartsSteps(c, m, u, r.m, r.u);
    hide Step, Placed, Departs, IsSpecial;
    if r == Go(m.To(Relative), u) {
      RelativeDeparts(c, m.To(Relative), u);
    } else {
      NeverLater(c, r.m, r.u);
    }
  }

  lemma SchemeFacts(scheme: string)
    ensures var u := WithScheme(BLANK, scheme);
            u.scheme == scheme && (u.special <==> IsSpecial(scheme)) && (IsFile(scheme) ==> u.special)
  {}

  /** A text that starts with a scheme and a colon. */
  lemma ColonDeparts(c: Context)
    requires c.Valid() && c.override == None && SchemeEndsAt(c, SchemeEnd(c.input, 0)) && Placed(c, AtSchemeEnd(c))
    ensures Departs(c, AtSchemeEnd(c), BLANK) <==> DropsNext(c)
  {
    var colon, m := SchemeEnd(c.input, 0), AtSchemeEnd(c);
    var u := WithScheme(BLANK, Lowered(c.input[..colon]) + ":");
    ColonStep(c, m, BLANK);
    SchemeFacts(Lowered(c.input[..colon]) + ":");
    AfterSchemeGoes(c, m.Clear(), u);
    var r := AfterScheme(c, m.Clear(), u);
    assert r.Go? && r.m.index >= 0;
    DepartsSteps(c, m, BLANK, r.m, r.u);
    hide Step, Placed, Departs, AfterScheme, WithScheme, IsSpecial, IsFile, Lowered, IsSchemeChar, IsAlpha;
    if r.m.state == SpecialRelativeOrAuthority {
      SameSchemeDeparts(c, r.m, u);
    } else if r.m.state == PathOrAuthority {
      PathOrAuthorityDeparts(c, r.m, u);
    } else {
      NeverLater(c, r.m, r.u);
    }
  }

  /** A parse without an override departs from the standard, in those two states, if and only if the
      text is a scheme that is not special with one slash and no other after it; or starts with a
      backslash where a base with a special scheme other than "file" is there to be gone on from. */
  lemma DepartsExactly(c: Context)
    requires c.Valid() && c.override == None
    ensures Placed(c, Start(None))
    ensures Departs(c, Start(None), BLANK) <==> DropsNext(c) || (TakesRelative(c) && c.At(0, '\\'))
  {
    NoSchemeDeparts(c);
    if c.input == "" || !IsAlpha(c.input[0]) {
      NoAlphaStep(c);
      hide Step, Departs, Placed, IsSpecial, IsFile;
      DepartsSteps(c, Start(None), BLANK, At(NoScheme, 0), BLANK);
    } else {
      SchemeScanned(c);
      hide Step, Departs, Placed, IsSpecial, IsFile;
      if c.At(SchemeEnd(c.input, 0), ':') {
        ColonDeparts(c);
      } else {
        NoColonStep(c);
        DepartsSteps(c, AtSchemeEnd(c), BLANK, At(NoScheme, 0), BLANK);
      }
    }
  }
}
