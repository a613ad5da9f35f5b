/** What basicURLParse makes of a scheme and of the slashes after it. */
module UrlSchemes {
  import opened Wrappers
  import opened UrlRecord
  import opened UrlParser
  import opened UrlSafety
  import opened UrlRuns
  import opened UrlReading
  import opened UrlAuthority

  // ---- the scheme --------------------------------------------------------------------------------

  function SchemeEnd(s: string, i: nat): (e: nat)
    requires i <= |s|
    ensures i <= e <= |s| && (e < |s| ==> !IsSchemeChar(s[e])) && forall k :: i <= k < e ==> IsSchemeChar(s[k])
    decreases |s| - i
  {
    if i == |s| || !IsSchemeChar(s[i]) then i else SchemeEnd(s, i + 1)
  }

  /** A scheme with its colon. */
  predicate SchemeEndsAt(c: Context, colon: nat) {
    && 0 < colon < |c.input| && IsAlpha(c.input[0]) && c.input[colon] == ':'
    && forall k :: 0 <= k < colon ==> IsSchemeChar(c.input[k])
  }

  /** A text that may start with a scheme, read up to where that would end. */
  function AtSchemeEnd(c: Context): Machine {
    var end := SchemeEnd(c.input, 0);
    At(Scheme, end).(buffer := Lowered(c.input[..end]))
  }

  lemma FirstChar(c: Context, m: Machine, u: Url)
    requires 0 <= m.index < |c.input| && Placed(c, m) && m.state == SchemeStart && IsAlpha(c.input[m.index])
    ensures Step(c, m, u) == Go(m.Append(Lower(c.input[m.index])).To(Scheme).Advance(), u)
  {
    hide Placed, IsAlpha, Lower;
  }

  lemma FirstRead(first: char, rest: string)
    ensures "" + [Lower(first)] + Lowered(rest) == Lowered([first] + rest)
  {}

  /** What can be a scheme is read to its end. */
  lemma SchemeStage(c: Context)
    requires c.Valid() && c.override == None && c.input != "" && IsAlpha(c.input[0])
    ensures Placed(c, Start(None)) && Placed(c, AtSchemeEnd(c)) && SchemeEnd(c.input, 0) > 0
    ensures ParseFrom(c, Start(None), BLANK) == ParseFrom(c, AtSchemeEnd(c), BLANK)
  {
    var end := SchemeEnd(c.input, 0);
    assert IsSchemeChar(c.input[0]) && end > 0;
    var m := Start(None).Append(Lower(c.input[0])).To(Scheme).Advance();
    assert Placed(c, Start(None));
    FirstChar(c, Start(None), BLANK);
    FirstRead(c.input[0], c.input[1..end]);
    assert [c.input[0]] + c.input[1..end] == c.input[..end];
    assert ReadSchemeTo(m, c.input, end) == AtSchemeEnd(c);
    hide Step, Placed, ParseFrom, ReadSchemeTo, IsSchemeChar, IsAlpha;
    StepsTo(c, Start(None), BLANK, m, BLANK);
    SchemeIsRead(c, m, BLANK, end);
  }

  lemma ColonStep(c: Context, m: Machine, u: Url)
    requires 0 <= m.index < |c.input| && Placed(c, m) && m.state == Scheme && c.override == None
             && c.input[m.index] == ':'
    ensures Step(c, m, u) == AfterScheme(c, m.Clear(), WithScheme(u, m.buffer + ":"))
  {
    hide WithScheme, AfterScheme, Placed;
  }

  lemma NoColonStep(c: Context)
    requires c.Valid() && c.override == None && Placed(c, AtSchemeEnd(c))
    requires !c.At(SchemeEnd(c.input, 0), ':')
    ensures Step(c, AtSchemeEnd(c), BLANK) == Go(At(NoScheme, 0), BLANK)
  {
    hide IsSchemeChar, Placed;
  }

  lemma NoAlphaStep(c: Context)
    requires c.Valid() && c.override == None && (c.input == "" || !IsAlpha(c.input[0]))
    ensures Placed(c, Start(None)) && Step(c, Start(None), BLANK) == Go(At(NoScheme, 0), BLANK)
  {}

  /** A text without a scheme is read again from its start. */
  lemma NoSchemeStage(c: Context)
    requires c.Valid() && c.override == None && !SchemeEndsAt(c, SchemeEnd(c.input, 0))
    ensures Placed(c, At(NoScheme, 0)) && Parse(c) == ParseFrom(c, At(NoScheme, 0), BLANK)
  {
    if c.input == "" || !IsAlpha(c.input[0]) {
      NoAlphaStep(c);
      hide Step, ParseFrom, Placed, IsAlpha;
      StepsTo(c, Start(None), BLANK, At(NoScheme, 0), BLANK);
    } else {
      SchemeStage(c);
      NoColonStep(c);
      hide Step, ParseFrom, Placed, IsAlpha;
      StepsTo(c, AtSchemeEnd(c), BLANK, At(NoScheme, 0), BLANK);
    }
  }

  lemma SchemeMade(scheme: string)
    ensures WithScheme(BLANK, scheme) == BLANK.(scheme := scheme, special := IsSpecial(scheme))
  {}

  /** A scheme is in the record when its colon has been read. */
  lemma ColonStage(c: Context)
    requires c.Valid() && c.override == None && SchemeEndsAt(c, SchemeEnd(c.input, 0))
    ensures var colon := SchemeEnd(c.input, 0);
            var scheme := Lowered(c.input[..colon]) + ":";
            var r := AfterScheme(c, At(Scheme, colon), BLANK.(scheme := scheme, special := IsSpecial(scheme)));
            && r.Go? && 0 <= r.m.index <= |c.input| + 1 && Placed(c, r.m)
            && Parse(c) == ParseFrom(c, r.m, r.u)
  {
    SchemeStage(c);
    ColonStep(c, AtSchemeEnd(c), BLANK);
    SchemeMade(Lowered(c.input[..SchemeEnd(c.input, 0)]) + ":");
    hide Step, Placed, ParseFrom, WithScheme, IsSpecial, Lowered, SchemeEnd;
    var r := AfterScheme(c, AtSchemeEnd(c).Clear(), WithScheme(BLANK, AtSchemeEnd(c).buffer + ":"));
    hide AfterScheme, IsAlpha, IsSchemeChar;
    StepsTo(c, AtSchemeEnd(c), BLANK, r.m, r.u);
  }

  // ---- slashes -----------------------------------------------------------------------------------

  function SlashesEnd(c: Context, i: nat): (e: nat)
    requires i <= |c.input|
    ensures i <= e <= |c.input| && !IsSlash(c, e) && forall k :: i <= k < e ==> IsSlash(c, k)
    decreases |c.input| - i
  {
    if i == |c.input| || !IsSlash(c, i) then i else SlashesEnd(c, i + 1)
  }

  lemma SlashStep(c: Context, m: Machine, u: Url)
    requires 0 <= m.index < |c.input| && Placed(c, m) && m.state == SpecialAuthorityIgnoreSlashes && IsSlash(c, m.index)
    ensures Step(c, m, u) == Go(m.Advance(), u)
  {
    hide Placed;
  }

  lemma {:induction false} SlashesAreSkipped(c: Context, m: Machine, u: Url, start: nat)
    requires 0 <= m.index <= start <= |c.input| && Placed(c, m) && m.state == SpecialAuthorityIgnoreSlashes
    requires forall k :: m.index <= k < start ==> IsSlash(c, k)
    ensures var n := m.(index := start); Placed(c, n) && ParseFrom(c, m, u) == ParseFrom(c, n, u)
    decreases start - m.index
  {
    hide Step, Placed, ParseFrom, IsSlash;
    if m.index < start {
      SlashStep(c, m, u);
      StepsTo(c, m, u, m.Advance(), u);
      SlashesAreSkipped(c, m.Advance(), u, start);
    }
  }

  lemma AuthorityStarts(c: Context, m: Machine, u: Url)
    requires 0 <= m.index <= |c.input| && Placed(c, m) && m.state == SpecialAuthorityIgnoreSlashes
             && !IsSlash(c, m.index)
    ensures Step(c, m, u) == Go(m.To(Authority), u)
  {
    hide Placed;
  }

  /** All slashes, of either kind, are skipped before an authority. */
  lemma SlashesStage(c: Context, i: nat, u: Url)
    requires c.Valid() && i <= |c.input|
    ensures var m, n := At(SpecialAuthorityIgnoreSlashes, i), At(Authority, SlashesEnd(c, i));
            Placed(c, m) && Placed(c, n) && ParseFrom(c, m, u) == ParseFrom(c, n, u)
  {
    var m, n := At(SpecialAuthorityIgnoreSlashes, i), At(SpecialAuthorityIgnoreSlashes, SlashesEnd(c, i));
    assert Placed(c, m);
    hide Step, Placed, ParseFrom, IsSlash;
    SlashesAreSkipped(c, m, u, SlashesEnd(c, i));
    AuthorityStarts(c, n, u);
    StepsTo(c, n, u, n.To(Authority), u);
  }
}
