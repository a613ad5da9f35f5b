/** The loop of basicURLParse. */
module UrlBasicParse {
  import opened Wrappers
  import opened UrlRecord
  import opened UrlParser
  import opened UrlSafety
  import opened UrlRuns
  import UrlTexts
  import UrlOverrides

  /** On every input, base and exported override the loop ends, since each iteration lowers the
      state or raises the index; the index stays within the text; and the parse fails exactly where the
      text means nothing, and else returns the record that the text means. */
  method BasicURLParse(input: string, base: Option<Url>, override: Option<State>, upper: map<char, string>)
    returns (url: Url)
    requires override.Some? ==> Exported(override.value)
    requires base.Some? ==> Good(base.value)
    ensures var c := Context(Clean(input), base, override, upper);
            && c.Valid()
            && var meant := if override == None then UrlTexts.Meaning(c) else UrlOverrides.Meaning(c);
               (url.flags.failed <==> meant == None) && (meant.Some? ==> url == meant.value)
    ensures override == None && !url.flags.failed ==> Good(url)
  {
    var c := Context(Clean(input), base, override, upper);
    ValidContext(c);
    if override == None {
      ParsedIsGood(c);
      UrlTexts.ParsedIsMeant(c);
    } else {
      UrlOverrides.ParsedIsMeant(c);
    }
    hide Step, Good, Progresses, Clean;
    var m := Start(override);
    url := BLANK;
    while m.index < |c.input| + 1
      invariant 0 <= m.index <= |c.input| + 1 && Placed(c, m)
      invariant Parse(c) == ParseFrom(c, m, url)
      decreases Rank(m.state), |c.input| + 1 - m.index
    {
      hide Placed, Parse;
      StepProgresses(c, m, url);
      GoDescends(c, m, Step(c, m, url));
      match Step(c, m, url)
      case Done(r) => return r;
      case Go(next, record) => m, url := next, record;
    }
  }

  lemma GoDescends(c: Context, m: Machine, r: Next)
    requires Progresses(c, m, r)
    ensures r.Go? ==> Descends(c, m.state, m.index, r.m.state, r.m.index) && Placed(c, r.m)
  {}
}
