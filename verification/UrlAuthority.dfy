/** What basicURLParse makes of an authority, with a special scheme or another: user name and password,
    host and port, each from its place in the text. */
module UrlAuthority {
  import opened Wrappers
  import opened Digits
  import opened UrlRecord
  import opened UrlParser
  import opened UrlSafety
  import opened UrlRuns
  import opened UrlReading

  // ---- where the parts are -------------------------------------------------------

  predicate IsPort(text: string) { AllDigits(text) && Value(text, 10) <= 0xFFFF }

  /** What stands after the colon at `i`, or nothing at the end. */
  function PortBetween(s: string, i: nat, end: nat): string
    requires i <= end <= |s|
  {
    if i < end then s[i + 1..end] else ""
  }

  /** The port that a text stands for. */
  function PortFrom(scheme: string, text: string): Option<nat>
    requires IsPort(text)
  {
    if text == "" then None else NormalizePort(scheme, Some(Value(text, 10)))
  }

  /** The host that a text stands for. No text stands for none, but alone and with a scheme that is
      not special for the empty one. */
  function HostAt(c: Context, text: string, special: bool, colon: bool): Option<Host> {
    if text == "" && (special || colon) then None else ParseHost(text, special, c.upper)
  }

  function AtsEscaped(s: string): string {
    if s == "" then "" else (if s[0] == '@' then "%40" else [s[0]]) + AtsEscaped(s[1..])
  }

  /** Where the parts of an authority are: its start, its last '@', if it has one, and the ends of the
      host and of the port. */
  datatype Parts = Parts(special: bool, start: nat, at: Option<nat>, hostEnd: nat, portEnd: nat) {
    function HostStart(): nat { if at.Some? then at.value + 1 else start }

    predicate HasAuthority(c: Context) {
      && start <= portEnd <= |c.input| && EndsAuthority(c, portEnd, special)
      && (forall k :: start <= k < portEnd ==> !EndsAuthority(c, k, special))
      && (at.Some? ==> start <= at.value < portEnd && c.input[at.value] == '@')
      && (forall k :: HostStart() <= k < portEnd ==> c.input[k] != '@')
    }

    /** The host ends at a colon outside of brackets, or with the authority. */
    predicate HasHost(c: Context)
      requires HasAuthority(c)
    {
      && HostStart() <= hostEnd <= portEnd && HostText(c, HostStart(), hostEnd, special, false)
      && (hostEnd < portEnd ==> c.input[hostEnd] == ':' && !BracketOpen(c.input, HostStart(), hostEnd, false))
    }

    predicate Fits(c: Context) { HasAuthority(c) && HasHost(c) }

    function HostOf(c: Context): Option<Host>
      requires Fits(c)
    {
      HostAt(c, c.input[HostStart()..hostEnd], special, hostEnd < portEnd)
    }

    /** User name and password, split at the first colon; each '@' but the last stands for itself. */
    function OwnerOf(c: Context): Owner
      requires HasAuthority(c)
    {
      if at.Some? then Credentials(AtsEscaped(c.input[start..at.value]), BLANK.owner, false).0 else BLANK.owner
    }

    function PortText(c: Context): string
      requires Fits(c)
    {
      PortBetween(c.input, hostEnd, portEnd)
    }

    /** After an '@' there is something; there is a host, and the port is one. */
    predicate Sound(c: Context)
      requires Fits(c)
    {
      (at.Some? ==> HostStart() < portEnd) && HostOf(c).Some? && IsPort(PortText(c))
    }

    /** The record that all but the path, the query and the fragment make. */
    function Record(c: Context, scheme: string): Url
      requires Fits(c) && Sound(c)
    {
      BLANK.(scheme := scheme, special := special, owner := OwnerOf(c).(host := HostOf(c)),
             port := PortFrom(scheme, PortText(c)))
    }
  }

  /** Past a slash, if there is one. */
  function AfterSlash(c: Context, i: nat): (r: nat)
    requires i <= |c.input|
    ensures r <= |c.input|
  {
    if IsSlash(c, i) then i + 1 else i
  }

  /** The record of a path that starts at `i`: after a slash if there is one, which only a backslash
      after a special scheme can be in its stead. With another scheme there may be no path. */
  function FromPathStart(c: Context, u: Url, i: nat): Url
    requires i <= |c.input|
  {
    if IsSpecial(u.scheme) then WithPath(c, u, AfterSlash(c, i))
    else if c.At(i, '/') then WithPath(c, u, i + 1)
    else if EndsPath(c, i) then AfterPath(c, u, i)
    else WithPath(c, u, i)
  }

  function At(state: State, index: int): Machine { Machine(state, index, "", false, false, false) }

  lemma AtIsPlaced(c: Context, state: State, index: nat)
    requires c.Valid() && index <= |c.input| + 1
    requires state.SpecialRelativeOrAuthority? || state.Relative? || state.RelativeSlash? ==> c.base.Some?
    ensures Placed(c, At(state, index))
  {}

  // ---- the authority ------------------------------------------------------------------------------

  /** The text that goes to the user name and the password at an '@'. */
  function Owning(m: Machine, text: string): string { if m.atFlag then "%40" + text else text }

  lemma AtSignStep(c: Context, m: Machine, u: Url)
    requires 0 <= m.index < |c.input| && Placed(c, m) && m.state == Authority && c.input[m.index] == '@'
    ensures var (owner, seen) := Credentials(Owning(m, m.buffer), u.owner, m.passwordTokenSeenFlag);
            Step(c, m, u) == Go(m.(passwordTokenSeenFlag := seen, atFlag := true).Clear().Advance(), u.(owner := owner))
  {
    hide Credentials, Placed;
  }

  lemma RewindStep(c: Context, m: Machine, u: Url)
    requires 0 <= m.index <= |c.input| && Placed(c, m) && m.state == Authority && EndsAuthority(c, m.index, u.special)
    ensures if m.atFlag && m.buffer == "" then Step(c, m, u) == Done(Failed(u))
            else Step(c, m, u) == Go(m.(index := m.index - |m.buffer|).Clear().To(HostState), u)
  {
    hide Credentials, Placed;
  }

  lemma StepEnds(c: Context, m: Machine, u: Url, r: Url)
    requires 0 <= m.index <= |c.input| && Placed(c, m) && Step(c, m, u) == Done(r)
    ensures ParseFrom(c, m, u) == r
  {
    hide Step, Placed;
  }

  function Failed(u: Url): Url { u.(flags := u.flags.(failed := true)) }

  lemma ReadFromEmpty(m: Machine, s: string, end: nat)
    requires 0 <= m.index <= end <= |s| && m.buffer == ""
    ensures ReadTo(m, s, end) == m.(index := end, buffer := s[m.index..end])
    ensures ReadTo(m, s, end).buffer == "" <==> m.index == end
  {
    assert "" + s[m.index..end] == s[m.index..end];
    assert |s[m.index..end]| == end - m.index;
  }

  /** The text after the last '@' is read again, from its start, as the host; after an '@' there has
      to be one. */
  lemma RewindStage(c: Context, m: Machine, u: Url, end: nat)
    requires 0 <= m.index <= end <= |c.input| && Placed(c, m) && m.state == Authority && m.buffer == ""
    requires EndsAuthority(c, end, u.special)
    requires forall k :: m.index <= k < end ==> !EndsAuthority(c, k, u.special) && c.input[k] != '@'
    ensures if m.atFlag && m.index == end then ParseFrom(c, m, u) == Failed(u)
            else Placed(c, m.To(HostState)) && ParseFrom(c, m, u) == ParseFrom(c, m.To(HostState), u)
  {
    var n := ReadTo(m, c.input, end);
    ReadFromEmpty(m, c.input, end);
    assert n.(index := n.index - |n.buffer|).Clear().To(HostState) == m.To(HostState);
    hide Step, Placed, ParseFrom, ReadTo, EndsAuthority;
    AuthorityIsScanned(c, m, u, end);
    RewindStep(c, n, u);
    if m.atFlag && m.index == end {
      StepEnds(c, n, u, Failed(u));
    } else {
      StepsTo(c, n, u, m.To(HostState), u);
    }
  }

  /** The first '@' from `i` on, if there is one before `end`. */
  function AtFrom(s: string, i: nat, end: nat): (a: nat)
    requires i <= end <= |s|
    ensures i <= a <= end && (a < end ==> s[a] == '@') && forall k :: i <= k < a ==> s[k] != '@'
    decreases end - i
  {
    if i == end || s[i] == '@' then i else AtFrom(s, i + 1, end)
  }

  lemma {:induction false} CredentialsAppend(a: string, b: string, o: Owner, seen: bool)
    ensures var (owner, later) := Credentials(a, o, seen); Credentials(a + b, o, seen) == Credentials(b, owner, later)
    decreases |a|
  {
    if a == "" {
      assert a + b == b;
    } else {
      assert (a + b)[0] == a[0] && (a + b)[1..] == a[1..] + b;
      hide AppendOrEscape;
      if a[0] == ':' && !seen {
        CredentialsAppend(a[1..], b, o, true);
      } else if seen {
        CredentialsAppend(a[1..], b, o.(password := AppendOrEscape(o.password, a[0], UserInfo)), true);
      } else {
        CredentialsAppend(a[1..], b, o.(username := AppendOrEscape(o.username, a[0], UserInfo)), false);
      }
    }
  }

  /** Up to its first '@' a text stays; the '@' becomes its escape. */
  lemma {:induction false} AtsSplit(s: string, i: nat, a: nat, end: nat)
    requires i <= a <= end <= |s| && (a < end ==> s[a] == '@') && forall k :: i <= k < a ==> s[k] != '@'
    ensures AtsEscaped(s[i..end]) == if a == end then s[i..a] else s[i..a] + ("%40" + AtsEscaped(s[a + 1..end]))
    decreases a - i
  {
    if i < end { assert s[i..end][1..] == s[i + 1..end]; }
    if i < a {
      AtsSplit(s, i + 1, a, end);
      assert s[i..a] == [s[i]] + s[i + 1..a];
    }
  }

  /** The machine after an '@'. */
  function PastAt(m: Machine, at: int, seen: bool): Machine {
    m.(index := at + 1, atFlag := true, passwordTokenSeenFlag := seen)
  }

  /** At the '@' the text goes to the user name and the password, and the parse goes on. */
  predicate Credits(c: Context, m: Machine, u: Url, text: string, at: nat)
    requires 0 <= m.index <= at < |c.input| && Placed(c, m)
  {
    var (owner, seen) := Credentials(text, u.owner, m.passwordTokenSeenFlag);
    var n := PastAt(m, at, seen);
    Placed(c, n) && ParseFrom(c, m, u) == ParseFrom(c, n, u.(owner := owner))
  }

  lemma CredentialsRound(c: Context, m: Machine, u: Url, at: nat)
    requires 0 <= m.index <= at < |c.input| && Placed(c, m) && m.state == Authority && m.buffer == ""
             && c.input[at] == '@'
    requires forall k :: m.index <= k < at ==> !EndsAuthority(c, k, u.special) && c.input[k] != '@'
    ensures Credits(c, m, u, Owning(m, c.input[m.index..at]), at)
  {
    hide Step, Placed, ParseFrom, ReadTo, EndsAuthority, Credentials, Context.At;
    var n := ReadTo(m, c.input, at);
    ReadFromEmpty(m, c.input, at);
    var (owner, seen) := Credentials(Owning(m, c.input[m.index..at]), u.owner, m.passwordTokenSeenFlag);
    AuthorityIsScanned(c, m, u, at);
    AtSignStep(c, n, u);
    StepsTo(c, n, u, PastAt(m, at, seen), u.(owner := owner));
  }

  /** What one round leaves to the next. */
  lemma CreditsTwice(c: Context, m: Machine, u: Url, text: string, first: nat, later: string, at: nat)
    requires 0 <= m.index <= first < at < |c.input| && Placed(c, m) && Credits(c, m, u, text, first)
    ensures var (owner, seen) := Credentials(text, u.owner, m.passwordTokenSeenFlag);
            && Placed(c, PastAt(m, first, seen))
            && (Credits(c, PastAt(m, first, seen), u.(owner := owner), later, at) ==>
               Credits(c, m, u, text + later, at))
  {
    hide Placed, ParseFrom, Credentials;
    CredentialsAppend(text, later, u.owner, m.passwordTokenSeenFlag);
  }

  lemma Associate(a: string, b: string, c: string)
    ensures (a + b) + c == a + (b + c)
  {}

  lemma OwningAppend(m: Machine, a: string, b: string)
    ensures Owning(m, a) + b == Owning(m, a + b)
  {
    Associate("%40", a, b);
  }

  lemma OwningSplit(c: Context, m: Machine, first: nat, at: nat)
    requires 0 <= m.index <= first < at < |c.input| && c.input[first] == '@'
    requires forall k :: m.index <= k < first ==> c.input[k] != '@'
    ensures Owning(m, c.input[m.index..first]) + ("%40" + AtsEscaped(c.input[first + 1..at]))
            == Owning(m, AtsEscaped(c.input[m.index..at]))
  {
    AtsSplit(c.input, m.index, first, at);
    hide AtsEscaped;
    OwningAppend(m, c.input[m.index..first], "%40" + AtsEscaped(c.input[first + 1..at]));
  }

  /** Every '@' up to the last hands what was read since the one before it to the user name and the
      password. */
  lemma {:induction false} CredentialsStage(c: Context, m: Machine, u: Url, at: nat)
    requires 0 <= m.index <= at < |c.input| && Placed(c, m) && m.state == Authority && m.buffer == ""
             && c.input[at] == '@'
    requires forall k :: m.index <= k < at ==> !EndsAuthority(c, k, u.special)
    ensures Credits(c, m, u, Owning(m, AtsEscaped(c.input[m.index..at])), at)
    decreases at - m.index
  {
    hide Step, Placed, ParseFrom, EndsAuthority, Credentials, AtsEscaped, AtFrom, Credits;
    var first := AtFrom(c.input, m.index, at);
    CredentialsRound(c, m, u, first);
    if first == at {
      AtsSplit(c.input, m.index, at, at);
    } else {
      var text, later := Owning(m, c.input[m.index..first]), "%40" + AtsEscaped(c.input[first + 1..at]);
      var (owner, seen) := Credentials(text, u.owner, m.passwordTokenSeenFlag);
      CreditsTwice(c, m, u, text, first, later, at);
      CredentialsStage(c, PastAt(m, first, seen), u.(owner := owner), at);
      OwningSplit(c, m, first, at);
    }
  }

  /** The machine that reads the host. */
  function AtHost(c: Context, p: Parts): Machine
    requires p.HasAuthority(c)
  {
    Machine(HostState, p.HostStart(), "", p.at.Some?, false,
            p.at.Some? && Credentials(AtsEscaped(c.input[p.start..p.at.value]), BLANK.owner, false).1)
  }

  lemma OwnersStage(c: Context, p: Parts, u: Url)
    requires p.HasAuthority(c) && p.at.Some? && Placed(c, At(Authority, p.start))
    requires u.special == p.special && u.owner == BLANK.owner
    ensures var n := AtHost(c, p).To(Authority);
            && Placed(c, n)
            && ParseFrom(c, At(Authority, p.start), u) == ParseFrom(c, n, u.(owner := p.OwnerOf(c)))
  {
    hide Step, Placed, ParseFrom, EndsAuthority, Credentials, AtsEscaped;
    CredentialsStage(c, At(Authority, p.start), u, p.at.value);
  }

  /** What stands before the last '@' goes to the user name and the password, and the host is read
      from after it; there has to be something to read. */
  lemma OwnerStage(c: Context, p: Parts, u: Url)
    requires c.Valid() && p.HasAuthority(c) && Placed(c, At(Authority, p.start))
    requires u.special == p.special && u.owner == BLANK.owner
    ensures var m := At(Authority, p.start);
            if p.at.Some? && p.HostStart() == p.portEnd then ParseFrom(c, m, u).flags.failed
            else Placed(c, AtHost(c, p))
                 && ParseFrom(c, m, u) == ParseFrom(c, AtHost(c, p), u.(owner := p.OwnerOf(c)))
  {
    var owned := u.(owner := p.OwnerOf(c));
    hide Step, ParseFrom, Placed, EndsAuthority, Credentials, AtsEscaped;
    if p.at.Some? {
      OwnersStage(c, p, u);
    } else {
      assert owned == u;
    }
    RewindStage(c, AtHost(c, p).To(Authority), owned, p.portEnd);
  }

  // ---- host, port and path ------------------------------------------------------------------------

  lemma PathStartStep(c: Context, m: Machine, u: Url)
    requires 0 <= m.index <= |c.input| && Placed(c, m) && m.state == PathStart && c.override == None
    ensures Step(c, m, u) ==
              if IsSpecial(u.scheme) then Go(m.(state := Path, index := AfterSlash(c, m.index)), u)
              else if c.At(m.index, '/') then Go(m.To(Path).Advance(), u)
              else if m.index == |c.input| then Go(m.Advance(), u)
              else if c.input[m.index] == '?' then Go(m.To(Query).Advance(), u.(query := Some("")))
              else if c.input[m.index] == '#' then Go(m.To(Fragment).Advance(), u.(fragment := Some("")))
              else Go(m.To(Path), u)
  {
    hide IsSpecial, Placed;
  }

  lemma ClearIsIdle(m: Machine)
    requires m.buffer == ""
    ensures m.Clear() == m
  {}

  lemma PathStage(c: Context, m: Machine, u: Url)
    requires 0 <= m.index <= |c.input| && Placed(c, m) && m.state == PathStart && m.buffer == "" && c.override == None
    ensures ParseFrom(c, m, u) == FromPathStart(c, u, m.index)
  {
    hide Step, ParseFrom, Placed, AfterSlash, IsSpecial, WithPath, AfterPath;
    if !IsSpecial(u.scheme) && !c.At(m.index, '/') && EndsPath(c, m.index) {
      NoPathStage(c, m, u);
    } else {
      PathStartStep(c, m, u);
      ThenPathStage(c, m, u, Step(c, m, u).m);
    }
  }

  lemma ThenPathStage(c: Context, m: Machine, u: Url, next: Machine)
    requires 0 <= m.index <= |c.input| && Placed(c, m) && c.override == None && Step(c, m, u) == Go(next, u)
    requires next.state == Path && next.buffer == "" && next.index <= |c.input|
    ensures 0 <= next.index && ParseFrom(c, m, u) == WithPath(c, u, next.index)
  {
    hide Step, ParseFrom, Placed, WithPath;
    StepsTo(c, m, u, next, u);
    PathIsRead(c, next, u);
  }

  lemma NoPathStage(c: Context, m: Machine, u: Url)
    requires 0 <= m.index <= |c.input| && Placed(c, m) && m.state == PathStart && m.buffer == "" && c.override == None
    requires !IsSpecial(u.scheme) && EndsPath(c, m.index)
    ensures ParseFrom(c, m, u) == AfterPath(c, u, m.index)
  {
    PathStartStep(c, m, u);
    ClearIsIdle(m);
    hide Step, ParseFrom, Placed, IsSpecial, AfterPath;
    PathEndIsRead(c, m, u, u);
  }

  lemma PortEndsStep(c: Context, m: Machine, u: Url)
    requires 0 <= m.index <= |c.input| && Placed(c, m) && m.state == PortState && EndsAuthority(c, m.index, u.special)
    requires c.override == None && u.flags.isDefaultSchemePort
    ensures AllDigits(m.buffer)
    ensures Step(c, m, u) ==
              if !IsPort(m.buffer) then Done(Failed(u))
              else Go(m.Clear().To(PathStart), if m.buffer == "" then u else u.(port := PortFrom(u.scheme, m.buffer)))
  {
    assert Value("", 10) == 0;
    hide NormalizePort, Value;
    if m.buffer != "" { assert u.flags.(isDefaultSchemePort := true) == u.flags; }
  }

  lemma NoDigitStep(c: Context, m: Machine, u: Url)
    requires 0 <= m.index < |c.input| && Placed(c, m) && m.state == PortState && c.override == None
    requires !IsDigit(c.input[m.index]) && !EndsAuthority(c, m.index, u.special)
    ensures Step(c, m, u) == Done(Failed(u))
  {
    assert AllDigits(m.buffer);
    hide Placed, EndsAuthority, IsDigit;
  }

  /** The first character from `i` on that is no digit, if there is one before `end`. */
  function DigitsEnd(s: string, i: nat, end: nat): (e: nat)
    requires i <= end <= |s|
    ensures i <= e <= end && (e < end ==> !IsDigit(s[e])) && forall k :: i <= k < e ==> IsDigit(s[k])
    decreases end - i
  {
    if i == end || !IsDigit(s[i]) then i else DigitsEnd(s, i + 1, end)
  }

  lemma SliceDigits(s: string, i: nat, end: nat)
    requires i <= end <= |s|
    ensures AllDigits(s[i..end]) <==> DigitsEnd(s, i, end) == end
  {
    var e := DigitsEnd(s, i, end);
    if e < end {
      assert s[i..end][e - i] == s[e];
    }
  }

  /** A port is what the rest of the authority says, and the path comes after it. */
  lemma PortStage(c: Context, m: Machine, u: Url, end: nat)
    requires 0 <= m.index <= end <= |c.input| && Placed(c, m) && m.state == PortState && m.buffer == ""
             && c.override == None
    requires u.flags.isDefaultSchemePort && u.port == None && EndsAuthority(c, end, u.special)
    requires forall k :: m.index <= k < end ==> !EndsAuthority(c, k, u.special)
    ensures var text := c.input[m.index..end];
            ParseFrom(c, m, u) ==
              if !IsPort(text) then Failed(u) else FromPathStart(c, u.(port := PortFrom(u.scheme, text)), end)
  {
    var digits := DigitsEnd(c.input, m.index, end);
    var text, n := c.input[m.index..end], ReadTo(m, c.input, digits);
    SliceDigits(c.input, m.index, end);
    ReadFromEmpty(m, c.input, digits);
    assert IsPort(text) ==> digits == end;
    hide Step, Placed, ParseFrom, ReadTo, EndsAuthority, IsPort, IsDigit, PortFrom, FromPathStart, DigitsEnd;
    PortIsRead(c, m, u, digits);
    if digits < end {
      NoDigitStep(c, n, u);
      StepEnds(c, n, u, Failed(u));
    } else {
      PortReadWhole(c, n, u);
    }
  }

  lemma PortReadWhole(c: Context, m: Machine, u: Url)
    requires 0 <= m.index <= |c.input| && Placed(c, m) && m.state == PortState && c.override == None
    requires u.flags.isDefaultSchemePort && u.port == None && EndsAuthority(c, m.index, u.special)
    ensures ParseFrom(c, m, u) ==
              if !IsPort(m.buffer) then Failed(u)
              else FromPathStart(c, u.(port := PortFrom(u.scheme, m.buffer)), m.index)
  {
    PortEndsStep(c, m, u);
    hide Step, Placed, ParseFrom, EndsAuthority, IsPort, NormalizePort, FromPathStart, Value;
    if !IsPort(m.buffer) {
      StepEnds(c, m, u, Failed(u));
    } else {
      var ported := u.(port := PortFrom(u.scheme, m.buffer));
      assert m.buffer == "" ==> ported == u;
      StepsTo(c, m, u, m.Clear().To(PathStart), ported);
      PathStage(c, m.Clear().To(PathStart), ported);
    }
  }

  lemma HostEndsStep(c: Context, m: Machine, u: Url)
    requires 0 <= m.index <= |c.input| && Placed(c, m) && m.state == HostState && c.override == None
    requires EndsAuthority(c, m.index, u.special)
    ensures var host := HostAt(c, m.buffer, u.special, false);
            if host == None then Step(c, m, u).Done? && Step(c, m, u).url.flags.failed
            else Step(c, m, u) == Go(m.Clear().To(PathStart), u.WithHost(host))
  {
    hide ParseHost, Placed;
  }

  lemma HostColonStep(c: Context, m: Machine, u: Url)
    requires 0 <= m.index < |c.input| && Placed(c, m) && m.state == HostState && c.override == None
    requires c.input[m.index] == ':' && !m.squareBracketFlag
    ensures var host := HostAt(c, m.buffer, u.special, true);
            if host == None then Step(c, m, u).Done? && Step(c, m, u).url.flags.failed
            else Step(c, m, u) == Go(m.Clear().To(PortState).Advance(), u.WithHost(host))
  {
    hide ParseHost, Placed, EndsAuthority;
  }

  /** What can be read from the host on: its record, then the port, then the path. */
  predicate ReadsRest(c: Context, u: Url, host: Option<Host>, port: string, end: nat, r: Url)
    requires end <= |c.input|
  {
    if host.Some? && IsPort(port) then r == FromPathStart(c, u.WithHost(host).(port := PortFrom(u.scheme, port)), end)
    else r.flags.failed
  }

  /** A record whose port is not read yet. */
  predicate NoPortYet(u: Url) { u.port == None && u.flags.isDefaultSchemePort }

  lemma HostAloneStage(c: Context, m: Machine, u: Url)
    requires 0 <= m.index <= |c.input| && Placed(c, m) && m.state == HostState && c.override == None && NoPortYet(u)
    requires EndsAuthority(c, m.index, u.special)
    ensures ReadsRest(c, u, HostAt(c, m.buffer, u.special, false), "", m.index, ParseFrom(c, m, u))
  {
    var host := HostAt(c, m.buffer, u.special, false);
    var hosted := u.WithHost(host);
    assert hosted.(port := PortFrom(u.scheme, "")) == hosted;
    HostEndsStep(c, m, u);
    hide Step, Placed, ParseFrom, FromPathStart, HostAt, EndsAuthority;
    if host == None {
      StepEnds(c, m, u, Step(c, m, u).url);
    } else {
      StepsTo(c, m, u, m.Clear().To(PathStart), hosted);
      PathStage(c, m.Clear().To(PathStart), hosted);
    }
  }

  lemma HostAndPortStage(c: Context, m: Machine, u: Url, end: nat)
    requires 0 <= m.index < end <= |c.input| && Placed(c, m) && m.state == HostState && c.override == None
             && NoPortYet(u)
    requires c.input[m.index] == ':' && !m.squareBracketFlag && EndsAuthority(c, end, u.special)
    requires forall k :: m.index <= k < end ==> !EndsAuthority(c, k, u.special)
    ensures ReadsRest(c, u, HostAt(c, m.buffer, u.special, true), c.input[m.index + 1..end], end, ParseFrom(c, m, u))
  {
    hide Step, Placed, ParseFrom, IsPort, PortFrom, FromPathStart, HostAt, EndsAuthority;
    var host := HostAt(c, m.buffer, u.special, true);
    var hosted, next := u.WithHost(host), m.Clear().To(PortState).Advance();
    HostColonStep(c, m, u);
    if host == None {
      StepEnds(c, m, u, Step(c, m, u).url);
    } else {
      StepsTo(c, m, u, next, hosted);
      PortStage(c, next, hosted, end);
    }
  }

  lemma HostReadFromEmpty(m: Machine, s: string, end: nat)
    requires 0 <= m.index <= end <= |s| && m.buffer == ""
    ensures ReadHostTo(m, s, end).buffer == s[m.index..end]
    ensures ReadHostTo(m, s, end).squareBracketFlag == BracketOpen(s, m.index, end, m.squareBracketFlag)
  {
    ReadFromEmpty(m, s, end);
    hide BracketOpen;
  }

  /** The host text is read whole, then the port if there is one. */
  lemma HostStage(c: Context, m: Machine, u: Url, hostEnd: nat, end: nat)
    requires 0 <= m.index <= hostEnd <= end <= |c.input| && Placed(c, m) && c.override == None && NoPortYet(u)
    requires m.state == HostState && m.buffer == "" && !m.squareBracketFlag
             && HostText(c, m.index, hostEnd, u.special, false)
    requires hostEnd < end ==> c.input[hostEnd] == ':' && !BracketOpen(c.input, m.index, hostEnd, false)
    requires EndsAuthority(c, end, u.special)
    requires forall k :: m.index <= k < end ==> !EndsAuthority(c, k, u.special)
    ensures ReadsRest(c, u, HostAt(c, c.input[m.index..hostEnd], u.special, hostEnd < end),
                      PortBetween(c.input, hostEnd, end), end, ParseFrom(c, m, u))
  {
    hide Step, Placed, ParseFrom, ReadHostTo, ReadsRest, BracketOpen, HostText, HostAt, EndsAuthority;
    var n := ReadHostTo(m, c.input, hostEnd);
    HostReadFromEmpty(m, c.input, hostEnd);
    HostIsRead(c, m, u, hostEnd);
    if hostEnd == end {
      HostAloneStage(c, n, u);
    } else {
      HostAndPortStage(c, n, u, end);
    }
  }

  /** An authority, from its start: the parse fails if a part is missing or no good; else the record
      has each part from its place, and the path comes after them. */
  lemma AuthorityIsRead(c: Context, p: Parts, scheme: string)
    requires c.Valid() && c.override == None && p.Fits(c) && p.special == IsSpecial(scheme)
    ensures var m, u := At(Authority, p.start), BLANK.(scheme := scheme, special := p.special);
            && Placed(c, m)
            && if p.Sound(c) then ParseFrom(c, m, u) == FromPathStart(c, p.Record(c, scheme), p.portEnd)
               else ParseFrom(c, m, u).flags.failed
  {
    var m, u := At(Authority, p.start), BLANK.(scheme := scheme, special := p.special);
    var owned := u.(owner := p.OwnerOf(c));
    assert Placed(c, m);
    hide Step, ParseFrom, Placed, IsSpecial, EndsAuthority, BracketOpen, HostText, Credentials, HostAt, AtsEscaped,
         FromPathStart, IsPort, PortFrom;
    OwnerStage(c, p, u);
    if p.at.Some? ==> p.HostStart() < p.portEnd {
      HostStage(c, AtHost(c, p), owned, p.hostEnd, p.portEnd);
    }
  }

  // ---- the parts of a text ------------------------------------------------------------------------

  function AuthorityEnd(c: Context, i: nat, special: bool): (e: nat)
    requires i <= |c.input|
    ensures i <= e <= |c.input| && EndsAuthority(c, e, special)
    ensures forall k :: i <= k < e ==> !EndsAuthority(c, k, special)
    decreases |c.input| - i
  {
    if EndsAuthority(c, i, special) then i else AuthorityEnd(c, i + 1, special)
  }

  function LastAt(s: string, i: nat, end: nat): (at: Option<nat>)
    requires i <= end <= |s|
    ensures at.Some? ==> i <= at.value < end && s[at.value] == '@'
    ensures forall k :: (if at.Some? then at.value + 1 else i) <= k < end ==> s[k] != '@'
  {
    if i == end then None else if s[end - 1] == '@' then Some(end - 1) else LastAt(s, i, end - 1)
  }

  /** The first colon from `i` on that is not inside of brackets, if there is one before `end`. */
  function HostEnd(s: string, i: nat, end: nat, open: bool): (e: nat)
    requires i <= end <= |s|
    ensures i <= e <= end && (e < end ==> s[e] == ':' && !BracketOpen(s, i, e, open))
    decreases end - i
  {
    if i == end || (s[i] == ':' && !open) then i else HostEnd(s, i + 1, end, s[i] == '[' || (s[i] != ']' && open))
  }

  lemma {:induction false} HostEndIsHost(c: Context, i: nat, end: nat, special: bool, open: bool)
    requires i <= end <= |c.input| && forall k :: i <= k < end ==> !EndsAuthority(c, k, special)
    ensures HostText(c, i, HostEnd(c.input, i, end, open), special, open)
    decreases end - i
  {
    hide EndsAuthority;
    if i < end && !(c.input[i] == ':' && !open) {
      HostEndIsHost(c, i + 1, end, special, c.input[i] == '[' || (c.input[i] != ']' && open));
    }
  }

  /** Every text has its parts from each place on. */
  function PartsFrom(c: Context, start: nat, special: bool): (p: Parts)
    requires start <= |c.input|
    ensures p.Fits(c) && p.start == start && p.special == special
  {
    var portEnd := AuthorityEnd(c, start, special);
    var at := LastAt(c.input, start, portEnd);
    var hostStart := if at.Some? then at.value + 1 else start;
    HostEndIsHost(c, hostStart, portEnd, special, false);
    Parts(special, start, at, HostEnd(c.input, hostStart, portEnd, false), portEnd)
  }
}
