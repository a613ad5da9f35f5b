/** basicURLParse of lib/whatwg/url/parser.js: one function for what its loop does in each state,
    and the loop. */
module UrlParser {
  import opened Wrappers
  import opened Digits
  import opened UrlRecord

  datatype State =
    | SchemeStart | Scheme | NoScheme | SpecialRelativeOrAuthority | PathOrAuthority | Relative | RelativeSlash
    | SpecialAuthoritySlashes | SpecialAuthorityIgnoreSlashes | Authority | HostState | Hostname | PortState
    | File | FileSlash | FileHost | PathStart | Path | CannotBeBase | Query | Fragment

  /** The state overrides that the module exports. */
  predicate Exported(s: State) {
    s.SchemeStart? || s.Authority? || s.HostState? || s.Hostname? || s.PortState? || s.PathStart? || s.Fragment?
  }

  /** What does not change during a parse. */
  datatype Context = Context(input: string, base: Option<Url>, override: Option<State>, upper: map<char, string>) {
    predicate Valid() {
      && (override.Some? ==> Exported(override.value))
      && (base.Some? && IsFile(base.value.scheme) ==> base.value.path != [])
    }

    predicate At(i: int, c: char) { 0 <= i < |input| && input[i] == c }

    predicate Ended(i: int) { i >= |input| }
  }

  /** The variables of the loop, but for the record it fills. */
  datatype Machine = Machine(
    state: State,
    index: int,
    buffer: string,
    atFlag: bool,
    squareBracketFlag: bool,
    passwordTokenSeenFlag: bool)
  {
    function To(next: State): Machine { this.(state := next) }

    /** The end of an iteration. */
    function Advance(): Machine { this.(index := index + 1) }

    function Clear(): Machine { this.(buffer := "") }

    function Append(c: char): Machine { this.(buffer := buffer + [c]) }
  }

  /** What one iteration comes to: another, or the record to return. */
  datatype Next = Go(m: Machine, u: Url) | Done(url: Url)

  function Fails(u: Url): Next { Done(u.(flags := u.flags.(failed := true))) }

  function Terminates(u: Url): Next { Done(u.(flags := u.flags.(terminated := true))) }

  /** The start of a path, query or fragment, or the end. */
  predicate EndsAuthority(c: Context, i: int, special: bool) {
    c.Ended(i) || c.At(i, '/') || c.At(i, '?') || c.At(i, '#') || (special && c.At(i, '\\'))
  }

  predicate IsSlash(c: Context, i: int) { c.At(i, '/') || c.At(i, '\\') }

  // ---- the scheme ------------------------------------------------------------------------

  function StepSchemeStart(c: Context, m: Machine, u: Url): Next
    requires 0 <= m.index <= |c.input|
  {
    if !c.Ended(m.index) && IsAlpha(c.input[m.index]) then
      Go(m.Append(Lower(c.input[m.index])).To(Scheme).Advance(), u)
    else if c.override == None then Go(m.To(NoScheme), u)
    else Fails(u)
  }

  predicate IsSchemeChar(c: char) { IsAlpha(c) || IsDigit(c) || c == '+' || c == '-' || c == '.' }

  /** Where a parse goes from a scheme; after one that is not special, a slash is taken too. */
  function AfterScheme(c: Context, m: Machine, u: Url): Next {
    if IsFile(u.scheme) then Go(m.To(File).Advance(), u)
    else if u.special && c.base.Some? && u.scheme == c.base.value.scheme then
      Go(m.To(SpecialRelativeOrAuthority).Advance(), u)
    else if u.special then Go(m.To(SpecialAuthoritySlashes).Advance(), u)
    else if c.At(m.index + 1, '/') then Go(m.To(PathOrAuthority).Advance().Advance(), u)
    else Go(m.To(CannotBeBase).Advance(), u.(cannotBeBase := true, path := u.path + [""]))
  }

  function WithScheme(u: Url, scheme: string): Url {
    u.(scheme := scheme, port := NormalizePort(scheme, u.port), special := IsSpecial(scheme))
  }

  function StepScheme(c: Context, m: Machine, u: Url): Next
    requires 0 <= m.index <= |c.input|
  {
    if !c.Ended(m.index) && IsSchemeChar(c.input[m.index]) then Go(m.Append(Lower(c.input[m.index])).Advance(), u)
    else if c.At(m.index, ':') || (c.override.Some? && c.Ended(m.index)) then
      var scheme := m.buffer + ":";
      if c.override == None then AfterScheme(c, m.Clear(), WithScheme(u, scheme))
      else if m.buffer == "" || u.special != IsSpecial(scheme)
              || (IsFile(scheme) && (u.flags.hasUsername || u.flags.hasPassword || u.port.Some?))
      then Terminates(u)
      else Done(WithScheme(u, scheme))
    else if c.override == None then Go(m.(index := 0).Clear().To(NoScheme), u)
    else Fails(u)
  }

  function StepNoScheme(c: Context, m: Machine, u: Url): Next {
    if c.base == None then Fails(u)
    else
      var base := c.base.value;
      if base.cannotBeBase then
        if !c.At(m.index, '#') then Fails(u)
        else
          Go(m.To(Fragment).Advance(),
             u.(scheme := base.scheme, path := base.path, query := base.query, fragment := Some(""),
                cannotBeBase := true, special := IsSpecial(base.scheme)))
      else if !IsFile(base.scheme) then Go(m.To(Relative), u)
      else Go(m.To(File), u.(scheme := "file:", special := true))
  }

  // ---- relative texts --------------------------------------------------------------------

  function StepSpecialRelativeOrAuthority(c: Context, m: Machine, u: Url): Next {
    if c.At(m.index, '/') && c.At(m.index + 1, '/') then Go(m.To(SpecialAuthorityIgnoreSlashes).Advance().Advance(), u)
    else Go(m.To(Relative), u)
  }

  /** A character that is not a slash is dropped. */
  function StepPathOrAuthority(c: Context, m: Machine, u: Url): Next {
    Go(m.To(if c.At(m.index, '/') then Authority else Path).Advance(), u)
  }

  function TakeAuthority(u: Url, base: Url): Url {
    u.(owner := base.owner, port := base.port)
  }

  /** A relative text that does not start with a slash. */
  function FromBase(c: Context, m: Machine, u: Url, base: Url): Next {
    var taken := TakeAuthority(u, base).(path := base.path);
    if c.Ended(m.index) then Go(m.Advance(), taken.(query := base.query))
    else if c.At(m.index, '?') then Go(m.To(Query).Advance(), taken.(query := Some("")))
    else if c.At(m.index, '#') then Go(m.To(Fragment).Advance(), taken.(query := base.query, fragment := Some("")))
    else Go(m.To(Path), taken.(path := if base.path == [] then [] else base.path[..|base.path| - 1]))
  }

  function StepRelative(c: Context, m: Machine, u: Url): Next
    requires c.base.Some?
  {
    var here := u.(scheme := c.base.value.scheme, special := IsSpecial(c.base.value.scheme));
    if c.At(m.index, '/') || (u.special && c.At(m.index, '\\')) then Go(m.To(RelativeSlash).Advance(), here)
    else FromBase(c, m, here, c.base.value)
  }

  function StepRelativeSlash(c: Context, m: Machine, u: Url): Next
    requires c.base.Some?
  {
    if IsSpecial(u.scheme) && IsSlash(c, m.index) then Go(m.To(SpecialAuthorityIgnoreSlashes).Advance(), u)
    else if c.At(m.index, '/') then Go(m.To(Authority).Advance(), u)
    else Go(m.To(Path), TakeAuthority(u, c.base.value))
  }

  function StepSpecialAuthoritySlashes(c: Context, m: Machine, u: Url): Next {
    var next := m.To(SpecialAuthorityIgnoreSlashes);
    Go(if c.At(m.index, '/') && c.At(m.index + 1, '/') then next.Advance().Advance() else next, u)
  }

  function StepSpecialAuthorityIgnoreSlashes(c: Context, m: Machine, u: Url): Next {
    Go(if IsSlash(c, m.index) then m.Advance() else m.To(Authority), u)
  }

  // ---- authority, host and port ------------------------------------------------------------

  /** The inner loop at an '@': the buffer goes to the user name, and after a first colon to the
      password. */
  function Credentials(text: string, o: Owner, passwordSeen: bool): (Owner, bool)
    decreases |text|
  {
    if text == "" then (o, passwordSeen)
    else if text[0] == ':' && !passwordSeen then Credentials(text[1..], o, true)
    else if passwordSeen then
      Credentials(text[1..], o.(password := AppendOrEscape(o.password, text[0], UserInfo)), true)
    else Credentials(text[1..], o.(username := AppendOrEscape(o.username, text[0], UserInfo)), false)
  }

  /** At the end of the authority the index goes back by what was read after the last '@', to read
      it as the host. */
  function StepAuthority(c: Context, m: Machine, u: Url): Next
    requires 0 <= m.index <= |c.input|
  {
    if c.At(m.index, '@') then
      var text := if m.atFlag then "%40" + m.buffer else m.buffer;
      var (owner, seen) := Credentials(text, u.owner, m.passwordTokenSeenFlag);
      Go(m.(passwordTokenSeenFlag := seen, atFlag := true).Clear().Advance(), u.(owner := owner))
    else if EndsAuthority(c, m.index, u.special) then
      if m.atFlag && m.buffer == "" then Fails(u)
      else Go(m.(index := m.index - (|m.buffer| + 1)).Clear().To(HostState).Advance(), u)
    else Go(m.Append(c.input[m.index]).Advance(), u)
  }

  function StepHost(c: Context, m: Machine, u: Url): Next
    requires 0 <= m.index <= |c.input|
  {
    var host := ParseHost(m.buffer, u.special, c.upper);
    var hosted := u.WithHost(host);
    if c.override.Some? && IsFile(u.scheme) then Go(m.To(FileHost), u)
    else if c.At(m.index, ':') && !m.squareBracketFlag then
      if m.buffer == "" then Fails(u)
      else if host == None then Fails(hosted)
      else if c.override == Some(Hostname) then Done(hosted)
      else Go(m.Clear().To(PortState).Advance(), hosted)
    else if EndsAuthority(c, m.index, u.special) then
      if u.special && m.buffer == "" then Fails(u)
      else if c.override.Some? && m.buffer == ""
              && (u.owner.username != "" || u.owner.password != "" || u.port.Some?)
      then Terminates(u)
      else if host == None then Fails(hosted)
      else if c.override.Some? then Done(hosted)
      else Go(m.(index := m.index - 1).Clear().To(PathStart).Advance(), hosted)
    else
      var ch := c.input[m.index];
      Go(m.(squareBracketFlag := ch == '[' || (ch != ']' && m.squareBracketFlag)).Append(ch).Advance(), u)
  }

  function StepPort(c: Context, m: Machine, u: Url): Next
    requires 0 <= m.index <= |c.input| && AllDigits(m.buffer)
  {
    if !c.Ended(m.index) && IsDigit(c.input[m.index]) then Go(m.Append(c.input[m.index]).Advance(), u)
    else if c.override.Some? || EndsAuthority(c, m.index, u.special) then
      if m.buffer != "" then
        var port := Value(m.buffer, 10);
        if port > 0xFFFF then
          if c.override == Some(HostState) then Done(u.(port := None)) else Fails(u)
        else
          var normalized := NormalizePort(u.scheme, Some(port));
          Go(m.Clear().To(PathStart),
             u.(port := normalized,
                flags := u.flags.(isDefaultSchemePort := u.flags.isDefaultSchemePort || normalized == None)))
      else if c.override.Some? then
        if c.override == Some(HostState) then Done(u.(port := None)) else Terminates(u)
      else Go(m.To(PathStart), u)
    else Fails(u)
  }

  // ---- files -----------------------------------------------------------------------------

  /** A file text that does not start with a slash, against a file base. */
  function FromFileBase(c: Context, m: Machine, u: Url, base: Url): Next
    requires 0 <= m.index <= |c.input|
  {
    var taken := u.WithHost(base.owner.host).(path := base.path);
    if c.Ended(m.index) then Go(m.Advance(), taken.(query := base.query))
    else if c.At(m.index, '?') then Go(m.To(Query).Advance(), taken.(query := Some("")))
    else if c.At(m.index, '#') then Go(m.To(Fragment).Advance(), taken.(query := base.query, fragment := Some("")))
    else
      Go(m.To(Path),
         if StartsWithDriveLetter(c.input[m.index..]) then u else taken.(path := ShortenPath("file:", base.path)))
  }

  function StepFile(c: Context, m: Machine, u: Url): Next
    requires 0 <= m.index <= |c.input|
  {
    var here := u.(scheme := "file:");
    if IsSlash(c, m.index) then Go(m.To(FileSlash).Advance(), here)
    else if c.base.Some? && IsFile(c.base.value.scheme) then FromFileBase(c, m, here, c.base.value)
    else Go(m.To(Path), here)
  }

  function StepFileSlash(c: Context, m: Machine, u: Url): Next
    requires 0 <= m.index <= |c.input|
    requires c.base.Some? && IsFile(c.base.value.scheme) ==> c.base.value.path != []
  {
    if IsSlash(c, m.index) then Go(m.To(FileHost).Advance(), u)
    else
      Go(m.To(Path),
         if c.base == None || !IsFile(c.base.value.scheme) || StartsWithDriveLetter(c.input[m.index..]) then u
         else if IsNormalizedDriveLetter(c.base.value.path[0]) then u.(path := u.path + [c.base.value.path[0]])
         else u.WithHost(c.base.value.owner.host))
  }

  function StepFileHost(c: Context, m: Machine, u: Url): Next
    requires 0 <= m.index <= |c.input|
  {
    if !c.Ended(m.index) && !IsSlash(c, m.index) && !c.At(m.index, '?') && !c.At(m.index, '#') then
      Go(m.Append(c.input[m.index]).Advance(), u)
    else if c.override == None && |m.buffer| == 2 && IsDriveLetter(m.buffer) then Go(m.To(Path), u)
    else if m.buffer == "" then
      var hosted := u.WithHost(Some(Name("")));
      if c.override.Some? then Done(hosted) else Go(m.To(PathStart), hosted)
    else
      var host := ParseHost(m.buffer, u.special, c.upper);
      var hosted := u.WithHost(if host == Some(Name("localhost")) then Some(Name("")) else host);
      if host == None then Fails(u)
      else if c.override.Some? then Done(hosted)
      else Go(m.Clear().To(PathStart), hosted)
  }

  // ---- path, query and fragment ------------------------------------------------------------

  function StepPathStart(c: Context, m: Machine, u: Url): Next {
    if IsSpecial(u.scheme) then Go(if IsSlash(c, m.index) then m.To(Path).Advance() else m.To(Path), u)
    else if c.override == None && c.At(m.index, '?') then Go(m.To(Query).Advance(), u.(query := Some("")))
    else if c.override == None && c.At(m.index, '#') then Go(m.To(Fragment).Advance(), u.(fragment := Some("")))
    else if c.Ended(m.index) then Go(m.Advance(), u)
    else Go(if c.At(m.index, '/') then m.To(Path).Advance() else m.To(Path), u)
  }

  /** A segment is complete; `more` says that a slash ends it, so that another follows. */
  function TakeSegment(u: Url, segment: string, more: bool): Url {
    if IsDoubleDot(segment) then
      var path := ShortenPath(u.scheme, u.path);
      u.(path := if more then path else path + [""])
    else if IsSingleDot(segment) then (if more then u else u.(path := u.path + [""]))
    else if IsFile(u.scheme) && u.path == [] && |segment| == 2 && IsDriveLetter(segment) then
      u.WithHost(if Truthy(u.owner.host) then Some(Name("")) else u.owner.host).(path := [[segment[0]] + ":"])
    else u.(path := u.path + [segment])
  }

  /** A file path loses its first segments that are empty when it is complete. */
  function Trim(u: Url, ends: bool): Url {
    if IsFile(u.scheme) && ends then u.(path := DropEmpty(u.path)) else u
  }

  function AfterSegment(c: Context, m: Machine, u: Url): Next {
    if c.At(m.index, '?') then Go(m.Clear().To(Query).Advance(), u.(query := Some("")))
    else if c.At(m.index, '#') then Go(m.Clear().To(Fragment).Advance(), u.(fragment := Some("")))
    else Go(m.Clear().Advance(), u)
  }

  function StepPath(c: Context, m: Machine, u: Url): Next
    requires 0 <= m.index <= |c.input|
  {
    var more := c.At(m.index, '/') || (u.special && c.At(m.index, '\\'));
    var ends := c.Ended(m.index) || c.At(m.index, '?') || c.At(m.index, '#');
    if more || c.Ended(m.index) || (c.override == None && ends) then
      AfterSegment(c, m, Trim(TakeSegment(u, m.buffer, more), ends))
    else Go(m.(buffer := AppendOrEscape(m.buffer, c.input[m.index], PathSet)).Advance(), u)
  }

  function StepCannotBeBase(c: Context, m: Machine, u: Url): Next
    requires 0 <= m.index <= |c.input|
  {
    if c.At(m.index, '?') then Go(m.To(Query).Advance(), u)
    else if c.At(m.index, '#') then Go(m.To(Fragment).Advance(), u)
    else
      var path := if u.path == [] then [""] else u.path;
      var appended :=
        if c.Ended(m.index) then path else path[0 := AppendOrEscape(path[0], c.input[m.index], C0Control)];
      Go(m.Advance(), u.(path := appended))
  }

  function StepQuery(c: Context, m: Machine, u: Url): Next
    requires 0 <= m.index <= |c.input|
  {
    if c.Ended(m.index) || (c.override == None && c.At(m.index, '#')) then
      Go(m.Clear().To(if c.At(m.index, '#') then Fragment else Query).Advance(), u.(query := Some(m.buffer)))
    else Go(m.(buffer := AppendOrEscape(m.buffer, c.input[m.index], QuerySet)).Advance(), u)
  }

  function StepFragment(c: Context, m: Machine, u: Url): Next
    requires 0 <= m.index <= |c.input|
  {
    if c.Ended(m.index) then Go(m.Advance(), u.(fragment := Some(m.buffer)))
    else Go(m.(buffer := AppendOrEscape(m.buffer, c.input[m.index], FragmentSet)).Advance(), u)
  }

  // ---- the loop --------------------------------------------------------------------------

  /** What an iteration relies on: it never reads a base that is not there, nor a port that is not
      digits, and never steps back past the start. */
  predicate PlacedAt(c: Context, state: State, index: int, buffer: string) {
    && (state.SpecialRelativeOrAuthority? || state.Relative? || state.RelativeSlash? ==> c.base.Some?)
    && (state.PortState? ==> AllDigits(buffer))
    && (state.Authority? ==>
          |buffer| <= index <= |c.input| + 1 && '@' !in buffer
          && (index <= |c.input| ==> buffer == c.input[index - |buffer|..index]))
    && (BeforeAuthority(state) ==> buffer == "")
  }

  predicate Placed(c: Context, m: Machine) { c.Valid() && PlacedAt(c, m.state, m.index, m.buffer) }

  predicate BeforeAuthority(s: State) {
    s.SchemeStart? || s.NoScheme? || s.SpecialRelativeOrAuthority? || s.PathOrAuthority? || s.Relative?
    || s.RelativeSlash? || s.SpecialAuthoritySlashes? || s.SpecialAuthorityIgnoreSlashes?
  }

  function Step(c: Context, m: Machine, u: Url): Next
    requires 0 <= m.index <= |c.input| && Placed(c, m)
  {
    match m.state
    case SchemeStart => StepSchemeStart(c, m, u)
    case Scheme => StepScheme(c, m, u)
    case NoScheme => StepNoScheme(c, m, u)
    case SpecialRelativeOrAuthority => StepSpecialRelativeOrAuthority(c, m, u)
    case PathOrAuthority => StepPathOrAuthority(c, m, u)
    case Relative => StepRelative(c, m, u)
    case RelativeSlash => StepRelativeSlash(c, m, u)
    case SpecialAuthoritySlashes => StepSpecialAuthoritySlashes(c, m, u)
    case SpecialAuthorityIgnoreSlashes => StepSpecialAuthorityIgnoreSlashes(c, m, u)
    case Authority => StepAuthority(c, m, u)
    case HostState => StepHost(c, m, u)
    case Hostname => StepHost(c, m, u)
    case PortState => StepPort(c, m, u)
    case File => StepFile(c, m, u)
    case FileSlash => StepFileSlash(c, m, u)
    case FileHost => StepFileHost(c, m, u)
    case PathStart => StepPathStart(c, m, u)
    case Path => StepPath(c, m, u)
    case CannotBeBase => StepCannotBeBase(c, m, u)
    case Query => StepQuery(c, m, u)
    case Fragment => StepFragment(c, m, u)
  }

  /** State changes go down. */
  function Rank(s: State): nat {
    match s
    case SchemeStart => 20
    case Scheme => 19
    case NoScheme => 18
    case SpecialRelativeOrAuthority => 17
    case PathOrAuthority => 16
    case Relative => 15
    case RelativeSlash => 14
    case SpecialAuthoritySlashes => 13
    case SpecialAuthorityIgnoreSlashes => 12
    case Authority => 11
    case HostState => 10
    case Hostname => 10
    case File => 9
    case FileSlash => 8
    case FileHost => 7
    case PortState => 6
    case PathStart => 5
    case Path => 4
    case CannotBeBase => 3
    case Query => 2
    case Fragment => 1
  }
}
