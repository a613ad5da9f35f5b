/** basicURLParse ends on every input, stays within it, and returns good records. */
module UrlSafety {
  import opened Wrappers
  import opened Digits
  import opened UrlRecord
  import opened UrlParser

  // ---- the loop ends ---------------------------------------------------------------------

  /** The state goes down, or stays and the index goes up. */
  ghost predicate Descends(c: Context, state: State, index: int, next: State, nextIndex: int) {
    0 <= nextIndex <= |c.input| + 1 && (Rank(next) < Rank(state) || (next == state && nextIndex > index))
  }

  ghost predicate Progresses(c: Context, m: Machine, r: Next) {
    r.Go? ==> Descends(c, m.state, m.index, r.m.state, r.m.index) && Placed(c, r.m)
  }

  ghost predicate In(c: Context, m: Machine, s: State) { 0 <= m.index <= |c.input| && Placed(c, m) && m.state == s }

  lemma SchemeStartProgresses(c: Context, m: Machine, u: Url)
    requires In(c, m, SchemeStart)
    ensures Progresses(c, m, StepSchemeStart(c, m, u))
  {}

  lemma AfterSchemeProgresses(c: Context, m: Machine, u: Url)
    requires In(c, m, Scheme)
    ensures Progresses(c, m, AfterScheme(c, m.Clear(), u))
  {
    hide IsSpecial;
  }

  lemma SchemeProgresses(c: Context, m: Machine, u: Url)
    requires In(c, m, Scheme)
    ensures Progresses(c, m, StepScheme(c, m, u))
  {
    hide NormalizePort, DefaultPort, WithScheme, AfterScheme;
    if c.override == None { AfterSchemeProgresses(c, m, WithScheme(u, m.buffer + ":")); }
  }

  lemma NoSchemeProgresses(c: Context, m: Machine, u: Url)
    requires In(c, m, NoScheme)
    ensures Progresses(c, m, StepNoScheme(c, m, u))
  {
    hide DefaultPort;
  }

  lemma SpecialRelativeOrAuthorityProgresses(c: Context, m: Machine, u: Url)
    requires In(c, m, SpecialRelativeOrAuthority)
    ensures Progresses(c, m, StepSpecialRelativeOrAuthority(c, m, u))
  {}

  lemma PathOrAuthorityProgresses(c: Context, m: Machine, u: Url)
    requires In(c, m, PathOrAuthority)
    ensures Progresses(c, m, StepPathOrAuthority(c, m, u))
  {}

  lemma RelativeProgresses(c: Context, m: Machine, u: Url)
    requires In(c, m, Relative)
    ensures Progresses(c, m, StepRelative(c, m, u))
  {
    hide FromBase, IsSpecial;
    var base := c.base.value;
    FromBaseProgresses(c, m, u.(scheme := base.scheme, special := IsSpecial(base.scheme)), base);
  }

  lemma FromBaseProgresses(c: Context, m: Machine, u: Url, base: Url)
    requires In(c, m, Relative)
    ensures Progresses(c, m, FromBase(c, m, u, base))
  {
    hide TakeAuthority, Context.At;
  }

  lemma RelativeSlashProgresses(c: Context, m: Machine, u: Url)
    requires In(c, m, RelativeSlash)
    ensures Progresses(c, m, StepRelativeSlash(c, m, u))
  {
    hide DefaultPort;
  }

  lemma SpecialAuthoritySlashesProgresses(c: Context, m: Machine, u: Url)
    requires In(c, m, SpecialAuthoritySlashes)
    ensures Progresses(c, m, StepSpecialAuthoritySlashes(c, m, u))
  {}

  lemma SpecialAuthorityIgnoreSlashesProgresses(c: Context, m: Machine, u: Url)
    requires In(c, m, SpecialAuthorityIgnoreSlashes)
    ensures Progresses(c, m, StepSpecialAuthorityIgnoreSlashes(c, m, u))
  {}

  lemma BufferGrows(c: Context, index: nat, buffer: string)
    requires index < |c.input| && PlacedAt(c, Authority, index, buffer) && c.input[index] != '@'
    ensures PlacedAt(c, Authority, index + 1, buffer + [c.input[index]])
  {
    assert buffer + [c.input[index]] == c.input[index - |buffer|..index + 1];
  }

  lemma BufferIsEmpty(c: Context, index: nat)
    requires index <= |c.input| + 1
    ensures PlacedAt(c, Authority, index, "")
  {}

  lemma BufferFits(c: Context, index: int, buffer: string)
    requires PlacedAt(c, Authority, index, buffer)
    ensures |buffer| <= index
  {}

  lemma EndsWhenEnded(c: Context, i: int, special: bool)
    ensures c.Ended(i) ==> EndsAuthority(c, i, special)
  {}

  lemma Lands(c: Context, m: Machine, r: Next)
    requires c.Valid() && (r.Go? ==> Descends(c, m.state, m.index, r.m.state, r.m.index))
    requires r.Go? ==> PlacedAt(c, r.m.state, r.m.index, r.m.buffer)
    ensures Progresses(c, m, r)
  {}

  lemma HostIsPlaced(c: Context, index: int, buffer: string)
    ensures PlacedAt(c, HostState, index, buffer)
  {}

  /** The rewind goes to the character after the last '@', or to where the authority starts. */
  lemma AuthorityProgresses(c: Context, m: Machine, u: Url)
    requires In(c, m, Authority)
    ensures Progresses(c, m, StepAuthority(c, m, u))
  {
    hide Credentials, EndsAuthority, PlacedAt, Progresses;
    if c.At(m.index, '@') {
      BufferIsEmpty(c, m.index + 1);
      Lands(c, m, StepAuthority(c, m, u));
    } else if EndsAuthority(c, m.index, u.special) {
      BufferFits(c, m.index, m.buffer);
      HostIsPlaced(c, m.index - |m.buffer|, "");
      Lands(c, m, StepAuthority(c, m, u));
    } else {
      EndsWhenEnded(c, m.index, u.special);
      BufferGrows(c, m.index, m.buffer);
      Lands(c, m, StepAuthority(c, m, u));
    }
  }

  lemma HostStateProgresses(c: Context, m: Machine, u: Url)
    requires In(c, m, HostState)
    ensures Progresses(c, m, StepHost(c, m, u))
  {
    hide ParseHost;
  }

  lemma HostnameProgresses(c: Context, m: Machine, u: Url)
    requires In(c, m, Hostname)
    ensures Progresses(c, m, StepHost(c, m, u))
  {
    hide ParseHost;
  }

  lemma PortStateProgresses(c: Context, m: Machine, u: Url)
    requires In(c, m, PortState)
    ensures Progresses(c, m, StepPort(c, m, u))
  {
    hide NormalizePort, Value;
  }

  lemma FileProgresses(c: Context, m: Machine, u: Url)
    requires In(c, m, File)
    ensures Progresses(c, m, StepFile(c, m, u))
  {
    hide FromFileBase, Context.At;
    if c.base.Some? { FromFileBaseProgresses(c, m, u.(scheme := "file:"), c.base.value); }
  }

  lemma FromFileBaseProgresses(c: Context, m: Machine, u: Url, base: Url)
    requires In(c, m, File)
    ensures Progresses(c, m, FromFileBase(c, m, u, base))
  {
    hide ShortenPath, StartsWithDriveLetter, Context.At;
  }

  lemma FileSlashProgresses(c: Context, m: Machine, u: Url)
    requires In(c, m, FileSlash)
    ensures Progresses(c, m, StepFileSlash(c, m, u))
  {
    hide StartsWithDriveLetter, IsNormalizedDriveLetter;
  }

  lemma FileHostProgresses(c: Context, m: Machine, u: Url)
    requires In(c, m, FileHost)
    ensures Progresses(c, m, StepFileHost(c, m, u))
  {
    hide ParseHost, IsDriveLetter;
  }

  lemma PathStartProgresses(c: Context, m: Machine, u: Url)
    requires In(c, m, PathStart)
    ensures Progresses(c, m, StepPathStart(c, m, u))
  {
    hide DefaultPort;
  }

  lemma PathProgresses(c: Context, m: Machine, u: Url)
    requires In(c, m, Path)
    ensures Progresses(c, m, StepPath(c, m, u))
  {
    hide TakeSegment, Trim, AppendOrEscape, Context.At;
  }

  lemma CannotBeBaseProgresses(c: Context, m: Machine, u: Url)
    requires In(c, m, CannotBeBase)
    ensures Progresses(c, m, StepCannotBeBase(c, m, u))
  {
    hide AppendOrEscape;
  }

  lemma QueryProgresses(c: Context, m: Machine, u: Url)
    requires In(c, m, Query)
    ensures Progresses(c, m, StepQuery(c, m, u))
  {
    hide AppendOrEscape;
  }

  lemma FragmentProgresses(c: Context, m: Machine, u: Url)
    requires In(c, m, Fragment)
    ensures Progresses(c, m, StepFragment(c, m, u))
  {
    hide AppendOrEscape;
  }

  lemma StepProgresses(c: Context, m: Machine, u: Url)
    requires 0 <= m.index <= |c.input| && Placed(c, m)
    ensures Progresses(c, m, Step(c, m, u))
  {
    hide Progresses, Placed, StepSchemeStart, StepScheme, StepNoScheme, StepSpecialRelativeOrAuthority,
         StepPathOrAuthority, StepRelative, StepRelativeSlash, StepSpecialAuthoritySlashes,
         StepSpecialAuthorityIgnoreSlashes, StepAuthority, StepHost, StepPort, StepFile, StepFileSlash, StepFileHost,
         StepPathStart, StepPath, StepCannotBeBase, StepQuery, StepFragment;
    match m.state
    case SchemeStart => SchemeStartProgresses(c, m, u);
    case Scheme => SchemeProgresses(c, m, u);
    case NoScheme => NoSchemeProgresses(c, m, u);
    case SpecialRelativeOrAuthority => SpecialRelativeOrAuthorityProgresses(c, m, u);
    case PathOrAuthority => PathOrAuthorityProgresses(c, m, u);
    case Relative => RelativeProgresses(c, m, u);
    case RelativeSlash => RelativeSlashProgresses(c, m, u);
    case SpecialAuthoritySlashes => SpecialAuthoritySlashesProgresses(c, m, u);
    case SpecialAuthorityIgnoreSlashes => SpecialAuthorityIgnoreSlashesProgresses(c, m, u);
    case Authority => AuthorityProgresses(c, m, u);
    case HostState => HostStateProgresses(c, m, u);
    case Hostname => HostnameProgresses(c, m, u);
    case PortState => PortStateProgresses(c, m, u);
    case File => FileProgresses(c, m, u);
    case FileSlash => FileSlashProgresses(c, m, u);
    case FileHost => FileHostProgresses(c, m, u);
    case PathStart => PathStartProgresses(c, m, u);
    case Path => PathProgresses(c, m, u);
    case CannotBeBase => CannotBeBaseProgresses(c, m, u);
    case Query => QueryProgresses(c, m, u);
    case Fragment => FragmentProgresses(c, m, u);
  }

  /** The host is read from where the last '@' of the authority leaves off: what is read again is
      what was read since, and it has no '@'. */
  lemma HostStartsAfterLastAt(c: Context, m: Machine, u: Url)
    requires In(c, m, Authority)
    ensures var r := StepAuthority(c, m, u);
            r.Go? && r.m.state.HostState? ==>
              && EndsAuthority(c, m.index, u.special) && !c.At(m.index, '@')
              && 0 <= r.m.index <= m.index && r.m.buffer == "" && r.u == u
              && c.input[r.m.index..m.index] == m.buffer && '@' !in c.input[r.m.index..m.index]
  {
    hide Credentials;
  }

  /** A text with each character of the set escaped. */
  function Escaped(s: string, set_: EncodeSet): (r: string)
    ensures |r| == |s| && forall i :: 0 <= i < |s| ==> r[i] == if InSet(s[i], set_) then '\0' else s[i]
  {
    seq(|s|, i requires 0 <= i < |s| => if InSet(s[i], set_) then '\0' else s[i])
  }

  lemma {:induction false} PasswordTakesAll(text: string, o: Owner)
    ensures Credentials(text, o, true) == (o.(password := o.password + Escaped(text, UserInfo)), true)
    decreases |text|
  {
    if text == "" {
      assert o.password + "" == o.password;
    } else {
      var p := o.(password := AppendOrEscape(o.password, text[0], UserInfo));
      PasswordTakesAll(text[1..], p);
      EscapedFirst(text, o.password);
    }
  }

  lemma EscapedFirst(text: string, before: string)
    requires text != ""
    ensures AppendOrEscape(before, text[0], UserInfo) + Escaped(text[1..], UserInfo) == before + Escaped(text, UserInfo)
  {}

  /** What stands before an '@' is the user name up to the first colon and the password after it,
      each escaped. */
  lemma {:induction false} CredentialsSplit(user: string, password: string, o: Owner)
    requires ':' !in user
    ensures Credentials(user, o, false) == (o.(username := o.username + Escaped(user, UserInfo)), false)
    ensures Credentials(user + ":" + password, o, false) ==
              (o.(username := o.username + Escaped(user, UserInfo),
                  password := o.password + Escaped(password, UserInfo)),
               true)
    decreases |user|
  {
    var text := user + ":" + password;
    if user == "" {
      assert text[1..] == password && o.username + "" == o.username;
      PasswordTakesAll(password, o);
    } else {
      var p := o.(username := AppendOrEscape(o.username, user[0], UserInfo));
      assert text[1..] == user[1..] + ":" + password && text[0] == user[0] && user[0] in user;
      CredentialsSplit(user[1..], password, p);
      EscapedFirst(user, o.username);
    }
  }

  // ---- good records ----------------------------------------------------------------------

  ghost predicate SoundFields(scheme: string, port: Option<nat>, special: bool, cannotBeBase: bool, path: seq<string>) {
    && GoodPort(scheme, port)
    && (special <==> IsSpecial(scheme))
    && (cannotBeBase ==> !IsSpecial(scheme))
    && (!cannotBeBase ==> NoDots(path))
  }

  ghost predicate Sound(u: Url) { SoundFields(u.scheme, u.port, u.special, u.cannotBeBase, u.path) }

  /** The base that relative texts are taken against. */
  ghost predicate PlainBase(c: Context) {
    c.base.Some? && !c.base.value.cannotBeBase && !IsFile(c.base.value.scheme)
  }

  /** Before the path, the record has no port yet. */
  predicate Fresh(u: Url) { u.port == None && !u.cannotBeBase }

  predicate FileHasPath(u: Url) { IsFile(u.scheme) ==> u.path != [] }

  ghost predicate Here(c: Context, state: State, u: Url) {
    match state
    case Hostname => false
    case SpecialRelativeOrAuthority => Fresh(u) && PlainBase(c)
    case Relative => Fresh(u) && PlainBase(c)
    case RelativeSlash => Fresh(u) && PlainBase(c) && u.scheme == c.base.value.scheme
    case PathOrAuthority => Fresh(u) && !IsSpecial(u.scheme)
    case File => Fresh(u) && IsFile(u.scheme)
    case FileSlash => Fresh(u) && IsFile(u.scheme)
    case FileHost => Fresh(u) && IsFile(u.scheme)
    case PathStart => true
    case Path => true
    case CannotBeBase => u.cannotBeBase
    case Query => FileHasPath(u)
    case Fragment => FileHasPath(u)
    case _ => Fresh(u)
  }

  /** What a parse without a state override keeps of the record. */
  ghost predicate SoFar(c: Context, state: State, index: int, u: Url) {
    Sound(u) && if index > |c.input| then FileHasPath(u) else Here(c, state, u)
  }

  /** From the path on little is asked of a record. */
  lemma LateIsSoFar(c: Context, state: State, index: int, u: Url)
    requires Sound(u)
    requires if index > |c.input| then FileHasPath(u)
             else state.Path? || state.PathStart? || ((state.Query? || state.Fragment?) && FileHasPath(u))
    ensures SoFar(c, state, index, u)
  {}

  ghost predicate Inside(c: Context, m: Machine, u: Url, s: State) {
    In(c, m, s) && c.override == None && (c.base.Some? ==> Good(c.base.value)) && SoFar(c, s, m.index, u)
  }

  ghost predicate Keeps(c: Context, r: Next) {
    match r
    case Go(m, u) => SoFar(c, m.state, m.index, u)
    case Done(u) => u.flags.failed
  }

  lemma SchemeStartKeeps(c: Context, m: Machine, u: Url)
    requires Inside(c, m, u, SchemeStart)
    ensures Keeps(c, StepSchemeStart(c, m, u))
  {
    hide Sound, Placed, Good;
  }

  lemma WithSchemeIsSound(u: Url, scheme: string)
    requires Sound(u) && u.port == None && !u.cannotBeBase
    ensures Sound(WithScheme(u, scheme)) && WithScheme(u, scheme).port == None
  {}

  lemma SchemeKeeps(c: Context, m: Machine, u: Url)
    requires Inside(c, m, u, Scheme)
    ensures Keeps(c, StepScheme(c, m, u))
  {
    var scheme := m.buffer + ":";
    WithSchemeIsSound(u, scheme);
    AfterSchemeKeeps(c, m.Clear(), WithScheme(u, scheme));
    hide AfterScheme, Sound, WithScheme, Placed, Good;
  }

  lemma CannotBeBaseIsSound(u: Url)
    requires Sound(u)
    ensures u.special <==> IsSpecial(u.scheme)
    ensures !u.special ==> Sound(u.(cannotBeBase := true, path := u.path + [""]))
  {}

  lemma AfterSchemeKeeps(c: Context, m: Machine, u: Url)
    requires 0 <= m.index && Sound(u) && u.port == None && !u.cannotBeBase
    requires c.base.Some? ==> Good(c.base.value)
    ensures c.At(m.index, ':') ==> Keeps(c, AfterScheme(c, m, u))
  {
    FileIsSpecial();
    CannotBeBaseIsSound(u);
    hide SoundFields, IsFile, IsSpecial, Placed, Good, DefaultPort;
  }

  lemma FileIsSpecial()
    ensures IsFile("file:") && IsSpecial("file:")
    ensures forall scheme :: IsFile(scheme) ==> IsSpecial(scheme) && scheme == "file:"
  {}

  lemma NoSchemeIsSound(u: Url, base: Url)
    requires Sound(u) && u.port == None && !u.cannotBeBase && Good(base)
    ensures Sound(u.(scheme := "file:", special := true))
    ensures base.cannotBeBase ==>
              !IsFile(base.scheme)
              && Sound(u.(scheme := base.scheme, path := base.path, cannotBeBase := true,
                 special := IsSpecial(base.scheme)))
  {}

  lemma NoSchemeKeeps(c: Context, m: Machine, u: Url)
    requires Inside(c, m, u, NoScheme)
    ensures Keeps(c, StepNoScheme(c, m, u))
  {
    FileIsSpecial();
    if c.base.Some? { NoSchemeIsSound(u, c.base.value); }
    hide SoundFields, IsFile, IsSpecial, Placed, Good, Context.At;
  }

  lemma SpecialRelativeOrAuthorityKeeps(c: Context, m: Machine, u: Url)
    requires Inside(c, m, u, SpecialRelativeOrAuthority)
    ensures Keeps(c, StepSpecialRelativeOrAuthority(c, m, u))
  {
    hide Sound, Placed, Good;
  }

  lemma PathOrAuthorityKeeps(c: Context, m: Machine, u: Url)
    requires Inside(c, m, u, PathOrAuthority)
    ensures Keeps(c, StepPathOrAuthority(c, m, u))
  {
    FileIsSpecial();
    hide Sound, IsSpecial, Placed, Good;
  }

  /** The record after the authority and the path of a base are copied. */
  lemma TakenIsSound(u: Url, base: Url)
    requires Sound(u) && Good(base) && u.scheme == base.scheme && !base.cannotBeBase && !u.cannotBeBase
    ensures var taken := TakeAuthority(u, base);
            Sound(taken) && Sound(taken.(path := base.path)) && taken.scheme == u.scheme && !taken.cannotBeBase
  {}

  lemma RelativeKeeps(c: Context, m: Machine, u: Url)
    requires Inside(c, m, u, Relative)
    ensures Keeps(c, StepRelative(c, m, u))
  {
    var base := c.base.value;
    var here := u.(scheme := base.scheme, special := IsSpecial(base.scheme));
    assert Sound(here);
    TakenIsSound(here, base);
    ShortenedIsSound(TakeAuthority(here, base), base.path);
    FromBaseKeeps(c, m, here, base);
    hide FromBase, Sound, Good, Placed;
  }

  lemma ShortenedIsSound(u: Url, path: seq<string>)
    requires Sound(u) && Sound(u.(path := path))
    ensures Sound(u.(path := if path == [] then [] else path[..|path| - 1]))
  {}

  lemma FromBaseKeeps(c: Context, m: Machine, u: Url, base: Url)
    requires 0 <= m.index <= |c.input| && m.state == Relative
    requires var taken := TakeAuthority(u, base);
             !IsFile(taken.scheme) && Sound(taken.(path := base.path))
             && Sound(taken.(path := if base.path == [] then [] else base.path[..|base.path| - 1]))
    ensures Keeps(c, FromBase(c, m, u, base))
  {
    hide SoundFields, IsFile, TakeAuthority, Context.At, Here;
    var r := FromBase(c, m, u, base);
    hide SoFar;
    LateIsSoFar(c, r.m.state, r.m.index, r.u);
  }

  lemma RelativeSlashKeeps(c: Context, m: Machine, u: Url)
    requires Inside(c, m, u, RelativeSlash)
    ensures Keeps(c, StepRelativeSlash(c, m, u))
  {
    hide Good, Placed, IsSpecial, SoundFields, TakeAuthority;
    TakenIsSound(u, c.base.value);
    hide Sound;
  }

  lemma SpecialAuthoritySlashesKeeps(c: Context, m: Machine, u: Url)
    requires Inside(c, m, u, SpecialAuthoritySlashes)
    ensures Keeps(c, StepSpecialAuthoritySlashes(c, m, u))
  {
    hide Sound, Placed, Good;
  }

  lemma SpecialAuthorityIgnoreSlashesKeeps(c: Context, m: Machine, u: Url)
    requires Inside(c, m, u, SpecialAuthorityIgnoreSlashes)
    ensures Keeps(c, StepSpecialAuthorityIgnoreSlashes(c, m, u))
  {
    hide Sound, Placed, Good;
  }

  lemma AuthorityKeeps(c: Context, m: Machine, u: Url)
    requires Inside(c, m, u, Authority)
    ensures Keeps(c, StepAuthority(c, m, u))
  {
    hide SoundFields, IsFile, IsSpecial, Placed, Good, Credentials;
  }

  lemma HostStateKeeps(c: Context, m: Machine, u: Url)
    requires Inside(c, m, u, HostState)
    ensures Keeps(c, StepHost(c, m, u))
  {
    hide SoundFields, IsFile, IsSpecial, Placed, Good, ParseHost;
  }

  lemma PortStateKeeps(c: Context, m: Machine, u: Url)
    requires Inside(c, m, u, PortState)
    ensures Keeps(c, StepPort(c, m, u))
  {
    if m.buffer != "" && Value(m.buffer, 10) <= 0xFFFF { PortIsSound(u, Value(m.buffer, 10)); }
    hide SoundFields, IsFile, IsSpecial, Placed, Good, NormalizePort, Value;
  }

  lemma PortIsSound(u: Url, port: nat)
    requires Sound(u) && port <= 0xFFFF
    ensures Sound(u.(port := NormalizePort(u.scheme, Some(port))))
  {}

  lemma FileKeeps(c: Context, m: Machine, u: Url)
    requires Inside(c, m, u, File)
    ensures Keeps(c, StepFile(c, m, u))
  {
    FileIsSpecial();
    assert u.(scheme := "file:") == u;
    if c.base.Some? && IsFile(c.base.value.scheme) { FromFileBaseKeeps(c, m, u, c.base.value); }
    hide FromFileBase, Sound, Good, DefaultPort, Placed;
  }

  lemma ShortenKeeps(scheme: string, path: seq<string>)
    requires NoDots(path)
    ensures NoDots(ShortenPath(scheme, path))
  {}

  lemma FilePathIsSound(u: Url, base: Url)
    requires Sound(u) && Good(base) && IsFile(u.scheme) && IsFile(base.scheme)
    ensures Sound(u.(path := base.path)) && Sound(u.(path := ShortenPath("file:", base.path)))
  {
    FileIsSpecial();
    ShortenKeeps("file:", base.path);
  }

  lemma FromFileBaseKeeps(c: Context, m: Machine, u: Url, base: Url)
    requires Inside(c, m, u, File) && c.base == Some(base) && IsFile(base.scheme)
    ensures Keeps(c, FromFileBase(c, m, u, base))
  {
    FileIsSpecial();
    FilePathIsSound(u, base);
    hide SoundFields, IsFile, IsSpecial, Placed, Good, ShortenPath, StartsWithDriveLetter, Context.At;
  }

  lemma FirstIsNoDot(base: Url)
    requires Good(base) && IsFile(base.scheme)
    ensures !IsSingleDot(base.path[0]) && !IsDoubleDot(base.path[0])
  {
    FileIsSpecial();
  }

  lemma PushedIsSound(u: Url, segment: string)
    requires Sound(u)
    ensures !IsSingleDot(segment) && !IsDoubleDot(segment) ==> Sound(u.(path := u.path + [segment]))
  {}

  lemma FileSlashKeeps(c: Context, m: Machine, u: Url)
    requires Inside(c, m, u, FileSlash)
    ensures Keeps(c, StepFileSlash(c, m, u))
  {
    FileIsSpecial();
    if c.base.Some? && IsFile(c.base.value.scheme) {
      PushedIsSound(u, c.base.value.path[0]);
      FirstIsNoDot(c.base.value);
    }
    hide SoundFields, IsFile, IsSpecial, Placed, Good, StartsWithDriveLetter, IsNormalizedDriveLetter;
  }

  lemma FileHostKeeps(c: Context, m: Machine, u: Url)
    requires Inside(c, m, u, FileHost)
    ensures Keeps(c, StepFileHost(c, m, u))
  {
    hide SoundFields, IsFile, IsSpecial, Placed, Good, ParseHost, IsDriveLetter;
  }

  lemma PathStartKeeps(c: Context, m: Machine, u: Url)
    requires Inside(c, m, u, PathStart)
    ensures Keeps(c, StepPathStart(c, m, u))
  {
    FileIsSpecial();
    hide SoundFields, IsFile, IsSpecial, Placed, Good, Here;
    var r := StepPathStart(c, m, u);
    assert Sound(u);
    hide SoFar;
    LateIsSoFar(c, r.m.state, r.m.index, r.u);
  }

  lemma ShortenedSoundly(u: Url)
    requires Sound(u)
    ensures Sound(u.(path := ShortenPath(u.scheme, u.path)))
  {}

  lemma DriveIsSound(u: Url, segment: string)
    requires Sound(u)
    ensures |segment| == 2 ==> Sound(u.(path := [[segment[0]] + ":"]))
  {
    assert |segment| == 2 ==> ([segment[0]] + ":")[1] == ':';
  }

  /** A segment that is taken is no dot segment; the last one leaves the path with a segment. */
  lemma TakeSegmentKeeps(u: Url, segment: string, more: bool)
    requires Sound(u)
    ensures Sound(TakeSegment(u, segment, more)) && (!more ==> TakeSegment(u, segment, more).path != [])
    ensures TakeSegment(u, segment, more).cannotBeBase == u.cannotBeBase
            && TakeSegment(u, segment, more).scheme == u.scheme
  {
    FileIsSpecial();
    PushedIsSound(u, "");
    ShortenedSoundly(u);
    PushedIsSound(u.(path := ShortenPath(u.scheme, u.path)), "");
    PushedIsSound(u, segment);
    DriveIsSound(u, segment);
    hide SoundFields, IsFile, IsSpecial, Placed, Good, IsSingleDot, IsDoubleDot, ShortenPath;
  }

  lemma TrimmedIsSound(u: Url)
    requires Sound(u)
    ensures Sound(u.(path := DropEmpty(u.path)))
  {
    hide IsSingleDot, IsDoubleDot;
  }

  lemma TrimKeeps(u: Url, ends: bool)
    requires Sound(u)
    ensures Sound(Trim(u, ends)) && Trim(u, ends).scheme == u.scheme && (u.path != [] ==> Trim(u, ends).path != [])
    ensures Trim(u, ends).cannotBeBase == u.cannotBeBase
  {
    TrimmedIsSound(u);
    hide SoundFields, IsFile, IsSpecial, Placed, Good;
  }

  lemma EndsAreNoSlash(c: Context, i: int)
    requires c.Ended(i) || c.At(i, '?') || c.At(i, '#')
    ensures !c.At(i, '/') && !c.At(i, '\\')
  {}

  lemma AfterSegmentKeeps(c: Context, m: Machine, u: Url)
    requires 0 <= m.index <= |c.input| && m.state == Path && Sound(u)
    requires c.Ended(m.index) || c.At(m.index, '?') || c.At(m.index, '#') ==> u.path != []
    ensures Keeps(c, AfterSegment(c, m, u))
  {
    hide SoundFields, IsFile;
  }

  lemma PathKeeps(c: Context, m: Machine, u: Url)
    requires Inside(c, m, u, Path)
    ensures Keeps(c, StepPath(c, m, u))
  {
    var more := c.At(m.index, '/') || (u.special && c.At(m.index, '\\'));
    var ends := c.Ended(m.index) || c.At(m.index, '?') || c.At(m.index, '#');
    var taken := TakeSegment(u, m.buffer, more);
    TakeSegmentKeeps(u, m.buffer, more);
    TrimKeeps(taken, ends);
    if ends { EndsAreNoSlash(c, m.index); }
    AfterSegmentKeeps(c, m, Trim(taken, ends));
    hide SoundFields, IsFile, IsSpecial, Placed, Good, TakeSegment, Trim, AppendOrEscape, AfterSegment, Context.At;
  }

  lemma CannotBeBaseKeeps(c: Context, m: Machine, u: Url)
    requires Inside(c, m, u, CannotBeBase)
    ensures Keeps(c, StepCannotBeBase(c, m, u))
  {
    FileIsSpecial();
    hide AppendOrEscape, DefaultPort, NoDots, GoodPort;
  }

  lemma QueryKeeps(c: Context, m: Machine, u: Url)
    requires Inside(c, m, u, Query)
    ensures Keeps(c, StepQuery(c, m, u))
  {
    hide SoundFields, IsFile, IsSpecial, Placed, Good, AppendOrEscape;
  }

  lemma FragmentKeeps(c: Context, m: Machine, u: Url)
    requires Inside(c, m, u, Fragment)
    ensures Keeps(c, StepFragment(c, m, u))
  {
    hide SoundFields, IsFile, IsSpecial, Placed, Good, AppendOrEscape;
  }

  lemma StepKeeps(c: Context, m: Machine, u: Url)
    requires Inside(c, m, u, m.state)
    ensures Keeps(c, Step(c, m, u))
  {
    NeverHostname(c, m, u);
    hide Keeps, SoFar, Good, Placed, StepSchemeStart, StepScheme, StepNoScheme, StepSpecialRelativeOrAuthority,
         StepPathOrAuthority, StepRelative, StepRelativeSlash, StepSpecialAuthoritySlashes,
         StepSpecialAuthorityIgnoreSlashes, StepAuthority, StepHost, StepPort, StepFile, StepFileSlash, StepFileHost,
         StepPathStart, StepPath, StepCannotBeBase, StepQuery, StepFragment;
    match m.state
    case SchemeStart => SchemeStartKeeps(c, m, u);
    case Scheme => SchemeKeeps(c, m, u);
    case NoScheme => NoSchemeKeeps(c, m, u);
    case SpecialRelativeOrAuthority => SpecialRelativeOrAuthorityKeeps(c, m, u);
    case PathOrAuthority => PathOrAuthorityKeeps(c, m, u);
    case Relative => RelativeKeeps(c, m, u);
    case RelativeSlash => RelativeSlashKeeps(c, m, u);
    case SpecialAuthoritySlashes => SpecialAuthoritySlashesKeeps(c, m, u);
    case SpecialAuthorityIgnoreSlashes => SpecialAuthorityIgnoreSlashesKeeps(c, m, u);
    case Authority => AuthorityKeeps(c, m, u);
    case HostState => HostStateKeeps(c, m, u);
    case PortState => PortStateKeeps(c, m, u);
    case File => FileKeeps(c, m, u);
    case FileSlash => FileSlashKeeps(c, m, u);
    case FileHost => FileHostKeeps(c, m, u);
    case PathStart => PathStartKeeps(c, m, u);
    case Path => PathKeeps(c, m, u);
    case CannotBeBase => CannotBeBaseKeeps(c, m, u);
    case Query => QueryKeeps(c, m, u);
    case Fragment => FragmentKeeps(c, m, u);
    case Hostname =>
  }

  lemma NeverHostname(c: Context, m: Machine, u: Url)
    requires Inside(c, m, u, m.state)
    ensures !m.state.Hostname?
  {}
}
