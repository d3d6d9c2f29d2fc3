/** Which commands count as native compilation: a direct compile, behind any rows of
    wrappers that only pass a command on. */
module Compiles {

  function TrimSlashes(path: string): string {
    if path != "" && path[|path| - 1] == '/' then TrimSlashes(path[..|path| - 1]) else path
  }

  function AfterSlash(path: string): string {
    if path == "" || path[|path| - 1] == '/' then "" else AfterSlash(path[..|path| - 1]) + [path[|path| - 1]]
  }

  function Base(path: string): string {
    if path == "" then "." else
    var trimmed := TrimSlashes(path);
    if trimmed == "" then "/" else AfterSlash(trimmed)
  }

  function TrimExe(name: string): string {
    if |name| >= 4 && name[|name| - 4..] == ".exe" then name[..|name| - 4] else name
  }

  /** What a program's name says about it. */
  datatype Kind = CacheWrapper | EnvWrapper | XcrunWrapper | Go | OtherBuilder | Xcode | Compiler | Unrelated

  function KindOf(name: string): Kind {
    if name == "run-heavy-linux.sh" then CacheWrapper
    else if name == "env" then EnvWrapper
    else if name == "xcrun" then XcrunWrapper
    else if name == "go" then Go
    else if name == "swift" || name == "cargo" then OtherBuilder
    else if name == "xcodebuild" then Xcode
    else if name in ["clang", "clang++", "gcc", "g++", "cc", "c++", "swiftc", "rustc"] then Compiler
    else Unrelated
  }

  function ProgramKind(program: string): Kind { KindOf(TrimExe(Base(program))) }

  predicate IsSdkFlag(word: string) { word == "--sdk" || word == "--toolchain" }

  predicate IsPathFlag(word: string) { word == "-C" || word == "--package-path" }

  predicate HoldsPathFlag(word: string) { "-C=" <= word || "--package-path=" <= word }

  /** `xcodebuild` builds unless one of these says otherwise. */
  predicate IsXcodeQuery(word: string) {
    word in ["test", "test-without-building", "-list", "-showBuildSettings", "-version", "-help"]
  }

  predicate IsCompilerQuery(word: string) {
    word in ["--version", "-version", "--help", "-help", "-fsyntax-only", "-E", "-M", "-MM"]
  }

  function SkipEnv(args: seq<string>): (rest: seq<string>)
    ensures |rest| <= |args|
  {
    if args == [] then args
    else if '=' in args[0] || args[0] == "--" then SkipEnv(args[1..])
    else if args[0] == "-u" && |args| > 1 then SkipEnv(args[2..])
    else args
  }

  function SkipSdk(args: seq<string>): (rest: seq<string>)
    ensures |rest| <= |args|
  {
    if |args| > 1 && IsSdkFlag(args[0]) then SkipSdk(args[2..]) else args
  }

  function SkipBuildFlags(args: seq<string>): (rest: seq<string>)
    ensures |rest| <= |args|
  {
    if args == [] then args
    else if IsPathFlag(args[0]) && |args| > 1 then SkipBuildFlags(args[2..])
    else if HoldsPathFlag(args[0]) then SkipBuildFlags(args[1..])
    else args
  }

  predicate Builds(kind: Kind, word: string) { word == "build" || (kind.Go? && word == "install") }

  predicate NativeCompile(argv: seq<string>)
    decreases |argv|
  {
    argv != [] &&
    var kind, args := ProgramKind(argv[0]), argv[1..];
    match kind
    case CacheWrapper => NativeCompile(args)
    case EnvWrapper => NativeCompile(SkipEnv(args))
    case XcrunWrapper => NativeCompile(SkipSdk(args))
    case Go => var rest := SkipBuildFlags(args); rest != [] && Builds(kind, rest[0])
    case OtherBuilder => var rest := SkipBuildFlags(args); rest != [] && Builds(kind, rest[0])
    case Xcode => forall i :: 0 <= i < |args| ==> !IsXcodeQuery(args[i])
    case Compiler => args != [] && forall i :: 0 <= i < |args| ==> !IsCompilerQuery(args[i])
    case Unrelated => false
  }

  // ---------------------------------------------------------------- the loops

  method SkipEnvWords(argv: seq<string>) returns (args: seq<string>)
    ensures args == SkipEnv(argv)
  {
    args := argv;
    while |args| > 0
      invariant SkipEnv(argv) == SkipEnv(args)
      decreases |args|
    {
      if '=' in args[0] || args[0] == "--" {
        args := args[1..];
        continue;
      }
      if args[0] == "-u" && |args| > 1 {
        args := args[2..];
        continue;
      }
      break;
    }
  }

  method SkipSdkWords(argv: seq<string>) returns (args: seq<string>)
    ensures args == SkipSdk(argv)
  {
    args := argv;
    while |args| > 0
      invariant SkipSdk(argv) == SkipSdk(args)
      decreases |args|
    {
      if IsSdkFlag(args[0]) && |args| > 1 {
        args := args[2..];
        continue;
      }
      break;
    }
  }

  method SkipBuildWords(argv: seq<string>) returns (args: seq<string>)
    ensures args == SkipBuildFlags(argv)
  {
    args := argv;
    while |args| > 0
      invariant SkipBuildFlags(argv) == SkipBuildFlags(args)
      decreases |args|
    {
      if IsPathFlag(args[0]) && |args| > 1 {
        args := args[2..];
        continue;
      }
      if HoldsPathFlag(args[0]) {
        args := args[1..];
        continue;
      }
      break;
    }
  }

  method NoneAsks(args: seq<string>, asks: string -> bool) returns (none: bool)
    ensures none <==> forall i :: 0 <= i < |args| ==> !asks(args[i])
  {
    for i := 0 to |args|
      invariant forall k :: 0 <= k < i ==> !asks(args[k])
    {
      if asks(args[i]) {
        return false;
      }
    }
    return true;
  }

  method IsNativeCompile(argv: seq<string>) returns (native: bool)
    ensures native == NativeCompile(argv)
    ensures native <==> IsWrappedCompile(argv)
    decreases |argv|
  {
    NativeExactlyWhenWrapped(argv);
    if |argv| == 0 {
      return false;
    }
    var kind, args := ProgramKind(argv[0]), argv[1..];
    match kind {
      case CacheWrapper =>
        native := IsNativeCompile(args);
      case EnvWrapper =>
        args := SkipEnvWords(args);
        native := IsNativeCompile(args);
      case XcrunWrapper =>
        args := SkipSdkWords(args);
        native := IsNativeCompile(args);
      case Xcode =>
        native := NoneAsks(args, IsXcodeQuery);
      case Compiler =>
        native := false;
        if |args| > 0 {
          native := NoneAsks(args, IsCompilerQuery);
        }
      case Unrelated =>
        native := false;
      case _ =>
        args := SkipBuildWords(args);
        native := |args| > 0 && Builds(kind, args[0]);
    }
  }

  // ---------------------------------------------------------------- direct compiles

  /** A word or two in front of a builder's verb: a path flag with its value, or in one. */
  datatype BuildFlag = Apart(flag: string, value: string) | Joined(text: string)
  {
    predicate Proper() { if Apart? then IsPathFlag(flag) else HoldsPathFlag(text) }

    function Words(): seq<string> { if Apart? then [flag, value] else [text] }
  }

  function BuildWords(flags: seq<BuildFlag>): seq<string> {
    if flags == [] then [] else flags[0].Words() + BuildWords(flags[1..])
  }

  ghost predicate ProperFlags(flags: seq<BuildFlag>) { forall i :: 0 <= i < |flags| ==> flags[i].Proper() }

  /** The words behind a builder: any path flags, then the verb, then anything. */
  ghost predicate SaysVerb(args: seq<string>, flags: seq<BuildFlag>, verb: string, rest: seq<string>) {
    ProperFlags(flags) && args == BuildWords(flags) + [verb] + rest
  }

  ghost predicate SaysBuild(kind: Kind, args: seq<string>) {
    exists flags, verb, rest :: SaysVerb(args, flags, verb, rest) && Builds(kind, verb)
  }

  /** The command itself compiles: a builder that builds, `xcodebuild` with nothing
      that makes it do something else, or a compiler that is given work. */
  ghost predicate Direct(argv: seq<string>) {
    argv != [] &&
    var kind, args := ProgramKind(argv[0]), argv[1..];
    || ((kind.Go? || kind.OtherBuilder?) && SaysBuild(kind, args))
    || (kind.Xcode? && forall i :: 0 <= i < |args| ==> !IsXcodeQuery(args[i]))
    || (kind.Compiler? && args != [] && forall i :: 0 <= i < |args| ==> !IsCompilerQuery(args[i]))
  }

  lemma FlagsBeginWithDash(word: string)
    requires IsPathFlag(word) || HoldsPathFlag(word)
    ensures word != "" && word[0] == '-'
  {
  }

  lemma PathFlagHoldsNothing(word: string)
    requires IsPathFlag(word)
    ensures !HoldsPathFlag(word)
  {
    assert word == "-C" ==> |word| == 2;
    assert word == "--package-path" ==> |word| == 14 && word[1] != "-C="[1];
  }

  lemma FlagIsSkipped(flag: BuildFlag, rest: seq<string>)
    requires flag.Proper()
    ensures SkipBuildFlags(flag.Words() + rest) == SkipBuildFlags(rest)
  {
    var all := flag.Words() + rest;
    if flag.Apart? {
      assert all[0] == flag.flag && all[2..] == rest;
    } else {
      assert all[0] == flag.text && all[1..] == rest;
      if IsPathFlag(flag.text) {
        PathFlagHoldsNothing(flag.text);
      }
    }
  }

  lemma OtherFlagsAreProper(flags: seq<BuildFlag>)
    requires flags != [] && ProperFlags(flags)
    ensures flags[0].Proper() && ProperFlags(flags[1..])
  {
  }

  lemma FirstFlagFirst(flags: seq<BuildFlag>, rest: seq<string>)
    requires flags != []
    ensures BuildWords(flags) + rest == flags[0].Words() + (BuildWords(flags[1..]) + rest)
  {
  }

  lemma {:induction false} FlagsAreSkipped(flags: seq<BuildFlag>, rest: seq<string>)
    requires ProperFlags(flags)
    ensures SkipBuildFlags(BuildWords(flags) + rest) == SkipBuildFlags(rest)
  {
    if flags == [] {
      assert BuildWords(flags) + rest == rest;
    } else {
      OtherFlagsAreProper(flags);
      FlagsAreSkipped(flags[1..], rest);
      FlagIsSkipped(flags[0], BuildWords(flags[1..]) + rest);
      FirstFlagFirst(flags, rest);
    }
  }

  predicate StartsWithFlag(args: seq<string>) {
    args != [] && ((IsPathFlag(args[0]) && |args| > 1) || HoldsPathFlag(args[0]))
  }

  lemma FirstFlag(args: seq<string>) returns (flag: BuildFlag, rest: seq<string>)
    requires StartsWithFlag(args)
    ensures flag.Proper() && args == flag.Words() + rest && SkipBuildFlags(args) == SkipBuildFlags(rest)
      && |rest| < |args|
  {
    if IsPathFlag(args[0]) && |args| > 1 {
      flag, rest := Apart(args[0], args[1]), args[2..];
    } else {
      flag, rest := Joined(args[0]), args[1..];
    }
  }

  /** What is skipped is a row of path flags. */
  lemma {:induction false} SkippedAreFlags(args: seq<string>) returns (flags: seq<BuildFlag>)
    ensures ProperFlags(flags) && args == BuildWords(flags) + SkipBuildFlags(args)
    decreases |args|
  {
    flags := [];
    if StartsWithFlag(args) {
      var first, rest := FirstFlag(args);
      var later := SkippedAreFlags(rest);
      flags := [first] + later;
      assert flags[1..] == later;
    } else {
      assert SkipBuildFlags(args) == args;
    }
  }

  lemma VerbDecides(args: seq<string>, flags: seq<BuildFlag>, verb: string, rest: seq<string>)
    requires SaysVerb(args, flags, verb, rest) && verb != "" && verb[0] != '-'
    ensures SkipBuildFlags(args) == [verb] + rest
  {
    if IsPathFlag(verb) || HoldsPathFlag(verb) {
      FlagsBeginWithDash(verb);
    }
    assert args == BuildWords(flags) + ([verb] + rest);
    FlagsAreSkipped(flags, [verb] + rest);
  }

  lemma BuilderIsNative(kind: Kind, args: seq<string>)
    ensures SaysBuild(kind, args) <==> SkipBuildFlags(args) != [] && Builds(kind, SkipBuildFlags(args)[0])
  {
    if SaysBuild(kind, args) {
      var flags, verb, rest :| SaysVerb(args, flags, verb, rest) && Builds(kind, verb);
      VerbDecides(args, flags, verb, rest);
    }
    var skipped := SkipBuildFlags(args);
    if skipped != [] && Builds(kind, skipped[0]) {
      var flags := SkippedAreFlags(args);
      assert skipped == [skipped[0]] + skipped[1..];
      assert SaysVerb(args, flags, skipped[0], skipped[1..]);
    }
  }

  predicate IsWrapper(argv: seq<string>) {
    argv != [] &&
    var kind := ProgramKind(argv[0]);
    kind.CacheWrapper? || kind.EnvWrapper? || kind.XcrunWrapper?
  }

  lemma DirectIsNative(argv: seq<string>)
    ensures !IsWrapper(argv) ==> (NativeCompile(argv) <==> Direct(argv))
    ensures IsWrapper(argv) ==> !Direct(argv)
  {
    if argv != [] {
      BuilderIsNative(ProgramKind(argv[0]), argv[1..]);
    }
  }

  // ---------------------------------------------------------------- wrappers

  /** A word that `env` takes for itself: a setting, `--`, or `-u` with a name. */
  datatype EnvWord = Setting(name: string, value: string) | Dashes | Unset(name: string)
  {
    function Words(): seq<string> {
      match this
      case Setting(name, value) => [name + "=" + value]
      case Dashes => ["--"]
      case Unset(name) => ["-u", name]
    }
  }

  function EnvWords(words: seq<EnvWord>): seq<string> {
    if words == [] then [] else words[0].Words() + EnvWords(words[1..])
  }

  datatype SdkWord = SdkWord(flag: string, value: string)

  function SdkWords(words: seq<SdkWord>): seq<string> {
    if words == [] then [] else [words[0].flag, words[0].value] + SdkWords(words[1..])
  }

  /** A program that passes the command behind it on, with the words it keeps. */
  datatype Wrapper =
    | Cached(program: string)
    | Enved(program: string, words: seq<EnvWord>)
    | Sdked(program: string, sdk: seq<SdkWord>)
  {
    function Words(): seq<string> {
      match this
      case Cached(program) => [program]
      case Enved(program, words) => [program] + EnvWords(words)
      case Sdked(program, sdk) => [program] + SdkWords(sdk)
    }

    /** Its name says what it is, and it would not take the first word behind it for
        one of its own. */
    ghost predicate Passes(below: seq<string>) {
      match this
      case Cached(program) => ProgramKind(program).CacheWrapper?
      case Enved(program, words) => ProgramKind(program).EnvWrapper? && StartsCommand(below)
      case Sdked(program, sdk) =>
        && ProgramKind(program).XcrunWrapper? && (below != [] ==> !IsSdkFlag(below[0]))
        && forall i :: 0 <= i < |sdk| ==> IsSdkFlag(sdk[i].flag)
    }
  }

  predicate StartsCommand(argv: seq<string>) { argv != [] ==> '=' !in argv[0] && argv[0] != "--" && argv[0] != "-u" }

  function Wrapped(ws: seq<Wrapper>, argv: seq<string>): seq<string> {
    if ws == [] then argv else ws[0].Words() + Wrapped(ws[1..], argv)
  }

  ghost predicate AllPass(ws: seq<Wrapper>, argv: seq<string>) {
    ws == [] || (ws[0].Passes(Wrapped(ws[1..], argv)) && AllPass(ws[1..], argv))
  }

  lemma EnvWordIsSkipped(word: EnvWord, rest: seq<string>)
    ensures SkipEnv(word.Words() + rest) == SkipEnv(rest)
  {
    var all := word.Words() + rest;
    match word
    case Setting(name, value) =>
      assert all[0][|name|] == '=' && all[1..] == rest;
    case Dashes =>
      assert all[0] == "--" && all[1..] == rest;
    case Unset(name) =>
      assert all[0] == "-u" && '=' !in all[0] && all[2..] == rest;
  }

  lemma {:induction false} EnvWordsAreSkipped(words: seq<EnvWord>, rest: seq<string>)
    ensures SkipEnv(EnvWords(words) + rest) == SkipEnv(rest)
  {
    if words == [] {
      assert EnvWords(words) + rest == rest;
    } else {
      var later := EnvWords(words[1..]) + rest;
      EnvWordsAreSkipped(words[1..], rest);
      EnvWordIsSkipped(words[0], later);
      assert EnvWords(words) + rest == words[0].Words() + later;
    }
  }

  lemma {:induction false} SdkWordsAreSkipped(words: seq<SdkWord>, rest: seq<string>)
    requires forall i :: 0 <= i < |words| ==> IsSdkFlag(words[i].flag)
    ensures SkipSdk(SdkWords(words) + rest) == SkipSdk(rest)
  {
    var all := SdkWords(words) + rest;
    if words == [] {
      assert all == rest;
    } else {
      SdkWordsAreSkipped(words[1..], rest);
      assert all[0] == words[0].flag && all[2..] == SdkWords(words[1..]) + rest;
    }
  }

  /** What a wrapper passes on. */
  function Below(argv: seq<string>): seq<string>
    requires IsWrapper(argv)
  {
    match ProgramKind(argv[0])
    case EnvWrapper => SkipEnv(argv[1..])
    case XcrunWrapper => SkipSdk(argv[1..])
    case _ => argv[1..]
  }

  lemma WrapperIsJudgedBelow(argv: seq<string>)
    requires IsWrapper(argv)
    ensures NativeCompile(argv) == NativeCompile(Below(argv)) && |Below(argv)| < |argv|
  {
  }

  lemma BehindProgram(program: string, own: seq<string>, below: seq<string>)
    ensures var all := [program] + own + below; all != [] && all[0] == program && all[1..] == own + below
  {
  }

  lemma EnvPassesOn(program: string, words: seq<EnvWord>, below: seq<string>, argv: seq<string>)
    requires ProgramKind(program).EnvWrapper? && StartsCommand(below)
    requires argv != [] && argv[0] == program && argv[1..] == EnvWords(words) + below
    ensures IsWrapper(argv) && Below(argv) == below
  {
    EnvWordsAreSkipped(words, below);
    assert SkipEnv(below) == below;
  }

  lemma XcrunPassesOn(program: string, sdk: seq<SdkWord>, below: seq<string>, argv: seq<string>)
    requires Sdked(program, sdk).Passes(below)
    requires argv != [] && argv[0] == program && argv[1..] == SdkWords(sdk) + below
    ensures IsWrapper(argv) && Below(argv) == below
  {
    SdkWordsAreSkipped(sdk, below);
    assert SkipSdk(below) == below;
  }

  lemma BelowIsPassedOn(w: Wrapper, below: seq<string>)
    requires w.Passes(below)
    ensures IsWrapper(w.Words() + below) && Below(w.Words() + below) == below
  {
    var argv := w.Words() + below;
    match w
    case Cached(program) =>
      BehindProgram(program, [], below);
      assert argv == [program] + [] + below && [] + below == below;
    case Enved(program, words) =>
      BehindProgram(program, EnvWords(words), below);
      EnvPassesOn(program, words, below, argv);
    case Sdked(program, sdk) =>
      BehindProgram(program, SdkWords(sdk), below);
      XcrunPassesOn(program, sdk, below, argv);
  }

  /** A command is judged as if the wrappers in front of it were not there. */
  lemma {:induction false} WrappersAreTransparent(ws: seq<Wrapper>, argv: seq<string>)
    requires AllPass(ws, argv)
    ensures NativeCompile(Wrapped(ws, argv)) == NativeCompile(argv)
  {
    if ws != [] {
      WrappersAreTransparent(ws[1..], argv);
      BelowIsPassedOn(ws[0], Wrapped(ws[1..], argv));
      WrapperIsJudgedBelow(Wrapped(ws, argv));
    }
  }

  // ---------------------------------------------------------------- and back

  predicate StartsWithEnvWord(args: seq<string>) {
    args != [] && ('=' in args[0] || args[0] == "--" || (args[0] == "-u" && |args| > 1))
  }

  lemma SettingOf(text: string) returns (word: EnvWord)
    requires '=' in text
    ensures word.Words() == [text]
  {
    var k :| 0 <= k < |text| && text[k] == '=';
    word := Setting(text[..k], text[k + 1..]);
    assert text == text[..k] + "=" + text[k + 1..];
  }

  lemma FirstEnvWord(args: seq<string>) returns (word: EnvWord, rest: seq<string>)
    requires StartsWithEnvWord(args)
    ensures args == word.Words() + rest && SkipEnv(args) == SkipEnv(rest) && |rest| < |args|
  {
    if '=' in args[0] {
      word := SettingOf(args[0]);
      rest := args[1..];
    } else if args[0] == "--" {
      word, rest := Dashes, args[1..];
    } else {
      word, rest := Unset(args[1]), args[2..];
    }
  }

  /** What `env` skips is a row of its own words, and it stops at a command. */
  lemma {:induction false} SkippedIsEnvWords(args: seq<string>) returns (words: seq<EnvWord>)
    ensures args == EnvWords(words) + SkipEnv(args) && !StartsWithEnvWord(SkipEnv(args))
    decreases |args|
  {
    words := [];
    if StartsWithEnvWord(args) {
      var first, rest := FirstEnvWord(args);
      var later := SkippedIsEnvWords(rest);
      words := [first] + later;
      assert words[1..] == later;
    } else {
      assert SkipEnv(args) == args;
    }
  }

  lemma {:induction false} SkippedIsSdkWords(args: seq<string>) returns (sdk: seq<SdkWord>)
    ensures args == SdkWords(sdk) + SkipSdk(args) && forall i :: 0 <= i < |sdk| ==> IsSdkFlag(sdk[i].flag)
    ensures SkipSdk(args) == [] || (IsSdkFlag(SkipSdk(args)[0]) ==> |SkipSdk(args)| == 1)
    decreases |args|
  {
    sdk := [];
    if |args| > 1 && IsSdkFlag(args[0]) {
      var later := SkippedIsSdkWords(args[2..]);
      sdk := [SdkWord(args[0], args[1])] + later;
      assert sdk[1..] == later && args == [args[0], args[1]] + args[2..];
    } else {
      assert SkipSdk(args) == args;
    }
  }

  lemma DashIsUnrelated(name: string)
    requires name != "" && name[0] == '-'
    ensures KindOf(name).Unrelated?
  {
  }

  lemma FlagStaysAsItIs(flag: string)
    requires flag == "-u" || IsSdkFlag(flag)
    ensures flag[0] == '-' && '/' !in flag && TrimExe(flag) == flag
  {
  }

  /** A word that is a flag names no program that compiles. */
  lemma NativeIsNoFlag(argv: seq<string>)
    requires NativeCompile(argv)
    ensures argv[0] != "-u" && !IsSdkFlag(argv[0])
  {
    if argv[0] == "-u" || IsSdkFlag(argv[0]) {
      FlagStaysAsItIs(argv[0]);
      PlainName(argv[0]);
      DashIsUnrelated(argv[0]);
    }
  }

  lemma {:induction false} PlainName(name: string)
    requires name != "" && '/' !in name
    ensures Base(name) == name && TrimSlashes(name) == name && AfterSlash(name) == name
  {
    NoSlash(name);
  }

  lemma {:induction false} NoSlash(name: string)
    requires '/' !in name
    ensures AfterSlash(name) == name
  {
    if name != "" {
      var before, last := name[..|name| - 1], name[|name| - 1];
      assert last in name && forall c :: c in before ==> c in name;
      NoSlash(before);
      assert name == before + [last];
    }
  }

  lemma HeadAndTail(argv: seq<string>, own: seq<string>, below: seq<string>)
    requires argv != [] && argv[1..] == own + below
    ensures argv == [argv[0]] + own + below
  {
    assert argv == [argv[0]] + argv[1..];
  }

  lemma UnwrapEnv(argv: seq<string>, below: seq<string>) returns (w: Wrapper)
    requires argv != [] && ProgramKind(argv[0]).EnvWrapper? && below == SkipEnv(argv[1..])
    requires below != [] && below[0] != "-u"
    ensures argv == w.Words() + below && w.Passes(below)
  {
    var words := SkippedIsEnvWords(argv[1..]);
    w := Enved(argv[0], words);
    HeadAndTail(argv, EnvWords(words), below);
  }

  lemma UnwrapXcrun(argv: seq<string>, below: seq<string>) returns (w: Wrapper)
    requires argv != [] && ProgramKind(argv[0]).XcrunWrapper? && below == SkipSdk(argv[1..])
    requires below != [] && !IsSdkFlag(below[0])
    ensures argv == w.Words() + below && w.Passes(below)
  {
    var sdk := SkippedIsSdkWords(argv[1..]);
    w := Sdked(argv[0], sdk);
    HeadAndTail(argv, SdkWords(sdk), below);
  }

  /** A wrapper in front of a native compile, as a wrapper. */
  lemma Unwrap(argv: seq<string>) returns (w: Wrapper)
    requires IsWrapper(argv) && NativeCompile(Below(argv))
    ensures argv == w.Words() + Below(argv) && w.Passes(Below(argv))
  {
    var kind, below := ProgramKind(argv[0]), Below(argv);
    NativeIsNoFlag(below);
    if kind.EnvWrapper? {
      w := UnwrapEnv(argv, below);
    } else if kind.XcrunWrapper? {
      w := UnwrapXcrun(argv, below);
    } else {
      w := Cached(argv[0]);
      assert argv == [argv[0]] + argv[1..];
    }
  }

  lemma {:induction false} NativeIsWrappedCompile(argv: seq<string>) returns (ws: seq<Wrapper>, direct: seq<string>)
    requires NativeCompile(argv)
    ensures AllPass(ws, direct) && argv == Wrapped(ws, direct) && Direct(direct)
    decreases |argv|
  {
    if IsWrapper(argv) {
      WrapperIsJudgedBelow(argv);
      var w := Unwrap(argv);
      var inner;
      inner, direct := NativeIsWrappedCompile(Below(argv));
      ws := [w] + inner;
      assert ws[1..] == inner;
    } else {
      DirectIsNative(argv);
      ws, direct := [], argv;
    }
  }

  ghost predicate IsWrappedCompile(argv: seq<string>) {
    exists ws, direct :: AllPass(ws, direct) && argv == Wrapped(ws, direct) && Direct(direct)
  }

  /** Native compilation is a direct compile behind any row of wrappers, and nothing else. */
  lemma NativeExactlyWhenWrapped(argv: seq<string>)
    ensures NativeCompile(argv) <==> IsWrappedCompile(argv)
  {
    if NativeCompile(argv) {
      var ws, direct := NativeIsWrappedCompile(argv);
    }
    if IsWrappedCompile(argv) {
      var ws, direct :| AllPass(ws, direct) && argv == Wrapped(ws, direct) && Direct(direct);
      WrappersAreTransparent(ws, direct);
      DirectIsNative(direct);
    }
  }

  /** A `test` of a builder is ordinary work, whatever path flags and wrappers are in
      front of it. */
  lemma TestsAreOrdinary(ws: seq<Wrapper>, program: string, flags: seq<BuildFlag>, rest: seq<string>)
    requires (ProgramKind(program).Go? || ProgramKind(program).OtherBuilder?) && ProperFlags(flags)
    requires AllPass(ws, [program] + (BuildWords(flags) + ["test"] + rest))
    ensures !NativeCompile(Wrapped(ws, [program] + (BuildWords(flags) + ["test"] + rest)))
  {
    var args := BuildWords(flags) + ["test"] + rest;
    WrappersAreTransparent(ws, [program] + args);
    VerbDecides(args, flags, "test", rest);
    TestIsNoBuild(program, args, rest);
  }

  lemma TestIsNoBuild(program: string, args: seq<string>, rest: seq<string>)
    requires ProgramKind(program).Go? || ProgramKind(program).OtherBuilder?
    requires SkipBuildFlags(args) == ["test"] + rest
    ensures !NativeCompile([program] + args)
  {
    var argv := [program] + args;
    assert argv[0] == program && argv[1..] == args;
    assert !Builds(ProgramKind(program), "test") by {
      assert "test"[0] != "build"[0] && "test"[0] != "install"[0];
    }
  }

  // ---------------------------------------------------------------- the names

  /** What each program is taken for, name by name. */
  lemma KindsAre(name: string)
    ensures KindOf(name).CacheWrapper? <==> name == "run-heavy-linux.sh"
    ensures KindOf(name).EnvWrapper? <==> name == "env"
    ensures KindOf(name).XcrunWrapper? <==> name == "xcrun"
    ensures KindOf(name).Go? <==> name == "go"
    ensures KindOf(name).OtherBuilder? <==> name == "cargo" || name == "swift"
    ensures KindOf(name).Xcode? <==> name == "xcodebuild"
    ensures KindOf(name).Compiler? <==>
      name in {"c++", "cc", "clang", "clang++", "g++", "gcc", "rustc", "swiftc"}
  {
  }

  lemma VerbsAre(kind: Kind, word: string)
    ensures kind.Go? ==> (Builds(kind, word) <==> word in {"build", "install"})
    ensures !kind.Go? ==> (Builds(kind, word) <==> word == "build")
  {
  }

  /** The words that are looked at on a command line. */
  lemma WordsAre(word: string)
    ensures IsSdkFlag(word) <==> word in {"--sdk", "--toolchain"}
    ensures IsPathFlag(word) <==> word in {"--package-path", "-C"}
    ensures IsXcodeQuery(word) <==>
      word in {"-help", "-list", "-showBuildSettings", "-version", "test", "test-without-building"}
    ensures IsCompilerQuery(word) <==>
      word in {"--help", "--version", "-E", "-M", "-MM", "-fsyntax-only", "-help", "-version"}
  {
  }

  lemma JoinedFlagsAre(word: string)
    ensures HoldsPathFlag(word) <==> exists value :: word == "-C=" + value || word == "--package-path=" + value
  {
    if "-C=" <= word {
      assert word == "-C=" + word[3..];
    }
    if "--package-path=" <= word {
      assert word == "--package-path=" + word[15..];
    }
  }

  lemma {:induction false} TrimmedPath(path: string, slashes: nat)
    requires path == "" || path[|path| - 1] != '/'
    ensures TrimSlashes(path + seq(slashes, _ => '/')) == path
  {
    var row := seq(slashes, _ => '/');
    if 0 < slashes {
      TrimmedPath(path, slashes - 1);
      assert (path + row)[..|path + row| - 1] == path + seq(slashes - 1, _ => '/');
    } else {
      assert path + row == path;
    }
  }

  lemma {:induction false} BehindSlash(dir: string, name: string)
    requires '/' !in name && (dir == "" || dir[|dir| - 1] == '/')
    ensures AfterSlash(dir + name) == name
  {
    if name != "" {
      var before, last, path := name[..|name| - 1], name[|name| - 1], dir + name;
      assert last in name && '/' !in before;
      BehindSlash(dir, before);
      assert path[|path| - 1] == last && path[..|path| - 1] == dir + before && name == before + [last];
      assert AfterSlash(path) == AfterSlash(dir + before) + [last];
    } else {
      assert dir + name == dir;
      assert AfterSlash(dir) == "";
    }
  }

  /** The last element of a path, whatever directory is in front of it and however many
      slashes are behind it; without one, the slash or the dot. */
  lemma BaseMeans(dir: string, name: string, slashes: nat)
    requires '/' !in name && name != "" && (dir == "" || dir[|dir| - 1] == '/')
    ensures Base(dir + name + seq(slashes, _ => '/')) == name
    ensures Base("") == "." && (0 < slashes ==> Base(seq(slashes, _ => '/')) == "/")
  {
    var row := seq(slashes, _ => '/');
    assert name[|name| - 1] in name;
    TrimmedPath(dir + name, slashes);
    BehindSlash(dir, name);
    TrimmedPath("", slashes);
    assert "" + row == row;
  }

  lemma ExeIsTrimmed(name: string)
    ensures TrimExe(name + ".exe") == name
    ensures (forall stem :: name != stem + ".exe") ==> TrimExe(name) == name
  {
    assert (name + ".exe")[|name|..] == ".exe" && (name + ".exe")[..|name|] == name;
    if |name| >= 4 && name[|name| - 4..] == ".exe" {
      assert name == name[..|name| - 4] + ".exe";
    }
  }

  /** A command is judged by its program's name alone: not by the directory it is in, nor
      by an `.exe`. */
  lemma JudgedByItsName(dir: string, name: string, args: seq<string>)
    requires '/' !in name && name != "" && (dir == "" || dir[|dir| - 1] == '/')
    requires forall stem :: name != stem + ".exe"
    ensures NativeCompile([dir + name + ".exe"] + args) == NativeCompile([name] + args)
    ensures NativeCompile([dir + name] + args) == NativeCompile([name] + args)
  {
    SameProgram(dir, name);
    var plain := [name] + args;
    assert plain[0] == name && plain[1..] == args;
    var exe, there := [dir + name + ".exe"] + args, [dir + name] + args;
    assert exe[1..] == args && there[1..] == args;
  }

  lemma SameProgram(dir: string, name: string)
    requires '/' !in name && name != "" && (dir == "" || dir[|dir| - 1] == '/')
    requires forall stem :: name != stem + ".exe"
    ensures ProgramKind(dir + name + ".exe") == ProgramKind(dir + name) == ProgramKind(name) == KindOf(name)
  {
    ExeIsTrimmed(name);
    NoSlashes("", name);
    assert "" + name == name;
    NoSlashes(dir, name);
    NoSlashes(dir, name + ".exe");
    assert dir + name + ".exe" == dir + (name + ".exe");
  }

  lemma NoSlashes(dir: string, name: string)
    requires '/' !in name && name != "" && (dir == "" || dir[|dir| - 1] == '/')
    ensures Base(dir + name) == name
  {
    BaseMeans(dir, name, 0);
    assert dir + name + seq(0, _ => '/') == dir + name;
  }
}
