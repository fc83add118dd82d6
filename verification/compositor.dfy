/** src/compositor.c: the registry of compositor backends, the availability
    check, and the launch command each backend is started with. */
module Compositor {
  import opened Wrappers
  import opened CText
  import opened Sentinel
  import opened ExecSearch

  /** The `WCOMPOSITOR_*` enumerants, in table order. */
  const NONE: int := 0
  const PICOM: int := 1
  const COMPTON: int := 2
  const XCOMPMGR: int := 3
  const COMPIZ: int := 4

  predicate IsKnownChoice(choice: int) {
    choice == NONE || choice == PICOM || choice == COMPTON || choice == XCOMPMGR || choice == COMPIZ
  }

  /** `WCompositorBackend`: NULL `name` marks the sentinel, NULL `binary` means
      there is nothing to run. */
  datatype Backend = Backend(choice: int, name: Option<string>, binary: Option<string>)

  /** The `backends[]` table, sentinel included. */
  const Backends: seq<Backend> := [
    Backend(NONE, Some("none"), None),
    Backend(PICOM, Some("picom"), Some("picom")),
    Backend(COMPTON, Some("compton"), Some("compton")),
    Backend(XCOMPMGR, Some("xcompmgr"), Some("xcompmgr")),
    Backend(COMPIZ, Some("compiz"), Some("compiz")),
    Backend(-1, None, None)
  ]

  predicate IsSentinel(b: Backend) {
    b.name.None?
  }

  /** The lookup loop visits exactly the five named entries. */
  lemma BackendsLive()
    ensures LiveLength(Backends, IsSentinel) == 5
  {
    assert IsSentinel(Backends[5]);
  }

  /** `wCompositorGetBackend`: the named entry whose `choice` matches, or NULL. */
  function GetBackend(choice: int): (r: Option<Backend>)
    ensures r.Some? <==> IsKnownChoice(choice)
    ensures r.Some? ==> r.value.choice == choice && r.value.name.Some? && r.value in Backends[..5]
  {
    BackendsLive();
    var matches := (b: Backend) => b.choice == choice;
    match FindLive(Backends, IsSentinel, matches)
    case Some(i) =>
      assert Backends[..5][i] == Backends[i];
      Some(Backends[i])
    case None =>
      assert !IsKnownChoice(choice) by {
        forall j | 0 <= j < 5
          ensures Backends[j].choice != choice
        {
          assert !matches(Backends[j]);
        }
        assert Backends[0].choice != choice && Backends[1].choice != choice && Backends[2].choice != choice;
        assert Backends[3].choice != choice && Backends[4].choice != choice;
      }
      None
  }

  /** Every entry of the table is found under its own choice, and the
      sentinel's -1 is not found: the loop stops before it. */
  lemma GetBackendTable()
    ensures forall i :: 0 <= i < 5 ==> GetBackend(Backends[i].choice) == Some(Backends[i])
    ensures GetBackend(-1) == None
  {
    forall i | 0 <= i < 5
      ensures GetBackend(Backends[i].choice) == Some(Backends[i])
    {
      var r := GetBackend(Backends[i].choice);
      assert r.value in Backends[..5];
    }
  }

  /** `wCompositorBackendAvailable`: NULL is never available, a backend with no
      binary always is, anything else is searched for. */
  function BackendAvailable(backend: Option<Backend>, env: Env): (r: bool)
    ensures backend.None? ==> !r
    ensures backend.Some? && backend.value.binary.GetOr([]) == [] ==> r
  {
    if backend.None? then false
    else if backend.value.binary.None? || backend.value.binary.value == [] then true
    else Locate(backend.value.binary.value, env)
  }

  /** `wCompositorGetFallbackBackend`: the "none" entry, available whatever the
      environment holds. */
  function FallbackBackend(): (b: Backend)
    ensures b.choice == NONE && b.binary.None? && b in Backends
    ensures forall env :: BackendAvailable(Some(b), env)
  {
    Backends[0]
  }

  /** Availability of a backend with a bare binary name, stated without the
      search loop: some non-empty `PATH` field holds it as an executable. */
  lemma AvailableBySegments(b: Backend, env: Env)
    requires b.binary.Some? && b.binary.value != [] && '/' !in b.binary.value
    ensures BackendAvailable(Some(b), env) <==>
      env.path.Some? &&
      exists d :: d in Split(env.path.value, ':') && d != [] && env.executable(d + "/" + b.binary.value)
  {
    LocateBySegments(b.binary.value, env);
  }

  /** A binary given with a slash is checked where it stands; `PATH` is ignored. */
  lemma AvailableDirect(b: Backend, env: Env)
    requires b.binary.Some? && '/' in b.binary.value
    ensures BackendAvailable(Some(b), env) == env.executable(b.binary.value)
  {
    LocateDirect(b.binary.value, env, env.path);
  }

  /** A launchable choice whose format string has a binary to fill its `%s`. */
  predicate WellFormed(b: Backend) {
    b.choice != NONE && IsKnownChoice(b.choice) ==> b.binary.Some?
  }

  lemma TableWellFormed()
    ensures forall i :: 0 <= i < |Backends| ==> WellFormed(Backends[i])
  {
  }

  /** `config_argument && config_argument[0]`. */
  predicate HasConfig(config: Option<string>) {
    config.Some? && config.value != []
  }

  /** The argument vector each backend is launched with: the reference the
      command line is checked against. */
  function Argv(b: Backend, config: Option<string>, shadows: bool): Option<seq<string>>
    requires WellFormed(b)
  {
    var configArgs := ConfigArgs(config);
    if b.choice == PICOM then
      Some([b.binary.value, "--backend", "glx"] + configArgs
           + ["--experimental-backends", "--animations"] + (if shadows then ["--shadow"] else []))
    else if b.choice == COMPTON then
      Some([b.binary.value, "--backend", "glx"] + configArgs + (if shadows then ["--shadow"] else []))
    else if b.choice == XCOMPMGR then
      Some([b.binary.value] + (if shadows then ["-c"] else []))
    else if b.choice == COMPIZ then
      Some([b.binary.value, "--replace", "ccp"])
    else None
  }

  /** The text the matching `snprintf` format produces with unlimited room, or
      None when no rule matches the choice; every format starts with the
      binary. */
  function CommandText(b: Backend, config: Option<string>, shadows: bool): (r: Option<string>)
    requires WellFormed(b)
    ensures r.Some? <==> b.choice != NONE && IsKnownChoice(b.choice)
    ensures r.Some? ==> b.binary.value <= r.value
  {
    var shadow := if shadows then " --shadow" else "";
    if b.choice == PICOM then
      if HasConfig(config) then
        Some(b.binary.value + " --backend glx --config " + config.value
             + " --experimental-backends --animations" + shadow)
      else
        Some(b.binary.value + " --backend glx --experimental-backends --animations" + shadow)
    else if b.choice == COMPTON then
      if HasConfig(config) then
        Some(b.binary.value + " --backend glx --config " + config.value + shadow)
      else
        Some(b.binary.value + " --backend glx" + shadow)
    else if b.choice == XCOMPMGR then
      Some(b.binary.value + (if shadows then " -c" else ""))
    else if b.choice == COMPIZ then
      Some(b.binary.value + " --replace ccp")
    else None
  }

  lemma JoinAppend(a: seq<string>, b: seq<string>)
    requires |a| >= 1 && |b| >= 1
    ensures Join(a + b, ' ') == Join(a, ' ') + " " + Join(b, ' ')
  {
    JoinAppendInd(a, b);
  }

  lemma {:induction false} JoinAppendInd(a: seq<string>, b: seq<string>)
    requires |a| >= 1 && |b| >= 1
    ensures Join(a + b, ' ') == Join(a, ' ') + " " + Join(b, ' ')
    decreases |a|
  {
    if |a| > 1 {
      JoinAppendInd(a[1..], b);
      assert (a + b)[1..] == a[1..] + b;
    }
  }

  lemma Join2(x: string, y: string)
    ensures Join([x, y], ' ') == x + " " + y
  {
    assert [x, y][1..] == [y];
  }

  lemma Join3(x: string, y: string, z: string)
    ensures Join([x, y, z], ' ') == x + " " + y + " " + z
  {
    assert [x, y, z][1..] == [y, z];
    Join2(y, z);
    Assoc(x, " ", y + " " + z);
    Assoc(x + " ", y + " ", z);
    Assoc(x + " ", y, " ");
  }

  /** A word after a first one, read as one piece of text. */
  lemma Words2(x: string, y: string, text: string)
    requires " " + y == text
    ensures x + " " + y == x + text
  {
    Assoc(x, " ", y);
  }

  /** Two words after a first one, read as one piece of text. */
  lemma Words3(x: string, y: string, z: string, text: string)
    requires " " + y + " " + z == text
    ensures x + " " + y + " " + z == x + text
  {
    var p := " " + y;
    Assoc(x, " ", y);
    Assoc(x, p, " ");
    Assoc(x, p + " ", z);
  }


  /** The words a configuration path adds. */
  function ConfigArgs(config: Option<string>): seq<string> {
    if HasConfig(config) then ["--config", config.value] else []
  }

  /** The fixed pieces of the format strings, spelled as the words they are
      made of. The lemmas from here to `PlainPicomPiece` only unfold string
      literals for the solver; each states nothing about the program. */
  lemma BackendWords()
    ensures " " + "--backend" + " " + "glx" == " --backend glx"
  {
  }

  lemma ConfigWords()
    ensures " " + "--config" + " " == " --config "
  {
  }

  lemma AnimationWords()
    ensures " " + "--experimental-backends" + " " + "--animations" == " --experimental-backends --animations"
  {
  }

  lemma ShadowWord()
    ensures " " + "--shadow" == " --shadow"
  {
  }

  lemma CompressWord()
    ensures " " + "-c" == " -c"
  {
  }

  lemma ReplaceWords()
    ensures " " + "--replace" + " " + "ccp" == " --replace ccp"
  {
  }

  lemma ConfigPiece()
    ensures " --backend glx" + " --config " == " --backend glx --config "
  {
  }

  lemma PlainPicomPiece()
    ensures " --backend glx" + " --experimental-backends --animations"
         == " --backend glx --experimental-backends --animations"
  {
  }

  /** The text of the optional words: the configuration argument, the
      animation flags and the shadow flag. */
  function ConfigText(config: Option<string>): string {
    if HasConfig(config) then " --config " + config.value else ""
  }

  function ShadowText(shadows: bool): string {
    if shadows then " --shadow" else ""
  }

  function ShadowArgs(shadows: bool): seq<string> {
    if shadows then ["--shadow"] else []
  }

  /** Appending a word list adds its joined text after one space, and an empty
      list adds nothing. */
  lemma JoinOptional(a: seq<string>, b: seq<string>, text: string)
    requires |a| >= 1
    requires b == [] ==> text == ""
    requires b != [] ==> text == " " + Join(b, ' ')
    ensures Join(a + b, ' ') == Join(a, ' ') + text
  {
    if b == [] {
      assert a + b == a;
      AppendEmpty(Join(a, ' '));
    } else {
      JoinAppend(a, b);
      Assoc(Join(a, ' '), " ", Join(b, ' '));
    }
  }

  /** The `--backend glx` head with its optional configuration argument. */
  lemma HeadJoined(bin: string, config: Option<string>)
    ensures Join([bin, "--backend", "glx"] + ConfigArgs(config), ' ') == bin + " --backend glx" + ConfigText(config)
  {
    Join3(bin, "--backend", "glx");
    BackendWords();
    Words3(bin, "--backend", "glx", " --backend glx");
    var j := bin + " --backend glx";
    if HasConfig(config) {
      var c := config.value;
      Join2("--config", c);
      JoinAppend([bin, "--backend", "glx"], ["--config", c]);
      ConfigWords();
      Assoc(j, " ", "--config" + " " + c);
      Assoc(" ", "--config" + " ", c);
      Assoc(" ", "--config", " ");
    } else {
      assert [bin, "--backend", "glx"] + ConfigArgs(config) == [bin, "--backend", "glx"];
      AppendEmpty(j);
    }
  }

  /** Shadows add their flag after one space. */
  lemma ShadowJoined(a: seq<string>)
    requires |a| >= 1
    ensures Join(a + ShadowArgs(true), ' ') == Join(a, ' ') + ShadowText(true)
    ensures Join(a + ShadowArgs(false), ' ') == Join(a, ' ') + ShadowText(false)
  {
    ShadowWord();
    JoinOptional(a, ShadowArgs(true), ShadowText(true));
    JoinOptional(a, ShadowArgs(false), ShadowText(false));
  }

  lemma PicomJoined(b: Backend, config: Option<string>, shadows: bool)
    requires WellFormed(b) && b.choice == PICOM
    ensures CommandText(b, config, shadows).value == Join(Argv(b, config, shadows).value, ' ')
  {
    var bin := b.binary.value;
    PicomText(bin, config, shadows);
    PicomWords(bin, config, shadows);
    assert b == Backend(PICOM, b.name, Some(bin));
  }

  /** Picom's words, joined: the head, the animation flags and the optional
      shadow flag. */
  lemma PicomWords(bin: string, config: Option<string>, shadows: bool)
    ensures forall name :: Join(Argv(Backend(PICOM, name, Some(bin)), config, shadows).value, ' ')
                           == bin + " --backend glx" + ConfigText(config) + " --experimental-backends --animations"
                              + ShadowText(shadows)
  {
    var head := [bin, "--backend", "glx"] + ConfigArgs(config);
    var anim := ["--experimental-backends", "--animations"];
    forall name
      ensures Argv(Backend(PICOM, name, Some(bin)), config, shadows).value == head + anim + ShadowArgs(shadows)
    {
    }
    HeadJoined(bin, config);
    JoinPair(head, "--experimental-backends", "--animations");
    AnimationWords();
    ShadowJoined(head + anim);
  }

  /** Two more words add their text, each after one space. */
  lemma JoinPair(a: seq<string>, x: string, y: string)
    requires |a| >= 1
    ensures Join(a + [x, y], ' ') == Join(a, ' ') + (" " + x + " " + y)
  {
    Join2(x, y);
    JoinAppend(a, [x, y]);
    var j := Join(a, ' ');
    Assoc(j, " ", x + " " + y);
    Assoc(" ", x + " ", y);
    Assoc(" ", x, " ");
  }

  /** Picom's format, read as the head, the optional configuration argument,
      the animation flags and the optional shadow flag. */
  lemma PicomText(bin: string, config: Option<string>, shadows: bool)
    ensures forall name :: CommandText(Backend(PICOM, name, Some(bin)), config, shadows).value
                           == bin + " --backend glx" + ConfigText(config) + " --experimental-backends --animations" + ShadowText(shadows)
  {
    var head := bin + " --backend glx";
    if HasConfig(config) {
      ConfigPiece();
      Assoc(head, " --config ", config.value);
      Assoc(bin, " --backend glx", " --config ");
    } else {
      PlainPicomPiece();
      AppendEmpty(head);
      Assoc(bin, " --backend glx", " --experimental-backends --animations");
    }
  }

  lemma ComptonJoined(b: Backend, config: Option<string>, shadows: bool)
    requires WellFormed(b) && b.choice == COMPTON
    ensures CommandText(b, config, shadows).value == Join(Argv(b, config, shadows).value, ' ')
  {
    var bin := b.binary.value;
    ComptonText(bin, config, shadows);
    ComptonWords(bin, config, shadows);
    assert b == Backend(COMPTON, b.name, Some(bin));
  }

  /** Compton's format, read as the head, the optional configuration argument
      and the optional shadow flag. */
  lemma ComptonText(bin: string, config: Option<string>, shadows: bool)
    ensures forall name :: CommandText(Backend(COMPTON, name, Some(bin)), config, shadows).value
                           == bin + " --backend glx" + ConfigText(config) + ShadowText(shadows)
  {
    var head := bin + " --backend glx";
    if HasConfig(config) {
      ConfigPiece();
      Assoc(head, " --config ", config.value);
      Assoc(bin, " --backend glx", " --config ");
    } else {
      AppendEmpty(head);
    }
  }

  /** Compton's words, joined: the head and the optional shadow flag. */
  lemma ComptonWords(bin: string, config: Option<string>, shadows: bool)
    ensures forall name :: Join(Argv(Backend(COMPTON, name, Some(bin)), config, shadows).value, ' ')
                           == bin + " --backend glx" + ConfigText(config) + ShadowText(shadows)
  {
    var head := [bin, "--backend", "glx"] + ConfigArgs(config);
    forall name
      ensures Argv(Backend(COMPTON, name, Some(bin)), config, shadows).value == head + ShadowArgs(shadows)
    {
    }
    HeadJoined(bin, config);
    ShadowJoined(head);
  }

  /** Each command line is its argument vector joined with single spaces:
      byte-exact concatenation, with no quoting of the configuration path. */
  lemma CommandIsJoinedArgv(b: Backend, config: Option<string>, shadows: bool)
    requires WellFormed(b)
    ensures CommandText(b, config, shadows).Some? <==> Argv(b, config, shadows).Some?
    ensures Argv(b, config, shadows).Some? ==>
      CommandText(b, config, shadows).value == Join(Argv(b, config, shadows).value, ' ')
  {
    if b.choice == PICOM {
      PicomJoined(b, config, shadows);
    } else if b.choice == COMPTON {
      ComptonJoined(b, config, shadows);
    } else if b.choice == XCOMPMGR {
      if shadows {
        Join2(b.binary.value, "-c");
        CompressWord();
        Words2(b.binary.value, "-c", " -c");
      } else {
        AppendEmpty(b.binary.value);
      }
    } else if b.choice == COMPIZ {
      Join3(b.binary.value, "--replace", "ccp");
      ReplaceWords();
      Words3(b.binary.value, "--replace", "ccp", " --replace ccp");
    }
  }

  /** The outcome of `wCompositorBuildLaunchCommand`: the returned Bool and the
      buffer's contents, None when the buffer is left untouched. */
  datatype Launch = Launch(ok: bool, buffer: Option<string>)

  /** `wCompositorBuildLaunchCommand(backend, config_argument, enable_shadows,
      buffer, buflen)`, with `hasBuffer` false for a NULL buffer. */
  function BuildLaunchCommand(backend: Option<Backend>, config: Option<string>, shadows: bool,
                              hasBuffer: bool, buflen: nat): (r: Launch)
    requires backend.Some? ==> WellFormed(backend.value)
    ensures !hasBuffer || buflen == 0 ==> r == Launch(false, None)
    ensures hasBuffer && buflen > 0 ==> r.buffer.Some? && |r.buffer.value| < buflen
    ensures hasBuffer && buflen > 0 && (backend.None? || backend.value.choice == NONE) ==>
      r == Launch(true, Some(""))
    ensures hasBuffer && buflen > 0 && backend.Some? && backend.value.choice != NONE ==>
      (r.ok <==> Argv(backend.value, config, shadows).Some?) &&
      (r.ok ==> r.buffer == Some(Truncate(Join(Argv(backend.value, config, shadows).value, ' '), buflen))) &&
      (!r.ok ==> r.buffer == Some(""))
  {
    if !hasBuffer || buflen == 0 then Launch(false, None)
    else if backend.None? || backend.value.choice == NONE then Launch(true, Some(""))
    else
      CommandIsJoinedArgv(backend.value, config, shadows);
      match CommandText(backend.value, config, shadows)
      case Some(text) => Launch(true, Some(Truncate(text, buflen)))
      case None => Launch(false, Some(""))
  }

  /** With room for the whole line and no spaces inside the binary name or the
      configuration path, the command splits back into exactly its argument
      vector. */
  lemma CommandWords(b: Backend, config: Option<string>, shadows: bool, buflen: nat)
    requires WellFormed(b) && b.choice != NONE && IsKnownChoice(b.choice)
    requires ' ' !in b.binary.value
    requires config.Some? ==> ' ' !in config.value
    requires buflen > |Join(Argv(b, config, shadows).value, ' ')|
    ensures BuildLaunchCommand(Some(b), config, shadows, true, buflen).ok
    ensures Split(BuildLaunchCommand(Some(b), config, shadows, true, buflen).buffer.value, ' ')
            == Argv(b, config, shadows).value
  {
    var argv := Argv(b, config, shadows).value;
    ArgvWordsLackSpace(b, config, shadows);
    SplitJoin(argv, ' ');
  }

  /** None of the fixed words of the formats holds a space. */
  lemma FixedWordsLackSpace()
    ensures ' ' !in "--backend" && ' ' !in "glx" && ' ' !in "--config" && ' ' !in "--shadow"
    ensures ' ' !in "--experimental-backends" && ' ' !in "--animations"
    ensures ' ' !in "-c" && ' ' !in "--replace" && ' ' !in "ccp"
  {
  }

  /** The words hold a space only where the binary name or the path does. */
  lemma ArgvWordsLackSpace(b: Backend, config: Option<string>, shadows: bool)
    requires WellFormed(b) && b.choice != NONE && IsKnownChoice(b.choice)
    requires ' ' !in b.binary.value
    requires config.Some? ==> ' ' !in config.value
    ensures forall i :: 0 <= i < |Argv(b, config, shadows).value| ==> ' ' !in Argv(b, config, shadows).value[i]
  {
    FixedWordsLackSpace();
  }

  /** Turning shadows on appends exactly one flag and changes nothing else;
      for Compiz the flag is ignored. */
  lemma ShadowAppendsOneFlag(b: Backend, config: Option<string>)
    requires WellFormed(b) && b.choice != NONE && IsKnownChoice(b.choice)
    ensures b.choice == PICOM || b.choice == COMPTON ==>
      Argv(b, config, true).value == Argv(b, config, false).value + ["--shadow"]
    ensures b.choice == XCOMPMGR ==> Argv(b, config, true).value == Argv(b, config, false).value + ["-c"]
    ensures b.choice == COMPIZ ==> Argv(b, config, true) == Argv(b, config, false)
  {
  }

  /** A non-empty configuration path C inserts exactly the two words
      `--config C` after `--backend glx`, with C as given; an empty or NULL path
      adds nothing. */
  lemma ConfigArgument(b: Backend, config: Option<string>, shadows: bool)
    requires WellFormed(b) && (b.choice == PICOM || b.choice == COMPTON)
    ensures !HasConfig(config) ==> Argv(b, config, shadows) == Argv(b, None, shadows)
    ensures HasConfig(config) ==>
      Argv(b, config, shadows).value
        == Argv(b, None, shadows).value[..3] + ["--config", config.value] + Argv(b, None, shadows).value[3..]
  {
  }

  /** Compton's words are Picom's without `--experimental-backends
      --animations`. */
  lemma ComptonLacksAnimationFlags(bin: string, config: Option<string>, shadows: bool)
    ensures var picom := Argv(Backend(PICOM, Some(bin), Some(bin)), config, shadows).value;
            var compton := Argv(Backend(COMPTON, Some(bin), Some(bin)), config, shadows).value;
            var k := 3 + |ConfigArgs(config)|;
            picom == compton[..k] + ["--experimental-backends", "--animations"] + compton[k..]
  {
  }

  /** Xcompmgr ignores the configuration path; Compiz ignores both options. */
  lemma IgnoredOptions(b: Backend, c1: Option<string>, c2: Option<string>, s1: bool, s2: bool, hasBuffer: bool, buflen: nat)
    requires WellFormed(b)
    ensures b.choice == XCOMPMGR ==>
      BuildLaunchCommand(Some(b), c1, s1, hasBuffer, buflen) == BuildLaunchCommand(Some(b), c2, s1, hasBuffer, buflen)
    ensures b.choice == COMPIZ ==>
      BuildLaunchCommand(Some(b), c1, s1, hasBuffer, buflen) == BuildLaunchCommand(Some(b), c2, s2, hasBuffer, buflen)
  {
  }

  /** A table entry with a buffer large enough gets its whole command line:
      the argument vector joined with single spaces. */
  lemma TableLaunch(i: nat, config: Option<string>, shadows: bool)
    requires 1 <= i < 5
    ensures WellFormed(Backends[i]) && Argv(Backends[i], config, shadows).Some?
    ensures BuildLaunchCommand(GetBackend(Backends[i].choice), config, shadows, true, 256)
            == Launch(true, Some(Truncate(Join(Argv(Backends[i], config, shadows).value, ' '), 256)))
  {
    GetBackendTable();
  }

  /** The Picom line with a NULL or empty configuration path. */
  lemma PicomPlainCommand(config: Option<string>)
    ensures !HasConfig(config) ==>
      BuildLaunchCommand(GetBackend(PICOM), config, false, true, 256)
      == Launch(true, Some(Join(["picom", "--backend", "glx", "--experimental-backends", "--animations"], ' ')))
  {
    TableLaunch(1, config, false);
    ConfigArgument(Backends[1], config, false);
    PicomPlainArgv();
  }

  lemma PicomPlainArgv()
    ensures Argv(Backends[1], None, false).value == ["picom", "--backend", "glx", "--experimental-backends", "--animations"]
    ensures |Join(["picom", "--backend", "glx", "--experimental-backends", "--animations"], ' ')| < 256
  {
    JoinLength(["picom", "--backend", "glx", "--experimental-backends", "--animations"], ' ');
  }

  /** The Picom line with shadows and a NULL or empty configuration path:
      `--shadow` comes last. */
  lemma PicomShadowCommand(config: Option<string>)
    ensures !HasConfig(config) ==>
      BuildLaunchCommand(GetBackend(PICOM), config, true, true, 256)
      == Launch(true, Some(Join(["picom", "--backend", "glx", "--experimental-backends", "--animations",
                                 "--shadow"], ' ')))
  {
    TableLaunch(1, config, true);
    ConfigArgument(Backends[1], config, true);
    PicomShadowArgv();
  }

  lemma PicomShadowArgv()
    ensures Argv(Backends[1], None, true).value == ["picom", "--backend", "glx", "--experimental-backends", "--animations", "--shadow"]
    ensures |Join(["picom", "--backend", "glx", "--experimental-backends", "--animations", "--shadow"], ' ')| < 256
  {
    JoinLength(["picom", "--backend", "glx", "--experimental-backends", "--animations", "--shadow"], ' ');
  }

  /** The Picom line with the path /tmp/c.conf, placed right after
      `--backend glx`. */
  lemma PicomConfigCommand()
    ensures BuildLaunchCommand(GetBackend(PICOM), Some("/tmp/c.conf"), false, true, 256)
            == Launch(true, Some(Join(["picom", "--backend", "glx", "--config", "/tmp/c.conf",
                                       "--experimental-backends", "--animations"], ' ')))
  {
    TableLaunch(1, Some("/tmp/c.conf"), false);
    PicomConfigArgv();
  }

  lemma PicomConfigArgv()
    ensures Argv(Backends[1], Some("/tmp/c.conf"), false).value == ["picom", "--backend", "glx", "--config", "/tmp/c.conf", "--experimental-backends", "--animations"]
    ensures |Join(["picom", "--backend", "glx", "--config", "/tmp/c.conf", "--experimental-backends", "--animations"], ' ')| < 256
  {
    JoinLength(["picom", "--backend", "glx", "--config", "/tmp/c.conf", "--experimental-backends", "--animations"], ' ');
  }

  /** The Compton line with a path and shadows. */
  lemma ComptonCommand()
    ensures BuildLaunchCommand(GetBackend(COMPTON), Some("/tmp/c.conf"), true, true, 256)
            == Launch(true, Some(Join(["compton", "--backend", "glx", "--config", "/tmp/c.conf", "--shadow"], ' ')))
  {
    TableLaunch(2, Some("/tmp/c.conf"), true);
    ComptonArgv();
  }

  lemma ComptonArgv()
    ensures Argv(Backends[2], Some("/tmp/c.conf"), true).value == ["compton", "--backend", "glx", "--config", "/tmp/c.conf", "--shadow"]
    ensures |Join(["compton", "--backend", "glx", "--config", "/tmp/c.conf", "--shadow"], ' ')| < 256
  {
    JoinLength(["compton", "--backend", "glx", "--config", "/tmp/c.conf", "--shadow"], ' ');
  }

  /** The Xcompmgr line with shadows, whatever the configuration path: the
      path is dropped and shadows become `-c`. */
  lemma XcompmgrCommand(config: Option<string>)
    ensures BuildLaunchCommand(GetBackend(XCOMPMGR), config, true, true, 256)
            == Launch(true, Some(Join(["xcompmgr", "-c"], ' ')))
  {
    TableLaunch(3, config, true);
    XcompmgrArgv(config);
  }

  lemma XcompmgrArgv(config: Option<string>)
    ensures Argv(Backends[3], config, true).value == ["xcompmgr", "-c"]
    ensures |Join(["xcompmgr", "-c"], ' ')| < 256
  {
    JoinLength(["xcompmgr", "-c"], ' ');
  }

  /** The Compiz line, whatever the path and the shadow flag. */
  lemma CompizCommand(config: Option<string>, shadows: bool)
    ensures BuildLaunchCommand(GetBackend(COMPIZ), config, shadows, true, 256)
            == Launch(true, Some(Join(["compiz", "--replace", "ccp"], ' ')))
  {
    TableLaunch(4, config, shadows);
    CompizArgv(config, shadows);
  }

  lemma CompizArgv(config: Option<string>, shadows: bool)
    ensures Argv(Backends[4], config, shadows).value == ["compiz", "--replace", "ccp"]
    ensures |Join(["compiz", "--replace", "ccp"], ' ')| < 256
  {
    JoinLength(["compiz", "--replace", "ccp"], ' ');
  }

  /** A seven-byte buffer keeps the first six bytes of the Compiz line. */
  lemma CompizTruncated()
    ensures BuildLaunchCommand(GetBackend(COMPIZ), None, false, true, 7) == Launch(true, Some("compiz"))
  {
    GetBackendTable();
    assert GetBackend(COMPIZ) == Some(Backends[4]);
    var t := CommandText(Backends[4], None, false).value;
    assert t == "compiz" + " --replace ccp";
    assert t[..6] == "compiz";
  }

  /** A backend value outside the table whose choice no rule matches is
      refused, and the buffer is left holding the empty string. */
  lemma UnknownChoiceRefused(b: Backend, config: Option<string>, shadows: bool, buflen: nat)
    requires !IsKnownChoice(b.choice) && buflen > 0
    ensures BuildLaunchCommand(Some(b), config, shadows, true, buflen) == Launch(false, Some(""))
  {
  }
}
