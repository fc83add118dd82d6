/** The executable search that src/compositor.c (`wCompositorBackendAvailable`)
    and WPrefs.app/EffectsCompositor.c (`command_exists`) each carry a copy of.
    The live environment is a parameter: the value of `PATH` and the
    `access(X_OK) == 0` predicate. */
module ExecSearch {
  import opened Wrappers
  import opened CText

  /** The environment the search reads: `getenv("PATH")` (None when unset) and
      whether `access(path, X_OK)` succeeds for a path. */
  datatype Env = Env(path: Option<string>, executable: string -> bool)

  /** The directory tried for a `strtok` token; the empty-token case (".") is
      carried over from the code, although `strtok` never produces it. */
  function Dir(token: string): string {
    if token == [] then "." else token
  }

  /** The candidate path the loop builds with `snprintf(candidate, len, "%s/%s")`,
      where `len` leaves room for the whole path and its terminator. */
  function Candidate(dir: string, binary: string): (r: string)
    ensures r == dir + "/" + binary
  {
    Truncate(dir + "/" + binary, |dir| + |binary| + 2)
  }

  /** The index of the first token whose candidate path is executable: the loop
      stops at the first hit. */
  function FirstHit(tokens: seq<string>, binary: string, executable: string -> bool): (r: Option<nat>)
    ensures r.Some? ==> r.value < |tokens| && executable(Candidate(Dir(tokens[r.value]), binary))
    ensures r.Some? ==> forall j :: 0 <= j < r.value ==> !executable(Candidate(Dir(tokens[j]), binary))
    ensures r.None? ==> forall j :: 0 <= j < |tokens| ==> !executable(Candidate(Dir(tokens[j]), binary))
  {
    if tokens == [] then None
    else if executable(Candidate(Dir(tokens[0]), binary)) then Some(0)
    else
      match FirstHit(tokens[1..], binary, executable)
      case Some(k) => Some(k + 1)
      case None => None
  }

  /** The shared part of both searches, reached with a non-empty binary name:
      a name with a slash is tried as it stands, an unset or empty `PATH` finds
      nothing, and a hit is some `PATH` token `d` with `d/binary` executable. */
  function Locate(binary: string, env: Env): (r: bool)
    ensures '/' in binary ==> (r <==> env.executable(binary))
    ensures '/' !in binary && (env.path.None? || env.path.value == []) ==> !r
    ensures '/' !in binary && r ==>
      exists d :: d in Tokens(env.path.value, ':') && env.executable(d + "/" + binary)
  {
    if '/' in binary then env.executable(binary)
    else if env.path.None? || env.path.value == [] then false
    else
      var tokens := Tokens(env.path.value, ':');
      var hit := FirstHit(tokens, binary, env.executable);
      assert hit.Some? ==> tokens[hit.value] in tokens && Dir(tokens[hit.value]) == tokens[hit.value];
      hit.Some?
  }

  /** The "." substitution never happens: every `strtok` token is a non-empty
      directory name. */
  lemma DirIsToken(path: string)
    ensures forall i :: 0 <= i < |Tokens(path, ':')| ==> Dir(Tokens(path, ':')[i]) == Tokens(path, ':')[i]
  {
  }

  /** A name with a slash is checked directly and `PATH` plays no part. */
  lemma LocateDirect(binary: string, env: Env, path: Option<string>)
    requires '/' in binary
    ensures Locate(binary, env) == env.executable(binary)
    ensures Locate(binary, env) == Locate(binary, Env(path, env.executable))
  {
  }

  /** A bare name is found iff some non-empty `:`-separated field `d` of `PATH`
      has `d/binary` executable; an unset `PATH` finds nothing, and an empty
      field is skipped rather than read as the current directory. */
  lemma LocateBySegments(binary: string, env: Env)
    requires '/' !in binary
    ensures Locate(binary, env) <==>
      env.path.Some? &&
      exists d :: d in Split(env.path.value, ':') && d != [] && env.executable(d + "/" + binary)
  {
    if env.path.Some? {
      var path := env.path.value;
      var tokens := Tokens(path, ':');
      TokensAreNonEmptyFields(path, ':');
      DirIsToken(path);
      if Locate(binary, env) {
        var i := FirstHit(tokens, binary, env.executable).value;
        NonEmptyMembers(Split(path, ':'), tokens[i]);
        assert tokens[i] in Split(path, ':') && tokens[i] != [] && env.executable(tokens[i] + "/" + binary);
      }
      if exists d :: d in Split(path, ':') && d != [] && env.executable(d + "/" + binary) {
        var d :| d in Split(path, ':') && d != [] && env.executable(d + "/" + binary);
        NonEmptyMembers(Split(path, ':'), d);
        var i :| 0 <= i < |tokens| && tokens[i] == d;
        assert FirstHit(tokens, binary, env.executable).Some?;
      }
    }
  }

  /** A `PATH` of "/a:/b" with only /b/tool executable finds "tool"; with
      nothing executable it does not. */
  lemma LocateTwoDirectories()
    ensures Locate("tool", Env(Some("/a:/b"), (p: string) => p == "/b/tool"))
    ensures !Locate("tool", Env(Some("/a:/b"), (p: string) => false))
  {
    var found := Env(Some("/a:/b"), (p: string) => p == "/b/tool");
    var none := Env(Some("/a:/b"), (p: string) => false);
    TwoFields();
    assert "/b" + "/" + "tool" == "/b/tool";
    assert "/b" in Split(found.path.value, ':') && found.executable("/b" + "/" + "tool");
    LocateBySegments("tool", found);
    NoField("tool", none);
  }

  lemma TwoFields()
    ensures Split("/a:/b", ':') == ["/a", "/b"]
  {
    assert Join(["/a", "/b"], ':') == "/a:/b";
    SplitJoin(["/a", "/b"], ':');
  }

  /** An empty `PATH` field does not stand for the current directory: with
      "/a::/b" and only ./tool executable, "tool" is not found. */
  lemma EmptyFieldIsNotCurrentDirectory()
    ensures !Locate("tool", Env(Some("/a::/b"), (p: string) => p == "./tool"))
  {
    var env := Env(Some("/a::/b"), (p: string) => p == "./tool");
    forall d | d in Split(env.path.value, ':') && d != []
      ensures !env.executable(d + "/" + "tool")
    {
      SplitWithEmptyField();
      NotCurrentDirectory(d);
    }
    NoField("tool", env);
  }

  /** A bare name that no non-empty field holds is not found. */
  lemma NoField(binary: string, env: Env)
    requires '/' !in binary && env.path.Some?
    requires forall d :: d in Split(env.path.value, ':') && d != [] ==> !env.executable(d + "/" + binary)
    ensures !Locate(binary, env)
  {
    LocateBySegments(binary, env);
  }

  /** A candidate under /a or /b is not ./tool: the first byte differs. */
  lemma NotCurrentDirectory(d: string)
    requires d in ["/a", "", "/b"] && d != []
    ensures d + "/" + "tool" != "./tool"
  {
    assert d[0] == '/';
    assert (d + "/" + "tool")[0] == '/';
    assert "./tool"[0] == '.';
  }

  lemma SplitWithEmptyField()
    ensures Split("/a::/b", ':') == ["/a", "", "/b"]
  {
    var parts: seq<string> := ["/a", "", "/b"];
    assert parts[1..] == ["", "/b"];
    assert Join(["", "/b"], ':') == ":/b";
    assert Join(parts, ':') == "/a::/b";
    assert forall i :: 0 <= i < |parts| ==> ':' !in parts[i];
    SplitJoin(parts, ':');
  }
}
