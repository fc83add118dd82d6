/** `quote_for_shell` (WPrefs.app/EffectsCompositor.c), which wraps a path in
    single quotes for `/bin/sh -c`, and the reading a POSIX shell gives such a
    word (section 2.2 "Quoting" of the Shell Command Language, POSIX.1-2017). */
module ShellQuote {
  import opened Wrappers
  import opened CText

  /** How many single quotes `s` holds. */
  function Quotes(s: string): nat {
    if s == [] then 0 else (if s[0] == '\'' then 1 else 0) + Quotes(s[1..])
  }

  /** One character of the quoted body: a single quote closes the quoting,
      adds an escaped quote and reopens it. */
  function EscapeChar(c: char): string {
    if c == '\'' then "'\\''" else [c]
  }

  /** The body between the outer quotes. */
  function Escape(s: string): (r: string)
    ensures |r| == |s| + 3 * Quotes(s)
  {
    if s == [] then [] else EscapeChar(s[0]) + Escape(s[1..])
  }

  lemma {:induction false} EscapeAppend(s: string, t: string)
    ensures Escape(s + t) == Escape(s) + Escape(t)
    decreases |s|
  {
    if s != [] {
      assert (s + t)[1..] == s[1..] + t;
      EscapeAppend(s[1..], t);
    } else {
      assert s + t == t;
    }
  }

  /** The quoted word for a non-NULL path. */
  function Quoted(path: string): (r: string)
    ensures |r| == |path| + 2 + 3 * Quotes(path)
    ensures r[0] == '\'' && r[|r| - 1] == '\''
  {
    "'" + Escape(path) + "'"
  }

  /** `quote_for_shell`: NULL for NULL, otherwise the single-quoted word. */
  function QuoteForShell(path: Option<string>): (r: Option<string>)
    ensures r.None? <==> path.None?
    ensures r.Some? ==> |r.value| == |path.value| + 2 + 3 * Quotes(path.value)
    ensures r.Some? ==> r.value[0] == '\'' && r.value[|r.value| - 1] == '\''
  {
    match path
    case None => None
    case Some(p) => Some(Quoted(p))
  }

  /** Characters that must be quoted to stand for themselves (POSIX section
      2.2),
      together with those that are special in some contexts. */
  predicate NeedsQuoting(c: char) {
    c in "|&;<>()$`\\\"' \t\n*?[#~=%"
  }

  /** `r` with `c` in front, when there is an `r`. */
  function Cons(c: char, r: Option<string>): Option<string> {
    match r
    case None => None
    case Some(s) => Some([c] + s)
  }

  /** The literal text a POSIX shell reads for one word made of quoted and
      escaped pieces: inside single quotes every character but `'` stands for
      itself (POSIX section 2.2.2); outside, a backslash keeps the next character
      literal and a backslash-newline is removed (POSIX section 2.2.1). None for text
      that is not such a single word: an unterminated quote, a trailing
      backslash, or an unquoted special character. */
  function Unquote(s: string, inQuotes: bool): Option<string>
    decreases |s|
  {
    if s == [] then (if inQuotes then None else Some([]))
    else if inQuotes then
      if s[0] == '\'' then Unquote(s[1..], false) else Cons(s[0], Unquote(s[1..], true))
    else if s[0] == '\'' then Unquote(s[1..], true)
    else if s[0] == '\\' then
      if |s| == 1 then None
      else if s[1] == '\n' then Unquote(s[2..], false)
      else Cons(s[1], Unquote(s[2..], false))
    else if NeedsQuoting(s[0]) then None
    else Cons(s[0], Unquote(s[1..], false))
  }

  /** `r` with `p` in front, when there is an `r`. */
  function Prepend(p: string, r: Option<string>): Option<string> {
    match r
    case None => None
    case Some(s) => Some(p + s)
  }

  /** Inside quotes, `'\''` closes the quoting, yields one escaped quote and
      reopens the quoting. */
  lemma UnquoteQuoteStep(tail: string)
    ensures Unquote("'\\''" + tail, true) == Cons('\'', Unquote(tail, true))
  {
    var w := "'\\''" + tail;
    assert w[0] == '\'';
    assert w[1..][0] == '\\' && w[1..][1] == '\'';
    assert w[1..][2..] == "'" + tail;
    assert ("'" + tail)[1..] == tail;
    assert Unquote("'" + tail, false) == Unquote(tail, true);
    assert Unquote(w[1..], false) == Cons('\'', Unquote("'" + tail, false));
  }

  /** Inside quotes, any other character stands for itself. */
  lemma UnquotePlainStep(c: char, tail: string)
    requires c != '\''
    ensures Unquote([c] + tail, true) == Cons(c, Unquote(tail, true))
  {
    assert ([c] + tail)[1..] == tail;
  }

  lemma ConsPrepend(c: char, s: string, r: Option<string>)
    ensures Cons(c, Prepend(s, r)) == Prepend([c] + s, r)
  {
    match r
    case None =>
    case Some(t) => Assoc([c], s, t);
  }

  /** Read from inside single quotes, the escaped body gives back its text and
      leaves the shell inside quotes again. */
  lemma {:induction false} UnquoteEscaped(s: string, rest: string)
    ensures Unquote(Escape(s) + rest, true) == Prepend(s, Unquote(rest, true))
    decreases |s|
  {
    if s == [] {
      assert Escape(s) + rest == rest;
      match Unquote(rest, true)
      case None =>
      case Some(t) => assert s + t == t;
    } else {
      var tail := Escape(s[1..]) + rest;
      UnquoteEscaped(s[1..], rest);
      Assoc(EscapeChar(s[0]), Escape(s[1..]), rest);
      if s[0] == '\'' {
        UnquoteQuoteStep(tail);
      } else {
        UnquotePlainStep(s[0], tail);
      }
      ConsPrepend(s[0], s[1..], Unquote(rest, true));
      assert [s[0]] + s[1..] == s;
    }
  }

  /** Unquoting by the shell's rules gives back exactly the path that was
      quoted. */
  lemma QuoteRoundTrip(path: string)
    ensures Unquote(QuoteForShell(Some(path)).value, false) == Some(path)
  {
    var q := Quoted(path);
    assert q[1..] == Escape(path) + "'";
    UnquoteEscaped(path, "'");
    assert Unquote("'", true) == Some([]);
    assert path + [] == path;
  }

  /** Different paths get different quoted words. */
  lemma QuoteInjective(a: string, b: string)
    requires QuoteForShell(Some(a)) == QuoteForShell(Some(b))
    ensures a == b
  {
    QuoteRoundTrip(a);
    QuoteRoundTrip(b);
  }

  /** One more character of the path adds its escaped form to the body built
      so far and removes it from the body still to come. */
  lemma EscapeStep(path: string, i: nat)
    requires i < |path|
    ensures Escape(path[..i + 1]) == Escape(path[..i]) + EscapeChar(path[i])
    ensures |Escape(path[i..])| == |EscapeChar(path[i])| + |Escape(path[i + 1..])|
  {
    EscapePrefixStep(path, i);
    EscapeSuffixStep(path, i);
  }

  lemma EscapePrefixStep(path: string, i: nat)
    requires i < |path|
    ensures Escape(path[..i + 1]) == Escape(path[..i]) + EscapeChar(path[i])
  {
    var c := path[i];
    EscapeSingle(c);
    assert path[..i + 1] == path[..i] + [c];
    EscapeAppend(path[..i], [c]);
  }

  lemma EscapeSuffixStep(path: string, i: nat)
    requires i < |path|
    ensures |Escape(path[i..])| == |EscapeChar(path[i])| + |Escape(path[i + 1..])|
  {
    var c := path[i];
    EscapeSingle(c);
    assert path[i..] == [c] + path[i + 1..];
    EscapeAppend([c], path[i + 1..]);
  }

  lemma EscapeSingle(c: char)
    ensures Escape([c]) == EscapeChar(c)
  {
    assert [c][1..] == [];
    AppendEmpty(EscapeChar(c));
  }

  /** The first pass of `quote_for_shell`: `len` starts at 2 and grows by 4 per
      quote and by 1 for any other character. */
  method QuotedLength(path: string) returns (len: nat)
    ensures len == |path| + 2 + 3 * Quotes(path)
  {
    len := 2;
    var i := 0;
    while i < |path|
      invariant 0 <= i <= |path|
      invariant len == 2 + |Escape(path[..i])|
    {
      EscapeStep(path, i);
      if path[i] == '\'' {
        len := len + 4;
      } else {
        len := len + 1;
      }
      i := i + 1;
    }
    assert path[..|path|] == path;
  }

  /** Writes the escaped form of one character at `dst`, as the second loop's
      body does. */
  method PutEscaped(a: array<char>, dst: nat, c: char) returns (next: nat)
    requires dst + |EscapeChar(c)| <= a.Length
    modifies a
    ensures next == dst + |EscapeChar(c)|
    ensures a[..next] == old(a[..dst]) + EscapeChar(c)
  {
    if c == '\'' {
      a[dst], a[dst + 1], a[dst + 2], a[dst + 3] := '\'', '\\', '\'', '\'';
      next := dst + 4;
    } else {
      a[dst] := c;
      next := dst + 1;
    }
  }

  /** The second pass: the buffer of `len + 1` bytes is filled with the opening
      quote, the escaped body, the closing quote and the terminator, which lands
      in its last byte. */
  method QuoteForShellBuffer(path: string) returns (buffer: seq<char>)
    ensures |buffer| == |path| + 3 * Quotes(path) + 3
    ensures buffer == Quoted(path) + ['\0']
  {
    var len := QuotedLength(path);
    var a := new char[len + 1];
    a[0] := '\'';
    var dst: nat := 1;
    var i := 0;
    assert path[0..] == path;
    while i < |path|
      invariant 0 <= i <= |path|
      invariant dst + |Escape(path[i..])| + 1 == len
      invariant a[..dst] == "'" + Escape(path[..i])
    {
      EscapeStep(path, i);
      Assoc("'", Escape(path[..i]), EscapeChar(path[i]));
      dst := PutEscaped(a, dst, path[i]);
      i := i + 1;
    }
    assert path[..|path|] == path;
    a[dst], a[dst + 1] := '\'', '\0';
    assert a[..] == a[..dst] + ['\''] + ['\0'];
    buffer := a[..];
  }
}
