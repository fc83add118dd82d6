/** C string helpers shared by the model: ASCII case folding and `strcasecmp`,
    field splitting and joining, `strtok` tokenisation, and `snprintf` truncation.
    A `string` stands for the bytes of a C string before its terminator, one
    `char` per byte. */
module CText {

  /** A C string never holds its own terminator. */
  predicate CString(s: string) {
    forall i :: 0 <= i < |s| ==> s[i] != '\0'
  }

  /** `tolower` in the "C" locale: only 'A'..'Z' change. */
  function Lower(c: char): (r: char)
    ensures 'A' <= c <= 'Z' ==> 'a' <= r <= 'z'
    ensures !('A' <= c <= 'Z') ==> r == c
    ensures c != '\0' ==> r != '\0'
  {
    if 'A' <= c <= 'Z' then (c as int + 32) as char else c
  }

  function ToLower(s: string): (r: string)
    ensures |r| == |s|
    ensures forall i :: 0 <= i < |s| ==> r[i] == Lower(s[i])
  {
    if s == [] then [] else [Lower(s[0])] + ToLower(s[1..])
  }

  /** The folded code of the first character, 0 standing for the terminator. */
  function HeadCode(s: string): int {
    if s == [] then 0 else Lower(s[0]) as int
  }

  /** `strcasecmp`: the difference of the first pair of folded characters that
      differ, where the end of a string reads as the terminator. */
  function StrCaseCmp(a: string, b: string): (r: int)
    ensures a == b ==> r == 0
    ensures CString(a) && CString(b) && r == 0 ==> |a| == |b|
    decreases |a|
  {
    if a == [] || b == [] || Lower(a[0]) != Lower(b[0]) then HeadCode(a) - HeadCode(b)
    else StrCaseCmp(a[1..], b[1..])
  }

  /** Case-insensitive equality, as the lookups use it. */
  predicate EqualIgnoringCase(a: string, b: string) {
    ToLower(a) == ToLower(b)
  }

  /** `strcasecmp` reports a match exactly when the two strings agree after ASCII
      case folding. */
  lemma {:induction false} StrCaseCmpZeroIff(a: string, b: string)
    requires CString(a) && CString(b)
    ensures StrCaseCmp(a, b) == 0 <==> EqualIgnoringCase(a, b)
    decreases |a|
  {
    if a == [] || b == [] {
      if a != [] {
        assert Lower(a[0]) != '\0';
        assert |ToLower(a)| != |ToLower(b)|;
      } else if b != [] {
        assert Lower(b[0]) != '\0';
        assert |ToLower(a)| != |ToLower(b)|;
      }
    } else if Lower(a[0]) != Lower(b[0]) {
      assert ToLower(a)[0] != ToLower(b)[0];
    } else {
      StrCaseCmpZeroIff(a[1..], b[1..]);
      assert ToLower(a) == [Lower(a[0])] + ToLower(a[1..]);
      assert ToLower(b) == [Lower(b[0])] + ToLower(b[1..]);
      if ToLower(a) == ToLower(b) {
        assert ToLower(a[1..]) == ToLower(a)[1..];
        assert ToLower(b[1..]) == ToLower(b)[1..];
      }
    }
  }

  /** Position of the first `sep` in `s`, or `|s|` when there is none. */
  function FirstIndexOf(s: string, sep: char): (k: nat)
    ensures k <= |s|
    ensures forall i :: 0 <= i < k ==> s[i] != sep
    ensures k < |s| ==> s[k] == sep
  {
    if s == [] || s[0] == sep then 0 else 1 + FirstIndexOf(s[1..], sep)
  }

  /** Splits `s` at every `sep`, keeping empty fields: the reference reading of a
      separator-delimited list. */
  function Split(s: string, sep: char): (r: seq<string>)
    ensures |r| >= 1
    decreases |s|
  {
    var k := FirstIndexOf(s, sep);
    if k == |s| then [s] else [s[..k]] + Split(s[k + 1..], sep)
  }

  /** Concatenates `parts` with one `sep` between neighbours. */
  function Join(parts: seq<string>, sep: char): string
  {
    if |parts| == 0 then []
    else if |parts| == 1 then parts[0]
    else parts[0] + [sep] + Join(parts[1..], sep)
  }

  /** Concatenation regroups freely. */
  lemma Assoc(a: string, b: string, c: string)
    ensures a + (b + c) == a + b + c
  {
  }

  /** The empty text adds nothing. */
  lemma AppendEmpty(a: string)
    ensures a + "" == a
  {
  }

  /** The room the words take with one separator (or terminator) after each. */
  function Width(parts: seq<string>): nat {
    if parts == [] then 0 else |parts[0]| + 1 + Width(parts[1..])
  }

  /** The joined text is one byte shorter than its words and separators. */
  lemma {:induction false} JoinLength(parts: seq<string>, sep: char)
    requires |parts| >= 1
    ensures |Join(parts, sep)| + 1 == Width(parts)
  {
    if |parts| > 1 {
      JoinLength(parts[1..], sep);
    }
  }

  /** One step of `Split`: the field before the first separator, then the
      fields of the rest. */
  lemma SplitStep(s: string, sep: char)
    requires FirstIndexOf(s, sep) < |s|
    ensures Split(s, sep) == [s[..FirstIndexOf(s, sep)]] + Split(s[FirstIndexOf(s, sep) + 1..], sep)
  {
  }

  /** Joining a leading part onto a non-empty list puts one separator between. */
  lemma JoinCons(p: string, rest: seq<string>, sep: char)
    requires |rest| >= 1
    ensures Join([p] + rest, sep) == p + [sep] + Join(rest, sep)
  {
    assert ([p] + rest)[1..] == rest;
  }

  lemma FirstIndexOfJoined(p: string, sep: char, rest: string)
    requires sep !in p
    ensures FirstIndexOf(p + [sep] + rest, sep) == |p|
  {
    var s := p + [sep] + rest;
    assert s[|p|] == sep;
  }

  /** Joining separator-free parts and splitting again gives back the parts. */
  lemma {:induction false} SplitJoin(parts: seq<string>, sep: char)
    requires |parts| >= 1
    requires forall i :: 0 <= i < |parts| ==> sep !in parts[i]
    ensures Split(Join(parts, sep), sep) == parts
    decreases |parts|
  {
    if |parts| > 1 {
      var rest := Join(parts[1..], sep);
      var s := parts[0] + [sep] + rest;
      FirstIndexOfJoined(parts[0], sep, rest);
      assert s[..|parts[0]|] == parts[0];
      assert s[|parts[0]| + 1..] == rest;
      SplitJoin(parts[1..], sep);
      assert parts == [parts[0]] + parts[1..];
    }
  }

  /** The tokens `strtok(s, sep)` hands out one after another: separators are
      skipped, then the longest separator-free run is returned. */
  function Tokens(s: string, sep: char): (r: seq<string>)
    ensures forall i :: 0 <= i < |r| ==> r[i] != [] && sep !in r[i]
    decreases |s|
  {
    if s == [] then []
    else if s[0] == sep then Tokens(s[1..], sep)
    else
      var k := FirstIndexOf(s, sep);
      [s[..k]] + Tokens(s[k..], sep)
  }

  /** The non-empty members of `fields`, in order. */
  function NonEmpty(fields: seq<string>): (r: seq<string>)
    ensures |r| <= |fields|
  {
    if fields == [] then []
    else if fields[0] == [] then NonEmpty(fields[1..])
    else [fields[0]] + NonEmpty(fields[1..])
  }

  lemma {:induction false} NonEmptyMembers(fields: seq<string>, x: string)
    ensures x in NonEmpty(fields) <==> x in fields && x != []
    decreases |fields|
  {
    if fields != [] {
      NonEmptyMembers(fields[1..], x);
      assert fields == [fields[0]] + fields[1..];
    }
  }

  /** `strtok` yields exactly the non-empty fields, in order: an empty field
      (two adjacent separators, or one at either end) produces no token. */
  lemma {:induction false} TokensAreNonEmptyFields(s: string, sep: char)
    ensures Tokens(s, sep) == NonEmpty(Split(s, sep))
    decreases |s|
  {
    if s == [] {
    } else if s[0] == sep {
      TokensAreNonEmptyFields(s[1..], sep);
      assert FirstIndexOf(s, sep) == 0;
      assert Split(s, sep) == [[]] + Split(s[1..], sep);
    } else {
      var k := FirstIndexOf(s, sep);
      if k < |s| {
        assert s[k..][0] == sep;
        assert s[k..][1..] == s[k + 1..];
        TokensAreNonEmptyFields(s[k + 1..], sep);
        assert s[..k] != [];
      } else {
        assert s[k..] == [];
        assert s[..k] == s;
      }
    }
  }

  /** What `snprintf(buf, size, ...)` stores for the full output `s`: at most
      `size - 1` characters, then the terminator. */
  function Truncate(s: string, size: nat): (r: string)
    requires size >= 1
    ensures |r| < size
    ensures r <= s
    ensures |s| < size ==> r == s
    ensures |s| >= size ==> |r| == size - 1
  {
    if |s| < size then s else s[..size - 1]
  }
}
