/** Character classes and small sequence utilities shared by the scanner.
    Characters are Unicode scalar values; the classes below are the ASCII
    parts of Rust's `char::is_whitespace` and of the regex class `\w`. */
module Text {

  datatype Option<T> = None | Some(value: T)

  /** The ASCII characters for which Rust's `char::is_whitespace` holds. */
  predicate IsWhitespace(c: char) {
    c == ' ' || c == '\t' || c == '\n' || c == '\U{000B}' || c == '\U{000C}' || c == '\r'
  }

  /** The ASCII members of the regex class `\w`. */
  predicate IsWordChar(c: char) {
    ('a' <= c <= 'z') || ('A' <= c <= 'Z') || ('0' <= c <= '9') || c == '_'
  }

  predicate IsAscii(c: char) {
    c as int < 0x80
  }

  predicate AllAscii(s: string) {
    forall i | 0 <= i < |s| :: IsAscii(s[i])
  }

  predicate AllWhitespace(s: string) {
    forall i | 0 <= i < |s| :: IsWhitespace(s[i])
  }

  /** Number of bytes the UTF-8 encoding of `c` takes. */
  function Utf8Width(c: char): (w: nat)
    ensures 1 <= w <= 4
    ensures w == 1 <==> IsAscii(c)
  {
    if c as int < 0x80 then 1
    else if c as int < 0x800 then 2
    else if c as int < 0x1_0000 then 3
    else 4
  }

  /** Rust's `str::len`: the length in bytes of the UTF-8 encoding of `s`,
      never below the number of characters. */
  function Utf8Length(s: string): (n: nat)
    ensures n >= |s|
  {
    if s == [] then 0 else Utf8Length(s[..|s| - 1]) + Utf8Width(s[|s| - 1])
  }

  /** The byte length equals the number of characters exactly when every
      character is ASCII. */
  lemma {:induction false} Utf8LengthAscii(s: string)
    ensures Utf8Length(s) == |s| <==> AllAscii(s)
  {
    if s != [] {
      var init := s[..|s| - 1];
      Utf8LengthAscii(init);
      assert forall i | 0 <= i < |init| :: init[i] == s[i];
    }
  }

  /** Position of the first occurrence of `c` in `s`, if any. */
  function IndexOf(s: string, c: char): (r: Option<nat>)
    ensures r.Some? ==> r.value < |s| && s[r.value] == c && c !in s[..r.value]
    ensures r.None? ==> c !in s
  {
    if s == [] then None
    else if s[0] == c then Some(0)
    else
      match IndexOf(s[1..], c)
      case None => None
      case Some(i) =>
        assert s[..i + 1] == [s[0]] + s[1..][..i];
        Some(i + 1)
  }

  /** The first occurrence is the one `IndexOf` reports. */
  lemma IndexOfFirst(s: string, c: char, j: nat)
    requires j < |s| && s[j] == c && c !in s[..j]
    ensures IndexOf(s, c) == Some(j)
  {
    assert s[j] in s;
    var r := IndexOf(s, c);
    forall t | 0 <= t < j ensures s[t] != c {
      assert s[..j][t] == s[t];
    }
    forall t | 0 <= t < r.value ensures s[t] != c {
      assert s[..r.value][t] == s[t];
    }
  }

  /** Rust's `str::split` on a single character: the pieces between the
      separators, an empty piece for each empty stretch, always at least one. */
  function Split(s: string, sep: char): (parts: seq<string>)
    ensures |parts| >= 1
    ensures forall i | 0 <= i < |parts| :: sep !in parts[i]
    ensures Join(parts, sep) == s
    decreases |s|
  {
    match IndexOf(s, sep)
    case None => [s]
    case Some(i) =>
      var rest := Split(s[i + 1..], sep);
      assert s == s[..i] + [sep] + s[i + 1..];
      assert ([s[..i]] + rest)[1..] == rest;
      [s[..i]] + rest
  }

  /** The pieces put back together, one separator between each two. */
  function Join(parts: seq<string>, sep: char): string
    requires |parts| >= 1
  {
    if |parts| == 1 then parts[0] else parts[0] + [sep] + Join(parts[1..], sep)
  }

  /** Splitting a joined sequence of separator-free pieces gives the pieces back. */
  lemma {:induction false} SplitJoin(parts: seq<string>, sep: char)
    requires |parts| >= 1
    requires forall i | 0 <= i < |parts| :: sep !in parts[i]
    ensures Split(Join(parts, sep), sep) == parts
  {
    var s := Join(parts, sep);
    if |parts| == 1 {
      assert IndexOf(s, sep) == None;
    } else {
      var rest := Join(parts[1..], sep);
      assert s == parts[0] + [sep] + rest;
      assert s[|parts[0]|] == sep && s[..|parts[0]|] == parts[0];
      IndexOfFirst(s, sep, |parts[0]|);
      assert s[|parts[0]| + 1..] == rest;
      SplitJoin(parts[1..], sep);
    }
  }
}
