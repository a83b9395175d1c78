/** What the line scan makes of the annotation lines a controller contains:
    which lines yield a record, which verb and path the record holds, and
    the lines on which the scan panics. */
module LineProperties {
  import opened Text
  import opened Verbs
  import opened LineParser

  // ---------------------------------------------------------------------
  // Facts about the helper functions

  lemma {:induction false} NonWhitespaceConcat(a: string, b: string)
    ensures NonWhitespace(a + b) == NonWhitespace(a) + NonWhitespace(b)
    decreases |b|
  {
    if b == [] {
      assert a + b == a;
    } else {
      var init := b[..|b| - 1];
      var c := b[|b| - 1];
      assert b == init + [c];
      assert a + b == (a + init) + [c];
      NonWhitespaceConcat(a, init);
      NonWhitespaceSnoc(a + init, c);
      NonWhitespaceSnoc(init, c);
    }
  }

  lemma {:induction false} NonWhitespaceOfWhitespace(s: string)
    requires AllWhitespace(s)
    ensures NonWhitespace(s) == []
  {
    if s != [] {
      NonWhitespaceOfWhitespace(s[..|s| - 1]);
    }
  }

  lemma {:induction false} NonWhitespaceOfWord(s: string)
    requires forall i | 0 <= i < |s| :: !IsWhitespace(s[i])
    ensures NonWhitespace(s) == s
  {
    if s != [] {
      NonWhitespaceOfWord(s[..|s| - 1]);
      assert s == s[..|s| - 1] + [s[|s| - 1]];
    }
  }

  lemma {:induction false} TrimStartsAfterIndent(indent: string, s: string)
    requires AllWhitespace(indent)
    ensures TrimStartsWithAt(indent + s) == TrimStartsWithAt(s)
  {
    if indent != [] {
      assert (indent + s)[0] == indent[0] && IsWhitespace(indent[0]);
      assert (indent + s)[1..] == indent[1..] + s;
      assert TrimStartsWithAt(indent + s) == TrimStartsWithAt((indent + s)[1..]);
      assert forall i | 0 <= i < |indent| - 1 :: indent[1..][i] == indent[i + 1];
      TrimStartsAfterIndent(indent[1..], s);
    } else {
      assert indent + s == s;
    }
  }

  /** The non-whitespace characters of an indented annotation name are the name. */
  lemma IndentedName(indent: string, name: string)
    requires AllWhitespace(indent) && IsAnnotationShaped(name)
    ensures NonWhitespace(indent + name) == name
  {
    NonWhitespaceConcat(indent, name);
    NonWhitespaceOfWhitespace(indent);
    NonWhitespaceOfWord(name);
  }

  /** A line made of indentation, an annotation-shaped name and anything
      after it passes the filter. */
  lemma ShapedLineQualifies(indent: string, name: string, tail: string)
    requires AllWhitespace(indent) && IsAnnotationShaped(name)
    ensures Qualifies(indent + name + tail)
  {
    var line := indent + name + tail;
    var i := |indent|;
    var j := |indent| + |name| - 7;
    assert forall t | 0 <= t < |name| :: line[i + t] == name[t];
    assert line[j..j + 7] == name[|name| - 7..];
    assert EndpointPatternAt(line, i, j);
    assert line == indent + (name + tail);
    TrimStartsAfterIndent(indent, name + tail);
  }

  /** So such a line followed by '(' is what the automaton makes of it. */
  lemma ParenthesisedLineParse(indent: string, name: string, rest: string) returns (last: int)
    requires AllWhitespace(indent) && IsAnnotationShaped(name)
    ensures last == Utf8Length(indent + name + "(" + rest) - 1 && last >= |indent| + |name|
    ensures Parse(indent + name + "(" + rest) == Automaton(indent + name + "(" + rest, last)
  {
    var line := indent + name + "(" + rest;
    last := Utf8Length(line) - 1;
    assert Parse(line) == Automaton(line, last) by {
      assert line == indent + name + ("(" + rest);
      ShapedLineQualifies(indent, name, "(" + rest);
    }
  }

  /** The first index ending the name is the one `NameEnd` reports. */
  lemma NameEndsAt(line: string, last: int, k: nat)
    requires k < |line| && EndsName(line, last, k)
    requires forall t | 0 <= t < k :: !EndsName(line, last, t)
    ensures NameEnd(line, last, 0) == Some(k)
  {
  }

  // ---------------------------------------------------------------------
  // Lines whose annotation name is followed by '('

  /** In an indented annotation-shaped name followed by '(', the name ends
      at the '(' and reads as the name itself, whatever index past the '('
      the end test compares with. */
  lemma ParenthesisedNameEnds(indent: string, name: string, rest: string, last: int)
    requires AllWhitespace(indent) && IsAnnotationShaped(name) && last >= |indent| + |name|
    ensures var line := indent + name + "(" + rest;
      var k := |indent| + |name|;
      k < |line| && line[k] == '(' && line[k + 1..] == rest &&
      NameEnd(line, last, 0) == Some(k) && NonWhitespace(line[..k]) == name
  {
    var line := indent + name + "(" + rest;
    var k := |indent| + |name|;
    assert line[..k] == indent + name;
    assert line[k + 1..] == rest;
    forall t | 0 <= t < k ensures !EndsName(line, last, t) {
      if t >= |indent| {
        assert line[t] == name[t - |indent|];
      }
    }
    NameEndsAt(line, last, k);
    IndentedName(indent, name);
  }

  /** What the automaton makes of an indented annotation-shaped name
      followed by '('. */
  lemma ParenthesisedAutomaton(indent: string, name: string, rest: string, last: int)
    requires AllWhitespace(indent) && IsAnnotationShaped(name) && last >= |indent| + |name|
    ensures Automaton(indent + name + "(" + rest, last) == LookUp(name, QuotedPath(rest))
  {
    var line := indent + name + "(" + rest;
    var k := |indent| + |name|;
    ParenthesisedNameEnds(indent, name, rest, last);
    ParseNamed(line, last, k, name);
    assert PathAfterName(line, k) == QuotedPath(rest);
  }

  /** An indented annotation-shaped name followed by '(': the name is looked
      up; a known one yields its verb and the first quoted string after the
      '(', an unknown one is the panic. */
  lemma ParenthesisedName(indent: string, name: string, rest: string)
    requires AllWhitespace(indent) && IsAnnotationShaped(name)
    ensures Parse(indent + name + "(" + rest) == LookUp(name, QuotedPath(rest))
  {
    var last := ParenthesisedLineParse(indent, name, rest);
    ParenthesisedAutomaton(indent, name, rest, last);
  }

  /** The annotation for `v` followed by '(' yields `v` and the first quoted
      string after the '(' (src/main.rs:225-288). */
  lemma ParenthesisedAnnotation(indent: string, v: HttpVerb, rest: string)
    requires AllWhitespace(indent)
    ensures Parse(indent + Annotation(v) + "(" + rest) == Match(EndpointMatch(v, QuotedPath(rest)))
  {
    AnnotationShape(v);
    AnnotationSelectsVerb(v);
    ParenthesisedName(indent, Annotation(v), rest);
  }

  /** Any other annotation-shaped name followed by '(' is the panic at
      src/main.rs:251, reporting the name. */
  lemma UnknownParenthesisedName(indent: string, name: string, rest: string)
    requires AllWhitespace(indent) && IsAnnotationShaped(name)
    requires forall v: HttpVerb :: name != Annotation(v)
    ensures Parse(indent + name + "(" + rest) == UnknownAnnotation(name)
  {
    ParenthesisedName(indent, name, rest);
    if AnnotationVerb(name).Some? {
      AnnotationDictionary(name, AnnotationVerb(name).value);
    }
  }

  // ---------------------------------------------------------------------
  // The path between the quotes

  /** The text after the opening quote, up to the closing one. */
  lemma ClosedPathFirstString(path: string, tail: string)
    requires '"' !in path
    ensures ClosedPath(path + "\"" + tail) == DropBackslashes(path)
  {
    var s := path + "\"" + tail;
    assert s[..|path|] == path;
    IndexOfFirst(s, '"', |path|);
  }

  /** Attributes before the first quote are skipped; the path is the text
      up to the next quote, without its backslashes. */
  lemma QuotedPathFirstString(attrs: string, path: string, tail: string)
    requires '"' !in attrs && '"' !in path
    ensures QuotedPath(attrs + "\"" + path + "\"" + tail) == DropBackslashes(path)
  {
    var s := attrs + "\"" + path + "\"" + tail;
    assert s == attrs + "\"" + (path + "\"" + tail);
    assert s[..|attrs|] == attrs;
    IndexOfFirst(s, '"', |attrs|);
    assert s[|attrs| + 1..] == path + "\"" + tail;
    ClosedPathFirstString(path, tail);
  }

  /** An opening quote that nothing closes gives the empty path. */
  lemma UnclosedQuotedPath(attrs: string, path: string)
    requires '"' !in attrs && '"' !in path
    ensures QuotedPath(attrs + "\"" + path) == ""
  {
    var s := attrs + "\"" + path;
    assert s[..|attrs|] == attrs;
    IndexOfFirst(s, '"', |attrs|);
    assert s[|attrs| + 1..] == path;
  }

  /** A path holds neither a quote nor a backslash. */
  lemma QuotedPathClean(s: string)
    ensures '"' !in QuotedPath(s) && '\\' !in QuotedPath(s)
  {
    match IndexOf(s, '"') {
      case None =>
      case Some(q) =>
        var t := s[q + 1..];
        match IndexOf(t, '"') {
          case None =>
          case Some(j) =>
            assert '"' !in t[..j];
        }
    }
  }

  /** No record's path holds a quote or a backslash. */
  lemma RecordPathClean(line: string)
    requires Parse(line).Match?
    ensures '"' !in Parse(line).m.restPath && '\\' !in Parse(line).m.restPath
  {
    var last := Utf8Length(line) - 1;
    match NameEnd(line, last, 0) {
      case None =>
      case Some(k) =>
        if line[k] == '(' {
          QuotedPathClean(line[k + 1..]);
        }
    }
  }

  /** A backslash does not escape a quote: in `"/a\"b"` the path is "/a".
      The backslash is dropped without becoming the previous character
      (the `continue` at src/main.rs:286 skips line 293), so the quote after
      it is never seen as escaped and closes the path. */
  lemma EscapedQuoteEndsPath(p1: string, p2: string)
    requires '"' !in p1
    ensures QuotedPath("\"" + p1 + "\\\"" + p2) == DropBackslashes(p1)
  {
    var p := p1 + "\\";
    assert "\"" + p1 + "\\\"" + p2 == [] + "\"" + p + "\"" + p2;
    assert '"' !in p by {
      assert forall i | 0 <= i < |p1| :: p[i] == p1[i];
    }
    QuotedPathFirstString([], p, p2);
    DropBackslashesSnoc(p1, '\\');
    assert DropBackslashes(p1) + [] == DropBackslashes(p1);
  }

  /** So an annotation whose path holds an escaped quote records only the
      part before the backslash. */
  lemma EscapedQuoteInAnnotation(indent: string, v: HttpVerb, p1: string, p2: string)
    requires AllWhitespace(indent) && '"' !in p1
    ensures Parse(indent + Annotation(v) + "(" + ("\"" + p1 + "\\\"" + p2)) ==
      Match(EndpointMatch(v, DropBackslashes(p1)))
  {
    ParenthesisedAnnotation(indent, v, "\"" + p1 + "\\\"" + p2);
    EscapedQuoteEndsPath(p1, p2);
  }

  // ---------------------------------------------------------------------
  // Lines without '('

  /** A line of ASCII characters without '(': the name ends at the last
      character, which is therefore never part of it. */
  lemma AsciiLineWithoutParenthesis(line: string)
    requires |line| > 0 && AllAscii(line) && '(' !in line
    ensures NameEnd(line, Utf8Length(line) - 1, 0) == Some(|line| - 1)
  {
    Utf8LengthAscii(line);
    var last := Utf8Length(line) - 1;
    forall t | 0 <= t < |line| - 1 ensures !EndsName(line, last, t) {
      assert line[t] in line;
    }
    NameEndsAt(line, last, |line| - 1);
  }

  /** A qualifying ASCII line without '(': the name is the non-whitespace
      characters before the last one; a known name yields its verb with the
      empty path, an unknown one is the panic. */
  lemma AsciiLineName(line: string)
    requires Qualifies(line) && |line| > 0 && AllAscii(line) && '(' !in line
    ensures AnnotationVerb(NonWhitespace(line[..|line| - 1])).None? ==>
      Parse(line) == UnknownAnnotation(NonWhitespace(line[..|line| - 1]))
    ensures AnnotationVerb(NonWhitespace(line[..|line| - 1])).Some? ==>
      Parse(line) == Match(EndpointMatch(AnnotationVerb(NonWhitespace(line[..|line| - 1])).value, ""))
  {
    AsciiLineWithoutParenthesis(line);
    var last := Utf8Length(line) - 1;
    var k := |line| - 1;
    assert line[k] in line;
    var name := NonWhitespace(line[..k]);
    match AnnotationVerb(name) {
      case None =>
        ParseUnknown(line, last, k);
      case Some(v) =>
        ParseKnown(line, last, k, v);
    }
  }

  /** An indented annotation-shaped name with whitespace after it is a
      qualifying ASCII line without '('. */
  lemma ShapedLineAscii(indent: string, name: string, tail: string)
    requires AllWhitespace(indent) && IsAnnotationShaped(name) && AllWhitespace(tail)
    ensures Qualifies(indent + name + tail)
    ensures AllAscii(indent + name + tail) && '(' !in indent + name + tail
  {
    var line := indent + name + tail;
    ShapedLineQualifies(indent, name, tail);
    forall t | 0 <= t < |line| ensures IsAscii(line[t]) && line[t] != '(' {
      if |indent| <= t < |indent| + |name| {
        assert line[t] == name[t - |indent|];
      }
    }
  }

  /** An indented name alone on its line is read without its last character. */
  lemma BareName(indent: string, name: string)
    requires AllWhitespace(indent) && IsAnnotationShaped(name)
    requires AnnotationVerb(name[..|name| - 1]).None?
    ensures Parse(indent + name) == UnknownAnnotation(name[..|name| - 1])
  {
    assert indent + name == indent + name + [];
    ShapedLineAscii(indent, name, []);
    TruncatedName(indent, name);
    AsciiLineName(indent + name);
  }

  /** An annotation without '(' and without anything after it loses its
      last character and hits the panic: `@GetMapping` alone is reported as
      the unknown name "@GetMappin". */
  lemma BareAnnotationPanics(indent: string, v: HttpVerb)
    requires AllWhitespace(indent)
    ensures Parse(indent + Annotation(v)) ==
      UnknownAnnotation(Annotation(v)[..|Annotation(v)| - 1])
  {
    AnnotationShape(v);
    TruncatedAnnotationRejected(v);
    BareName(indent, Annotation(v));
  }

  /** The name read from an indented name that ends the line lacks its last
      character. */
  lemma TruncatedName(indent: string, name: string)
    requires AllWhitespace(indent) && IsAnnotationShaped(name)
    ensures NonWhitespace((indent + name)[..|indent + name| - 1]) == name[..|name| - 1]
  {
    var line := indent + name;
    assert line[..|line| - 1] == indent + name[..|name| - 1];
    NonWhitespaceConcat(indent, name[..|name| - 1]);
    NonWhitespaceOfWhitespace(indent);
    NonWhitespaceOfWord(name[..|name| - 1]);
  }

  /** An indented name followed by whitespace is read whole. */
  lemma SpacedName(indent: string, name: string, ws: string)
    requires AllWhitespace(indent) && IsAnnotationShaped(name) && AllWhitespace(ws) && |ws| > 0
    ensures Parse(indent + name + ws) == LookUp(name, "")
  {
    var line := indent + name + ws;
    ShapedLineAscii(indent, name, ws);
    assert line[..|line| - 1] == (indent + name) + ws[..|ws| - 1];
    NonWhitespaceConcat(indent + name, ws[..|ws| - 1]);
    NonWhitespaceOfWhitespace(ws[..|ws| - 1]);
    IndentedName(indent, name);
    assert name + [] == name;
    AsciiLineName(line);
  }

  /** With whitespace after it, an annotation is recognised and yields its
      verb with the empty path. */
  lemma TrailingWhitespaceAnnotation(indent: string, v: HttpVerb, ws: string)
    requires AllWhitespace(indent) && AllWhitespace(ws) && |ws| > 0
    ensures Parse(indent + Annotation(v) + ws) == Match(EndpointMatch(v, ""))
  {
    AnnotationShape(v);
    AnnotationSelectsVerb(v);
    SpacedName(indent, Annotation(v), ws);
  }

  /** A qualifying line without '(' that holds a non-ASCII character: its
      byte length exceeds its number of characters, no index reaches
      `line.len() - 1`, the name is never looked up, and the record holds
      the initial verb `Any` with the empty path. */
  lemma NonAsciiLineWithoutParenthesis(line: string)
    requires Qualifies(line) && '(' !in line && !AllAscii(line)
    ensures Parse(line) == Match(EndpointMatch(Any, ""))
  {
    Utf8LengthAscii(line);
    var last := Utf8Length(line) - 1;
    forall t | 0 <= t < |line| ensures !EndsName(line, last, t) {
      assert line[t] in line;
    }
  }
}
