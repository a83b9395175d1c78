/** The per-line endpoint-annotation scan inside `search_in_dir`
    (src/main.rs:197-301): a fast filter, then a four-state automaton
    (annotation name, annotation attributes, endpoint path, end of capture)
    that turns one line into one `(verb, path)` record.

    `Parse` states declaratively what a line yields; `ParseLine` is the
    automaton as the source runs it, character by character, and is proved
    to agree with `Parse` on every line. */
module LineParser {
  import opened Text
  import opened Verbs

  /** `ControllerRequestFileSearchResult`: one endpoint found in a file. */
  datatype EndpointMatch = EndpointMatch(verb: HttpVerb, restPath: string)

  /** What one line contributes: nothing, one record, or the panic at
      src/main.rs:251 with the unrecognised name that was in the buffer. */
  datatype LineOutcome = NoMatch | Match(m: EndpointMatch) | UnknownAnnotation(name: string)

  /** The automaton's contexts (src/main.rs:203-208). */
  datatype Context = AnnotationName | AnnotationAttributes | EndpointPath | Eoc

  // ---------------------------------------------------------------------
  // The filter at src/main.rs:144 and 201

  /** `(@)\w+(Mapping).*` matches at position `i` with "Mapping" at `j`:
      '@', one or more word characters, then "Mapping". */
  predicate EndpointPatternAt(line: string, i: nat, j: nat)
    requires i < j <= |line|
  {
    line[i] == '@' && i + 1 < j && j + 7 <= |line| && line[j..j + 7] == "Mapping" &&
    forall t | i < t < j :: IsWordChar(line[t])
  }

  /** `endpoint_regex.is_match(line)`: the pattern occurs somewhere in the line. */
  predicate MatchesEndpointPattern(line: string) {
    exists i: nat, j: nat | i < j <= |line| :: EndpointPatternAt(line, i, j)
  }

  /** `line.trim().starts_with('@')`: the first character that is not
      whitespace is '@'. */
  predicate TrimStartsWithAt(line: string)
  {
    if line == [] then false
    else if IsWhitespace(line[0]) then TrimStartsWithAt(line[1..])
    else line[0] == '@'
  }

  /** The lines the automaton is run on. */
  predicate Qualifies(line: string) {
    MatchesEndpointPattern(line) && TrimStartsWithAt(line)
  }

  // ---------------------------------------------------------------------
  // The declarative meaning of the automaton

  /** The condition at src/main.rs:225 that ends the annotation name: a '('
      or the index equal to the line's byte length minus one. */
  predicate EndsName(line: string, last: int, k: nat)
    requires k < |line|
  {
    line[k] == '(' || k == last
  }

  /** The first index at or after `from` that ends the annotation name. */
  function NameEnd(line: string, last: int, from: nat): (r: Option<nat>)
    requires from <= |line|
    ensures r.Some? ==> from <= r.value < |line| && EndsName(line, last, r.value)
    ensures r.Some? ==> forall k | from <= k < r.value :: !EndsName(line, last, k)
    ensures r.None? ==> forall k | from <= k < |line| :: !EndsName(line, last, k)
    decreases |line| - from
  {
    if from == |line| then None
    else if EndsName(line, last, from) then Some(from)
    else NameEnd(line, last, from + 1)
  }

  /** The characters that are not whitespace, in order. */
  function NonWhitespace(s: string): (r: string)
    ensures forall i | 0 <= i < |r| :: !IsWhitespace(r[i])
    ensures |r| <= |s|
  {
    if s == [] then []
    else NonWhitespace(s[..|s| - 1]) + (if IsWhitespace(s[|s| - 1]) then [] else [s[|s| - 1]])
  }

  /** The characters that are not a backslash, in order. */
  function DropBackslashes(s: string): (r: string)
    ensures '\\' !in r
    ensures |r| <= |s|
    ensures forall c | c in r :: c in s
  {
    if s == [] then []
    else DropBackslashes(s[..|s| - 1]) + (if s[|s| - 1] == '\\' then [] else [s[|s| - 1]])
  }

  /** The path taken from the text after the opening quote: everything up to
      the next quote, with every backslash dropped; empty when no quote
      closes it. */
  function ClosedPath(s: string): string
  {
    match IndexOf(s, '"')
    case None => ""
    case Some(j) => DropBackslashes(s[..j])
  }

  /** The path taken from the text after '(': the first quoted string,
      with the attributes before it ignored. */
  function QuotedPath(s: string): string
  {
    match IndexOf(s, '"')
    case None => ""
    case Some(q) => ClosedPath(s[q + 1..])
  }

  /** What one line yields: nothing unless it passes the filter, and then
      what the automaton makes of it. */
  function Parse(line: string): (r: LineOutcome)
    ensures r.NoMatch? <==> !Qualifies(line)
  {
    if !Qualifies(line) then NoMatch else Automaton(line, Utf8Length(line) - 1)
  }

  /** What the automaton makes of a line. The name ends at the first '(' or
      at the index equal to the byte length minus one; the non-whitespace
      characters before that index are looked up in the dictionary. If
      neither ever happens (only possible on a line with non-ASCII
      characters) no lookup is made and the initial verb `Any` is reported
      with the empty path. */
  function Automaton(line: string, last: int): (r: LineOutcome)
    ensures !r.NoMatch?
  {
    match NameEnd(line, last, 0)
    case None => Match(EndpointMatch(Any, ""))
    case Some(k) =>
      var name := NonWhitespace(line[..k]);
      match AnnotationVerb(name)
      case None => UnknownAnnotation(name)
      case Some(v) => Match(EndpointMatch(v, PathAfterName(line, k)))
  }

  /** The outcome for a name looked up in the dictionary: the panic for an
      unknown one, a record with its verb and `path` for a known one. */
  function LookUp(name: string, path: string): LineOutcome
  {
    match AnnotationVerb(name)
    case None => UnknownAnnotation(name)
    case Some(v) => Match(EndpointMatch(v, path))
  }

  /** The path of a line whose name ended at `k`: only a name ended by '('
      is followed by attributes and a path. */
  function PathAfterName(line: string, k: nat): string
    requires k < |line|
  {
    if line[k] == '(' then QuotedPath(line[k + 1..]) else ""
  }

  lemma NonWhitespaceSnoc(s: string, c: char)
    ensures NonWhitespace(s + [c]) == NonWhitespace(s) + (if IsWhitespace(c) then [] else [c])
  {
    assert (s + [c])[..|s|] == s;
  }

  lemma DropBackslashesSnoc(s: string, c: char)
    ensures DropBackslashes(s + [c]) == DropBackslashes(s) + (if c == '\\' then [] else [c])
  {
    assert (s + [c])[..|s|] == s;
  }

  /** The quote at `q` is the first one after the '(' at `k`. */
  lemma OpeningQuote(line: string, k: nat, q: nat)
    requires k < q < |line| && line[q] == '"' && NoQuoteIn(line, k + 1, q)
    ensures QuotedPath(line[k + 1..]) == ClosedPath(line[q + 1..])
  {
    NoQuoteSlice(line, k + 1, q);
    var s := line[k + 1..];
    assert s[..q - k - 1] == line[k + 1..q];
    IndexOfFirst(s, '"', q - k - 1);
    assert s[q - k..] == line[q + 1..];
  }

  /** The quote at `i` is the first one after the opening quote at `q`. */
  lemma ClosingQuote(line: string, q: nat, i: nat)
    requires q < i < |line| && line[i] == '"' && NoQuoteIn(line, q + 1, i)
    ensures ClosedPath(line[q + 1..]) == DropBackslashes(line[q + 1..i])
  {
    NoQuoteSlice(line, q + 1, i);
    var s := line[q + 1..];
    assert s[..i - q - 1] == line[q + 1..i];
    IndexOfFirst(s, '"', i - q - 1);
  }

  /** No double quote at positions `from` up to `to`. */
  predicate NoQuoteIn(line: string, from: nat, to: nat)
    requires from <= to <= |line|
  {
    forall t | from <= t < to :: line[t] != '"'
  }

  lemma NoQuoteSlice(line: string, from: nat, to: nat)
    requires from <= to <= |line| && NoQuoteIn(line, from, to)
    ensures '"' !in line[from..to]
  {
    forall t | 0 <= t < to - from ensures line[from..to][t] != '"' {
      assert line[from..to][t] == line[from + t];
    }
  }

  /** Without a quote after the '(' at `k` there is no path. */
  lemma NoOpeningQuote(line: string, k: nat)
    requires k < |line| && NoQuoteIn(line, k + 1, |line|)
    ensures QuotedPath(line[k + 1..]) == ""
  {
    NoQuoteSlice(line, k + 1, |line|);
    assert line[k + 1..|line|] == line[k + 1..];
  }

  /** Without a quote closing the one at `q` there is no path either. */
  lemma NoClosingQuote(line: string, k: nat, q: nat, buffer: string)
    requires k < q < |line| && ReadingPath(line, k, q, |line|, buffer)
    ensures QuotedPath(line[k + 1..]) == ""
  {
    NoQuoteSlice(line, q + 1, |line|);
    assert line[q + 1..|line|] == line[q + 1..];
  }

  /** A line whose name ends at `k` with a name the dictionary rejects. */
  lemma ParseUnknown(line: string, last: int, k: nat)
    requires NameEnd(line, last, 0) == Some(k)
    requires AnnotationVerb(NonWhitespace(line[..k])).None?
    ensures Automaton(line, last) == UnknownAnnotation(NonWhitespace(line[..k]))
  {
  }

  /** A line whose name ends at `k` with a name the dictionary maps to `v`. */
  lemma ParseKnown(line: string, last: int, k: nat, v: HttpVerb)
    requires Resolved(line, last, k, v)
    ensures Automaton(line, last) == Match(EndpointMatch(v, PathAfterName(line, k)))
  {
  }

  /** A name that ended at `k` is looked up: an unknown one is the panic, a
      known one yields its verb and the path after it. */
  lemma ParseNamed(line: string, last: int, k: nat, name: string)
    requires NameEnd(line, last, 0) == Some(k) && NonWhitespace(line[..k]) == name
    ensures Automaton(line, last) == LookUp(name, PathAfterName(line, k))
  {
  }

  // ---------------------------------------------------------------------
  // The automaton one character at a time

  /** The automaton's variables (src/main.rs:210-214). */
  datatype ScanState = ScanState(context: Context, buffer: string, prevC: char,
                                 endpointPath: string, httpVerb: HttpVerb)

  /** Either still scanning, or stopped by the panic on an unknown name. */
  datatype Progress = Scanning(state: ScanState) | Stopped(name: string)

  const Initial := ScanState(AnnotationName, "", '\0', "", Any)

  /** One pass of the loop body for the character `c` at index `index`;
      `last` is the index `line.len() - 1`. An unescaped backslash in the
      path is skipped by `continue`, so it does not become `prevC`. */
  function StepChar(st: ScanState, index: nat, c: char, last: int): Progress
  {
    match st.context
    case AnnotationName =>
      if c == '(' || index == last then
        match AnnotationVerb(st.buffer)
        case None => Stopped(st.buffer)
        case Some(v) =>
          Scanning(st.(context := if c == '(' then AnnotationAttributes else AnnotationName,
                       buffer := "", prevC := c, httpVerb := v))
      else
        Scanning(st.(buffer := if IsWhitespace(c) then st.buffer else st.buffer + [c], prevC := c))
    case AnnotationAttributes =>
      Scanning(st.(context := if c == '"' then EndpointPath else AnnotationAttributes, prevC := c))
    case EndpointPath =>
      var isEscape := st.prevC == '\\';
      if c == '"' && !isEscape then
        Scanning(st.(context := Eoc, buffer := "", endpointPath := st.buffer, prevC := c))
      else if c == '\\' && !isEscape then
        Scanning(st)
      else
        Scanning(st.(buffer := st.buffer + [c], prevC := c))
    case Eoc =>
      Scanning(st.(prevC := c))
  }

  /** The automaton after the first `n` characters of `line`. */
  function Run(line: string, last: int, n: nat): Progress
    requires n <= |line|
  {
    if n == 0 then Scanning(Initial)
    else
      match Run(line, last, n - 1)
      case Stopped(name) => Stopped(name)
      case Scanning(st) => StepChar(st, n - 1, line[n - 1], last)
  }

  /** The record pushed after the loop (src/main.rs:295-297), or the panic. */
  function Finish(p: Progress): LineOutcome
  {
    match p
    case Stopped(name) => UnknownAnnotation(name)
    case Scanning(st) => Match(EndpointMatch(st.httpVerb, st.endpointPath))
  }

  // ---------------------------------------------------------------------
  // What the automaton knows after reading line[..index]

  /** While the name is being read: the name has not ended before `index`
      and `buffer` holds the non-whitespace characters read so far. */
  ghost predicate ReadingName(line: string, last: int, index: nat, buffer: string)
    requires index <= |line|
  {
    NameEnd(line, last, 0) == NameEnd(line, last, index) && buffer == NonWhitespace(line[..index])
  }

  /** The name ended at `k` and the dictionary mapped it to `v`. */
  ghost predicate Resolved(line: string, last: int, k: nat, v: HttpVerb)
  {
    k < |line| && NameEnd(line, last, 0) == Some(k) && AnnotationVerb(NonWhitespace(line[..k])) == Some(v)
  }

  /** While the path is being read: the quote at `q` opened it, none has
      closed it yet, and `buffer` holds the path read so far. */
  ghost predicate ReadingPath(line: string, k: nat, q: nat, index: nat, buffer: string)
    requires k < q < index <= |line|
  {
    QuotedPath(line[k + 1..]) == ClosedPath(line[q + 1..]) &&
    NoQuoteIn(line, q + 1, index) && buffer == DropBackslashes(line[q + 1..index])
  }

  /** The loop invariant of `ParseLine`, context by context. `resolved`,
      `k` and `q` are bookkeeping only: whether and where the name ended,
      and where the path's opening quote is. */
  ghost predicate Scanned(line: string, last: int, index: nat, context: Context, resolved: bool,
                          k: nat, q: nat, buffer: string, prevC: char, endpointPath: string, httpVerb: HttpVerb)
    requires index <= |line|
  {
    match context
    case AnnotationName =>
      if !resolved then ReadingName(line, last, index, buffer) && httpVerb == Any && endpointPath == ""
      else index == |line| && Resolved(line, last, k, httpVerb) && line[k] != '(' && endpointPath == ""
    case AnnotationAttributes =>
      k < index && Resolved(line, last, k, httpVerb) && line[k] == '(' &&
      NoQuoteIn(line, k + 1, index) && buffer == "" && endpointPath == ""
    case EndpointPath =>
      k < q < index && Resolved(line, last, k, httpVerb) && line[k] == '(' &&
      ReadingPath(line, k, q, index, buffer) && prevC != '\\' && endpointPath == ""
    case Eoc =>
      k < index && Resolved(line, last, k, httpVerb) && line[k] == '(' &&
      endpointPath == QuotedPath(line[k + 1..])
  }

  /** A line read to its end without the name ending: no lookup is made. */
  lemma ParseUnresolved(line: string, last: int, buffer: string)
    requires ReadingName(line, last, |line|, buffer)
    ensures Automaton(line, last) == Match(EndpointMatch(Any, ""))
  {
  }

  /** Inside the name, the name can only be unresolved: a resolved name
      without '(' ended on the last character. */
  lemma NameContext(line: string, last: int, index: nat, resolved: bool, k: nat, q: nat,
                    buffer: string, prevC: char, endpointPath: string, httpVerb: HttpVerb)
    requires index < |line|
    requires Scanned(line, last, index, AnnotationName, resolved, k, q, buffer, prevC, endpointPath, httpVerb)
    ensures !resolved && ReadingName(line, last, index, buffer) && httpVerb == Any && endpointPath == ""
  {
  }

  /** Whitespace that does not end the name is skipped. */
  lemma NameSkip(line: string, last: int, index: nat, k: nat, q: nat, buffer: string)
    requires index < |line| && ReadingName(line, last, index, buffer)
    requires !EndsName(line, last, index) && IsWhitespace(line[index])
    ensures Scanned(line, last, index + 1, AnnotationName, false, k, q, buffer, line[index], "", Any)
  {
    assert line[..index + 1] == line[..index] + [line[index]];
    NonWhitespaceSnoc(line[..index], line[index]);
    assert buffer + [] == buffer;
  }

  /** Any other character that does not end the name is added to it. */
  lemma NameKeep(line: string, last: int, index: nat, k: nat, q: nat, buffer: string)
    requires index < |line| && ReadingName(line, last, index, buffer)
    requires !EndsName(line, last, index) && !IsWhitespace(line[index])
    ensures Scanned(line, last, index + 1, AnnotationName, false, k, q, buffer + [line[index]], line[index], "", Any)
  {
    assert line[..index + 1] == line[..index] + [line[index]];
    NonWhitespaceSnoc(line[..index], line[index]);
  }

  /** The character that ends the name: the buffer is the name `Automaton` looks up. */
  lemma NameEnds(line: string, last: int, index: nat, buffer: string)
    requires index < |line| && ReadingName(line, last, index, buffer) && EndsName(line, last, index)
    ensures NameEnd(line, last, 0) == Some(index) && buffer == NonWhitespace(line[..index])
  {
  }

  /** A name the dictionary accepts, ended by '(': the attributes follow. */
  lemma NameOpens(line: string, last: int, index: nat, q: nat, v: HttpVerb)
    requires index < |line| && line[index] == '(' && Resolved(line, last, index, v)
    ensures Scanned(line, last, index + 1, AnnotationAttributes, true, index, q, "", line[index], "", v)
  {
  }

  /** A name the dictionary accepts, ended by the index `last` without '(':
      since `last` is at least the last character's index, the line is over. */
  lemma NameAtLast(line: string, last: int, index: nat, q: nat, prevC: char, v: HttpVerb)
    requires index < |line| && index == last && last >= |line| - 1
    requires line[index] != '(' && Resolved(line, last, index, v)
    ensures Scanned(line, last, index + 1, AnnotationName, true, index, q, "", prevC, "", v)
  {
  }

  /** In the attributes every character but a quote is skipped. */
  lemma AttributesSkip(line: string, last: int, index: nat, k: nat, q: nat, prevC: char, v: HttpVerb)
    requires index < |line| && line[index] != '"'
    requires Scanned(line, last, index, AnnotationAttributes, true, k, q, "", prevC, "", v)
    ensures Scanned(line, last, index + 1, AnnotationAttributes, true, k, q, "", line[index], "", v)
  {
  }

  /** The first quote after '(' opens the path. */
  lemma AttributesQuote(line: string, last: int, index: nat, k: nat, q: nat, prevC: char, v: HttpVerb)
    requires index < |line| && line[index] == '"'
    requires Scanned(line, last, index, AnnotationAttributes, true, k, q, "", prevC, "", v)
    ensures Scanned(line, last, index + 1, EndpointPath, true, k, index, "", line[index], "", v)
  {
    OpeningQuote(line, k, index);
    assert ReadingPath(line, k, index, index + 1, "");
  }

  /** In the path the previous character is never a backslash, so nothing
      is ever escaped. */
  lemma PathContext(line: string, last: int, index: nat, k: nat, q: nat, buffer: string, prevC: char, v: HttpVerb)
    requires index < |line|
    requires Scanned(line, last, index, EndpointPath, true, k, q, buffer, prevC, "", v)
    ensures prevC != '\\'
  {
  }

  /** A quote closes the path. */
  lemma PathClose(line: string, last: int, index: nat, k: nat, q: nat, buffer: string, prevC: char, v: HttpVerb)
    requires index < |line| && line[index] == '"'
    requires Scanned(line, last, index, EndpointPath, true, k, q, buffer, prevC, "", v)
    ensures Scanned(line, last, index + 1, Eoc, true, k, q, "", line[index], buffer, v)
  {
    ClosingQuote(line, q, index);
  }

  /** A character other than a quote extends the text read after the
      opening quote. */
  lemma PathExtends(line: string, q: nat, index: nat, buffer: string)
    requires q < index < |line| && line[index] != '"'
    requires NoQuoteIn(line, q + 1, index) && buffer == DropBackslashes(line[q + 1..index])
    ensures NoQuoteIn(line, q + 1, index + 1)
    ensures DropBackslashes(line[q + 1..index + 1]) == buffer + (if line[index] == '\\' then [] else [line[index]])
  {
    assert line[q + 1..index + 1] == line[q + 1..index] + [line[index]];
    DropBackslashesSnoc(line[q + 1..index], line[index]);
  }

  /** A backslash is dropped and does not become the previous character. */
  lemma PathDrop(line: string, last: int, index: nat, k: nat, q: nat, buffer: string, prevC: char, v: HttpVerb)
    requires index < |line| && line[index] == '\\'
    requires Scanned(line, last, index, EndpointPath, true, k, q, buffer, prevC, "", v)
    ensures Scanned(line, last, index + 1, EndpointPath, true, k, q, buffer, prevC, "", v)
  {
    PathExtends(line, q, index, buffer);
    assert buffer + [] == buffer;
  }

  /** Any other character is kept. */
  lemma PathKeep(line: string, last: int, index: nat, k: nat, q: nat, buffer: string, prevC: char, v: HttpVerb)
    requires index < |line| && line[index] != '"' && line[index] != '\\'
    requires Scanned(line, last, index, EndpointPath, true, k, q, buffer, prevC, "", v)
    ensures Scanned(line, last, index + 1, EndpointPath, true, k, q, buffer + [line[index]], line[index], "", v)
  {
    PathExtends(line, q, index, buffer);
  }

  /** After the path every character is ignored. */
  lemma EocStep(line: string, last: int, index: nat, k: nat, q: nat, buffer: string, prevC: char,
                endpointPath: string, v: HttpVerb)
    requires index < |line|
    requires Scanned(line, last, index, Eoc, true, k, q, buffer, prevC, endpointPath, v)
    ensures Scanned(line, last, index + 1, Eoc, true, k, q, buffer, line[index], endpointPath, v)
  {
  }

  /** At the end of the line the record built is the one `Parse` describes. */
  lemma ScanComplete(line: string, last: int, context: Context, resolved: bool, k: nat, q: nat,
                     buffer: string, prevC: char, endpointPath: string, httpVerb: HttpVerb)
    requires Scanned(line, last, |line|, context, resolved, k, q, buffer, prevC, endpointPath, httpVerb)
    ensures Automaton(line, last) == Match(EndpointMatch(httpVerb, endpointPath))
  {
    match context {
      case AnnotationName =>
        if !resolved {
          ParseUnresolved(line, last, buffer);
        } else {
          ParseKnown(line, last, k, httpVerb);
        }
      case AnnotationAttributes =>
        ParseKnown(line, last, k, httpVerb);
        NoOpeningQuote(line, k);
      case EndpointPath =>
        ParseKnown(line, last, k, httpVerb);
        NoClosingQuote(line, k, q, buffer);
      case Eoc =>
        ParseKnown(line, last, k, httpVerb);
    }
  }

  /** What is known after `n` characters: the scanning state satisfies
      `Scanned`, and a stop is the panic `Automaton` predicts. */
  ghost predicate Invariant(line: string, last: int, n: nat, p: Progress, resolved: bool, k: nat, q: nat)
    requires n <= |line|
  {
    match p
    case Stopped(name) => Automaton(line, last) == UnknownAnnotation(name)
    case Scanning(st) =>
      Scanned(line, last, n, st.context, resolved, k, q, st.buffer, st.prevC, st.endpointPath, st.httpVerb)
  }

  /** One character read in the name. */
  lemma NameInvariant(line: string, last: int, index: nat, st: ScanState, resolved: bool, k: nat, q: nat)
    returns (resolved': bool, k': nat)
    requires index < |line| && last >= |line| - 1 && st.context == AnnotationName
    requires Scanned(line, last, index, st.context, resolved, k, q, st.buffer, st.prevC, st.endpointPath, st.httpVerb)
    ensures Invariant(line, last, index + 1, StepChar(st, index, line[index], last), resolved', k', q)
  {
    var c := line[index];
    NameContext(line, last, index, resolved, k, q, st.buffer, st.prevC, st.endpointPath, st.httpVerb);
    if c == '(' || index == last {
      NameEnds(line, last, index, st.buffer);
      match AnnotationVerb(st.buffer) {
        case None =>
          ParseUnknown(line, last, index);
        case Some(v) =>
          if c == '(' {
            NameOpens(line, last, index, q, v);
          } else {
            NameAtLast(line, last, index, q, c, v);
          }
      }
      resolved', k' := true, index;
    } else {
      if IsWhitespace(c) {
        NameSkip(line, last, index, k, q, st.buffer);
      } else {
        NameKeep(line, last, index, k, q, st.buffer);
      }
      resolved', k' := resolved, k;
    }
  }

  /** One character read in the attributes. */
  lemma AttributesInvariant(line: string, last: int, index: nat, st: ScanState, k: nat, q: nat) returns (q': nat)
    requires index < |line| && st.context == AnnotationAttributes
    requires Scanned(line, last, index, st.context, true, k, q, st.buffer, st.prevC, st.endpointPath, st.httpVerb)
    ensures Invariant(line, last, index + 1, StepChar(st, index, line[index], last), true, k, q')
  {
    if line[index] == '"' {
      AttributesQuote(line, last, index, k, q, st.prevC, st.httpVerb);
      q' := index;
    } else {
      AttributesSkip(line, last, index, k, q, st.prevC, st.httpVerb);
      q' := q;
    }
  }

  /** One character read in the path. */
  lemma PathInvariant(line: string, last: int, index: nat, st: ScanState, k: nat, q: nat)
    requires index < |line| && st.context == EndpointPath
    requires Scanned(line, last, index, st.context, true, k, q, st.buffer, st.prevC, st.endpointPath, st.httpVerb)
    ensures Invariant(line, last, index + 1, StepChar(st, index, line[index], last), true, k, q)
  {
    PathContext(line, last, index, k, q, st.buffer, st.prevC, st.httpVerb);
    if line[index] == '"' {
      PathClose(line, last, index, k, q, st.buffer, st.prevC, st.httpVerb);
    } else if line[index] == '\\' {
      PathDrop(line, last, index, k, q, st.buffer, st.prevC, st.httpVerb);
    } else {
      PathKeep(line, last, index, k, q, st.buffer, st.prevC, st.httpVerb);
    }
  }

  /** One character read in any context. */
  lemma StepInvariant(line: string, last: int, index: nat, st: ScanState, resolved: bool, k: nat, q: nat)
    returns (resolved': bool, k': nat, q': nat)
    requires index < |line| && last >= |line| - 1
    requires Scanned(line, last, index, st.context, resolved, k, q, st.buffer, st.prevC, st.endpointPath, st.httpVerb)
    ensures Invariant(line, last, index + 1, StepChar(st, index, line[index], last), resolved', k', q')
  {
    resolved', k', q' := resolved, k, q;
    match st.context {
      case AnnotationName =>
        resolved', k' := NameInvariant(line, last, index, st, resolved, k, q);
      case AnnotationAttributes =>
        q' := AttributesInvariant(line, last, index, st, k, q);
      case EndpointPath =>
        PathInvariant(line, last, index, st, k, q);
      case Eoc =>
        EocStep(line, last, index, k, q, st.buffer, st.prevC, st.endpointPath, st.httpVerb);
    }
  }

  /** The invariant holds after every prefix of the line. */
  lemma {:induction false} RunInvariant(line: string, last: int, n: nat) returns (resolved: bool, k: nat, q: nat)
    requires n <= |line| && last >= |line| - 1
    ensures Invariant(line, last, n, Run(line, last, n), resolved, k, q)
  {
    if n == 0 {
      resolved, k, q := false, 0, 0;
      assert line[..0] == [];
    } else {
      var r0, k0, q0 := RunInvariant(line, last, n - 1);
      resolved, k, q := r0, k0, q0;
      match Run(line, last, n - 1) {
        case Stopped(name) =>
        case Scanning(st) =>
          resolved, k, q := StepInvariant(line, last, n - 1, st, r0, k0, q0);
      }
    }
  }

  /** The character-by-character automaton computes what `Automaton` states. */
  lemma RunAgreesWithAutomaton(line: string, last: int)
    requires last >= |line| - 1
    ensures Finish(Run(line, last, |line|)) == Automaton(line, last)
  {
    var resolved, k, q := RunInvariant(line, last, |line|);
    var p := Run(line, last, |line|);
    if p.Scanning? {
      var st := p.state;
      ScanComplete(line, last, st.context, resolved, k, q, st.buffer, st.prevC, st.endpointPath, st.httpVerb);
    }
  }

  /** Because the path arm's `continue` skips `prev_c = cur_c`, the escape
      flag is never set while a path is being read. */
  lemma EscapeNeverSet(line: string, last: int, n: nat)
    requires n <= |line| && last >= |line| - 1
    ensures Run(line, last, n).Scanning? && Run(line, last, n).state.context == EndpointPath ==>
      Run(line, last, n).state.prevC != '\\'
  {
    var _, _, _ := RunInvariant(line, last, n);
  }

  /** Once the panic has happened nothing more is read. */
  lemma {:induction false} StoppedStays(line: string, last: int, n: nat, name: string)
    requires n <= |line| && Run(line, last, n) == Stopped(name)
    ensures Run(line, last, |line|) == Stopped(name)
    decreases |line| - n
  {
    if n < |line| {
      StoppedStays(line, last, n + 1, name);
    }
  }

  // ---------------------------------------------------------------------
  // The scanner as the source runs it

  /** The test at src/main.rs:201 and, on a line that passes it, the automaton. */
  method ParseLine(line: string) returns (r: LineOutcome)
    ensures r == Parse(line)
  {
    if !(MatchesEndpointPattern(line) && TrimStartsWithAt(line)) {
      return NoMatch;
    }
    r := RunAutomaton(line);
  }

  /** The loop at src/main.rs:215-300 over the characters of one line. The
      character index is compared with the line's length in bytes, as
      `line.len()` is. */
  method RunAutomaton(line: string) returns (r: LineOutcome)
    ensures r == Automaton(line, Utf8Length(line) - 1)
  {
    var last := Utf8Length(line) - 1;
    var context := AnnotationName;
    var buffer: string := "";
    var prevC := '\0';
    var endpointPath: string := "";
    var httpVerb := Any;
    for index := 0 to |line|
      invariant Run(line, last, index) == Scanning(ScanState(context, buffer, prevC, endpointPath, httpVerb))
    {
      var c := line[index];
      // the current character is escaped
      var isEscape := prevC == '\\';
      match context {
        case AnnotationName =>
          if c == '(' || index == last {
            var found := AnnotationVerb(buffer);
            if found.None? {
              StoppedStays(line, last, index + 1, buffer);
              RunAgreesWithAutomaton(line, last);
              return UnknownAnnotation(buffer);
            }
            httpVerb := found.value;
            buffer := "";
            if c == '(' {
              context := AnnotationAttributes;
            }
          } else if !IsWhitespace(c) {
            buffer := buffer + [c];
          }
        case AnnotationAttributes =>
          if c == '"' {
            context := EndpointPath;
          }
        case EndpointPath =>
          if c == '"' && !isEscape {
            endpointPath := buffer;
            buffer := "";
            context := Eoc;
          } else {
            // a backslash is dropped unless it is escaped
            if c == '\\' && !isEscape {
              continue;
            }
            buffer := buffer + [c];
          }
        case Eoc =>
      }
      prevC := c;
    }
    RunAgreesWithAutomaton(line, last);
    return Match(EndpointMatch(httpVerb, endpointPath));
  }
}
