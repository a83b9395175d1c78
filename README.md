# Spring controller endpoint mapper — verified model

The program walks a directory tree of Java sources. It keeps each file named
`…Controller.java` of at most 8 MiB and reads it line by line. Every line that
looks like a Spring mapping annotation (`@GetMapping("/users/{id}")`,
`@RequestMapping(value = "/health")`, …) becomes one record: an HTTP verb and
a REST path. Each kept file yields one report holding its records. The
directory to walk comes from the command line (`-mapdir <dir>`).

This project models four parts of `src/main.rs` and proves what they do:

- `text.dfy` (`Text`): the character classes the program relies on, the UTF-8
  byte length Rust's `str::len` returns, and `str::split` on one character.
- `verbs.dfy` (`Verbs`): `HttpVerbs` with `as_str`, and the eight-entry
  annotation dictionary of the line scanner.
- `line_parser.dfy` (`LineParser`): the line filter and the four-context
  scanner of one line (`AnnotationName` → `AnnotationAttributes` →
  `EndpointPath` → `EOC`).
  - `Parse` states declaratively what a line yields.
  - `StepChar`/`Run` restate the loop body one character at a time.
  - The methods `ParseLine`/`RunAutomaton` are the loop as written, proved to
    compute `Parse`.
- `line_properties.dfy` (`LineProperties`): what `Parse` makes of typical
  annotation lines, including the two surprising behaviours of the code
  (see below).
- `walker.dfy` (`Walker`): `search_in_dir` over an in-memory tree.
  - `Search` is the walk as a recursive function.
  - `SearchInDir`/`ScanContent` are the loops as written, proved to compute it.
- `walker_properties.dfy` (`WalkerProperties`): an independent
  flatten-filter-scan statement of the walk, proved equal to `Search`, and
  its consequences.
- `arguments.dfy` (`Arguments`): `AppArguments::new` over a given argument
  list.
  - A fold `Run` states the automaton.
  - The method `NewAppArguments` is the loop.
  - A front-to-back grammar `Tokens` is proved to agree with both.

Where the comments of the program and its code disagree, the model follows
the code:

- A backslash in a path does not escape a quote. `prev_c` is not updated
  after a skipped backslash (the `continue` at src/main.rs:286), so the escape
  flag is never set in `EndpointPath`. Every backslash is dropped and every
  `"` ends the path: `@PostMapping("/a\"b")` yields (POST, "/a").
- An annotation that ends the line loses its last character. The end test at
  src/main.rs:225 fires before that character is pushed:
  - `@DeleteMapping` alone on a line is the panic for `@DeleteMappin`;
  - `@DeleteMapping ` or `@DeleteMapping\r` yields (DELETE, "").
- The end test compares a character index with the byte length of the line.
  The model carries the byte length (`Utf8Length`) instead of assuming ASCII.
  On a line with a non-ASCII character and no `(`, no index reaches the end,
  so the name is never looked up: the line yields (ANY, "").

An unknown annotation name makes the program panic, which ends the whole run.
In the model this is `UnknownAnnotation(name)` for one line and
`Panic(name)` for a file and for the walk, propagated past every later line
and entry.

## Model

| member | source | states |
|---|---|---|
| Verbs.AsStr | src/main.rs:85-97 | the printed name of every verb is non-empty and upper-case ASCII |
| Verbs.AsStrRoundTrip | src/main.rs:85-97 | the printed names are one per verb and distinct: `VerbNamed(s) == Some(v)` iff `AsStr(v) == s` |
| Verbs.AnnotationShape | src/main.rs:226-249 | each of the eight dictionary names is '@', a word, then "Mapping", so each passes the line filter |
| Verbs.AnnotationVerb | src/main.rs:226-252 | the name-to-verb dictionary, as the chain of comparisons the source makes; what it accepts is stated by `Verbs.AnnotationDictionary` (exactly the eight annotations, each giving its own verb) |
| Verbs.AnnotationSelectsVerb | src/main.rs:226-249 | each of the eight annotations selects its own verb |
| Verbs.AnnotationDictionary | src/main.rs:226-252 | the lookup gives `v` exactly for the annotation of `v`; every other name is rejected |
| Verbs.TruncatedAnnotationRejected | src/main.rs:225-252 | an annotation with its last character dropped is not in the dictionary |
| Text.Utf8Length | src/main.rs:225 | the byte length of a line is at least its number of characters |
| Text.Utf8LengthAscii | src/main.rs:225 | the byte length equals the character count iff the line is ASCII |
| Text.Split | src/main.rs:197 | splitting on '\n' gives at least one piece, no piece holds '\n', and joining the pieces gives the text back |
| Text.SplitJoin | src/main.rs:197 | splitting joined separator-free pieces gives the pieces back |
| LineParser.Parse | src/main.rs:201 | a line yields nothing iff it fails the filter (`@`, word characters, `Mapping`, trimmed line starts with `@`) |
| LineParser.MatchesEndpointPattern | src/main.rs:144 | `(@)\w+(Mapping).*` occurs in the line: an '@', at least one word character, then "Mapping"; `LineProperties.ShapedLineQualifies` shows every indented annotation-shaped name meets it |
| LineParser.TrimStartsWithAt | src/main.rs:201 | the first non-whitespace character is '@'; `LineProperties.TrimStartsAfterIndent` shows indentation does not change it |
| LineParser.Qualifies | src/main.rs:201 | both tests of the filter hold; `LineParser.Parse` states that exactly these lines yield something |
| LineParser.Automaton | src/main.rs:217-300 | a line that passes the filter always yields a record or the unknown-name panic |
| LineParser.NameEnd | src/main.rs:225 | the name ends at the first '(' or at the index equal to the byte length minus one |
| LineParser.NonWhitespace | src/main.rs:263-266 | the name buffer holds no whitespace |
| LineParser.DropBackslashes | src/main.rs:283-288 | a path buffer holds no backslash and only characters of the line |
| LineParser.EscapeNeverSet | src/main.rs:220-294 | after any prefix of a line, a scan in the `EndpointPath` context has a previous character that is not a backslash, so the escape flag is never set while a path is read: the `continue` that drops a backslash skips the update of the previous character |
| LineParser.NoOpeningQuote | src/main.rs:270-300 | without an opening quote the path is empty |
| LineParser.NoClosingQuote | src/main.rs:275-300 | an opening quote that nothing closes leaves the path empty |
| LineParser.RunAgreesWithAutomaton | src/main.rs:217-295 | running the loop body over every character and reading off the result gives `Automaton` |
| LineParser.StepChar | src/main.rs:220-295 | one pass of the loop body over one character in each of the four contexts, the panic included; `LineParser.RunAgreesWithAutomaton` states what the passes compute together |
| LineParser.Run | src/main.rs:217-295 | the loop over the first characters of the line, stopping at the panic; `LineParser.StoppedStays` and `LineParser.EscapeNeverSet` state what it keeps |
| LineParser.Finish | src/main.rs:298-300 | the record pushed after the loop: the verb and the path captured, or the panic; `LineParser.RunAgreesWithAutomaton` ties it to `Automaton` |
| LineParser.StoppedStays | src/main.rs:251 | after the panic no later character changes the outcome |
| LineParser.ParseLine | src/main.rs:201-300 | the scanner of one line computes `Parse` |
| LineParser.RunAutomaton | src/main.rs:203-300 | the four-context loop computes `Automaton` with the line's byte length |
| LineProperties.TrimStartsAfterIndent | src/main.rs:201 | leading whitespace does not change the trimmed-starts-with-'@' test |
| LineProperties.ShapedLineQualifies | src/main.rs:201 | an indented '@'-word-"Mapping" name followed by anything passes the filter |
| LineProperties.IndentedName | src/main.rs:263-266 | indentation never enters the name buffer |
| LineProperties.NonWhitespaceConcat | src/main.rs:263-266 | whitespace is dropped piecewise from the name buffer |
| LineProperties.ParenthesisedNameEnds | src/main.rs:225-266 | in an indented shaped name before '(', the name ends at the '(' and reads as the name, indentation dropped |
| LineProperties.ParenthesisedAutomaton | src/main.rs:225-288 | the scanner looks such a name up whole: unknown names panic, known ones give their verb and the quoted path after the '(' |
| LineProperties.ParenthesisedLineParse | src/main.rs:201-225 | such a line passes the filter, and its outcome is `Automaton` with the index the name test compares with, which is the line's byte length minus one and lies at or past the '(' |
| LineProperties.ParenthesisedName | src/main.rs:201-300 | a line made of an indented shaped name, '(' and anything is looked up whole: unknown names panic, known ones give their verb and the quoted path |
| LineProperties.ParenthesisedAnnotation | src/main.rs:225-300 | an indented annotation of `v` followed by '(' yields `v` and the quoted path of the rest |
| LineProperties.UnknownParenthesisedName | src/main.rs:250-252 | any other shaped name before '(' is the panic for that name |
| LineProperties.QuotedPathFirstString | src/main.rs:270-281 | attributes before the first quote are skipped; the path is the first string without its backslashes |
| LineProperties.ClosedPathFirstString | src/main.rs:275-289 | the path ends at the first quote after the opening one |
| LineProperties.UnclosedQuotedPath | src/main.rs:275-300 | a path that no quote closes is empty |
| LineProperties.QuotedPathClean | src/main.rs:275-289 | a path holds neither a quote nor a backslash |
| LineProperties.RecordPathClean | src/main.rs:275-300 | no record's path holds a quote or a backslash |
| LineProperties.EscapedQuoteEndsPath | src/main.rs:277-288 | a backslash before a quote does not stop that quote ending the path |
| LineProperties.EscapedQuoteInAnnotation | src/main.rs:225-300 | `@PostMapping("/a\"b")`-shaped lines record only the text before the backslash |
| LineProperties.AsciiLineWithoutParenthesis | src/main.rs:225 | on an ASCII line without '(' the name ends at the last character |
| LineProperties.AsciiLineName | src/main.rs:225-266 | on such a line the name is looked up without its last character |
| LineProperties.ShapedLineAscii | src/main.rs:201 | an indented shaped name followed by whitespace is an ASCII qualifying line without '(' |
| LineProperties.TruncatedName | src/main.rs:225-266 | a name that ends the line is read without its last character |
| LineProperties.BareName | src/main.rs:225-252 | a bare shaped name whose truncation is unknown is the panic for the truncation |
| LineProperties.BareAnnotationPanics | src/main.rs:225-252 | a bare annotation alone on its line is the panic for the annotation minus its last character |
| LineProperties.SpacedName | src/main.rs:225-266 | a shaped name followed by whitespace is looked up whole: an unknown name is the panic for that name, a known one yields its verb and an empty path |
| LineProperties.TrailingWhitespaceAnnotation | src/main.rs:225-300 | an annotation followed by whitespace (a space, a carriage return) yields its verb and an empty path |
| LineProperties.NonAsciiLineWithoutParenthesis | src/main.rs:225 | a qualifying non-ASCII line without '(' yields (ANY, "") |
| Walker.ScanContent | src/main.rs:197-301 | the loop over the lines of a file computes `ScanLines` of its '\n'-split text |
| Walker.IsHidden | src/main.rs:156-158 | a directory whose name starts with '.' is not entered; `WalkerProperties.HiddenDirectoryIgnored` states the consequence |
| Walker.IsControllerFileName | src/main.rs:143 | `^.?*(Controller\.java)$`: the name ends with "Controller.java" with no line feed before it; `WalkerProperties.ReportsAreKeptFiles` states that only such files are reported |
| Walker.ScanLines | src/main.rs:197-300 | the records of the lines in order, or the first panic; `WalkerProperties.OneRecordPerQualifyingLine` and `WalkerProperties.PanicIffUnknownAnnotation` state its meaning |
| Walker.ScanFile | src/main.rs:192-305 | a file's report under its own name holding the records of its '\n'-split text; `WalkerProperties.OneReportPerFile` states one report per file |
| Walker.Search | src/main.rs:149-310 | the reports of a directory's entries in enumeration order, subtrees spliced in place; `WalkerProperties.SearchScansKeptFiles` states it is the scan of the kept visible files |
| Walker.SearchEntry | src/main.rs:150-305 | one entry: a visible directory searched, a file kept by size and name scanned, anything else nothing; `WalkerProperties.SearchEntryScansKeptFiles` states its meaning |
| Walker.SearchInDir | src/main.rs:133-311 | the walk over a directory computes `Search` |
| Walker.ScanLinesPanicStays | src/main.rs:251 | once a line panics the file's outcome is that panic |
| Walker.SearchPanicStays | src/main.rs:251 | once an entry panics the walk's outcome is that panic |
| WalkerProperties.OneRecordPerQualifyingLine | src/main.rs:197-300 | a file that does not panic has exactly one record per qualifying line |
| WalkerProperties.PanicIffUnknownAnnotation | src/main.rs:197-252 | a file panics iff one of its lines holds an unknown annotation |
| WalkerProperties.Kept | src/main.rs:171-180 | the kept files are exactly the listed files of at most 8 MiB with a controller name |
| WalkerProperties.SearchScansKeptFiles | src/main.rs:149-305 | the walk is the scan, in order, of the kept files among those reachable without entering a hidden directory |
| WalkerProperties.SearchEntryScansKeptFiles | src/main.rs:156-305 | one entry contributes the scan of its kept visible files |
| WalkerProperties.KeptConcat | src/main.rs:171-180 | filtering keeps the order of the files |
| WalkerProperties.ScanAllConcat | src/main.rs:194-305 | scanning two lists of files is scanning one, then the other |
| WalkerProperties.OneReportPerFile | src/main.rs:194-305 | every scanned file gives one report under its own name, in order, even with no record |
| WalkerProperties.ReportsAreKeptFiles | src/main.rs:142-305 | the reports name exactly the kept visible files, in order; each is at most 8 MiB with a controller name |
| WalkerProperties.SearchConcat | src/main.rs:149-160 | subtrees are spliced in place: the walk over two lists of entries is the walk over one, then the other |
| WalkerProperties.HiddenDirectoryIgnored | src/main.rs:156-158 | removing a hidden directory, whatever it holds, changes nothing |
| WalkerProperties.SizeLimitInclusive | src/main.rs:142-175 | a controller file of exactly 8 MiB is scanned, one of a byte more is skipped |
| WalkerProperties.ThenAssociative | src/main.rs:156-160 | collecting results is associative, the first panic winning |
| Arguments.Key | src/main.rs:54 | the key is the flag without its first character |
| Arguments.Step | src/main.rs:40-66 | one pass of the loop body: the switch to the name context on a '-' element, then the four contexts; `Arguments.FlagTakesNextElement` and `Arguments.ParameterAppended` state its effect |
| Arguments.Run | src/main.rs:38-66 | the loop over the elements; `Arguments.RunFollowsGrammar` states that it reads them as the grammar does |
| Arguments.New | src/main.rs:16-70 | the value `AppArguments::new` returns; `Arguments.NewFollowsGrammar` states its meaning |
| Arguments.NewAppArguments | src/main.rs:16-70 | the argument loop computes `New` |
| Arguments.Tokens | src/main.rs:38-66 | no element read as a parameter starts with '-' |
| Arguments.Parameters | src/main.rs:62-64 | every parameter comes from a plain element |
| Arguments.PlainReadOn | src/main.rs:62-64 | the grammar reads a plain element as one more parameter |
| Arguments.FlagReadOn | src/main.rs:53-61 | the grammar reads a flag and the element after it as one more stored value |
| Arguments.RunFollowsGrammar | src/main.rs:38-66 | from the parameter context the loop reads the rest as the grammar does: values under their keys, later ones replacing earlier ones, plain elements appended |
| Arguments.NewFollowsGrammar | src/main.rs:16-70 | the first element is the execution path and the rest are read by the grammar; an empty list gives an empty result |
| Arguments.RunConcat | src/main.rs:38-66 | running over two lists is running over one, then the other |
| Arguments.ParameterAppended | src/main.rs:40-64 | an element not starting with '-' is appended to the parameters |
| Arguments.FlagTakesNextElement | src/main.rs:40-61 | a flag stores the next element under its key, even one starting with '-', replacing an earlier value |
| Arguments.TrailingFlagIgnored | src/main.rs:40-58 | a flag with no element after it inserts nothing |
| Arguments.FirstElementIsExecPath | src/main.rs:48-51 | the first element becomes the execution path |
| Arguments.MapdirExample | src/main.rs:48-61 | `app --mapdir src` stores "src" under "-mapdir" |

## Left out

- File system access: `read_dir`, `is_dir`/`is_file`, `metadata`, `File::open` and `read_to_end`. Their failures, and the panics and skips around them, are not modelled. The tree is given as a value, in enumeration order.
- `String::from_utf8_lossy`: file content is given as decoded text.
- Unicode whitespace, the Unicode `\w` class and `trim`: the model uses their ASCII members.
- The regex engine: the two patterns are explicit predicates.
  - `IsControllerFileName`: ends with "Controller.java", with no line feed before it.
  - `MatchesEndpointPattern`: '@', one or more word characters, then "Mapping".
- `env::args`: the argument list is a parameter.
- `main`: its printing, and its `expect` on a missing `mapdir` argument.
- The `println!` warnings for skipped files.
- `unwrap` panics on file names that are not valid UTF-8.
- Entries that are neither directories nor files contribute nothing (`Other`). A hidden directory falls through to the file test in the source and contributes nothing either.
