/** `search_in_dir` (src/main.rs:133-311): the walk over a directory tree
    that keeps the controller sources, reads them line by line and collects
    one report per file.

    The file system is an in-memory tree of entries given in the order the
    directory listing enumerates them. `Search` states the walk's result as a
    recursive function; `SearchInDir` is the walk as the source runs it, with
    loops and recursion, and is proved to compute `Search`. */
module Walker {
  import opened Text
  import opened Verbs
  import opened LineParser

  /** `BUFFER_SIZE` (src/main.rs:141): 8 MiB. */
  const BufferSize: nat := 1024 * 1024 * 8

  /** A directory entry: a directory with its entries, a file with its size
      in bytes and its decoded text, or anything else (neither a directory
      nor a file, such as a dangling link). */
  datatype Entry =
    | Dir(name: string, entries: seq<Entry>)
    | File(name: string, size: nat, content: string)
    | Other(name: string)

  /** `ControllerFileSearchResult`: a kept file and the records found in it. */
  datatype FileReport = FileReport(fileName: string, requests: seq<EndpointMatch>)

  /** A result, or the panic at src/main.rs:251 that ends the whole run,
      with the unknown annotation name it reports. */
  datatype Outcome<T> = Ok(value: T) | Panic(name: string)

  /** Results collected one after the other: the first panic wins, and
      otherwise the two lists are appended. */
  function Then<T>(first: Outcome<seq<T>>, second: Outcome<seq<T>>): Outcome<seq<T>>
  {
    match first
    case Panic(name) => Panic(name)
    case Ok(xs) =>
      match second
      case Panic(name) => Panic(name)
      case Ok(ys) => Ok(xs + ys)
  }

  /** Directories whose name starts with '.' are not entered (src/main.rs:156-158). */
  predicate IsHidden(name: string) {
    |name| > 0 && name[0] == '.'
  }

  /** `^.?*(Controller\.java)$` (src/main.rs:143): the name ends with
      "Controller.java" and, since `.` does not match a line feed, holds no
      line feed before it. */
  predicate IsControllerFileName(name: string) {
    |name| >= 15 && name[|name| - 15..] == "Controller.java" &&
    forall i | 0 <= i < |name| - 15 :: name[i] != '\n'
  }

  // ---------------------------------------------------------------------
  // The walk as functions

  /** The records of a sequence of lines, in order, or the panic of the
      first line with an unknown annotation. */
  function ScanLines(lines: seq<string>): Outcome<seq<EndpointMatch>>
  {
    if lines == [] then Ok([])
    else
      match ScanLines(lines[..|lines| - 1])
      case Panic(name) => Panic(name)
      case Ok(found) =>
        match Parse(lines[|lines| - 1])
        case NoMatch => Ok(found)
        case Match(m) => Ok(found + [m])
        case UnknownAnnotation(name) => Panic(name)
  }

  /** A kept file's report: its text split on '\n' (src/main.rs:197). */
  function ScanFile(name: string, content: string): Outcome<FileReport>
  {
    match ScanLines(Split(content, '\n'))
    case Panic(n) => Panic(n)
    case Ok(found) => Ok(FileReport(name, found))
  }

  /** The reports of a sequence of entries, each entry's reports spliced in
      where the entry is enumerated. */
  function Search(es: seq<Entry>): Outcome<seq<FileReport>>
    decreases es
  {
    if es == [] then Ok([])
    else Then(Search(es[..|es| - 1]), SearchEntry(es[|es| - 1]))
  }

  /** One entry: a directory that is not hidden is searched; a file is kept
      when it is at most `BufferSize` bytes and has a controller name; any
      other entry contributes nothing. */
  function SearchEntry(e: Entry): Outcome<seq<FileReport>>
    decreases e
  {
    match e
    case Dir(name, entries) =>
      if IsHidden(name) then Ok([]) else Search(entries)
    case File(name, size, content) =>
      if size > BufferSize || !IsControllerFileName(name) then Ok([])
      else (
        match ScanFile(name, content)
        case Panic(n) => Panic(n)
        case Ok(report) => Ok([report]))
    case Other(_) => Ok([])
  }

  // ---------------------------------------------------------------------
  // The walk as the source runs it

  /** The loop at src/main.rs:197-301 over the lines of one file. */
  method ScanContent(content: string) returns (r: Outcome<seq<EndpointMatch>>)
    ensures r == ScanLines(Split(content, '\n'))
  {
    var lines := Split(content, '\n');
    var found: seq<EndpointMatch> := [];
    for i := 0 to |lines|
      invariant ScanLines(lines[..i]) == Ok(found)
    {
      assert lines[..i + 1][..i] == lines[..i];
      var outcome := ParseLine(lines[i]);
      match outcome {
        case NoMatch =>
        case Match(m) =>
          found := found + [m];
        case UnknownAnnotation(name) =>
          ScanLinesPanicStays(lines, i + 1, name);
          return Panic(name);
      }
    }
    assert lines[..|lines|] == lines;
    return Ok(found);
  }

  /** `search_in_dir` over the entries of one directory. */
  method SearchInDir(entries: seq<Entry>) returns (r: Outcome<seq<FileReport>>)
    ensures r == Search(entries)
    decreases entries
  {
    var results: seq<FileReport> := [];
    for i := 0 to |entries|
      invariant Search(entries[..i]) == Ok(results)
    {
      assert entries[..i + 1][..i] == entries[..i];
      assert results + [] == results;
      var entry := entries[i];
      if entry.Dir? && !IsHidden(entry.name) {
        assert entry in entries;
        var sub := SearchInDir(entry.entries);
        if sub.Panic? {
          SearchPanicStays(entries, i + 1, sub.name);
          return Panic(sub.name);
        }
        results := results + sub.value;
        continue;
      }
      if entry.File? {
        if entry.size > BufferSize {
          continue;
        }
        if !IsControllerFileName(entry.name) {
          continue;
        }
        var found := ScanContent(entry.content);
        if found.Panic? {
          SearchPanicStays(entries, i + 1, found.name);
          return Panic(found.name);
        }
        results := results + [FileReport(entry.name, found.value)];
      }
    }
    assert entries[..|entries|] == entries;
    return Ok(results);
  }

  /** After a panic no later line is read. */
  lemma {:induction false} ScanLinesPanicStays(lines: seq<string>, n: nat, name: string)
    requires n <= |lines| && ScanLines(lines[..n]) == Panic(name)
    ensures ScanLines(lines) == Panic(name)
    decreases |lines| - n
  {
    if n < |lines| {
      assert lines[..n + 1][..n] == lines[..n];
      ScanLinesPanicStays(lines, n + 1, name);
    } else {
      assert lines[..n] == lines;
    }
  }

  /** After a panic no later entry is visited. */
  lemma {:induction false} SearchPanicStays(es: seq<Entry>, n: nat, name: string)
    requires n <= |es| && Search(es[..n]) == Panic(name)
    ensures Search(es) == Panic(name)
    decreases |es| - n
  {
    if n < |es| {
      assert es[..n + 1][..n] == es[..n];
      SearchPanicStays(es, n + 1, name);
    } else {
      assert es[..n] == es;
    }
  }
}
