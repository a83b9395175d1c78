/** What the walk reports: one report for each visible controller file of
    at most 8 MiB, in enumeration order with subtrees spliced in place,
    holding one record for each qualifying line; nothing from a hidden
    directory. */
module WalkerProperties {
  import opened Text
  import opened LineParser
  import opened Walker

  // ---------------------------------------------------------------------
  // Lines

  /** The number of lines that pass the filter. */
  function QualifyingCount(lines: seq<string>): nat
  {
    if lines == [] then 0
    else QualifyingCount(lines[..|lines| - 1]) + (if Qualifies(lines[|lines| - 1]) then 1 else 0)
  }

  /** Exactly one record per qualifying line: unless a line panics, the
      records of a file are as many as its qualifying lines. */
  lemma {:induction false} OneRecordPerQualifyingLine(lines: seq<string>)
    ensures ScanLines(lines).Ok? ==> |ScanLines(lines).value| == QualifyingCount(lines)
  {
    if lines != [] {
      OneRecordPerQualifyingLine(lines[..|lines| - 1]);
    }
  }

  /** A file panics exactly when one of its lines holds an unknown annotation. */
  lemma {:induction false} PanicIffUnknownAnnotation(lines: seq<string>)
    ensures ScanLines(lines).Panic? <==>
      exists i | 0 <= i < |lines| :: Parse(lines[i]).UnknownAnnotation?
  {
    if lines != [] {
      var init := lines[..|lines| - 1];
      PanicIffUnknownAnnotation(init);
      ScanLinesPanicStep(lines);
      if ScanLines(lines).Panic? {
        if ScanLines(init).Panic? {
          var i :| 0 <= i < |init| && Parse(init[i]).UnknownAnnotation?;
          assert lines[i] == init[i];
        } else {
          assert Parse(lines[|lines| - 1]).UnknownAnnotation?;
        }
      } else {
        forall i | 0 <= i < |lines| ensures !Parse(lines[i]).UnknownAnnotation? {
          if i < |init| {
            assert lines[i] == init[i];
          }
        }
      }
    }
  }

  /** The scan of a non-empty sequence panics when the scan before the last
      line did, or when the last line holds an unknown annotation. */
  lemma ScanLinesPanicStep(lines: seq<string>)
    requires lines != []
    ensures ScanLines(lines).Panic? <==>
      ScanLines(lines[..|lines| - 1]).Panic? || Parse(lines[|lines| - 1]).UnknownAnnotation?
  {
  }

  // ---------------------------------------------------------------------
  // An independent statement of the walk: flatten, filter, scan

  /** A file as the walk sees it. */
  datatype SourceFile = SourceFile(name: string, size: nat, content: string)

  /** The files reachable without entering a hidden directory, in
      enumeration order, each directory's files in its place. */
  function VisibleFiles(es: seq<Entry>): seq<SourceFile>
    decreases es
  {
    if es == [] then [] else VisibleFiles(es[..|es| - 1]) + VisibleFilesOf(es[|es| - 1])
  }

  function VisibleFilesOf(e: Entry): seq<SourceFile>
    decreases e
  {
    match e
    case Dir(name, entries) => if IsHidden(name) then [] else VisibleFiles(entries)
    case File(name, size, content) => [SourceFile(name, size, content)]
    case Other(_) => []
  }

  /** Files small enough to read, with a controller name. */
  predicate IsKept(f: SourceFile) {
    f.size <= BufferSize && IsControllerFileName(f.name)
  }

  /** The kept files, in order. */
  function Kept(fs: seq<SourceFile>): (r: seq<SourceFile>)
    ensures forall f | f in r :: f in fs && IsKept(f)
    ensures forall f | f in fs && IsKept(f) :: f in r
  {
    if fs == [] then []
    else Kept(fs[..|fs| - 1]) + (if IsKept(fs[|fs| - 1]) then [fs[|fs| - 1]] else [])
  }

  /** One kept file scanned into its report. */
  function Report(f: SourceFile): Outcome<seq<FileReport>>
  {
    match ScanFile(f.name, f.content)
    case Panic(name) => Panic(name)
    case Ok(report) => Ok([report])
  }

  /** Files scanned one after the other. */
  function ScanAll(fs: seq<SourceFile>): Outcome<seq<FileReport>>
  {
    if fs == [] then Ok([]) else Then(ScanAll(fs[..|fs| - 1]), Report(fs[|fs| - 1]))
  }

  lemma ThenAssociative<T>(a: Outcome<seq<T>>, b: Outcome<seq<T>>, c: Outcome<seq<T>>)
    ensures Then(Then(a, b), c) == Then(a, Then(b, c))
  {
    if a.Ok? && b.Ok? && c.Ok? {
      assert (a.value + b.value) + c.value == a.value + (b.value + c.value);
    }
  }

  lemma ThenNothing<T>(a: Outcome<seq<T>>)
    ensures Then(a, Ok([])) == a && Then(Ok([]), a) == a
  {
    if a.Ok? {
      assert a.value + [] == a.value;
      assert [] + a.value == a.value;
    }
  }

  /** Kept files of two lists are the kept files of each. */
  lemma {:induction false} KeptConcat(a: seq<SourceFile>, b: seq<SourceFile>)
    ensures Kept(a + b) == Kept(a) + Kept(b)
    decreases |b|
  {
    if b == [] {
      assert a + b == a;
    } else {
      var init := b[..|b| - 1];
      assert (a + b)[..|a + b| - 1] == a + init;
      KeptConcat(a, init);
    }
  }

  /** Scanning two lists of files is scanning one, then the other. */
  lemma {:induction false} ScanAllConcat(a: seq<SourceFile>, b: seq<SourceFile>)
    ensures ScanAll(a + b) == Then(ScanAll(a), ScanAll(b))
    decreases |b|
  {
    if b == [] {
      assert a + b == a;
      ThenNothing(ScanAll(a));
    } else {
      var init := b[..|b| - 1];
      assert (a + b)[..|a + b| - 1] == a + init;
      ScanAllConcat(a, init);
      ThenAssociative(ScanAll(a), ScanAll(init), Report(b[|b| - 1]));
    }
  }

  /** The walk is the scan of the kept visible files. */
  lemma {:induction false} SearchScansKeptFiles(es: seq<Entry>)
    ensures Search(es) == ScanAll(Kept(VisibleFiles(es)))
    decreases es
  {
    if es != [] {
      var init := es[..|es| - 1];
      var e := es[|es| - 1];
      SearchScansKeptFiles(init);
      SearchEntryScansKeptFiles(e);
      KeptConcat(VisibleFiles(init), VisibleFilesOf(e));
      ScanAllConcat(Kept(VisibleFiles(init)), Kept(VisibleFilesOf(e)));
    }
  }

  lemma {:induction false} SearchEntryScansKeptFiles(e: Entry)
    ensures SearchEntry(e) == ScanAll(Kept(VisibleFilesOf(e)))
    decreases e
  {
    match e {
      case Dir(name, entries) =>
        if !IsHidden(name) {
          SearchScansKeptFiles(entries);
        }
      case File(name, size, content) =>
        FileScansIfKept(SourceFile(name, size, content));
      case Other(_) =>
    }
  }

  /** A file on its own is scanned exactly when it is kept. */
  lemma FileScansIfKept(f: SourceFile)
    ensures SearchEntry(File(f.name, f.size, f.content)) == ScanAll(Kept([f]))
  {
    assert [f][..0] == [];
    assert Kept([f]) == if IsKept(f) then [f] else [];
    ThenNothing(Report(f));
  }

  // ---------------------------------------------------------------------
  // Consequences

  /** Without a panic, each file scanned gives exactly one report, under its
      own name, in order — also a file with no record. */
  lemma {:induction false} OneReportPerFile(fs: seq<SourceFile>)
    ensures ScanAll(fs).Ok? ==>
      |ScanAll(fs).value| == |fs| &&
      forall i | 0 <= i < |fs| :: ScanAll(fs).value[i].fileName == fs[i].name
  {
    if fs != [] {
      var init := fs[..|fs| - 1];
      OneReportPerFile(init);
      if ScanAll(fs).Ok? {
        var rs := ScanAll(fs).value;
        assert rs == ScanAll(init).value + Report(fs[|fs| - 1]).value;
        forall i | 0 <= i < |fs| ensures rs[i].fileName == fs[i].name {
          if i < |init| {
            assert fs[i] == init[i];
          }
        }
      }
    }
  }

  /** The reports of a walk without panic name exactly the kept visible
      files, in order: each is at most 8 MiB and has a controller name. */
  lemma ReportsAreKeptFiles(es: seq<Entry>)
    ensures Search(es).Ok? ==>
      |Search(es).value| == |Kept(VisibleFiles(es))| &&
      forall i | 0 <= i < |Search(es).value| ::
        Search(es).value[i].fileName == Kept(VisibleFiles(es))[i].name &&
        Kept(VisibleFiles(es))[i].size <= BufferSize &&
        IsControllerFileName(Search(es).value[i].fileName)
  {
    SearchScansKeptFiles(es);
    var kept := Kept(VisibleFiles(es));
    OneReportPerFile(kept);
    forall i | 0 <= i < |kept| ensures IsKept(kept[i]) {
      assert kept[i] in kept;
    }
  }

  /** Subtrees are spliced in place: the walk over two lists of entries is
      the walk over the first, then over the second. */
  lemma {:induction false} SearchConcat(a: seq<Entry>, b: seq<Entry>)
    ensures Search(a + b) == Then(Search(a), Search(b))
    decreases |b|
  {
    if b == [] {
      assert a + b == a;
      ThenNothing(Search(a));
    } else {
      var init := b[..|b| - 1];
      assert (a + b)[..|a + b| - 1] == a + init;
      SearchConcat(a, init);
      ThenAssociative(Search(a), Search(init), SearchEntry(b[|b| - 1]));
    }
  }

  /** A hidden directory makes no difference, whatever it holds. */
  lemma HiddenDirectoryIgnored(es: seq<Entry>, i: nat)
    requires i < |es| && es[i].Dir? && IsHidden(es[i].name)
    ensures Search(es) == Search(es[..i] + es[i + 1..])
  {
    assert es == es[..i] + [es[i]] + es[i + 1..];
    SearchConcat(es[..i] + [es[i]], es[i + 1..]);
    SearchConcat(es[..i], [es[i]]);
    SearchConcat(es[..i], es[i + 1..]);
    assert [es[i]][..0] == [];
    ThenNothing(SearchEntry(es[i]));
    ThenNothing(Search(es[..i]));
  }

  /** The size limit is inclusive: a controller file of exactly 8 MiB is
      read, one byte more is skipped. */
  lemma SizeLimitInclusive(name: string, content: string)
    requires IsControllerFileName(name)
    ensures SearchEntry(File(name, BufferSize, content)) == Report(SourceFile(name, BufferSize, content))
    ensures SearchEntry(File(name, BufferSize + 1, content)) == Ok([])
  {
  }
}
