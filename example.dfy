/**
 * One complete copy on a small project: the selection is fileA, fileB (binary)
 * and directoryC holding fileD; the settings are the defaults except for the
 * header "FILE: $FILE_PATH", the pre-text "START", the post-text "END" and no
 * extra line between files. The run is worked out for any texts `a` of fileA
 * and `d` of fileD, then for "hello\nworld" and "x".
 */
module Example {
  import opened Text
  import opened Settings
  import opened Engine
  import opened Properties

  const Config: State := Default.(headerFormat := "FILE: " + FilePathPlaceholder, preText := "START",
                                  postText := "END", addExtraLineBetweenFiles := false)

  /** The platform's answers for the example: the paths are already relative to
      the first content root; fileB is binary; nothing is cached; the files are
      small; fileA and fileD read as `a` and `d`. */
  predicate ExampleProject(host: Host, a: string, d: string) {
    && host.contentRoots != []
    && host.relativePath("fileA", host.contentRoots[0]) == Some("fileA")
    && host.relativePath("fileB", host.contentRoots[0]) == Some("fileB")
    && host.relativePath("directoryC/fileD", host.contentRoots[0]) == Some("directoryC/fileD")
    && !host.isBinary("fileA") && host.isBinary("fileB") && !host.isBinary("directoryC/fileD")
    && host.length("fileA") <= MaxFileLength && host.length("directoryC/fileD") <= MaxFileLength
    && host.cachedText("fileA").None? && host.cachedText("directoryC/fileD").None?
    && host.diskText("fileA") == Some(a) && host.diskText("directoryC/fileD") == Some(d)
  }

  const FileA: Entry := File("fileA", "fileA")
  const FileB: Entry := File("fileB", "fileB")
  const FileD: Entry := File("directoryC/fileD", "fileD")
  const DirectoryC: Entry := Directory("directoryC", [FileD])
  const Selection: seq<Entry> := [FileA, FileB, DirectoryC]

  lemma Headers()
    ensures Header(Config, "fileA") == "FILE: fileA"
    ensures Header(Config, "directoryC/fileD") == "FILE: directoryC/fileD"
  {
    HeaderWithPrefix(Config, "FILE: ", "fileA");
    HeaderWithPrefix(Config, "FILE: ", "directoryC/fileD");
  }

  /** The run after fileA. */
  function AfterA(a: string): Run {
    Run(["START", "FILE: fileA", a], {"fileA"}, 1, false, [Included(FileA, "fileA", a)])
  }

  /** The run after fileB: only its path is marked. */
  function AfterB(a: string): Run {
    AfterA(a).(copied := {"fileA", "fileB"})
  }

  /** The run after directoryC. */
  function AfterC(a: string, d: string): Run {
    Run(["START", "FILE: fileA", a, "FILE: directoryC/fileD", d],
        {"fileA", "fileB", "directoryC/fileD"}, 2, false,
        [Included(FileA, "fileA", a), Included(FileD, "directoryC/fileD", d)])
  }

  lemma StepA(host: Host, a: string, d: string)
    requires ExampleProject(host, a, d)
    ensures ProcessEntry(Config, host, FileA, InitialRun(Config)) == (AfterA(a), a)
  {
    Headers();
    assert "fileA" != "fileB" by { assert "fileA"[4] != "fileB"[4]; }
    assert RelativePath(host, FileA) == "fileA";
    assert FileText(host, "fileA") == a;
    assert PassesFilter(Config, "fileA");
    assert !TooLargeOrBinary(host, "fileA");
    assert Block(Config, Included(FileA, "fileA", a)) == ["FILE: fileA", a];
    var res := ProcessFile(Config, host, FileA, InitialRun(Config));
    assert res.0.fileCount == 1;
    assert res.0.parts == AfterA(a).parts;
    assert res.0.copied == AfterA(a).copied;
    assert res.0.included == AfterA(a).included;
  }

  lemma StepB(host: Host, a: string, d: string)
    requires ExampleProject(host, a, d)
    ensures ProcessEntry(Config, host, FileB, AfterA(a)) == (AfterB(a), "")
  {
    assert "fileB" != "fileA" by { assert "fileA"[4] != "fileB"[4]; }
    assert RelativePath(host, FileB) == "fileB";
    assert TooLargeOrBinary(host, "fileB");
    var res := ProcessFile(Config, host, FileB, AfterA(a));
    assert res.0.copied == AfterB(a).copied;
    assert res.0 == AfterB(a);
  }

  lemma StepD(host: Host, a: string, d: string)
    requires ExampleProject(host, a, d)
    ensures ProcessFile(Config, host, FileD, AfterB(a)) == (AfterC(a, d), d)
  {
    Headers();
    var p := "directoryC/fileD";
    assert p != "fileA" && p != "fileB";
    assert RelativePath(host, FileD) == p;
    assert FileText(host, p) == d;
    assert PassesFilter(Config, "fileD");
    assert !TooLargeOrBinary(host, p);
    assert Block(Config, Included(FileD, p, d)) == ["FILE: directoryC/fileD", d];
    var res := ProcessFile(Config, host, FileD, AfterB(a));
    assert res.0.fileCount == 2;
    assert res.0.parts == AfterC(a, d).parts;
    assert res.0.copied == AfterC(a, d).copied;
    assert res.0.included == AfterC(a, d).included;
  }

  lemma StepC(host: Host, a: string, d: string)
    requires ExampleProject(host, a, d)
    ensures ProcessEntry(Config, host, DirectoryC, AfterB(a)) == (AfterC(a, d), d)
  {
    StepD(host, a, d);
    assert ProcessEntry(Config, host, FileD, AfterB(a)) == (AfterC(a, d), d);
    assert !OverBudget(Config, AfterB(a));
    assert [FileD][1..] == [];
    assert ProcessChildren(Config, host, [], AfterC(a, d)) == (AfterC(a, d), "");
    assert d + "" == d;
    assert ProcessChildren(Config, host, [FileD], AfterB(a)) == (AfterC(a, d), d);
  }

  /** The last turn: directoryC is traversed and the selection is exhausted. */
  lemma LastTurn(host: Host, a: string, d: string, st: Stats)
    requires ExampleProject(host, a, d)
    ensures ProcessSelection(Config, host, [DirectoryC], AfterB(a), st) == (AfterC(a, d), AddStats(st, StatsOf(d)))
  {
    StepC(host, a, d);
    SelectionStep(Config, host, [DirectoryC], AfterB(a), st);
    assert [DirectoryC][1..] == [];
  }

  /** The traversal: fileA embedded, fileB marked but skipped as binary, fileD
      embedded from inside directoryC; the totals add the three returned texts. */
  lemma Traversal(host: Host, a: string, d: string)
    requires ExampleProject(host, a, d)
    ensures FinalRun(Config, host, Selection) ==
      (AfterC(a, d), AddStats(AddStats(AddStats(NoStats, StatsOf(a)), StatsOf("")), StatsOf(d)))
  {
    var st1 := AddStats(NoStats, StatsOf(a));
    StepA(host, a, d);
    StepB(host, a, d);
    SelectionStep(Config, host, Selection, InitialRun(Config), NoStats);
    assert Selection[0] == FileA && Selection[1..] == [FileB, DirectoryC];
    SelectionStep(Config, host, [FileB, DirectoryC], AfterA(a), st1);
    assert [FileB, DirectoryC][1..] == [DirectoryC];
    LastTurn(host, a, d, AddStats(st1, StatsOf("")));
  }

  /** The clipboard text of the final run. */
  lemma ClipboardText(a: string, d: string)
    ensures Document(Config, AfterC(a, d)) ==
      "START" + "\n" + ("FILE: fileA" + "\n" + (a + "\n" + ("FILE: directoryC/fileD" + "\n" + (d + "\n" + "END"))))
  {
    var parts := AfterC(a, d).parts + ["END"];
    assert parts == ["START"] + (["FILE: fileA"] + ([a] + (["FILE: directoryC/fileD"] + ([d] + ["END"]))));
    JoinAppend([d], ["END"], "\n");
    JoinAppend(["FILE: directoryC/fileD"], [d] + ["END"], "\n");
    JoinAppend([a], ["FILE: directoryC/fileD"] + ([d] + ["END"]), "\n");
    JoinAppend(["FILE: fileA"], [a] + (["FILE: directoryC/fileD"] + ([d] + ["END"])), "\n");
    JoinAppend(["START"], ["FILE: fileA"] + ([a] + (["FILE: directoryC/fileD"] + ([d] + ["END"]))), "\n");
  }

  /** For any texts of fileA and fileD: the clipboard holds the pre-text, the two
      embedded files with their headers and the post-text on successive lines;
      two files are counted; the limit is not reached; fileB's path is marked
      although it is skipped; and the character total is that of the two texts. */
  lemma AnyTexts(host: Host, a: string, d: string)
    requires ExampleProject(host, a, d)
    ensures var (r, st) := FinalRun(Config, host, Selection);
      && Document(Config, r) ==
           "START" + "\n" + ("FILE: fileA" + "\n" + (a + "\n" + ("FILE: directoryC/fileD" + "\n" + (d + "\n" + "END"))))
      && r.fileCount == 2
      && !r.limitReached
      && "fileB" in r.copied
      && st.chars == |a| + |d|
  {
    Traversal(host, a, d);
    ClipboardText(a, d);
  }

  /** The example with fileA reading "hello\nworld" and fileD reading "x": the
      clipboard holds the lines START, FILE: fileA, hello, world,
      FILE: directoryC/fileD, x and END, and twelve characters are counted. */
  lemma EndToEnd(host: Host)
    requires ExampleProject(host, "hello\nworld", "x")
    ensures var (r, st) := FinalRun(Config, host, Selection);
      && Document(Config, r) ==
           "START" + "\n" + ("FILE: fileA" + "\n" + ("hello\nworld" + "\n" + ("FILE: directoryC/fileD" + "\n" + ("x" + "\n" + "END"))))
      && r.fileCount == 2
      && !r.limitReached
      && st.chars == 12
  {
    AnyTexts(host, "hello\nworld", "x");
  }
}
