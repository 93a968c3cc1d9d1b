/**
 * What the traversal of module Engine guarantees: the shape of the document,
 * de-duplication by path, the file budget, which files get in, that every file
 * met is marked, and that the budget only ever cuts the traversal short.
 */
module Properties {
  import opened Text
  import opened Settings
  import opened Report
  import opened Engine

  /** The budget as a bound on the count: a negative limit admits no file. */
  function Max0(x: int): nat {
    if x < 0 then 0 else x
  }

  /** The invariant of a run: the parts are the pre-text followed by one block per
      embedded file, in order; the count is the number of embedded files; their
      paths are marked and pairwise distinct; the budget is respected; and the
      limit flag is only set once the budget is exhausted. */
  ghost predicate Consistent(cfg: State, r: Run) {
    && r.parts == [cfg.preText] + Blocks(cfg, r.included)
    && r.fileCount == |r.included|
    && (forall i :: 0 <= i < |r.included| ==> r.included[i].path in r.copied)
    && (forall i, j :: 0 <= i < j < |r.included| ==> r.included[i].path != r.included[j].path)
    && (cfg.setMaxFileCount ==> r.fileCount <= Max0(cfg.fileCountLimit))
    && (r.limitReached ==> OverBudget(cfg, r))
  }

  /** An embedded file passed every check and carries the text the platform gives. */
  ghost predicate Admitted(cfg: State, host: Host, inc: Included) {
    && inc.file.File?
    && inc.path == RelativePath(host, inc.file)
    && PassesFilter(cfg, inc.file.name)
    && !TooLargeOrBinary(host, inc.file.path)
    && inc.content == FileText(host, inc.file.path)
  }

  /** The files of a tree. */
  function FilesIn(e: Entry): (fs: set<Entry>)
    ensures forall f :: f in fs ==> f.File?
    decreases e
  {
    match e
    case File(_, _) => {e}
    case Directory(_, children) => FilesInSeq(children)
  }

  function FilesInSeq(es: seq<Entry>): (fs: set<Entry>)
    ensures forall f :: f in fs ==> f.File?
    decreases es
  {
    if es == [] then {} else FilesIn(es[0]) + FilesInSeq(es[1..])
  }

  /** How a run may evolve while a part of the selection whose files are
      `universe` is processed: the embedded files only grow at the end, with
      admitted files of `universe`; marked paths are kept; the limit flag,
      once set, stays set. */
  ghost predicate Grows(cfg: State, host: Host, r: Run, r': Run, universe: set<Entry>) {
    && r.included <= r'.included
    && (forall i :: |r.included| <= i < |r'.included| ==>
          r'.included[i].file in universe && Admitted(cfg, host, r'.included[i]))
    && r.copied <= r'.copied
    && (r.limitReached ==> r'.limitReached)
  }

  /** The settings with the budget switched off. */
  function Unbounded(cfg: State): State {
    cfg.(setMaxFileCount := false)
  }

  // ---------------------------------------------------------------------------
  // Helpers on blocks and contents

  lemma {:induction false} BlocksAppend(cfg: State, incs: seq<Included>, inc: Included)
    ensures Blocks(cfg, incs + [inc]) == Blocks(cfg, incs) + Block(cfg, inc)
  {
    if incs == [] {
      assert incs + [inc] == [inc];
      assert Blocks(cfg, [inc]) == Block(cfg, inc) + Blocks(cfg, []);
    } else {
      assert (incs + [inc])[1..] == incs[1..] + [inc];
      BlocksAppend(cfg, incs[1..], inc);
    }
  }

  lemma {:induction false} ContentsAppend(a: seq<Included>, b: seq<Included>)
    ensures Contents(a + b) == Contents(a) + Contents(b)
  {
    if a == [] {
      assert a + b == b;
    } else {
      assert (a + b)[1..] == a[1..] + b;
      ContentsAppend(a[1..], b);
    }
  }

  lemma GrowsRefl(cfg: State, host: Host, r: Run, r': Run, universe: set<Entry>)
    requires r'.included == r.included && r.copied <= r'.copied && (r.limitReached ==> r'.limitReached)
    ensures Grows(cfg, host, r, r', universe)
    ensures r'.included[|r.included|..] == []
  {
  }

  lemma GrowsTrans(cfg: State, host: Host, r: Run, r1: Run, r2: Run, u1: set<Entry>, u2: set<Entry>)
    requires Grows(cfg, host, r, r1, u1) && Grows(cfg, host, r1, r2, u2)
    ensures Grows(cfg, host, r, r2, u1 + u2)
    ensures r2.included[|r.included|..] == r1.included[|r.included|..] + r2.included[|r1.included|..]
  {
    var n, n1 := |r.included|, |r1.included|;
    assert r2.included[..n1] == r1.included;
    forall i | n <= i < |r2.included|
      ensures r2.included[i].file in u1 + u2 && Admitted(cfg, host, r2.included[i])
    {
      if i < n1 {
        assert r2.included[i] == r1.included[i];
      }
    }
  }

  // ---------------------------------------------------------------------------
  // The run invariant

  lemma InitialConsistent(cfg: State)
    ensures Consistent(cfg, InitialRun(cfg))
  {
    assert Blocks(cfg, []) == [];
  }

  /** Processing one file keeps the invariant, provided the budget allowed it. */
  lemma ProcessFileConsistent(cfg: State, host: Host, f: Entry, r: Run)
    requires f.File? && Consistent(cfg, r) && !OverBudget(cfg, r)
    ensures Consistent(cfg, ProcessFile(cfg, host, f, r).0)
  {
    var r' := ProcessFile(cfg, host, f, r).0;
    if r'.fileCount == r.fileCount + 1 {
      var inc := Included(f, RelativePath(host, f), FileText(host, f.path));
      BlocksAppend(cfg, r.included, inc);
      assert r'.included == r.included + [inc];
      assert forall i :: 0 <= i < |r.included| ==> r'.included[i] == r.included[i];
    }
  }

  lemma {:induction false} ProcessEntryConsistent(cfg: State, host: Host, e: Entry, r: Run)
    requires Consistent(cfg, r) && !OverBudget(cfg, r)
    ensures Consistent(cfg, ProcessEntry(cfg, host, e, r).0)
    decreases e, 1
  {
    match e
    case File(_, _) => ProcessFileConsistent(cfg, host, e, r);
    case Directory(_, children) => ProcessChildrenConsistent(cfg, host, children, r);
  }

  lemma {:induction false} ProcessChildrenConsistent(cfg: State, host: Host, cs: seq<Entry>, r: Run)
    requires Consistent(cfg, r)
    ensures Consistent(cfg, ProcessChildren(cfg, host, cs, r).0)
    decreases cs, 0
  {
    if cs != [] && !OverBudget(cfg, r) {
      var r1 := ProcessEntry(cfg, host, cs[0], r).0;
      ProcessEntryConsistent(cfg, host, cs[0], r);
      ProcessChildrenConsistent(cfg, host, cs[1..], r1);
    }
  }

  lemma {:induction false} ProcessSelectionConsistent(cfg: State, host: Host, es: seq<Entry>, r: Run, st: Stats)
    requires Consistent(cfg, r)
    ensures Consistent(cfg, ProcessSelection(cfg, host, es, r, st).0)
    decreases es
  {
    if es != [] && !OverBudget(cfg, r) {
      var (r1, c) := ProcessEntry(cfg, host, es[0], r);
      ProcessEntryConsistent(cfg, host, es[0], r);
      ProcessSelectionConsistent(cfg, host, es[1..], r1, AddStats(st, StatsOf(c)));
    }
  }

  // ---------------------------------------------------------------------------
  // Which files get in, and what an entry returns

  lemma ProcessFileGrows(cfg: State, host: Host, f: Entry, r: Run)
    requires f.File?
    ensures var (r', c) := ProcessFile(cfg, host, f, r);
      Grows(cfg, host, r, r', {f}) && c == Contents(r'.included[|r.included|..])
  {
    var (r', c) := ProcessFile(cfg, host, f, r);
    if r'.fileCount == r.fileCount + 1 {
      var inc := Included(f, RelativePath(host, f), FileText(host, f.path));
      assert r'.included[|r.included|..] == [inc];
      assert Contents([inc]) == inc.content + Contents([]);
    } else {
      GrowsRefl(cfg, host, r, r', {f});
    }
  }

  /** An entry embeds only admitted files of its own tree, and returns their
      contents glued together. */
  lemma {:induction false} ProcessEntryGrows(cfg: State, host: Host, e: Entry, r: Run)
    ensures var (r', c) := ProcessEntry(cfg, host, e, r);
      Grows(cfg, host, r, r', FilesIn(e)) && c == Contents(r'.included[|r.included|..])
    decreases e, 1
  {
    match e
    case File(_, _) => ProcessFileGrows(cfg, host, e, r);
    case Directory(_, children) => ProcessChildrenGrows(cfg, host, children, r);
  }

  /** A directory's returned text is the contents of the files it embedded. */
  lemma {:induction false} ProcessChildrenGrows(cfg: State, host: Host, cs: seq<Entry>, r: Run)
    ensures var (r', c) := ProcessChildren(cfg, host, cs, r);
      Grows(cfg, host, r, r', FilesInSeq(cs)) && c == Contents(r'.included[|r.included|..])
    decreases cs, 0
  {
    var (r', c) := ProcessChildren(cfg, host, cs, r);
    if cs == [] || OverBudget(cfg, r) {
      GrowsRefl(cfg, host, r, r', FilesInSeq(cs));
    } else {
      var (r1, c1) := ProcessEntry(cfg, host, cs[0], r);
      var (r2, rest) := ProcessChildren(cfg, host, cs[1..], r1);
      ProcessEntryGrows(cfg, host, cs[0], r);
      ProcessChildrenGrows(cfg, host, cs[1..], r1);
      GrowsTrans(cfg, host, r, r1, r2, FilesIn(cs[0]), FilesInSeq(cs[1..]));
      ContentsAppend(r1.included[|r.included|..], r2.included[|r1.included|..]);
    }
  }

  /** The selection embeds only admitted files of the selection, and the
      character total grows by the length of their contents. */
  lemma {:induction false} ProcessSelectionGrows(cfg: State, host: Host, es: seq<Entry>, r: Run, st: Stats)
    ensures var (r', st') := ProcessSelection(cfg, host, es, r, st);
      Grows(cfg, host, r, r', FilesInSeq(es)) && st'.chars == st.chars + |Contents(r'.included[|r.included|..])|
    decreases es
  {
    var (r', st') := ProcessSelection(cfg, host, es, r, st);
    if es == [] || OverBudget(cfg, r) {
      GrowsRefl(cfg, host, r, r', FilesInSeq(es));
    } else {
      var (r1, c1) := ProcessEntry(cfg, host, es[0], r);
      var st1 := AddStats(st, StatsOf(c1));
      ProcessEntryGrows(cfg, host, es[0], r);
      ProcessSelectionGrows(cfg, host, es[1..], r1, st1);
      GrowsTrans(cfg, host, r, r1, r', FilesIn(es[0]), FilesInSeq(es[1..]));
      ContentsAppend(r1.included[|r.included|..], r'.included[|r1.included|..]);
    }
  }

  // ---------------------------------------------------------------------------
  // The totals

  /** How the totals relate: no more words than tokens, no more tokens than twice
      the characters, and no line without a character. */
  predicate SaneStats(st: Stats) {
    && 0 <= st.words <= st.tokens <= 2 * st.chars
    && 0 <= st.lines
    && (st.chars == 0 ==> st.lines == 0)
  }

  lemma StatsOfSane(text: string)
    ensures SaneStats(StatsOf(text))
  {
    EstimateTokensBounds(text);
  }

  /** Adding the statistics of each entry's text keeps the totals sane. */
  lemma {:induction false} ProcessSelectionSane(cfg: State, host: Host, es: seq<Entry>, r: Run, st: Stats)
    requires SaneStats(st)
    ensures SaneStats(ProcessSelection(cfg, host, es, r, st).1)
    decreases es
  {
    if es != [] && !OverBudget(cfg, r) {
      var (r1, c) := ProcessEntry(cfg, host, es[0], r);
      StatsOfSane(c);
      ProcessSelectionSane(cfg, host, es[1..], r1, AddStats(st, StatsOf(c)));
    }
  }

  // ---------------------------------------------------------------------------
  // Every file met is marked

  /** Unless the budget stopped it, an entry marks the path of every file in its tree. */
  lemma {:induction false} ProcessEntryMarks(cfg: State, host: Host, e: Entry, r: Run)
    ensures var r' := ProcessEntry(cfg, host, e, r).0;
      !r'.limitReached ==> forall f :: f in FilesIn(e) ==> f.File? && RelativePath(host, f) in r'.copied
    decreases e, 1
  {
    match e
    case File(_, _) =>
    case Directory(_, children) => ProcessChildrenMarks(cfg, host, children, r);
  }

  lemma {:induction false} ProcessChildrenMarks(cfg: State, host: Host, cs: seq<Entry>, r: Run)
    ensures var r' := ProcessChildren(cfg, host, cs, r).0;
      !r'.limitReached ==> forall f :: f in FilesInSeq(cs) ==> f.File? && RelativePath(host, f) in r'.copied
    decreases cs, 0
  {
    if cs != [] && !OverBudget(cfg, r) {
      var r1 := ProcessEntry(cfg, host, cs[0], r).0;
      ProcessEntryMarks(cfg, host, cs[0], r);
      ProcessChildrenMarks(cfg, host, cs[1..], r1);
      ProcessChildrenGrows(cfg, host, cs[1..], r1);
    }
  }

  lemma {:induction false} ProcessSelectionMarks(cfg: State, host: Host, es: seq<Entry>, r: Run, st: Stats)
    ensures var r' := ProcessSelection(cfg, host, es, r, st).0;
      !r'.limitReached ==> forall f :: f in FilesInSeq(es) ==> f.File? && RelativePath(host, f) in r'.copied
    decreases es
  {
    if es != [] && !OverBudget(cfg, r) {
      var (r1, c) := ProcessEntry(cfg, host, es[0], r);
      var st1 := AddStats(st, StatsOf(c));
      ProcessEntryMarks(cfg, host, es[0], r);
      ProcessSelectionMarks(cfg, host, es[1..], r1, st1);
      ProcessSelectionGrows(cfg, host, es[1..], r1, st1);
    }
  }

  // ---------------------------------------------------------------------------
  // The budget only cuts the traversal short

  /** Once the limit flag is set (with the run invariant), no entry is processed
      any more, at any level. */
  lemma NoProgressOnceLimited(cfg: State, host: Host, cs: seq<Entry>, es: seq<Entry>, r: Run, st: Stats)
    requires Consistent(cfg, r) && r.limitReached
    ensures ProcessChildren(cfg, host, cs, r) == (r, "")
    ensures ProcessSelection(cfg, host, es, r, st) == (r, st)
  {
  }

  /** A run that ends without reaching the limit computes what the same run
      computes with the budget switched off. */
  lemma {:induction false} ProcessEntryUnbounded(cfg: State, host: Host, e: Entry, r: Run)
    ensures !ProcessEntry(cfg, host, e, r).0.limitReached ==>
      ProcessEntry(cfg, host, e, r) == ProcessEntry(Unbounded(cfg), host, e, r)
    decreases e, 1
  {
    match e
    case File(_, _) =>
    case Directory(_, children) => ProcessChildrenUnbounded(cfg, host, children, r);
  }

  lemma {:induction false} ProcessChildrenUnbounded(cfg: State, host: Host, cs: seq<Entry>, r: Run)
    ensures !ProcessChildren(cfg, host, cs, r).0.limitReached ==>
      ProcessChildren(cfg, host, cs, r) == ProcessChildren(Unbounded(cfg), host, cs, r)
    decreases cs, 0
  {
    if cs != [] && !OverBudget(cfg, r) {
      var r1 := ProcessEntry(cfg, host, cs[0], r).0;
      ProcessEntryUnbounded(cfg, host, cs[0], r);
      ProcessChildrenUnbounded(cfg, host, cs[1..], r1);
      ProcessChildrenGrows(cfg, host, cs[1..], r1);
    }
  }

  lemma {:induction false} ProcessSelectionUnbounded(cfg: State, host: Host, es: seq<Entry>, r: Run, st: Stats)
    ensures !ProcessSelection(cfg, host, es, r, st).0.limitReached ==>
      ProcessSelection(cfg, host, es, r, st) == ProcessSelection(Unbounded(cfg), host, es, r, st)
    decreases es
  {
    if es != [] && !OverBudget(cfg, r) {
      var (r1, c) := ProcessEntry(cfg, host, es[0], r);
      var st1 := AddStats(st, StatsOf(c));
      ProcessEntryUnbounded(cfg, host, es[0], r);
      ProcessSelectionUnbounded(cfg, host, es[1..], r1, st1);
      ProcessSelectionGrows(cfg, host, es[1..], r1, st1);
    }
  }

  // ---------------------------------------------------------------------------
  // The whole copy

  /** What one copy of `files` produces:
      - the document is the pre-text, one block per embedded file in traversal
        order, then the post-text, joined by line feeds;
      - the count is the number of embedded files, and no path is embedded twice;
      - every embedded file comes from the selection and passed the filter, the
        binary test and the size ceiling, with the cached or read text;
      - with the budget on, the count never exceeds the limit, and the limit flag
        is only set when the count has reached it;
      - the character total is the total length of the embedded contents, and the
        totals are sane (see SaneStats);
      - when the limit was not reached, every file of the selection has its path
        marked, and the run equals the run without a budget. */
  lemma CopyTheorem(cfg: State, host: Host, files: seq<Entry>)
    ensures var (r, st) := FinalRun(cfg, host, files);
      && Document(cfg, r) == Join([cfg.preText] + Blocks(cfg, r.included) + [cfg.postText], "\n")
      && Document(cfg, r) == cfg.preText + "\n" + Join(Blocks(cfg, r.included) + [cfg.postText], "\n")
      && r.fileCount == |r.included|
      && (forall i, j :: 0 <= i < j < |r.included| ==> r.included[i].path != r.included[j].path)
      && (forall i :: 0 <= i < |r.included| ==>
            r.included[i].file in FilesInSeq(files) && Admitted(cfg, host, r.included[i]))
      && (cfg.setMaxFileCount ==> r.fileCount <= Max0(cfg.fileCountLimit))
      && (r.limitReached ==> cfg.setMaxFileCount && r.fileCount >= cfg.fileCountLimit)
      && st.chars == |Contents(r.included)| && SaneStats(st)
      && (!r.limitReached ==> forall f :: f in FilesInSeq(files) ==> RelativePath(host, f) in r.copied)
      && (!r.limitReached ==> FinalRun(cfg, host, files) == FinalRun(Unbounded(cfg), host, files))
  {
    var r0 := InitialRun(cfg);
    var (r, st) := FinalRun(cfg, host, files);
    InitialConsistent(cfg);
    ProcessSelectionConsistent(cfg, host, files, r0, NoStats);
    ProcessSelectionGrows(cfg, host, files, r0, NoStats);
    ProcessSelectionMarks(cfg, host, files, r0, NoStats);
    ProcessSelectionUnbounded(cfg, host, files, r0, NoStats);
    ProcessSelectionSane(cfg, host, files, r0, NoStats);
    assert r.included[|r0.included|..] == r.included;
    assert InitialRun(Unbounded(cfg)) == r0;
    JoinAppend([cfg.preText], Blocks(cfg, r.included) + [cfg.postText], "\n");
    assert r.parts + [cfg.postText] == [cfg.preText] + (Blocks(cfg, r.included) + [cfg.postText]);
  }

  /** Without a budget the limit is never reached. */
  lemma NoBudgetNoLimit(cfg: State, host: Host, files: seq<Entry>)
    requires !cfg.setMaxFileCount
    ensures !FinalRun(cfg, host, files).0.limitReached
  {
    CopyTheorem(cfg, host, files);
  }

  /** A selection that embeds nothing copies the pre-text and the post-text on
      two lines. */
  lemma EmptyDocument(cfg: State, host: Host, files: seq<Entry>)
    requires FinalRun(cfg, host, files).0.fileCount == 0
    ensures Document(cfg, FinalRun(cfg, host, files).0) == cfg.preText + "\n" + cfg.postText
  {
    CopyTheorem(cfg, host, files);
    assert Blocks(cfg, []) == [];
  }

  /** What the copy reports: nothing without settings; otherwise the document,
      the count, the totals, the limit warning exactly when the limit was reached,
      and the count message exactly when notifications are on. */
  lemma PerformCopyOutcome(settings: Option<State>, host: Host, files: seq<Entry>)
    ensures PerformCopy(settings, host, files).SettingsUnavailable? <==> settings.None?
    ensures settings.Some? ==>
      var cfg := settings.value;
      var (r, st) := FinalRun(cfg, host, files);
      var out := PerformCopy(settings, host, files);
      && out.clipboard == Document(cfg, r)
      && out.fileCount == |r.included|
      && out.stats.chars == |Contents(r.included)|
      && out.limitWarning == r.limitReached
      && (out.countMessage.Some? <==> cfg.showCopyNotification)
      && (out.countMessage == Some("1 file copied.") <==> cfg.showCopyNotification && r.fileCount == 1)
  {
    if settings.Some? {
      CopyTheorem(settings.value, host, files);
      FileCountMessageForms(FinalRun(settings.value, host, files).0.fileCount);
    }
  }

  // ---------------------------------------------------------------------------
  // Per-file facts

  /** A header format made of a text without '$' followed by the placeholder
      gives that text followed by the path. */
  lemma HeaderWithPrefix(cfg: State, pre: string, path: string)
    requires cfg.headerFormat == pre + FilePathPlaceholder
    requires forall k :: 0 <= k < |pre| ==> pre[k] != '$'
    ensures Header(cfg, path) == pre + path
  {
    assert cfg.headerFormat == pre + FilePathPlaceholder + "";
    forall i: nat | i < |pre| ensures !OccursAt(pre + FilePathPlaceholder + "", FilePathPlaceholder, i) {
      assert (pre + FilePathPlaceholder + "")[i] == pre[i];
    }
    ReplaceSingle(pre, "", FilePathPlaceholder, path);
    assert pre + path + "" == pre + path;
  }

  /** A header format made of pieces joined by `$FILE_PATH`, none of them holding
      a '$', gives the pieces joined by the path: every placeholder is filled. */
  lemma HeaderOfTemplate(cfg: State, pieces: seq<string>, path: string)
    requires cfg.headerFormat == Join(pieces, FilePathPlaceholder)
    requires forall i :: 0 <= i < |pieces| ==> '$' !in pieces[i]
    ensures Header(cfg, path) == Join(pieces, path)
  {
    assert FilePathPlaceholder[0] == '$';
    ReplaceJoin(pieces, FilePathPlaceholder, path);
  }

  /** With the default header format, the header is "// file: " and the path. */
  lemma DefaultHeader(path: string)
    ensures Header(Default, path) == "// file: " + path
  {
    HeaderWithPrefix(Default, "// file: ", path);
  }

  /** The name filter with ".ts" and ".md" allowed:
      "a.tsx" is filtered out while "a.ts" and "README.md" pass. */
  lemma FilterExample(cfg: State)
    requires cfg.useFilenameFilters && cfg.filenameFilters == [".ts", ".md"]
    ensures !PassesFilter(cfg, "a.tsx")
    ensures PassesFilter(cfg, "a.ts")
    ensures PassesFilter(cfg, "README.md")
  {
    assert "a.tsx"[2..][0] == 't';
    assert EndsWith("a.ts", ".ts") by { assert "a.ts"[1..] == ".ts"; }
    assert EndsWith("README.md", ".md") by { assert "README.md"[6..] == ".md"; }
  }

  /** With filtering on and no filter listed, no file passes. */
  lemma EmptyFilterListPassesNothing(cfg: State, name: string)
    requires cfg.useFilenameFilters && cfg.filenameFilters == []
    ensures !PassesFilter(cfg, name)
  {
  }

  /** A file whose cached document and disk read are both missing is still
      embedded, with empty content, and still counted. */
  lemma ReadFailureStillCounts(cfg: State, host: Host, f: Entry, r: Run)
    requires f.File? && RelativePath(host, f) !in r.copied && PassesFilter(cfg, f.name)
    requires !TooLargeOrBinary(host, f.path)
    requires host.cachedText(f.path).None? && host.diskText(f.path).None?
    ensures ProcessFile(cfg, host, f, r).0.fileCount == r.fileCount + 1
    ensures ProcessFile(cfg, host, f, r).1 == ""
  {
  }
}
