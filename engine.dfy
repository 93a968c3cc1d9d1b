/**
 * The aggregation performed by the copy action, as pure functions over the
 * state of one run: which files are embedded, in which order, under which
 * header, and what the statistics count. The imperative action in module
 * Action is proved to compute exactly these functions.
 *
 * The platform is seen through `Host`, a record of deterministic answers:
 * content roots, relative paths, binary classification, file lengths, cached
 * document text and the disk read.
 */
module Engine {
  import opened Text
  import opened Settings
  import opened Report

  datatype Option<T> = None | Some(value: T)

  /** A node of the virtual file system: a file, or a directory with its children
      in the order the platform lists them. */
  datatype Entry =
    | File(path: string, name: string)
    | Directory(path: string, children: seq<Entry>)

  /** The platform's answers, keyed by absolute paths. */
  datatype Host = Host(
    contentRoots: seq<string>,                        // the project's content roots, in order
    relativePath: (string, string) -> Option<string>, // path of a file relative to a root, '/'-separated
    isBinary: string -> bool,                         // the file type is binary
    length: string -> nat,                            // length of the file in bytes
    cachedText: string -> Option<string>,             // text of the document the editor has cached
    diskText: string -> Option<string>)               // the file's bytes decoded; None when reading fails

  /** Files longer than this many bytes are never embedded. */
  const MaxFileLength: nat := 100 * 1024

  /** What one embedded file contributes: the entry, the path in its header and
      its text. */
  datatype Included = Included(file: Entry, path: string, content: string)

  /** The state of one run: the document parts so far, the paths already met,
      the number of embedded files, whether the budget stopped the traversal,
      and (for the proofs) the embedded files in order. */
  datatype Run = Run(
    parts: seq<string>,
    copied: set<string>,
    fileCount: nat,
    limitReached: bool,
    included: seq<Included>)

  /** The running statistics. */
  datatype Stats = Stats(chars: int, lines: int, words: int, tokens: int)

  /** The outcome of one invocation of the copy. */
  datatype CopyOutcome =
    | SettingsUnavailable  // the settings service is missing: error notification, nothing copied
    | Copied(
        clipboard: string,                // the text put on the clipboard
        fileCount: nat,                   // the number of embedded files
        stats: Stats,                     // the totals shown in the statistics notification
        limitWarning: bool,               // whether the "file limit reached" warning is shown
        countMessage: Option<string>)     // the count notification, when notifications are on

  // ---------------------------------------------------------------------------
  // Per-file decisions

  /** The first content root, if the project has one. */
  function RepositoryRoot(host: Host): Option<string> {
    if host.contentRoots == [] then None else Some(host.contentRoots[0])
  }

  /** The path a file is known by: relative to the first content root when the
      platform can express it so, the file's own path otherwise. */
  function RelativePath(host: Host, file: Entry): (p: string)
    requires file.File?
    ensures RepositoryRoot(host).None? ==> p == file.path
    ensures RepositoryRoot(host).Some? && host.relativePath(file.path, RepositoryRoot(host).value).Some? ==>
              p == host.relativePath(file.path, RepositoryRoot(host).value).value
    ensures RepositoryRoot(host).Some? && host.relativePath(file.path, RepositoryRoot(host).value).None? ==>
              p == file.path
  {
    match RepositoryRoot(host)
    case None => file.path
    case Some(root) =>
      match host.relativePath(file.path, root)
      case Some(rel) => rel
      case None => file.path
  }

  /** The disk read: the decoded bytes, or "" when the read fails. */
  function ReadFileContents(host: Host, path: string): string {
    match host.diskText(path)
    case Some(text) => text
    case None => ""
  }

  /** A file's text: the cached document when there is one, the disk otherwise. */
  function FileText(host: Host, path: string): string {
    match host.cachedText(path)
    case Some(text) => text
    case None => ReadFileContents(host, path)
  }

  /** The name filter lets the file through. */
  predicate PassesFilter(cfg: State, name: string) {
    !cfg.useFilenameFilters || AnyEndsWith(name, cfg.filenameFilters)
  }

  /** Binary files and files over the size ceiling are skipped. */
  predicate TooLargeOrBinary(host: Host, path: string) {
    host.isBinary(path) || host.length(path) > MaxFileLength
  }

  /** The header of a file: the header format with each placeholder replaced. */
  function Header(cfg: State, path: string): string {
    Replace(cfg.headerFormat, FilePathPlaceholder, path)
  }

  /** The document parts of one embedded file: header, content, and a blank part
      when extra lines are on and the content is not empty. */
  function Block(cfg: State, inc: Included): seq<string> {
    [Header(cfg, inc.path), inc.content] + (if cfg.addExtraLineBetweenFiles && inc.content != "" then [""] else [])
  }

  function Blocks(cfg: State, incs: seq<Included>): seq<string> {
    if incs == [] then [] else Block(cfg, incs[0]) + Blocks(cfg, incs[1..])
  }

  /** The contents of embedded files, glued without separator. */
  function Contents(incs: seq<Included>): string {
    if incs == [] then "" else incs[0].content + Contents(incs[1..])
  }

  /** The budget check made before each entry. */
  predicate OverBudget(cfg: State, r: Run) {
    cfg.setMaxFileCount && r.fileCount >= cfg.fileCountLimit
  }

  // ---------------------------------------------------------------------------
  // The traversal

  /** One file: returns the new run and the file's content ("" when not embedded). */
  function ProcessFile(cfg: State, host: Host, file: Entry, r: Run): (res: (Run, string))
    requires file.File?
    // the path is marked as met, whatever happens next
    ensures res.0.copied == r.copied + {RelativePath(host, file)}
    // a path met before contributes nothing
    ensures RelativePath(host, file) in r.copied ==> res == (r, "")
    // the file is embedded exactly when it is new, passes the filter and is neither binary nor too large
    ensures res.0.fileCount == r.fileCount + 1 <==>
      (RelativePath(host, file) !in r.copied && PassesFilter(cfg, file.name) && !TooLargeOrBinary(host, file.path))
    ensures res.0.fileCount != r.fileCount + 1 ==>
      res.0 == r.(copied := res.0.copied) && res.1 == ""
    ensures res.0.fileCount == r.fileCount + 1 ==>
      var inc := Included(file, RelativePath(host, file), FileText(host, file.path));
      res.0 == r.(copied := res.0.copied, fileCount := r.fileCount + 1,
                  parts := r.parts + Block(cfg, inc), included := r.included + [inc])
      && res.1 == inc.content
  {
    var p := RelativePath(host, file);
    if p in r.copied then (r, "")
    else
      var marked := r.(copied := r.copied + {p});
      if !PassesFilter(cfg, file.name) then (marked, "")
      else if TooLargeOrBinary(host, file.path) then (marked, "")
      else
        var inc := Included(file, p, FileText(host, file.path));
        (marked.(parts := marked.parts + Block(cfg, inc), fileCount := marked.fileCount + 1,
                 included := marked.included + [inc]), inc.content)
  }

  /** One entry: a file is processed, a directory is traversed. */
  function ProcessEntry(cfg: State, host: Host, e: Entry, r: Run): (Run, string)
    decreases e
  {
    match e
    case File(_, _) => ProcessFile(cfg, host, e, r)
    case Directory(_, children) => ProcessChildren(cfg, host, children, r)
  }

  /** The loop over a directory's children: before each child the budget is
      checked and, when exhausted, the loop stops with the limit flag set. The
      result is the children's contents glued without separator. */
  function ProcessChildren(cfg: State, host: Host, cs: seq<Entry>, r: Run): (Run, string)
    decreases cs
  {
    if cs == [] then (r, "")
    else if OverBudget(cfg, r) then (r.(limitReached := true), "")
    else
      var (r1, c) := ProcessEntry(cfg, host, cs[0], r);
      var (r2, rest) := ProcessChildren(cfg, host, cs[1..], r1);
      (r2, c + rest)
  }

  /** The statistics of one text. */
  function StatsOf(text: string): Stats {
    Stats(|text|, LineCount(text), WordCount(text), EstimateTokens(text))
  }

  function AddStats(a: Stats, b: Stats): Stats {
    Stats(a.chars + b.chars, a.lines + b.lines, a.words + b.words, a.tokens + b.tokens)
  }

  /** The loop over the selection: the same budget check as for children, and the
      statistics of each entry's returned text added to the totals. */
  function ProcessSelection(cfg: State, host: Host, es: seq<Entry>, r: Run, st: Stats): (Run, Stats)
    decreases es
  {
    if es == [] then (r, st)
    else if OverBudget(cfg, r) then (r.(limitReached := true), st)
    else
      var (r1, c) := ProcessEntry(cfg, host, es[0], r);
      ProcessSelection(cfg, host, es[1..], r1, AddStats(st, StatsOf(c)))
  }

  /** One turn of the selection loop, when the budget allows it. */
  lemma SelectionStep(cfg: State, host: Host, es: seq<Entry>, r: Run, st: Stats)
    requires es != [] && !OverBudget(cfg, r)
    ensures var (r1, c) := ProcessEntry(cfg, host, es[0], r);
      ProcessSelection(cfg, host, es, r, st) == ProcessSelection(cfg, host, es[1..], r1, AddStats(st, StatsOf(c)))
  {
  }

  /** A fresh run: the document holds only the pre-text. */
  function InitialRun(cfg: State): Run {
    Run([cfg.preText], {}, 0, false, [])
  }

  const NoStats: Stats := Stats(0, 0, 0, 0)

  /** The run at the end of the traversal of `files`, with its statistics. */
  function FinalRun(cfg: State, host: Host, files: seq<Entry>): (Run, Stats) {
    ProcessSelection(cfg, host, files, InitialRun(cfg), NoStats)
  }

  /** The clipboard text: the parts and then the post-text, joined by line feeds. */
  function Document(cfg: State, r: Run): string {
    Join(r.parts + [cfg.postText], "\n")
  }

  /** One invocation of the copy with the given settings (None: the service is missing). */
  function PerformCopy(settings: Option<State>, host: Host, files: seq<Entry>): CopyOutcome {
    match settings
    case None => SettingsUnavailable
    case Some(cfg) =>
      var (r, st) := FinalRun(cfg, host, files);
      Copied(Document(cfg, r), r.fileCount, st, r.limitReached,
             if cfg.showCopyNotification then Some(FileCountMessage(r.fileCount)) else None)
  }
}
