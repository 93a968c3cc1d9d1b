/**
 * The copy action as the platform runs it: an object whose fields count the
 * embedded files and record whether the budget stopped the traversal, and whose
 * methods walk the selection with loops, appending to the document parts and
 * marking paths as they go. Each method is proved to compute the corresponding
 * function of module Engine.
 *
 * The document parts and the set of met paths are created afresh by each run
 * and handed to every helper; here they are fields of the action that each run
 * resets.
 */
module Action {
  import opened Text
  import opened Settings
  import opened Report
  import opened Engine

  class CopyFileContentAction {
    var fileCount: nat
    var fileLimitReached: bool
    var fileContents: seq<string>
    var copiedFilePaths: set<string>
    ghost var included: seq<Included>

    /** The fields, seen as a run of module Engine. */
    ghost function Snapshot(): Run
      reads this
    {
      Run(fileContents, copiedFilePaths, fileCount, fileLimitReached, included)
    }

    constructor ()
      ensures fileCount == 0 && !fileLimitReached
      ensures fileContents == [] && copiedFilePaths == {} && included == []
    {
      fileCount := 0;
      fileLimitReached := false;
      fileContents := [];
      copiedFilePaths := {};
      included := [];
    }

    /** Copies the selection `filesToCopy` with the project's settings service
        (null when the platform has none). */
    method PerformCopyFilesContent(filesToCopy: seq<Entry>, settings: CopyFileContentSettings?, host: Host)
      returns (outcome: CopyOutcome)
      modifies this
      ensures settings == null ==> outcome == SettingsUnavailable && fileCount == 0 && !fileLimitReached
      ensures settings != null ==> outcome == PerformCopy(Some(settings.GetState()), host, filesToCopy)
      ensures settings != null ==>
        var r := FinalRun(settings.GetState(), host, filesToCopy).0;
        && fileCount == r.fileCount && fileLimitReached == r.limitReached
        && copiedFilePaths == r.copied && included == r.included
        && fileContents == r.parts + [settings.GetState().postText]
    {
      fileCount := 0;
      fileLimitReached := false;
      var totalChars, totalLines, totalWords, totalTokens := 0, 0, 0, 0;
      copiedFilePaths := {};
      included := [];

      if settings == null {
        return SettingsUnavailable;
      }
      var cfg := settings.GetState();
      fileContents := [cfg.preText];

      ghost var final := FinalRun(cfg, host, filesToCopy);
      assert Snapshot() == InitialRun(cfg) && filesToCopy[0..] == filesToCopy;
      var i := 0;
      while i < |filesToCopy|
        invariant 0 <= i <= |filesToCopy|
        invariant settings.GetState() == cfg
        invariant final == ProcessSelection(cfg, host, filesToCopy[i..], Snapshot(),
                                            Stats(totalChars, totalLines, totalWords, totalTokens))
      {
        if cfg.setMaxFileCount && fileCount >= cfg.fileCountLimit {
          fileLimitReached := true;
          break;
        }
        ghost var before := Snapshot();
        ghost var totalsBefore := Stats(totalChars, totalLines, totalWords, totalTokens);
        SelectionStep(cfg, host, filesToCopy[i..], before, totalsBefore);
        var file := filesToCopy[i];
        var content;
        if file.Directory? {
          content := ProcessDirectory(file, cfg, host);
        } else {
          content := ProcessFile(file, cfg, host);
        }
        assert (Snapshot(), content) == ProcessEntry(cfg, host, file, before);
        totalChars := totalChars + |content|;
        totalLines := totalLines + LineCount(content);
        totalWords := totalWords + WordCount(content);
        totalTokens := totalTokens + EstimateTokens(content);
        assert Stats(totalChars, totalLines, totalWords, totalTokens) == AddStats(totalsBefore, StatsOf(content));
        assert filesToCopy[i..][1..] == filesToCopy[i + 1..];
        i := i + 1;
      }
      assert filesToCopy[|filesToCopy|..] == [];
      assert final == (Snapshot(), Stats(totalChars, totalLines, totalWords, totalTokens));

      fileContents := fileContents + [cfg.postText];
      var countMessage := if cfg.showCopyNotification then Some(FileCountMessage(fileCount)) else None;
      outcome := Copied(Join(fileContents, "\n"), fileCount,
                        Stats(totalChars, totalLines, totalWords, totalTokens), fileLimitReached, countMessage);
    }

    /** One file: marks its path, and embeds it unless it was met before, is
        filtered out, binary or too large. Returns the embedded content or "". */
    method ProcessFile(file: Entry, cfg: State, host: Host) returns (content: string)
      requires file.File?
      modifies this
      ensures (Snapshot(), content) == Engine.ProcessFile(cfg, host, file, old(Snapshot()))
    {
      ghost var r := Snapshot();
      var fileRelativePath := RelativePath(host, file);
      if fileRelativePath in copiedFilePaths {
        return "";
      }
      copiedFilePaths := copiedFilePaths + {fileRelativePath};

      content := "";
      if cfg.useFilenameFilters {
        if !AnyEndsWith(file.name, cfg.filenameFilters) {
          assert Snapshot() == r.(copied := r.copied + {fileRelativePath});
          return "";
        }
      }

      if !host.isBinary(file.path) && host.length(file.path) <= MaxFileLength {
        var header := Replace(cfg.headerFormat, FilePathPlaceholder, fileRelativePath);
        var document := host.cachedText(file.path);
        content := if document.Some? then document.value else ReadFileContents(host, file.path);
        fileContents := fileContents + [header];
        fileContents := fileContents + [content];
        fileCount := fileCount + 1;
        if cfg.addExtraLineBetweenFiles && content != "" {
          fileContents := fileContents + [""];
        }
        included := included + [Included(file, fileRelativePath, content)];
        assert content == FileText(host, file.path);
        assert fileContents == r.parts + Block(cfg, Included(file, fileRelativePath, content));
      } else {
        assert Snapshot() == r.(copied := r.copied + {fileRelativePath});
      }
    }

    /** A directory: its children in order, each after the budget check, with
        sub-directories traversed recursively. Returns the children's contents
        glued together. */
    method ProcessDirectory(directory: Entry, cfg: State, host: Host) returns (content: string)
      requires directory.Directory?
      modifies this
      ensures (Snapshot(), content) == ProcessChildren(cfg, host, directory.children, old(Snapshot()))
      decreases directory
    {
      var directoryContent := "";
      var children := directory.children;
      var i := 0;
      assert children[i..] == children;
      assert forall t: string :: directoryContent + t == t;
      while i < |children|
        invariant 0 <= i <= |children|
        invariant ProcessChildren(cfg, host, children, old(Snapshot())) ==
          var (r, rest) := ProcessChildren(cfg, host, children[i..], Snapshot());
          (r, directoryContent + rest)
      {
        if cfg.setMaxFileCount && fileCount >= cfg.fileCountLimit {
          fileLimitReached := true;
          assert directoryContent + "" == directoryContent;
          break;
        }
        ghost var before := Snapshot();
        ghost var doneBefore := directoryContent;
        var childFile := children[i];
        var childContent;
        if childFile.Directory? {
          childContent := ProcessDirectory(childFile, cfg, host);
        } else {
          childContent := ProcessFile(childFile, cfg, host);
        }
        assert (Snapshot(), childContent) == ProcessEntry(cfg, host, childFile, before);
        if childContent != "" {
          directoryContent := directoryContent + childContent;
        }
        assert directoryContent == doneBefore + childContent;
        assert children[i..][1..] == children[i + 1..];
        ghost var tail := ProcessChildren(cfg, host, children[i + 1..], Snapshot());
        assert ProcessChildren(cfg, host, children[i..], before) == (tail.0, childContent + tail.1);
        assert doneBefore + (childContent + tail.1) == directoryContent + tail.1;
        i := i + 1;
      }
      assert children[|children|..] == [] && directoryContent + "" == directoryContent;
      content := directoryContent;
    }
  }
}
