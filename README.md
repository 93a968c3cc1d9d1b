# Copy File Content — a verified model of the aggregation engine

The "Copy File Content" IntelliJ plugin copies a selection of files and folders to
the clipboard as one document. The document is made of:
- a pre-text;
- for every included file, a header line built from a template and the file's text;
- a post-text.

The lines are joined by line feeds. Along the way the plugin de-duplicates files
by their project-relative path. It applies a filename-suffix filter, skips
binary files and files over 100 KB, and stops once a file budget is exhausted.
It also adds up character, line, word and estimated-token totals, and can show
a count notification.

This project models that engine and the plugin's settings component in Dafny.

- `settings.dfy` (module `Settings`): the settings record `State` and its default
  values. The class `CopyFileContentSettings` holds the current state, hands it
  out (`GetState`) and replaces it (`LoadState`).
- `text.dfy` (module `Text`): the string work of the engine, namely:
  - words, as the source's whitespace split keeping non-empty pieces;
  - the punctuation count and the token estimate;
  - the line count;
  - literal placeholder replacement;
  - `endsWith` over a filter list;
  - `joinToString`.

  Each comes with its properties: a reference word-count definition, bounds,
  behaviour under concatenation, the split/join round trips, the placeholder
  filled in a template, and the token estimate of the example "foo(bar, baz);".
- `report.dfy` (module `Report`): the "N files copied." message and the decimal
  rendering of the count, with a read-back round trip.
- `engine.dfy` (module `Engine`): the traversal as pure functions over the state of
  one run:
  - `ProcessFile`, `ProcessEntry`;
  - `ProcessChildren`, the loop of a directory;
  - `ProcessSelection`, the loop over the selection with the totals;
  - `FinalRun`, `Document` and `PerformCopy`.

  The platform is a `Host` record of deterministic answers: content roots,
  relative paths, binary classification, file length, cached document text, and
  the disk read (or its failure).
- `action.dfy` (module `Action`): the action object `CopyFileContentAction`.
  - Its fields are `fileCount`, `fileLimitReached`, the document parts and the set
    of met paths.
  - Its methods `PerformCopyFilesContent`, `ProcessFile` and `ProcessDirectory`
    change those fields in loops that break on the budget check, as the source
    does.
  - Each method is proved to compute exactly the corresponding function of
    `Engine`.
- `properties.dfy` (module `Properties`): what the traversal guarantees:
  - the run invariant (`Consistent`), which covers:
    - the document shape;
    - one block per included file;
    - no path embedded twice;
    - the budget respected;
    - the limit flag set only when the budget is exhausted;
  - soundness (`Grows`): only files of the selection that pass the filter, the
    binary test and the size ceiling are embedded, with the cached or read text;
  - completeness: every file met has its path marked unless the budget stopped
    the run;
  - the budget only cuts the traversal short: a run that does not hit the limit
    equals the same run without a budget;
  - sane totals;
  - all of the above gathered in `CopyTheorem`.
- `order.dfy` (module `Order`): which files get in, and in which order, against a
  reference list (`Expected`). The reference takes the files of the selection in
  traversal order and keeps each one whose path is met for the first time and
  that passes the filter, the binary test and the size ceiling.
  - A copy that does not hit the limit embeds exactly that list, in that order.
  - A copy that hits it embeds a prefix of what the unbudgeted copy embeds.
  - `Completeness`: every eligible selected file with a path of its own is
    embedded unless the limit stopped the copy.
- `example.dfy` (module `Example`): one complete copy of a selection holding a file,
  a binary file and a directory, worked out to the exact clipboard text.

Points of the code the model keeps as they are:
- The size ceiling is hard-coded at 100 × 1024 bytes, and cached document text
  is always preferred over the disk read.
- `showCopyNotification` defaults to `false`.
- A path is marked as met *before* the filter, binary and size checks. A
  filtered-out or skipped file is therefore never retried under the same path.
- `fileLimitReached` is set whenever any entry is about to be processed once
  the count has reached the limit. The entry may be a duplicate, a
  filtered-out file or a directory; it need not be an eligible file.
- The totals are added once per top-level entry, on the text that entry
  returns. For a directory that text is its files' contents glued without
  separator, so words and lines can merge across file boundaries.
  `WordsMergeAcrossConcatenation` and `LineCountAppend` state this.

## Model

Paths are relative to the plugin repository; `CopyFileContentAction.kt` and
`CopyFileContentSettings.kt` live in `src/main/kotlin/com/github/mwguerra/copyfilecontent/`.

| member | source | states |
|---|---|---|
| `Settings.CopyFileContentSettings.constructor` | src/main/kotlin/com/github/mwguerra/copyfilecontent/CopyFileContentSettings.kt:15-29 | A fresh component holds the all-defaults state. The header is "// file: $FILE_PATH" and the pre- and post-text are empty. The limit is 30 with the budget on, there are no filters and filtering is off. The extra line is on and notifications are off. |
| `Settings.CopyFileContentSettings.LoadState` | src/main/kotlin/com/github/mwguerra/copyfilecontent/CopyFileContentSettings.kt:29-33 | After loading, `GetState` returns exactly the loaded state. Nothing else is changed. |
| `Text.CountChar` | src/main/kotlin/com/github/mwguerra/copyfilecontent/CopyFileContentAction.kt:72-72 | A character count never exceeds the length of the text. |
| `Text.CountCharAppend` | src/main/kotlin/com/github/mwguerra/copyfilecontent/CopyFileContentAction.kt:72-72 | The count of a character is additive over concatenation. |
| `Text.LineCount` | src/main/kotlin/com/github/mwguerra/copyfilecontent/CopyFileContentAction.kt:72-72 | The line count is zero exactly for the empty text and at most the length plus one. |
| `Text.LineCountAppend` | src/main/kotlin/com/github/mwguerra/copyfilecontent/CopyFileContentAction.kt:169-170 | Lines of a concatenation are the sum of the lines minus one when both parts are non-empty. A directory's last line of one file and first line of the next count as one. |
| `Text.SplitWhere` | src/main/kotlin/com/github/mwguerra/copyfilecontent/CopyFileContentAction.kt:73-73 | Splitting yields at least one piece, and no piece holds a separator. |
| `Text.SplitWhereCount` | src/main/kotlin/com/github/mwguerra/copyfilecontent/CopyFileContentAction.kt:73-73 | Splitting yields exactly one more piece than there are separators. |
| `Text.JoinSplitRoundTrip` | src/main/kotlin/com/github/mwguerra/copyfilecontent/CopyFileContentAction.kt:73-73 | Joining the pieces of a split at one separator character with that character gives back the text. |
| `Text.NonEmpty` | src/main/kotlin/com/github/mwguerra/copyfilecontent/CopyFileContentAction.kt:73-73 | Filtering keeps only non-empty pieces taken from the input, and no more of them. |
| `Text.NonEmptyKeepsEveryNonEmpty` | src/main/kotlin/com/github/mwguerra/copyfilecontent/CopyFileContentAction.kt:73-73 | Filtering drops exactly the empty pieces: the result's length is the input's minus the empty pieces, and every non-empty input piece is kept. |
| `Text.WordCountIsWordStarts` | src/main/kotlin/com/github/mwguerra/copyfilecontent/CopyFileContentAction.kt:110-110 | The number of non-empty whitespace-split pieces equals the number of word starts: non-whitespace characters at the start or after whitespace. |
| `Text.WordsAreWhitespaceFree` | src/main/kotlin/com/github/mwguerra/copyfilecontent/CopyFileContentAction.kt:73-73 | Every word is non-empty and holds no whitespace. |
| `Text.WordStartsBound` | src/main/kotlin/com/github/mwguerra/copyfilecontent/CopyFileContentAction.kt:73-73 | There are no more word starts than characters. |
| `Text.WordStartsAllWhitespace` | src/main/kotlin/com/github/mwguerra/copyfilecontent/CopyFileContentAction.kt:110-110 | A text has no word exactly when it is all whitespace. |
| `Text.WordStartsOfWord` | src/main/kotlin/com/github/mwguerra/copyfilecontent/CopyFileContentAction.kt:73-73 | A whitespace-free text holds one word start (at its head, after whitespace) or none. |
| `Text.WordStartsAppend` | src/main/kotlin/com/github/mwguerra/copyfilecontent/CopyFileContentAction.kt:73-73 | Word starts of a concatenation are those of the first part plus those of the second. The second part is scanned knowing whether the first ended in whitespace. |
| `Text.WordsMergeAcrossConcatenation` | src/main/kotlin/com/github/mwguerra/copyfilecontent/CopyFileContentAction.kt:169-170 | "foo" and "bar" make two words apart and one word glued. A directory's word total can therefore be lower than the sum over its files. |
| `Text.PunctuationCount` | src/main/kotlin/com/github/mwguerra/copyfilecontent/CopyFileContentAction.kt:111-111 | The punctuation count is at most one per character. |
| `Text.PunctuationCountAppend` | src/main/kotlin/com/github/mwguerra/copyfilecontent/CopyFileContentAction.kt:111-111 | The punctuation count is additive over concatenation, whatever the neighbours. |
| `Text.PunctuationOfWhitespace` | src/main/kotlin/com/github/mwguerra/copyfilecontent/CopyFileContentAction.kt:111-111 | All-whitespace text holds no punctuation. |
| `Text.EstimateTokensBounds` | src/main/kotlin/com/github/mwguerra/copyfilecontent/CopyFileContentAction.kt:109-113 | Words are at most the length; the token estimate is at most twice the length. Both are zero exactly when the text is all whitespace. |
| `Text.WordStartsOfPieces` | src/main/kotlin/com/github/mwguerra/copyfilecontent/CopyFileContentAction.kt:110-110 | Word starts of "foo(", "bar, " (after a non-space) and "baz);" are 1, 0 and 1. |
| `Text.WordStartsExample` | src/main/kotlin/com/github/mwguerra/copyfilecontent/CopyFileContentAction.kt:110-110 | "foo(bar, baz);" has two word starts. |
| `Text.WordCountExample` | src/main/kotlin/com/github/mwguerra/copyfilecontent/CopyFileContentAction.kt:110-110 | "foo(bar, baz);" splits into two words. |
| `Text.PunctuationCountExample` | src/main/kotlin/com/github/mwguerra/copyfilecontent/CopyFileContentAction.kt:111-111 | "foo(bar, baz);" holds four punctuation characters. |
| `Text.EstimateTokensExample` | src/main/kotlin/com/github/mwguerra/copyfilecontent/CopyFileContentAction.kt:109-113 | The token estimate of "foo(bar, baz);" is 2 + 4 = 6. |
| `Text.ReplaceWithoutOccurrence` | src/main/kotlin/com/github/mwguerra/copyfilecontent/CopyFileContentAction.kt:139-139 | A header format without the placeholder is used unchanged. |
| `Text.ReplaceSkipsPrefix` | src/main/kotlin/com/github/mwguerra/copyfilecontent/CopyFileContentAction.kt:139-139 | A prefix where no occurrence starts is copied unchanged ahead of the replaced rest. |
| `Text.ReplaceFirstOccurrence` | src/main/kotlin/com/github/mwguerra/copyfilecontent/CopyFileContentAction.kt:139-139 | At the first occurrence of the placeholder, the path is put in its place and replacement carries on after it. |
| `Text.ReplaceSingle` | src/main/kotlin/com/github/mwguerra/copyfilecontent/CopyFileContentAction.kt:139-139 | A format holding the placeholder once becomes the format with the path in its place. |
| `Text.ReplaceJoin` | src/main/kotlin/com/github/mwguerra/copyfilecontent/CopyFileContentAction.kt:139-139 | Pieces joined by the placeholder, none holding its first character, become the same pieces joined by the path: every occurrence is replaced. |
| `Text.EndsWithIffConcat` | src/main/kotlin/com/github/mwguerra/copyfilecontent/CopyFileContentAction.kt:132-132 | A name ends with a suffix exactly when it is some string followed by that suffix. |
| `Text.AnyEndsWith` | src/main/kotlin/com/github/mwguerra/copyfilecontent/CopyFileContentAction.kt:132-132 | The filter test holds exactly when some listed suffix ends the name, so `none` fails exactly then. |
| `Text.JoinAppend` | src/main/kotlin/com/github/mwguerra/copyfilecontent/CopyFileContentAction.kt:78-78 | Joining two non-empty lists puts exactly one separator between their joins. |
| `Text.SplitJoinRoundTrip` | src/main/kotlin/com/github/mwguerra/copyfilecontent/CopyFileContentAction.kt:78-78 | Splitting the line-joined document at line feeds gives back the parts when no part holds a line feed. |
| `Report.NatToString` | src/main/kotlin/com/github/mwguerra/copyfilecontent/CopyFileContentAction.kt:92-92 | The count's rendering is non-empty, digits only, and has no leading zero unless the count is 0. It has one digit exactly below 10. |
| `Report.DecimalRoundTrip` | src/main/kotlin/com/github/mwguerra/copyfilecontent/CopyFileContentAction.kt:92-92 | Reading back the rendering of a count gives the count. |
| `Report.FileCountMessageForms` | src/main/kotlin/com/github/mwguerra/copyfilecontent/CopyFileContentAction.kt:90-93 | "1 file copied." is used exactly when the count is 1. Otherwise the message is digits that read back to the count, followed by " files copied.". |
| `Engine.RelativePath` | src/main/kotlin/com/github/mwguerra/copyfilecontent/CopyFileContentAction.kt:117-118 | The relative path is taken from the first content root when the platform gives one. It falls back to the file's own path without a root or without a relative path. |
| `Engine.ProcessFile` | src/main/kotlin/com/github/mwguerra/copyfilecontent/CopyFileContentAction.kt:115-153 | The path is always marked, and a path met before changes nothing and returns "". Otherwise the file counts exactly when it passes the filter and is neither binary nor over 100 KB. Then the header, the text and (extra line on, text non-empty) a blank part are appended and the text returned. Else only the mark changes and "" is returned. |
| `Action.CopyFileContentAction.constructor` | src/main/kotlin/com/github/mwguerra/copyfilecontent/CopyFileContentAction.kt:21-23 | A new action starts with a zero count, no limit flag and no parts or marks. |
| `Action.CopyFileContentAction.PerformCopyFilesContent` | src/main/kotlin/com/github/mwguerra/copyfilecontent/CopyFileContentAction.kt:39-107 | Without a settings service the copy fails with the count reset and nothing copied. Otherwise the outcome is `PerformCopy`: clipboard, count, totals, limit warning and count message. The count, flag, parts (with the post-text) and marks are those of `FinalRun`; the count and flag are reset first. |
| `Action.CopyFileContentAction.ProcessFile` | src/main/kotlin/com/github/mwguerra/copyfilecontent/CopyFileContentAction.kt:115-153 | The method changes the fields and returns exactly what `Engine.ProcessFile` computes from the old fields. |
| `Action.CopyFileContentAction.ProcessDirectory` | src/main/kotlin/com/github/mwguerra/copyfilecontent/CopyFileContentAction.kt:155-175 | The loop over the children, with the budget check and the break, produces the fields and glued text `ProcessChildren` computes. |
| `Properties.BlocksAppend` | src/main/kotlin/com/github/mwguerra/copyfilecontent/CopyFileContentAction.kt:143-148 | Embedding one more file appends exactly its block to the blocks so far. |
| `Properties.InitialConsistent` | src/main/kotlin/com/github/mwguerra/copyfilecontent/CopyFileContentAction.kt:40-56 | A fresh run (pre-text only, no marks, count 0, flag off) satisfies the run invariant. |
| `Properties.ProcessFileConsistent` | src/main/kotlin/com/github/mwguerra/copyfilecontent/CopyFileContentAction.kt:115-153 | One file keeps the invariant within budget. Parts stay the pre-text plus one block per embedded file, the count equals the embedded files, their paths are marked and distinct, and the count stays within the limit. |
| `Properties.ProcessEntryConsistent` | src/main/kotlin/com/github/mwguerra/copyfilecontent/CopyFileContentAction.kt:164-168 | Processing any entry within budget keeps the invariant. |
| `Properties.ProcessChildrenConsistent` | src/main/kotlin/com/github/mwguerra/copyfilecontent/CopyFileContentAction.kt:159-172 | A directory's loop keeps the invariant, including the limit flag only set when the budget is exhausted. |
| `Properties.ProcessSelectionConsistent` | src/main/kotlin/com/github/mwguerra/copyfilecontent/CopyFileContentAction.kt:58-75 | The selection loop keeps the invariant. |
| `Properties.ProcessFileGrows` | src/main/kotlin/com/github/mwguerra/copyfilecontent/CopyFileContentAction.kt:121-152 | A file embeds at most itself, and only when admitted. It keeps marks and the flag, and returns the embedded text. |
| `Properties.ProcessEntryGrows` | src/main/kotlin/com/github/mwguerra/copyfilecontent/CopyFileContentAction.kt:164-168 | An entry embeds only admitted files of its own tree, appended after the earlier ones. It returns their texts glued. |
| `Properties.ProcessChildrenGrows` | src/main/kotlin/com/github/mwguerra/copyfilecontent/CopyFileContentAction.kt:155-175 | A directory embeds only admitted files below it. Its returned text is exactly their contents glued without separator. |
| `Properties.ProcessSelectionGrows` | src/main/kotlin/com/github/mwguerra/copyfilecontent/CopyFileContentAction.kt:58-75 | The selection embeds only admitted files of the selection. The character total grows by the length of their contents. |
| `Properties.StatsOfSane` | src/main/kotlin/com/github/mwguerra/copyfilecontent/CopyFileContentAction.kt:71-74 | One text's statistics satisfy words ≤ tokens ≤ 2 × chars, with no line without a character. |
| `Properties.ProcessSelectionSane` | src/main/kotlin/com/github/mwguerra/copyfilecontent/CopyFileContentAction.kt:58-75 | Adding each entry's statistics keeps the totals sane. |
| `Properties.ProcessEntryMarks` | src/main/kotlin/com/github/mwguerra/copyfilecontent/CopyFileContentAction.kt:121-126 | Unless the limit stopped it, an entry marks the path of every file of its tree. |
| `Properties.ProcessChildrenMarks` | src/main/kotlin/com/github/mwguerra/copyfilecontent/CopyFileContentAction.kt:159-172 | Unless the limit stopped it, a directory marks the path of every file below it. |
| `Properties.ProcessSelectionMarks` | src/main/kotlin/com/github/mwguerra/copyfilecontent/CopyFileContentAction.kt:58-75 | Unless the limit stopped it, the copy marks the path of every file of the selection. |
| `Properties.NoProgressOnceLimited` | src/main/kotlin/com/github/mwguerra/copyfilecontent/CopyFileContentAction.kt:159-163 | Once the flag is set, no further entry is processed at any level: runs and totals are unchanged. |
| `Properties.ProcessEntryUnbounded` | src/main/kotlin/com/github/mwguerra/copyfilecontent/CopyFileContentAction.kt:160-163 | An entry that ends without reaching the limit computes what it computes with the budget off. |
| `Properties.ProcessChildrenUnbounded` | src/main/kotlin/com/github/mwguerra/copyfilecontent/CopyFileContentAction.kt:159-172 | A directory that ends without reaching the limit computes what it computes with the budget off. |
| `Properties.ProcessSelectionUnbounded` | src/main/kotlin/com/github/mwguerra/copyfilecontent/CopyFileContentAction.kt:58-75 | A copy that ends without reaching the limit computes what it computes with the budget off. |
| `Properties.CopyTheorem` | src/main/kotlin/com/github/mwguerra/copyfilecontent/CopyFileContentAction.kt:39-78 | The whole copy: the document is pre-text, one block per embedded file in order, and post-text, joined by line feeds. The count is the number of embedded files and no path is embedded twice. Embedded files come from the selection and passed every check. With the budget on, the count stays within the limit. The flag is only set when the limit is reached. Characters total the embedded contents and the totals are sane. Without the limit reached, every file is marked and the result equals the unbudgeted one. |
| `Properties.NoBudgetNoLimit` | src/main/kotlin/com/github/mwguerra/copyfilecontent/CopyFileContentAction.kt:59-63 | With the budget off, the limit is never reached. |
| `Properties.EmptyDocument` | src/main/kotlin/com/github/mwguerra/copyfilecontent/CopyFileContentAction.kt:54-78 | A copy that embeds nothing yields the pre-text and the post-text on two lines. |
| `Properties.PerformCopyOutcome` | src/main/kotlin/com/github/mwguerra/copyfilecontent/CopyFileContentAction.kt:49-106 | The copy fails exactly without settings. Otherwise the clipboard is the document and the count and character total are as embedded. The warning is shown exactly when the limit was reached. The count message appears exactly when notifications are on, and is "1 file copied." exactly for one file. |
| `Properties.HeaderWithPrefix` | src/main/kotlin/com/github/mwguerra/copyfilecontent/CopyFileContentAction.kt:139-139 | A header format that is a '$'-free text followed by the placeholder gives that text followed by the path. |
| `Properties.HeaderOfTemplate` | src/main/kotlin/com/github/mwguerra/copyfilecontent/CopyFileContentAction.kt:139-139 | A header format of '$'-free pieces joined by `$FILE_PATH` gives the pieces joined by the file's path. |
| `Properties.DefaultHeader` | src/main/kotlin/com/github/mwguerra/copyfilecontent/CopyFileContentSettings.kt:16-16 | With the default settings a file's header is "// file: " followed by its path. |
| `Properties.FilterExample` | src/main/kotlin/com/github/mwguerra/copyfilecontent/CopyFileContentAction.kt:131-135 | With filters ".ts" and ".md", "a.tsx" is filtered out while "a.ts" and "README.md" pass. |
| `Properties.EmptyFilterListPassesNothing` | src/main/kotlin/com/github/mwguerra/copyfilecontent/CopyFileContentAction.kt:131-135 | With filtering on and an empty filter list, no file passes. |
| `Properties.ReadFailureStillCounts` | src/main/kotlin/com/github/mwguerra/copyfilecontent/CopyFileContentAction.kt:183-190 | A new, eligible file with no cached text whose read fails is still counted, with empty content. |
| `Order.Flatten` | src/main/kotlin/com/github/mwguerra/copyfilecontent/CopyFileContentAction.kt:164-168 | The traversal order of a tree lists only files, and exactly the files of the tree. |
| `Order.FlattenSeq` | src/main/kotlin/com/github/mwguerra/copyfilecontent/CopyFileContentAction.kt:159-172 | The traversal order of a list of entries lists only files, and exactly the files of the entries. |
| `Order.ExpectedMembers` | src/main/kotlin/com/github/mwguerra/copyfilecontent/CopyFileContentAction.kt:120-148 | A file record is in the reference list exactly when, at some position, the file's path is unmarked and not the path of an earlier file, and the file passes the filter, the binary test and the size ceiling. |
| `Order.ExpectedAppend` | src/main/kotlin/com/github/mwguerra/copyfilecontent/CopyFileContentAction.kt:120-126 | The reference for two lists in a row is the first's followed by the second's, with the first's paths already marked. |
| `Order.ProcessEntryFollowsOrder` | src/main/kotlin/com/github/mwguerra/copyfilecontent/CopyFileContentAction.kt:164-168 | An entry embeds a prefix of the reference for its files. Unless the limit stopped it, it embeds all of it and marks exactly their paths. |
| `Order.ProcessChildrenFollowsOrder` | src/main/kotlin/com/github/mwguerra/copyfilecontent/CopyFileContentAction.kt:159-172 | A directory's loop embeds a prefix of the reference for the files below it. Unless the limit stopped it, it embeds all of it and marks exactly their paths. |
| `Order.ProcessSelectionFollowsOrder` | src/main/kotlin/com/github/mwguerra/copyfilecontent/CopyFileContentAction.kt:58-75 | The selection loop embeds a prefix of the reference for the selected files. Unless the limit stopped it, it embeds all of it and marks exactly their paths. |
| `Order.TraversalTheorem` | src/main/kotlin/com/github/mwguerra/copyfilecontent/CopyFileContentAction.kt:58-75 | Without a budget, the copy embeds the reference list of the selection. With one, it embeds a prefix of that, and all of it when the limit is not reached. |
| `Order.CopyEmbedsFirstEligible` | src/main/kotlin/com/github/mwguerra/copyfilecontent/CopyFileContentAction.kt:58-75 | When the limit is not reached, a file record is embedded exactly when its file is, in traversal order, the first with its path and passes the filter, the binary test and the size ceiling. |
| `Order.Completeness` | src/main/kotlin/com/github/mwguerra/copyfilecontent/CopyFileContentAction.kt:120-148 | When the limit is not reached, every selected file that passes the checks and shares its path with no other selected file is embedded with its text. |
| `Example.AnyTexts` | src/main/kotlin/com/github/mwguerra/copyfilecontent/CopyFileContentAction.kt:39-175 | The example runs over fileA, a binary fileB and directoryC/fileD, with header "FILE: $FILE_PATH", START/END and no extra line. For any texts, the clipboard is START, both headers with their texts, and END on successive lines. Two files are counted, the limit is not reached, fileB's path is marked, and the characters total both texts. |
| `Example.EndToEnd` | src/main/kotlin/com/github/mwguerra/copyfilecontent/CopyFileContentAction.kt:39-175 | With texts "hello\nworld" and "x" the clipboard is "START\nFILE: fileA\nhello\nworld\nFILE: directoryC/fileD\nx\nEND". Two files are counted, the limit is not reached, and 12 characters are totalled. |

## Left out

- Clipboard write, notifications and the "Go to Settings" action
  (`copyToClipboard`, `showNotification`, `showNotificationWithSettingsAction`):
  these are platform side effects. The model returns the clipboard text, the
  totals, whether the limit warning is shown and the count message. It omits
  the HTML wording of the warning and statistics notifications.
- `actionPerformed`'s checks for a missing project or selection: they are
  platform plumbing before the copy starts. A missing project in
  `performCopyFilesContent` is also not modelled. The missing settings service is
  modelled as a null `settings` argument.
- The per-helper re-lookup of the settings service (`getInstance(project) ?: return
  ""` in `processFile` and `processDirectory`): the model reads the settings once
  per copy and assumes the service stays available during it.
- Properties.CopyTheorem: does not state that the limit flag is set only when
  an entry remains to be processed. It states only that the count had reached
  the limit when the flag is set. Which files get in and in which order is
  stated in `Order.TraversalTheorem` and `Order.CopyEmbedsFirstEligible`.
- Directory trees are finite values of `Entry`. A cyclic structure, such as a
  symbolic-link loop on which the source would recurse without end, cannot be
  expressed.
- Platform calls (binary classification, file length, cached documents, relative
  paths, content roots, a directory's children): these are deterministic answers
  in `Host` or fields of `Entry`, not reimplementations.
- UTF-8 decoding and the exception path of `readFileContents`: the disk read is
  an answer of `Host` that is either some text or a failure, which gives "".
  Logging is left out.
- Java regular expressions: words split on the fixed whitespace set space, tab,
  line feed, vertical tab, form feed and carriage return (the `\s` class). The
  punctuation class is the eight characters `; { } ( ) [ ] ,`.
- Text length and character counts are on Dafny characters; UTF-16 surrogate
  pairs are not distinguished.
- The totals and `fileCount` are unbounded integers: 32-bit `Int` overflow is
  not modelled.
- The `State` record's fields are mutable in the source; the model treats a
  state as a value. Changes that go through `loadState` are modelled.
- The document parts and the set of met paths are locals handed to every helper
  in the source. Here they are fields of the action, reset by each copy.
- The settings page (`CopyFileContentConfigurable.kt`), `CopyAllOpenTabsAction.kt`
  (which gathers open tabs and calls the same copy), the build script, and XML
  persistence of the settings are not part of this model.
