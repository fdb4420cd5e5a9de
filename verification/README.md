# File-system analyser core, in Dafny

This project models the analysis core of a browser tool. The tool scans a directory the user chooses. It then reports:

- statistics: total size, number of files and directories, distinct extensions, and average and maximum directory depth;
- groups of duplicate files;
- up to four advice cards.

The tool can receive the directory in two ways, and each has its own scanner:

- **Handle scanner** (`scanFileSystem`). It is given a directory handle. It walks the tree recursively. Every directory counts, the chosen one included, at depth 0.
- **Flat scanner** (`scanFilesViaInput`). It is given a flat list of files, each with a relative path.
  - A first pass collects every directory prefix into a set. The size of that set is the reported directory count.
  - A second pass builds the tree. It creates directory nodes on demand in a path map, where the root sits under the empty key.

Both scanners fingerprint each file with `hashFile`. The fingerprint is the lower-case hex of the first 1024 bytes, the name and the decimal size, joined by `_`. A read failure gives the empty string.

Each scanner records every file with a non-empty fingerprint in an index of groups kept in insertion order. A file is marked as a duplicate when its fingerprint was already in the index. The groups with more than one member become the duplicate list.

Smaller helpers are modelled too:

- `getFileExtension`;
- `truncateText`, which builds labels for the mind map;
- the progress store, with its `updateProgress` (clamps the percentage into [0, 100]) and `resetProgress`.

Modules, one per file:

- `Optional` and `Strings`. Strings holds JavaScript's `split`/`join` on one separator, which give `[""]` and `""` on empty input, ASCII lower-casing, decimal digits and `indexOf`.
- `Model`: the shared records, after `src/types/filesystem.ts`.
  - A node is either a directory or a file.
  - A duplicate group carries the `fullFilenames` list that both scanners build, although the type declaration omits it.
- `Extension`, `Fingerprint`, `DuplicateIndex` and `Recommendations`.
- `FlatScan` and `HandleScan`. `FlatTree` adds what the flat scanner's returned tree holds.
- `Truncate` and `Progress`.

How the model represents some things:

- **Inputs are values.**
  - A file's bytes are given as `Content`: either the bytes, or a read failure.
  - The directory handle is a tree of `Entry` values.
  - The file list is a sequence of `InputFile`.
- **The handle scanner runs sequentially.** The source starts all children of a directory concurrently. The model visits them one at a time, depth first, in listing order. The counters do not depend on the order. The order of the duplicate groups and which copy of a file is the unmarked one do depend on it; the model fixes them to the pre-order of the walk.
- **The flat scanner's tree is a log.** The tree under construction is kept as the log of every `children.push`, which records which node received which child and in what order. The returned tree is read off this log.

Depth figures have different meanings in the two scanners, as in the code:

- **Handle scanner.** It counts the chosen directory at depth 0 and divides by `max(1, totalDirs)`.
- **Flat scanner.** It counts only the directories below the root. When no path starts with `/`, a directory's depth is its number of path segments. The scanner divides by `totalDirs` when that is positive and reports 0 otherwise.

A relative path that begins with `/` behaves oddly in the flat scanner. Browsers never produce such a path, but the code does not exclude it:

- the first pass puts the empty path into the directory set, so `totalDirs` is one more than the number of directory nodes;
- a file such as `/x/a.txt` is attached under the key `/x`, which no node has (the directory was created as `x`), so it is counted but left out of the tree and of the duplicate index;
- the directory `x` of `/x/a.txt` is created at depth 2, because the empty leading part counts as a level, so `maxDepth` and `avgDepth` count that part too.

The model follows the code here. The exact statements about tree contents, duplicates and depths are proved for lists without such a path.

## Model

| member | source | states |
|---|---|---|
| Extension.FileExtension | src/lib/utils.ts:21-23 | The extension is the lower-cased dot-free tail of the name after its last `.`. It is the whole name, lower-cased, when there is no dot, and `""` when the name ends with a dot. |
| Fingerprint.FingerprintOf | src/lib/utils.ts:25-49 | The fingerprint is empty exactly when reading the file fails. |
| Fingerprint.TokenRoundTrip | src/lib/utils.ts:37-44 | A fingerprint starts with 2·min(1024, content length in bytes) hex digits and then `_`. It parses back, at its first and last `_`, to the hashed prefix, the name (which may contain `_`) and the size. |
| Fingerprint.TokenInjective | src/lib/utils.ts:31-42 | Two readable files have equal fingerprints only if their first 1024 bytes, their names and their sizes all agree. |
| Fingerprint.TokenIgnoresTail | src/lib/utils.ts:37-38 | Bytes after the first 1024 do not affect the fingerprint. |
| Fingerprint.UnhexHex | src/lib/utils.ts:37-41 | The two-digit, zero-padded hex encoding of bytes can be read back to the bytes. |
| Fingerprint.HexByte | src/lib/utils.ts:37-39 | A byte becomes two lower-case hex digits whose values, high digit first, give back the byte. |
| Fingerprint.Hex | src/lib/utils.ts:37-41 | The hex of a byte sequence is made of hex digits only, two per byte. |
| Strings.Decimal | src/lib/utils.ts:42 | The size is written as decimal digits whose value is the size. There is at least one digit, and a positive size has no leading zero. |
| DuplicateIndex.Record | src/lib/utils.ts:509-525 | An empty fingerprint leaves the index unchanged and unmarked. A known fingerprint appends the path and name to its group and marks the file. A new fingerprint adds a one-member group at the end. Well-formedness is kept: distinct fingerprints, and parallel, non-empty path and name lists. |
| DuplicateIndex.BuildCorrect | src/lib/utils.ts:509-525 | The index built from a sequence of files has one group per non-empty fingerprint that occurs. Each group holds all and only that fingerprint's paths and names in order, and the groups are ordered by first sighting. A file is marked exactly when an earlier file had the same non-empty fingerprint. |
| DuplicateIndex.BuildSnoc | src/lib/utils.ts:509-525 | Building from one more file is recording that file into the index built so far. The marks gain that record's mark at the end. |
| DuplicateIndex.BuildFromAppend | src/lib/utils.ts:509-525 | Building over two runs of files is building over the first, then continuing from its index over the second. The marks of the two runs are concatenated. |
| DuplicateIndex.Finalize | src/lib/utils.ts:544-545 | Only groups with more than one path are kept, and there are no more of them than groups in the index. |
| DuplicateIndex.FinalizeCorrect | src/lib/utils.ts:544-553 | The duplicate list is exactly the non-empty fingerprints shared by two or more files, each group correct and in first-sighting order. The duplicate-file count is at least twice the number of groups. |
| DuplicateIndex.DuplicateFiles | src/lib/utils.ts:553 | Summing path counts over groups of two or more gives at least two per group. |
| DuplicateIndex.DuplicateCount | src/lib/utils.ts:509-553 | Summing the path counts of the finalised groups counts exactly the files whose non-empty fingerprint two or more files share, the first-seen file of each group included. |
| Recommendations.Generate | src/lib/utils.ts:51-92 | There is one card per firing rule: any duplicates; more than 5 extensions; depth over 5; more than 1000 files. Each card quotes the statistic its rule tests, and the duplicate card quotes the wasted bytes. |
| Recommendations.GeneratePresence | src/lib/utils.ts:51-92 | Each kind of card appears exactly when its rule fires. |
| Recommendations.GenerateOrder | src/lib/utils.ts:51-92 | Cards come in rule order: duplicates, types, depth, size. |
| Recommendations.WastedIsCopiesMinusKept | src/lib/utils.ts:59 | The wasted bytes are the bytes of all copies minus one copy per group. |
| Recommendations.WastedBounds | src/lib/utils.ts:59 | For groups of two or more, the waste is at least one copy per group and at most all copies. |
| FlatScan.CollectDirs | src/lib/utils.ts:409-436 | The first pass's set is every value `currentPath` takes over every file's directory parts, where the empty string counts as falsy when extending. |
| FlatScan.MakeDirSound | src/lib/utils.ts:468-492 | Creating a directory whose parent's path is a key keeps the pass sound and adds exactly the new path as a key. Sound means: the root key is present, there is one key per directory node besides the root, directory paths are distinct keys, and every push lies under its parent's path. No file node, index entry, extension set, file count or size changes. |
| FlatScan.MakeDirsSound | src/lib/utils.ts:466-492 | The directory loop keys every value of `currentPath`, the final one included, and keeps the pass sound. No file node, index entry, extension set, file count or size changes. |
| FlatScan.MakeDirsDepth | src/lib/utils.ts:466-492 | When the first part is non-empty and no part contains `/`, the loop's depth is the segment count of the path it creates. The depth total and maximum stay those of the directory nodes pushed. |
| FlatScan.AddFileSound | src/lib/utils.ts:439-529 | One file is counted with its size and extension, and its directories are keyed. It is fingerprinted, recorded and pushed exactly when its joined directory parts name a key, which always holds when its path does not start with `/`. Otherwise the index and the file nodes are unchanged. The pass stays sound. |
| FlatScan.ScanAllCounters | src/lib/utils.ts:439-529 | For any paths, the second pass counts every file, sums every size and collects every extension. |
| FlatScan.ScanAllSound | src/lib/utils.ts:439-529 | For any paths, the second pass counts every file, its size and its extension. Its path-map keys are the root's key plus exactly the first pass's set. Every created directory's path is a key, there is one key per directory node besides the root, and every push lies under its parent's path. |
| FlatScan.ScanAllKeySet | src/lib/utils.ts:466-492 | Whatever the paths, the path-map keys after the second pass are the root's empty key plus exactly the first pass's directory set. |
| FlatScan.ScanAllIndex | src/lib/utils.ts:494-528 | Without a leading `/`, the second pass's index is the one built by recording every file in list order. |
| FlatScan.ScanAllDepth | src/lib/utils.ts:466-492 | Without a leading `/`, the depth total after the second pass is the summed segment count of the directory nodes pushed, and the maximum depth is the largest one. |
| FlatScan.EmptyInDirSet | src/lib/utils.ts:409-421 | The first pass counts the empty path as a directory exactly when some path starts with `/`. |
| FlatScan.DirCountMatches | src/lib/utils.ts:409-492 | Without such a path, the reported directory count equals the number of directory nodes created. |
| FlatScan.DirCountWithLeadingSlash | src/lib/utils.ts:409-492 | With such a path, the reported count exceeds the directory nodes created by one. |
| FlatScan.LeadingSlashDepth | src/lib/utils.ts:466-492 | For the single file `/x/a`, the only directory node is `x` under the root, whose path has one segment, yet the reported `maxDepth` is 2: the depth counts the empty leading part. |
| FlatScan.MaterializeLinked | src/lib/utils.ts:387-528 | The returned tree is the directory "root" at path "". Every child lies under its parent's path, as `parent/name`, or as `name` at the root. |
| FlatScan.ScanFilesViaInput | src/lib/utils.ts:349-584 | The totals of files, size and extensions are exact, and the directory count is the first pass's set. The root tree is linked. Every duplicate group has more than one path, and `duplicateFiles` is the sum of the groups' path counts. The cards are those generated from the statistics. |
| FlatScan.FlatDuplicates | src/lib/utils.ts:499-545 | Without a leading `/`, the duplicate list is exactly the shared non-empty fingerprints of the list, with complete groups in first-sighting order. |
| FlatScan.FlatDuplicateCount | src/lib/utils.ts:499-553 | Without a leading `/`, `duplicateFiles` is the number of listed files whose non-empty fingerprint another listed file shares. |
| FlatScan.FlatDepthStats | src/lib/utils.ts:466-547 | Without a leading `/`, `totalDirs` is the number of directory nodes created. `maxDepth` is their largest segment count, and `avgDepth` is their mean. |
| FlatScan.FileMarks | src/lib/utils.ts:494-528 | Without a leading `/`, the pushes record one file node per listed file, in list order, carrying its path and last path segment. A node is marked a duplicate exactly when an earlier file had the same non-empty fingerprint. |
| FlatTree.TreeContents | src/lib/utils.ts:439-529 | For any paths, the returned tree holds exactly the file nodes pushed, counted with multiplicity, and one directory node per directory pushed besides the root. |
| FlatTree.TreeFileMarks | src/lib/utils.ts:439-547 | Without a leading `/`, the returned tree holds exactly one file node per listed file, with the mark `FileMarks` states, compared as a multiset. Besides the root, it has `totalDirs` directory nodes. |
| FlatTree.TreeDirsWithLeadingSlash | src/lib/utils.ts:409-492 | With a leading `/`, the returned tree has exactly `totalDirs` directory nodes, the root included: one fewer besides the root than the reported count. |
| FlatScan.AverageDepth | src/lib/utils.ts:547 | The average is 0 when there is no directory, and otherwise it times the count equals the depth total. |
| HandleScan.ScanEntries | src/lib/utils.ts:211-283 | A directory's children are one node per listed entry. |
| HandleScan.ScanDirectoryRun | src/lib/utils.ts:182-288 | The recursive scan equals its pre-order walk applied step by step. The final tally is the walk's, and the tree's file nodes are the ones the walk makes, in order. |
| HandleScan.RunIndex | src/lib/utils.ts:244-269 | A walk records its files' sightings in order. Each file node is that file's path, name, size, extension and fingerprint, with the mark the index gave it. |
| HandleScan.FileVisitIndex | src/lib/utils.ts:243-271 | A leading file visit records its sighting first, and its node, with that record's mark, comes first. |
| HandleScan.DirVisitIndex | src/lib/utils.ts:192-195 | A leading directory visit leaves the index alone and makes no node. |
| HandleScan.RunCounters | src/lib/utils.ts:192-226 | Over a run of visits, the directory count grows by the directory visits and the file count by the file visits. Size, extensions and depth total grow by what the visits carry, and the maximum depth becomes the larger of the old maximum and the deepest directory visit. |
| HandleScan.RunAppend | src/lib/utils.ts:211-283 | Walking two runs of visits in a row is walking the first, then the second from the tally the first leaves. The file nodes made are concatenated. |
| HandleScan.ScanDirectoryMirrors | src/lib/utils.ts:185-278 | The result tree mirrors the directory. Each node has its entry's kind and name and the path `parent/name`. Children follow entries one for one and in order. A file carries its size, extension and fingerprint. |
| HandleScan.ListingCounts | src/lib/utils.ts:192-226 | The walk enters every directory of the tree once and reads every file once. Its depth total is the sum of the directories' depths. |
| HandleScan.ListingTypes | src/lib/utils.ts:223-224 | The extensions collected are those of the tree's files. |
| HandleScan.ListingHeight | src/lib/utils.ts:193-217 | The greatest depth entered is the starting depth plus the number of directory levels below. |
| HandleScan.ScanTally | src/lib/utils.ts:111-291 | After the walk from the chosen directory, the counters are the tree's own figures, and the index is the one built from the walk's files. |
| HandleScan.MeanDepth | src/lib/utils.ts:305 | The depth total is divided by at least 1. With no directory the result is the total itself; otherwise it times the count is the total. |
| HandleScan.ScanFileSystem | src/lib/utils.ts:95-346 | Directories (the chosen one included), files, size, extensions and maximum depth are the tree's own figures, and `avgDepth` is the mean directory depth. The tree mirrors the input. Every group has more than one path, and `duplicateFiles` is the sum of the groups' path counts. The cards are those generated from the statistics. |
| HandleScan.HandleDuplicates | src/lib/utils.ts:254-309 | The duplicate list is exactly the non-empty fingerprints shared by two or more files of the walk, with complete groups in first-sighting order. |
| HandleScan.HandleDuplicateCount | src/lib/utils.ts:254-315 | `duplicateFiles` is the number of files of the walk whose non-empty fingerprint another file of the walk shares. |
| HandleScan.HandleFileMarks | src/lib/utils.ts:244-269 | The tree's file nodes, in pre-order, are the walk's files. A node is marked exactly when an earlier file had the same non-empty fingerprint. |
| Truncate.Tail | src/lib/mindMapUtils.ts:46 | The tail is the last min(10, length) characters. A negative start counts as 0. |
| Truncate.TruncateText | src/lib/mindMapUtils.ts:41-50 | A text within the limit comes back unchanged. A longer one keeps its first `maxLength` characters followed by `...`. Beyond twice the limit, the text also keeps its last ten characters. The result is never longer than the limit plus 13. |
| Truncate.DefaultTruncateBound | src/lib/mindMapUtils.ts:41 | With the default limit of 25, labels are at most 38 characters, and texts of at most 25 are unchanged. |
| Truncate.EllipsisCanLengthen | src/lib/mindMapUtils.ts:49 | A text one or two characters over the limit comes back longer than it was. |
| Progress.Clamp | src/contexts/ProgressContext.tsx:45-48 | The result lies in [0, 100], equals the input inside that range and the nearer bound outside it. |
| Progress.UpdateProgress | src/contexts/ProgressContext.tsx:41-50 | Every key the update carries replaces the old value, and absent keys are kept. The percentage is clamped, and an in-range state stays in range. |
| Progress.ResetProgress | src/contexts/ProgressContext.tsx:14-54 | The reset state is idle, not processing, at 0 %, with empty file name, zero counts and no time estimate. |
| Progress.UpdateIdempotent | src/contexts/ProgressContext.tsx:41-50 | Applying the same update twice equals applying it once. |
| Progress.UpdateCompose | src/contexts/ProgressContext.tsx:41-50 | Two updates in a row equal one update carrying the later keys and, failing those, the earlier ones. |
| Progress.ReachableInRange | src/contexts/ProgressContext.tsx:14-54 | From the reset state, no sequence of updates takes the percentage outside [0, 100]. |
| Progress.LastPercentageWins | src/contexts/ProgressContext.tsx:41-50 | After any sequence of updates, the percentage is the clamp of the last update that carried a percentage, or the starting value if none did. |

Some functions only compute, and their contracts are carried by lemmas about them:

- `FlatScan.ScanAll`: `ScanAllSound`, `ScanAllKeySet`, `ScanAllCounters`, `ScanAllIndex`, `ScanAllDepth`, `FileMarks`.
- `FlatScan.AddFile`: `AddFileSound`.
- `FlatScan.MakeDir`: `MakeDirSound`.
- `FlatScan.MakeDirs`: `MakeDirsSound` and `MakeDirsDepth`.
- `FlatScan.Materialize`: `MaterializeLinked` and `FlatTree.TreeContents`.
- `HandleScan.ScanDirectory`: `ScanDirectoryRun` and `ScanDirectoryMirrors`.
- `HandleScan.EnterDir` and `HandleScan.VisitFile`, applied by one walk step each: `RunCounters`, `FileVisitIndex` and `DirVisitIndex`.
- `Recommendations.WastedBytes`: `WastedIsCopiesMinusKept` and `WastedBounds`.
- `DuplicateIndex.Build`: `BuildCorrect`, `BuildSnoc` and `BuildFromAppend`.
- `Fingerprint.Token`: `TokenRoundTrip`, `TokenInjective` and `TokenIgnoresTail`.

## Left out

- `formatBytes` and `cn`: pure formatting helpers outside the analysis. The advice cards keep their figures, such as the wasted byte count, instead of rendered text.
- The pass-through at the start of `scanFileSystem`, which returns an already computed result unchanged: it carries no logic. `ScanFileSystem` therefore requires a directory.
- `countItems`, progress callbacks, throttling, timing and the remaining-time estimate: they depend on the clock and affect only what is reported while scanning, not the result.
- Concurrency in the handle scanner: children are visited sequentially. This fixes the order of duplicate groups and which copy is unmarked to the pre-order of the walk.
- The directory reader's batches: the entries of a directory are given as one sequence, which is what the batches concatenate to.
- File reading: `Content` stands for the result of reading a file, including a failed read. The fingerprint does not depend on `File.type`.
- Character handling: lower-casing covers ASCII letters only. Lengths count Dafny characters rather than UTF-16 code units.
- Number semantics: numbers are unbounded integers, except that percentages and averages are exact reals. Floating-point rounding, NaN and negative sizes are not modelled.
- Progress.UpdateProgress: a key present with the value `undefined` is treated as absent, except for the time estimate, where `null` is modelled.
- Truncate.TruncateText: the limit is a natural number. A negative limit, which no caller passes, is not modelled.
- FlatScan.ScanFilesViaInput: its own contract does not state the exact duplicate list, the depth figures or the tree's contents, for any input. These are proved separately, for lists where no path starts with `/`:
  - the duplicate list in `FlatDuplicates`, and the number of duplicate files in `FlatDuplicateCount`;
  - `totalDirs`, `maxDepth` and `avgDepth` in `FlatDepthStats`;
  - the tree's file nodes and their marks in `FileMarks` and `FlatTree.TreeFileMarks`.
  When some path starts with `/`, a file whose joined directory parts name no key (utils.ts:494-528) is counted but never fingerprinted, recorded or attached. The duplicate list then covers only the attached files, and no lemma states it, or the number of duplicate files, exactly for such lists. The directory figures are stated by `DirCountWithLeadingSlash` and `FlatTree.TreeDirsWithLeadingSlash`.
- FlatScan.FileMarks: states the file nodes in push order, which is list order. The returned tree groups children under their directory, so its pre-order can differ: `a/x`, `b/y`, `a/z` give `x`, `z`, `y`. `FlatTree.TreeFileMarks` states the tree's file nodes as a multiset, not in order.
- The UI: the mind map and the progress display.
