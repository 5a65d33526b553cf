# Keeper of Tomes: snapshot change classification

Keeper of Tomes records a directory tree as a *snapshot*. A snapshot holds:
- `Data`, one entry per file: path, size, last-write time, 64-bit content hash;
- `LastScan`, a map from path to last-write time;
- `DirectoryPath`, the directory it was taken of.

Later rescans compare the live tree with the snapshot. They report:
- `AddedFiles`, `RemovedFiles` and `UpdatedFiles`;
- `UpdatedFileDetails`, the rename pairs `(old path, new path)`.

A rescan then replaces the snapshot file. This project models the engine in `Keeper.cs` and proves what it promises.

What is modelled:
- **Hash lookup** (module `Lookup`). The old entries are grouped by hash, and each group keeps the old-snapshot order. The first entry meeting a criterion is the rename source. That criterion is exact mtime, mtime within one second, or size only.
- **Per-path classification** (module `Classification`), for one successfully read file:
  - Case A: the path is already in `LastScan`. A strictly newer mtime makes it Updated. A near-time match makes it a rename target.
  - Case B: the path is new. An exact match makes it a rename target; otherwise it is Added.
- **Full rescan** (module `DiffEngine`):
  - The function `Diff` defines the four result sets directly. `NewSnapshot` defines the replacement snapshot.
  - The method `ClassifyLiveFiles` computes both the way the source does: chunks of 50 tasks, shared collections, then the removal loop. It is proved equal to those functions.
  - Module `DiffProperties` proves the promised properties about `Diff` and `NewSnapshot`.
- **Bootstrap scan** (module `Scanner` and `Keeper.SaveDirectorySnapshot`). This is the per-chunk scan, the append and merge over the chunks, and the independence from chunk size. A directory walk that throws ends the bootstrap with an error before anything is written.
- **Single-file update** (`Keeper.UpdateSingleFile`). It uses its own rules: Case A never detects renames, and Case B matches on hash and size only. It also replaces the file's record.
- **Persistence** (module `SnapshotStore`):
  - The save writes a temp file, then calls `File.Replace` or `File.Move`, over an abstract map from file name to contents.
  - The model also covers the states an interrupted save can leave behind.
- **The orchestrator** `Keeper.SnapshotDirectory`: bootstrap or update. Its specification is `Keeper.SnapshotDirectoryOutcome`, with a corrected variant `Keeper.CorrectedSnapshotDirectoryOutcome`. Module `KeeperProperties` proves their properties.

Modelling choices:
- Timestamps are integer ticks, with one second = 10,000,000 ticks (`Types.TICKS_PER_SECOND`). "Within one second" is `|Δ| < 10,000,000`.
- Sizes and hashes are natural numbers. A hash is a given field of each read result.
- `Path.GetFullPath` is a parameter `norm: string -> string`:
  - Lemmas that need it require `norm` to be idempotent.
  - They also require the enumeration to yield each normalized path once (`DistinctPaths`).
- The directory walk is a parameter. It gives each enumerated raw path together with its read result: `(size, mtime, hash)` or a read failure. For the orchestrator it is a function from directory to that sequence, or to `None` when `Directory.EnumerateFiles` throws (a missing or unreadable directory; `Keeper.Tree`). That exception is raised outside every try block, so the bootstrap and the update end with `EnumerationFailed` and write nothing.
- Paths use `/` as the only separator. The Windows separator `\` and volume names with `:` are not modelled in `Path.GetFileName` and `Path.Combine`.
- The binary codec is modelled by its image. A file holds the complete encoding of a snapshot (`Encoded(s)`) or bytes that do not decode (`Undecodable`). Decoding gives back exactly the snapshot encoded.
- The parallel tasks run as a sequential loop in enumeration order. Each task only reads immutable old data and inserts into sets. Where the source's order is unspecified (`ConcurrentBag`), the model uses enumeration order.
- The default `SnapshotInfo` returned by a bootstrap has null sets. It is modelled as four empty sets (`Types.EmptyInfo`).

Two behaviours of the code that a reader might not expect, both modelled as the code has them:
- A rename source that is no longer enumerated IS reported as Removed (see `DiffProperties.RenameKeepsRemoval` and `DiffProperties.RenameExample`).
- A path that was enumerated but failed to read counts as live, so it is never Removed. It is added to the live set before the read is attempted.

`UpdateSingleFile` also catches a failing `File.Replace` and still returns the classification. The body of `Keeper.UpdateSingleFile` keeps that branch. Under this model, though, the Replace cannot fail there, because the target has just been loaded. So the branch never runs, and no contract covers it.

## Model

| member | source | states |
|---|---|---|
| Lookup.FirstMatch | KeeperOfTomes/KeeperOfTomes/Keeper.cs:221-223 | `FirstOrDefault`: none exactly when no element matches; otherwise the result matches and no earlier element does |
| Lookup.WithHash | KeeperOfTomes/KeeperOfTomes/Keeper.cs:175-177 | a hash group holds exactly the old entries with that hash |
| Lookup.HashLookup | KeeperOfTomes/KeeperOfTomes/Keeper.cs:175-177 | `GroupBy`/`ToDictionary`: the keys are exactly the hashes present; each group is non-empty and holds exactly the entries with its hash |
| Lookup.FirstMatchWithHash | KeeperOfTomes/KeeperOfTomes/Keeper.cs:175-177 | searching the hash group gives the same first match as searching all old entries in order |
| Lookup.LookupIsFirstInOldOrder | KeeperOfTomes/KeeperOfTomes/Keeper.cs:218-223 | the looked-up match is the first matching entry in old-snapshot order (none when the hash is absent) |
| Lookup.Matches | KeeperOfTomes/KeeperOfTomes/Keeper.cs:221-223 | the three match predicates (mtime within one second, exact mtime at line 251-253, size only at line 355), each with the hash of the lookup key; no contract of its own |
| Lookup.LookupMatch | KeeperOfTomes/KeeperOfTomes/Keeper.cs:218-223 | `TryGetValue` then `FirstOrDefault`: none exactly when the hash is absent or nothing in its group matches; otherwise a matching member of the group |
| Classification.Classify | KeeperOfTomes/KeeperOfTomes/Keeper.cs:213-274 | a successful read is never Skipped; a recorded path is never Added; a new path is Added or Renamed (`Classification.CaseA` and `Classification.CaseB` state the rest) |
| Classification.CaseA | KeeperOfTomes/KeeperOfTomes/Keeper.cs:213-246 | a recorded path is unchanged iff its mtime is not strictly newer; when newer it is an update; it is a rename iff newer and the first near-time match lies at another path, which is then the source |
| Classification.CaseB | KeeperOfTomes/KeeperOfTomes/Keeper.cs:247-274 | a new path is Added or Renamed; Added iff no old entry has the same hash, size and mtime; Renamed iff such an entry exists, its source being the first one |
| Classification.RenameSourceIsOldEntry | KeeperOfTomes/KeeperOfTomes/Keeper.cs:221-229 | a rename source is the path of an old entry with the live hash and size |
| Scanner.Chunk | KeeperOfTomes/KeeperOfTomes/Keeper.cs:101 | every chunk is non-empty and at most the chunk size long |
| Scanner.FlattenSnoc | KeeperOfTomes/KeeperOfTomes/Keeper.cs:101-105 | appending one more chunk extends the flattened sequence by it |
| Scanner.FlattenChunk | KeeperOfTomes/KeeperOfTomes/Keeper.cs:101 | chunking loses and reorders nothing, whatever the size |
| Scanner.EntriesOf | KeeperOfTomes/KeeperOfTomes/Keeper.cs:143 | the entry of one read file, none for a failed read; no contract of its own (`Scanner.ScannedEntriesMembership` states it) |
| Scanner.ScanSnoc | KeeperOfTomes/KeeperOfTomes/Keeper.cs:143-145 | scanning one more file appends its entry and sets its LastScan key, or does neither when its read failed |
| Scanner.ScannedEntriesAppend | KeeperOfTomes/KeeperOfTomes/Keeper.cs:105 | `AddRange`: the entries of two runs of files concatenated are the entries of the concatenated run |
| Scanner.ScanMapAppend | KeeperOfTomes/KeeperOfTomes/Keeper.cs:107-110 | merging a later dictionary pair by pair gives the dictionary of the concatenated run |
| Scanner.ChunkedScanFlat | KeeperOfTomes/KeeperOfTomes/Keeper.cs:101-111 | accumulating chunk by chunk gives the entries and LastScan of the whole enumeration |
| Scanner.ChunkSizeIrrelevant | KeeperOfTomes/KeeperOfTomes/Keeper.cs:98-111 | the bootstrap Data and LastScan are the same for every chunk size, and equal to those of the unchunked enumeration |
| Scanner.ScannedEntriesMembership | KeeperOfTomes/KeeperOfTomes/Keeper.cs:138-150 | an entry is in the list exactly when some enumerated file was read into it (failed reads contribute none) |
| Scanner.ScanMapKeys | KeeperOfTomes/KeeperOfTomes/Keeper.cs:145 | LastScan's keys are exactly the normalized paths of the files read successfully |
| Scanner.ScanMapValue | KeeperOfTomes/KeeperOfTomes/Keeper.cs:145 | with distinct paths, LastScan maps each read file to its own mtime |
| Scanner.ScanOneMoreChunk | KeeperOfTomes/KeeperOfTomes/Keeper.cs:101-111 | one more chunk appends its entries and merges its LastScan pairs into those of the chunks before it |
| Scanner.SaveDirectoryChunk | KeeperOfTomes/KeeperOfTomes/Keeper.cs:128-154 | the loop with its try/catch returns in order the entries of the files read successfully, and their LastScan map |
| DiffEngine.Diff | KeeperOfTomes/KeeperOfTomes/Keeper.cs:170-299 | the four result sets of a rescan, defined path by path; no contract of its own (the `DiffProperties` lemmas state its properties) |
| DiffEngine.NewSnapshot | KeeperOfTomes/KeeperOfTomes/Keeper.cs:295-299 | the replacement snapshot; no contract of its own (`DiffProperties.NewSnapshotContents` states it) |
| DiffEngine.DiffSnoc | KeeperOfTomes/KeeperOfTomes/Keeper.cs:190-274 | processing one more file adds its path to the live set and adds it to the result set of its verdict only |
| DiffEngine.ScanTask | KeeperOfTomes/KeeperOfTomes/Keeper.cs:188-280 | one task body (live path first, then read, then Case A or B) takes the shared collections from the state after `done` to the state after `done + [f]` |
| DiffEngine.CollectRemoved | KeeperOfTomes/KeeperOfTomes/Keeper.cs:285-293 | the removal loop collects exactly the raw old paths whose normalized form is not live |
| DiffEngine.RunChunk | KeeperOfTomes/KeeperOfTomes/Keeper.cs:188-282 | the tasks of one chunk advance the shared collections over the whole chunk |
| DiffEngine.RunChunks | KeeperOfTomes/KeeperOfTomes/Keeper.cs:183-283 | for every positive chunk size, the chunk loop leaves the shared collections as defined by one pass over the whole enumeration |
| DiffEngine.ClassifyLiveFiles | KeeperOfTomes/KeeperOfTomes/Keeper.cs:170-299 | the four result sets equal `Diff` and the replacement snapshot equals `NewSnapshot` |
| DiffProperties.MembershipByVerdict | KeeperOfTomes/KeeperOfTomes/Keeper.cs:213-274 | with distinct paths, a path is in Added, in Updated, or a rename target of `a` exactly as the one file at it is classified |
| DiffProperties.UnchangedFileUnclassified | KeeperOfTomes/KeeperOfTomes/Keeper.cs:213-216 | a recorded path whose mtime is not strictly newer is in none of Added, Updated or the rename targets |
| DiffProperties.ChangedRecordedPath | KeeperOfTomes/KeeperOfTomes/Keeper.cs:213-246 | a recorded path with a newer mtime is Updated and not Added; `(a, path)` is a pair iff the first near-time same-hash-and-size entry in old order lies at `a`, and `a` differs from `path` |
| DiffProperties.NewPathClassified | KeeperOfTomes/KeeperOfTomes/Keeper.cs:247-274 | a new path is in exactly one of Added and Updated; Updated iff an exact hash/size/mtime match exists; the pair's source is the first such entry |
| DiffProperties.RenamesImplyUpdates | KeeperOfTomes/KeeperOfTomes/Keeper.cs:228-231 | the target of every rename pair is in Updated |
| DiffProperties.RenameSourceIsOldPath | KeeperOfTomes/KeeperOfTomes/Keeper.cs:229 | the source of every rename pair is an old entry's path |
| DiffProperties.AddedUpdatedDisjoint | KeeperOfTomes/KeeperOfTomes/Keeper.cs:236-272 | with distinct live paths, Added and Updated are disjoint |
| DiffProperties.RemovedExactly | KeeperOfTomes/KeeperOfTomes/Keeper.cs:285-293 | Removed holds only old raw paths, and an old entry's path is removed iff no enumerated path normalizes like it |
| DiffProperties.FailedReadNeverRemoved | KeeperOfTomes/KeeperOfTomes/Keeper.cs:190-191 | a path that was enumerated but failed to read is never Removed |
| DiffProperties.RenameKeepsRemoval | KeeperOfTomes/KeeperOfTomes/Keeper.cs:285-293 | a rename source that is no longer enumerated is still Removed |
| DiffProperties.RemovedPathUnclassified | KeeperOfTomes/KeeperOfTomes/Keeper.cs:285-293 | a removed path is not also Added, Updated or a rename target |
| DiffProperties.FailedReadLeftOut | KeeperOfTomes/KeeperOfTomes/Keeper.cs:276-279 | a failed read gets no classification and is absent from the new Data and LastScan |
| DiffProperties.NewSnapshotContents | KeeperOfTomes/KeeperOfTomes/Keeper.cs:209-211 | the new Data is exactly the read entries, LastScan maps each read path to its mtime, and DirectoryPath is unchanged |
| DiffProperties.RescanUnchangedIsEmpty | KeeperOfTomes/KeeperOfTomes/Keeper.cs:213-293 | rescanning the same tree against its own snapshot reports no changes |
| DiffProperties.RenameExample | KeeperOfTomes/KeeperOfTomes/Keeper.cs:249-293 | a file moved from `a.txt` to `b.txt` yields Updated `{b.txt}`, pair `(a.txt, b.txt)` and Removed `{a.txt}` |
| SnapshotStore.SaveOps | KeeperOfTomes/KeeperOfTomes/Keeper.cs:117-126 | the bootstrap save is the temp write followed by Replace when the target exists and Move otherwise |
| SnapshotStore.ReplaceOps | KeeperOfTomes/KeeperOfTomes/Keeper.cs:301-304 | the update save is the temp write followed by Replace (no contract of its own; `SnapshotStore.ReplaceCommits` states its effect) |
| SnapshotStore.Interrupted | KeeperOfTomes/KeeperOfTomes/Keeper.cs:117-126 | the observable states of a stopped save start with the untouched map, and there are at most two per operation plus one |
| SnapshotStore.Load | KeeperOfTomes/KeeperOfTomes/Keeper.cs:167-168 | reading fails with NotFound exactly when the file is missing, and with CorruptSnapshot when it does not decode; otherwise it gives the encoded snapshot |
| SnapshotStore.Apply | KeeperOfTomes/KeeperOfTomes/Keeper.cs:118-125 | a write always succeeds; Replace fails iff the source or the destination is missing; Move fails iff the source is missing or the destination exists |
| SnapshotStore.CommitStep | KeeperOfTomes/KeeperOfTomes/Keeper.cs:119-126 | once the temp file is written, Replace succeeds iff the target exists and Move iff it does not, both giving the committed map |
| SnapshotStore.SaveCommits | KeeperOfTomes/KeeperOfTomes/Keeper.cs:117-126 | the bootstrap save always succeeds; the target then loads as the new snapshot, the temp file is gone, and every other file is untouched |
| SnapshotStore.ReplaceCommits | KeeperOfTomes/KeeperOfTomes/Keeper.cs:301-304 | the update save succeeds exactly when the target exists |
| SnapshotStore.InterruptedWriteThenCommit | KeeperOfTomes/KeeperOfTomes/Keeper.cs:119-125 | stopping around the rename leaves the file map before it or after it |
| SnapshotStore.SaveIsAtomic | KeeperOfTomes/KeeperOfTomes/Keeper.cs:117-126 | wherever a save stops, the target is never lost and holds its old contents or the complete new snapshot, so it loads as before or as the new snapshot |
| SnapshotStore.InterruptedBeforeReplace | KeeperOfTomes/KeeperOfTomes/Keeper.cs:301-304 | a save stopped after the temp write leaves the target file as it was |
| Paths.FileName | KeeperOfTomes/KeeperOfTomes/Keeper.cs:23 | `Path.GetFileName`: a separator-free suffix of the path that is all of it or follows a separator |
| Paths.Combine | KeeperOfTomes/KeeperOfTomes/Keeper.cs:24 | `Path.Combine`: an empty name gives the base; a rooted name, or any name with an empty base, is the name alone; otherwise the name is joined to the base with no added separator if the base ends with one and exactly one otherwise |
| Paths.CombineSuffix | KeeperOfTomes/KeeperOfTomes/Keeper.cs:24 | appending `.snapshot` before or after combining a relative name gives the same path |
| Paths.FileNameAfterSeparator | KeeperOfTomes/KeeperOfTomes/Keeper.cs:96 | the base name of `a/b` is `b` for separator-free `b` |
| Keeper.SnapshotName | KeeperOfTomes/KeeperOfTomes/Keeper.cs:23 | the snapshot id if given, else the base name; no contract of its own |
| Keeper.SnapshotFileFor | KeeperOfTomes/KeeperOfTomes/Keeper.cs:24 | the file the orchestrator looks for; no contract of its own (`KeeperProperties.DerivedFileIsBootstrapTarget` relates it to the bootstrap's) |
| Keeper.BootstrapTarget | KeeperOfTomes/KeeperOfTomes/Keeper.cs:96 | the file the bootstrap writes, `<pathToSaveTo>/<base name>.snapshot`; no contract of its own |
| Keeper.MergeLastScan | KeeperOfTomes/KeeperOfTomes/Keeper.cs:107-110 | the key-by-key copy gives the accumulated dictionary overridden by the chunk's |
| Keeper.ScanInChunks | KeeperOfTomes/KeeperOfTomes/Keeper.cs:93-111 | for every positive chunk size, the chunk loop builds the entries and the LastScan of the whole enumeration |
| Keeper.SaveDirectorySnapshot | KeeperOfTomes/KeeperOfTomes/Keeper.cs:91-127 | a failing directory walk is an error and nothing is written; otherwise the bootstrap commits the scan of the directory at `<pathToSaveTo>/<base name>.snapshot` |
| Keeper.WriteSnapshotFile | KeeperOfTomes/KeeperOfTomes/Keeper.cs:113-126 | writing `<endPath>.snapshot.tmp`, then Replace or Move, commits the snapshot at `<endPath>.snapshot` |
| Keeper.UpdateOutcome | KeeperOfTomes/KeeperOfTomes/Keeper.cs:157-307 | an update fails with the load error when the snapshot does not load, and with `EnumerationFailed` when the walk of its recorded directory fails; otherwise the file then loads as the replacement snapshot of that rescan |
| Keeper.UpdateDirectorySnapshot | KeeperOfTomes/KeeperOfTomes/Keeper.cs:157-307 | load, rescan the recorded directory, classify and save give exactly that outcome: the error, or `Diff` with the committed `NewSnapshot` |
| Keeper.WithoutPath | KeeperOfTomes/KeeperOfTomes/Keeper.cs:372 | keeps exactly the entries at other paths, and never lengthens the list |
| Keeper.WithoutPathSingle | KeeperOfTomes/KeeperOfTomes/Keeper.cs:372 | a one-entry list is kept exactly when its path differs |
| Keeper.WithoutPathAppend | KeeperOfTomes/KeeperOfTomes/Keeper.cs:372 | `Where` distributes over concatenation, so the kept entries stay in order and duplicates are kept |
| Keeper.UpdateSingleFile | KeeperOfTomes/KeeperOfTomes/Keeper.cs:311-391 | a load error propagates; a failed read reports nothing and saves nothing; otherwise Removed is empty, a recorded path is only Updated and only when newer, a new path is a rename target iff the first same-hash-and-size entry lies at another path and Added otherwise, and the saved snapshot is the old Data without the path plus the new entry, LastScan changed at that key only |
| Keeper.SnapshotDirectoryOutcome | KeeperOfTomes/KeeperOfTomes/Keeper.cs:15-37 | what the orchestrator returns as written; no contract of its own (the `KeeperProperties` lemmas state its properties) |
| Keeper.CorrectedSnapshotDirectoryOutcome | KeeperOfTomes/KeeperOfTomes/Keeper.cs:15-37 | the orchestrator with the bootstrap saving at the file it looks for; no contract of its own |
| Keeper.SnapshotDirectory | KeeperOfTomes/KeeperOfTomes/Keeper.cs:15-37 | the orchestrator computes `SnapshotDirectoryOutcome` |
| KeeperProperties.MissingSnapshotBootstraps | KeeperOfTomes/KeeperOfTomes/Keeper.cs:23-34 | with no file at `<root>/<id or base name>.snapshot`, a failing walk is an error; otherwise the result is the empty diff and the bootstrap file holds the scan of the directory |
| KeeperProperties.BootstrapIgnoresSnapshotId | KeeperOfTomes/KeeperOfTomes/Keeper.cs:28-31 | what a bootstrap does does not depend on the snapshot id |
| KeeperProperties.ExistingSnapshotUpdates | KeeperOfTomes/KeeperOfTomes/Keeper.cs:26-36 | with a file at the derived name, an undecodable one is an error, a failing walk of the recorded directory is an error, and otherwise the diff is against the directory recorded in the snapshot |
| KeeperProperties.SnapshotIdNeverUpdates | KeeperOfTomes/KeeperOfTomes/Keeper.cs:23-34 | as written, when the derived file is not the bootstrap file, every call bootstraps again: it fails only when its walk fails, and otherwise reports no changes |
| KeeperProperties.PhotosBaseName | KeeperOfTomes/KeeperOfTomes/Keeper.cs:23 | the base name of `/data/photos` is `photos` |
| KeeperProperties.PhotosNames | KeeperOfTomes/KeeperOfTomes/Keeper.cs:23-24 | with id `backup`, `/data/photos` under `/snaps` is looked for at `/snaps/backup.snapshot` and bootstrapped to `/snaps/photos.snapshot` (line 96) |
| KeeperProperties.SnapshotIdExample | KeeperOfTomes/KeeperOfTomes/Keeper.cs:23-34 | with id `backup` for `/data/photos` under `/snaps`, the orchestrator looks for `/snaps/backup.snapshot` but `/snaps/photos.snapshot` is written, so a second call still reports nothing |
| KeeperProperties.TrailingSeparatorExample | KeeperOfTomes/KeeperOfTomes/Keeper.cs:23-34 | `/data/photos/` without an id: it looks for `/snaps/.snapshot` but `/snaps.snapshot` is written, so a second call still reports nothing |
| KeeperProperties.CorrectedSecondCallUpdates | KeeperOfTomes/KeeperOfTomes/Keeper.cs:23-36 | corrected, the second call updates the file the first wrote, and reports the diff of the second scan against the first |
| KeeperProperties.CorrectedRescanUnchanged | KeeperOfTomes/KeeperOfTomes/Keeper.cs:23-36 | corrected, a second call over an unchanged tree reports no changes |
| KeeperProperties.DerivedFileIsBootstrapTarget | KeeperOfTomes/KeeperOfTomes/Keeper.cs:23-24 | without an id and with a non-empty base name, the file looked for is the file the bootstrap writes (line 96) |
| KeeperProperties.AsWrittenAgreesWithoutId | KeeperOfTomes/KeeperOfTomes/Keeper.cs:23-31 | without an id and with a non-empty base name, the code as written and the corrected orchestrator agree |

## Left out

- Concurrency. `Task.WhenAll`, `ConcurrentBag`, `ConcurrentDictionary` and the `lock` blocks are modelled as a sequential loop. Each task reads only immutable old data and inserts into sets and maps keyed by path. The order of the new `Data`, which `ConcurrentBag` leaves unspecified, is taken as enumeration order.
- The xxHash64 computation and the file reads. They are foreign and I/O, so each enumerated file comes with its read result or a read failure as input.
- The binary codec beyond its image. Only "decodes to exactly this snapshot" versus "does not decode" is modelled.
- `Directory.EnumerateFiles`, `Path.GetFullPath` and file metadata are parameters. Normalization is idempotent only where a lemma requires it. The walk either yields its whole sequence or throws at the start; a walk that throws part-way through is not modelled.
- `Directory.CreateDirectory(snapshotRoot)` in the orchestrator. Directories are not modelled.
- File-system failures other than missing files are not modelled: permissions, disk full, and a missing temp file on Replace from a concurrent writer. Both updates reach Replace only after loading the target, so under this model it always succeeds there.
- Keeper.UpdateSingleFile: the branch where the source catches a failing `File.Replace` and still returns the classification (Keeper.cs:383-388) is in the body but cannot be taken, because Replace cannot fail under this model once the target has loaded.
- Console logging (`Console.WriteLine`) has no effect on results.
- The double-precision `TotalSeconds` subtraction. It is replaced by exact integer ticks.
- 64-bit width of `Size` and `Hash`, and `DateTime` range limits. Sizes and hashes are unbounded naturals, and timestamps are unbounded integers.
- The local `livePaths` set built in `UpdateSingleFile` (Keeper.cs:331). It is never read, so it has no effect.
- The null sets of the default `SnapshotInfo` returned after a bootstrap. They are modelled as empty sets.
- The demo driver in `KeeperOfTomesCMD/Program.cs`. It only creates temporary files and prints results.
- Lemmas about the full rescan and the orchestrator that need the property require the enumeration to yield each normalized path once (`DistinctPaths`).

## Findings

| source | as written | input that shows it | evidently intended | confidence | as-written member | corrected member |
|---|---|---|---|---|---|---|
| KeeperOfTomes/KeeperOfTomes/Keeper.cs:23-31 | the orchestrator looks for `<root>/<snapshotId or base name>.snapshot`, but the bootstrap saves `<root>/<base name>.snapshot` (line 96), ignoring the id | id `backup`, directory `/data/photos`, root `/snaps`: it checks `/snaps/backup.snapshot` and writes `/snaps/photos.snapshot`, so every call bootstraps and returns an empty diff | the bootstrap saves at the file the orchestrator looks for, so the next call updates it | high (not executed) | KeeperProperties.SnapshotIdExample | KeeperProperties.CorrectedSecondCallUpdates |
| KeeperOfTomes/KeeperOfTomes/Keeper.cs:23-24 | with a trailing separator the base name is empty; the orchestrator looks for `<root>/.snapshot` while the bootstrap writes `<root>.snapshot` | directory `/data/photos/`, root `/snaps`, no id: it checks `/snaps/.snapshot` and writes `/snaps.snapshot`, so every call bootstraps | the same file is checked and written | medium (not executed) | KeeperProperties.TrailingSeparatorExample | KeeperProperties.CorrectedRescanUnchanged |
