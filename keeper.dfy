/** The entry points: the bootstrap save, the full-rescan update, the single-file update,
    and the orchestrator that chooses between bootstrap and update. */
module Keeper {
  import opened Types
  import opened Lookup
  import opened Scanner
  import opened DiffEngine
  import opened SnapshotStore
  import opened Paths

  /** What enumerating a directory tree and reading each of its files yields, by directory:
      None when the walk itself throws (the directory is missing or unreadable). */
  type Tree = string -> Option<seq<LiveFile>>

  /** `snapshotRoot/<name>.snapshot`, the file the orchestrator looks for. */
  function SnapshotFileFor(snapshotRoot: string, name: string): string
  {
    Combine(snapshotRoot, name + ".snapshot")
  }

  /** The name the orchestrator derives: the snapshot id if given, else the directory's base name. */
  function SnapshotName(directory: string, snapshotId: Option<string>): string
  {
    if snapshotId.Some? then snapshotId.value else FileName(directory)
  }

  /** The file the bootstrap save writes: always named after the directory's base name. */
  function BootstrapTarget(directoryPath: string, pathToSaveTo: string): string
  {
    Combine(pathToSaveTo, FileName(directoryPath)) + ".snapshot"
  }

  /** The snapshot a bootstrap scan builds. */
  function BootstrapSnapshot(directoryPath: string, norm: Normalizer, files: seq<LiveFile>): Snapshot
  {
    Snapshot(ScanMap(norm, files), ScannedEntries(norm, files), directoryPath)
  }

  /** Copying one chunk's LastScan pairs into the accumulated map, key by key. */
  method MergeLastScan(accumulated: map<string, int>, chunkMap: map<string, int>)
    returns (merged: map<string, int>)
    ensures merged == accumulated + chunkMap
  {
    merged := accumulated;
    var pending := chunkMap.Keys;
    while pending != {}
      invariant pending <= chunkMap.Keys
      invariant merged == accumulated + map k | k in chunkMap.Keys - pending :: chunkMap[k]
      decreases pending
    {
      var k :| k in pending;
      merged := merged[k := chunkMap[k]];
      pending := pending - {k};
    }
    assert (map k | k in chunkMap.Keys - {} :: chunkMap[k]) == chunkMap;
  }

  /** The chunk loop of `SaveDirectorySnapshot`: scan each chunk of files, append its
      entries and merge its LastScan pairs. The result does not depend on the chunk size. */
  method ScanInChunks(norm: Normalizer, files: seq<LiveFile>, chunkSize: nat)
    returns (fileList: seq<FileEntry>, lastScanData: map<string, int>)
    requires chunkSize > 0
    ensures fileList == ScannedEntries(norm, files)
    ensures lastScanData == ScanMap(norm, files)
  {
    fileList, lastScanData := [], map[];
    var chunks := Chunk(files, chunkSize);
    for c := 0 to |chunks|
      invariant fileList == ScannedEntries(norm, Flatten(chunks[..c]))
      invariant lastScanData == ScanMap(norm, Flatten(chunks[..c]))
    {
      var entries, chunkMap := SaveDirectoryChunk(norm, chunks[c]);
      fileList := fileList + entries;
      lastScanData := MergeLastScan(lastScanData, chunkMap);
      ScanOneMoreChunk(norm, chunks, c);
    }
    assert chunks[..|chunks|] == chunks;
    FlattenChunk(files, chunkSize);
  }

  /** `SaveDirectorySnapshot`: enumerate and scan in chunks, then save under the directory's
      base name by temp file and Replace (target present) or Move (target absent). A failing
      walk throws before anything is written. */
  method SaveDirectorySnapshot(fs: FileMap, tree: Tree, norm: Normalizer, directoryPath: string,
                               pathToSaveTo: string)
    returns (r: Result<FileMap>)
    ensures tree(directoryPath).None? ==> r == Err(EnumerationFailed)
    ensures tree(directoryPath).Some? ==>
              r == Ok(Committed(fs, BootstrapTarget(directoryPath, pathToSaveTo),
                                BootstrapSnapshot(directoryPath, norm, tree(directoryPath).value)))
  {
    var endPath := Combine(pathToSaveTo, FileName(directoryPath));
    var fileEnumerator := tree(directoryPath);
    if fileEnumerator.None? {
      return Err(EnumerationFailed);
    }
    var fileList, lastScanData := ScanInChunks(norm, fileEnumerator.value, CHUNK_SIZE);
    var dataToWrite := Snapshot(lastScanData, fileList, directoryPath);
    r := WriteSnapshotFile(fs, endPath, dataToWrite);
  }

  /** The save at the end of `SaveDirectorySnapshot`: write `<endPath>.snapshot.tmp`, then
      Replace the target if it exists and Move the temp file into place otherwise. */
  method WriteSnapshotFile(fs: FileMap, endPath: string, dataToWrite: Snapshot) returns (r: Result<FileMap>)
    ensures r == Ok(Committed(fs, endPath + ".snapshot", dataToWrite))
  {
    var target := endPath + ".snapshot";
    var tempFile := endPath + ".snapshot.tmp";
    assert tempFile == TempName(target);
    var written := Apply(fs, WriteAllBytes(tempFile, Encoded(dataToWrite))).value;
    if target in written {
      r := Apply(written, Replace(tempFile, target));
    } else {
      r := Apply(written, Move(tempFile, target));
    }
    CommitStep(fs, target, dataToWrite);
  }

  /** What an update of the snapshot at `snapshotFilePath` returns: the load error, the walk's
      failure, or the diff against the recorded directory's rescan with the replacement
      snapshot committed. */
  function UpdateOutcome(fs: FileMap, tree: Tree, norm: Normalizer, snapshotFilePath: string)
    : (r: Result<(SnapshotInfo, FileMap)>)
    ensures Load(fs, snapshotFilePath).Err? ==> r == Err(Load(fs, snapshotFilePath).error)
    ensures Load(fs, snapshotFilePath).Ok? ==>
              var prior := Load(fs, snapshotFilePath).value;
              && (tree(prior.directoryPath).None? ==> r == Err(EnumerationFailed))
              && (tree(prior.directoryPath).Some? ==>
                    r.Ok? && Load(r.value.1, snapshotFilePath) == Ok(NewSnapshot(prior, norm, tree(prior.directoryPath).value)))
  {
    match Load(fs, snapshotFilePath)
    case Err(e) => Err(e)
    case Ok(prior) =>
      match tree(prior.directoryPath)
      case None => Err(EnumerationFailed)
      case Some(live) =>
        var s := NewSnapshot(prior, norm, live);
        SaveCommits(fs, snapshotFilePath, s);
        Ok((Diff(prior, norm, live), Committed(fs, snapshotFilePath, s)))
  }

  /** `UpdateDirectorySnapshot`: load, rescan the recorded directory, classify, then save by
      temp file and Replace. */
  method UpdateDirectorySnapshot(fs: FileMap, tree: Tree, norm: Normalizer, snapshotFilePath: string)
    returns (r: Result<(SnapshotInfo, FileMap)>)
    ensures r == UpdateOutcome(fs, tree, norm, snapshotFilePath)
  {
    var snapShotData :- Load(fs, snapshotFilePath);
    var fileEnumerator := tree(snapShotData.directoryPath);
    if fileEnumerator.None? {
      return Err(EnumerationFailed);
    }
    var info, updatedSnapshot := ClassifyLiveFiles(snapShotData, norm, fileEnumerator.value);
    var tempFile := snapshotFilePath + ".tmp";
    var written := Apply(fs, WriteAllBytes(tempFile, Encoded(updatedSnapshot))).value;
    var replaced := Apply(written, Replace(tempFile, snapshotFilePath));
    r := if replaced.Ok? then Ok((info, replaced.value)) else Err(replaced.error);
    CommitStep(fs, snapshotFilePath, updatedSnapshot);
  }

  /** `Data.Where(f => f.Path != path)`. */
  function WithoutPath(data: seq<FileEntry>, path: string): (r: seq<FileEntry>)
    ensures forall e :: e in r <==> e in data && e.path != path
    ensures |r| <= |data|
  {
    if data == [] then []
    else (if data[0].path != path then [data[0]] else []) + WithoutPath(data[1..], path)
  }

  /** The filter keeps a single entry exactly when its path differs. */
  lemma WithoutPathSingle(e: FileEntry, path: string)
    ensures WithoutPath([e], path) == (if e.path != path then [e] else [])
  {
    assert [e][1..] == [];
  }

  /** The filter works entry by entry: it distributes over concatenation, so it keeps the
      order and the duplicates of the entries it keeps. */
  lemma {:induction false} WithoutPathAppend(a: seq<FileEntry>, b: seq<FileEntry>, path: string)
    ensures WithoutPath(a + b, path) == WithoutPath(a, path) + WithoutPath(b, path)
    decreases |a|
  {
    if a == [] {
      assert a + b == b;
    } else {
      var head := if a[0].path != path then [a[0]] else [];
      var rest := a[1..];
      assert (a + b)[0] == a[0];
      assert (a + b)[1..] == rest + b;
      WithoutPathAppend(rest, b, path);
      calc {
        WithoutPath(a + b, path);
        head + WithoutPath(rest + b, path);
        head + (WithoutPath(rest, path) + WithoutPath(b, path));
        (head + WithoutPath(rest, path)) + WithoutPath(b, path);
        WithoutPath(a, path) + WithoutPath(b, path);
      }
    }
  }

  /** `UpdateSingleFile`: classify one file without rescanning, replace its record, save. */
  method UpdateSingleFile(fs: FileMap, norm: Normalizer, filePathRaw: string, read: ReadResult,
                          snapshotFilePath: string)
    returns (r: Result<(SnapshotInfo, FileMap)>)
    ensures Load(fs, snapshotFilePath).Err? ==> r == Err(Load(fs, snapshotFilePath).error)
    ensures Load(fs, snapshotFilePath).Ok? && read.ReadFailed? ==> r == Ok((EmptyInfo, fs))
    ensures Load(fs, snapshotFilePath).Ok? && read.Read? ==>
      var prior := Load(fs, snapshotFilePath).value;
      var p := norm(filePathRaw);
      r.Ok? &&
      var info := r.value.0;
      && info.removedFiles == {}
      && info.addedFiles <= {p} && info.updatedFiles <= {p}
      && (p in prior.lastScan ==>
            && info.addedFiles == {} && info.updatedFileDetails == {}
            && (p in info.updatedFiles <==> read.mtime > prior.lastScan[p]))
      && (p !in prior.lastScan ==>
            var m := FirstMatch(prior.data, SameSize(read.hash, read.size));
            var renamed := m.Some? && m.value.path != p;
            && (p in info.updatedFiles <==> renamed)
            && (p in info.addedFiles <==> !renamed)
            && info.updatedFileDetails == (if renamed then {(m.value.path, p)} else {}))
      && r.value.1 == Committed(fs, snapshotFilePath,
           Snapshot(prior.lastScan[p := read.mtime],
                    WithoutPath(prior.data, p) + [FileEntry(p, read.size, read.mtime, read.hash)],
                    prior.directoryPath))
  {
    var filePath := norm(filePathRaw);
    var snapshot :- Load(fs, snapshotFilePath);
    var oldHashLookup := HashLookup(snapshot.data);
    var chronoFilter := snapshot.lastScan;
    var added, updated: set<string> := {}, {};
    var details: set<(string, string)> := {};
    match read {
      case ReadFailed =>
        // the failure is caught and logged; nothing is classified or saved
        r := Ok((EmptyInfo, fs));
      case Read(size, mtime, hash) =>
        var entry := FileEntry(filePath, size, mtime, hash);
        if filePath in chronoFilter {
          if mtime > chronoFilter[filePath] {
            updated := updated + {filePath};
          }
        } else {
          if hash in oldHashLookup {
            var matchedOld := FirstMatch(oldHashLookup[hash], SameSize(hash, size));
            if matchedOld.Some? && matchedOld.value.path != filePath {
              details := details + {(matchedOld.value.path, filePath)};
              updated := updated + {filePath};
            } else {
              added := added + {filePath};
            }
          } else {
            added := added + {filePath};
          }
        }
        LookupIsFirstInOldOrder(snapshot.data, SameSize(hash, size));
        var newData := WithoutPath(snapshot.data, filePath) + [entry];
        var newLastScan := snapshot.lastScan[filePath := mtime];
        var updatedSnapshot := Snapshot(newLastScan, newData, snapshot.directoryPath);
        var info := SnapshotInfo(added, {}, updated, details);
        var tempFile := snapshotFilePath + ".tmp";
        var written := Apply(fs, WriteAllBytes(tempFile, Encoded(updatedSnapshot))).value;
        var replaced := Apply(written, Replace(tempFile, snapshotFilePath));
        // a failed replace is caught and logged: the classification is still returned
        r := Ok((info, if replaced.Ok? then replaced.value else written));
        CommitStep(fs, snapshotFilePath, updatedSnapshot);
    }
  }

  /** What `Keeper.SnapshotDirectory` does, as written: bootstrap (returning an empty diff)
      when no file exists at `snapshotRoot/<snapshotId or base name>.snapshot`, update that
      file otherwise. The bootstrap saves under the base name whatever the snapshot id. */
  function SnapshotDirectoryOutcome(fs: FileMap, tree: Tree, norm: Normalizer, directoryToScan: string,
                                    snapshotRoot: string, snapshotId: Option<string>)
    : Result<(SnapshotInfo, FileMap)>
  {
    var directory := norm(directoryToScan);
    var snapshotFile := SnapshotFileFor(snapshotRoot, SnapshotName(directory, snapshotId));
    if snapshotFile !in fs then
      match tree(directory)
      case None => Err(EnumerationFailed)
      case Some(files) =>
        Ok((EmptyInfo, Committed(fs, BootstrapTarget(directory, snapshotRoot),
                                 BootstrapSnapshot(directory, norm, files))))
    else UpdateOutcome(fs, tree, norm, snapshotFile)
  }

  /** `Keeper.SnapshotDirectory`: normalize the directory, derive the snapshot file, and
      bootstrap or update. */
  method SnapshotDirectory(fs: FileMap, tree: Tree, norm: Normalizer, directoryToScan: string,
                           snapshotRoot: string, snapshotId: Option<string>)
    returns (r: Result<(SnapshotInfo, FileMap)>)
    ensures r == SnapshotDirectoryOutcome(fs, tree, norm, directoryToScan, snapshotRoot, snapshotId)
  {
    var directory := norm(directoryToScan);
    var name := SnapshotName(directory, snapshotId);
    var snapshotFile := SnapshotFileFor(snapshotRoot, name);
    if snapshotFile !in fs {
      var saved := SaveDirectorySnapshot(fs, tree, norm, directory, snapshotRoot);
      r := if saved.Ok? then Ok((EmptyInfo, saved.value)) else Err(saved.error);
    } else {
      r := UpdateDirectorySnapshot(fs, tree, norm, snapshotFile);
    }
  }

  /** The orchestrator with the bootstrap saving at the file it looks for. */
  function CorrectedSnapshotDirectoryOutcome(fs: FileMap, tree: Tree, norm: Normalizer, directoryToScan: string,
                                             snapshotRoot: string, snapshotId: Option<string>)
    : Result<(SnapshotInfo, FileMap)>
  {
    var directory := norm(directoryToScan);
    var snapshotFile := SnapshotFileFor(snapshotRoot, SnapshotName(directory, snapshotId));
    if snapshotFile !in fs then
      match tree(directory)
      case None => Err(EnumerationFailed)
      case Some(files) => Ok((EmptyInfo, Committed(fs, snapshotFile, BootstrapSnapshot(directory, norm, files))))
    else UpdateOutcome(fs, tree, norm, snapshotFile)
  }
}
