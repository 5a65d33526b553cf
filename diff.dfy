/** The diff engine of a full rescan: the reference definition of the four result sets and
    of the replacement snapshot, the loop that computes them, and the properties they have. */
module DiffEngine {
  import opened Types
  import opened Lookup
  import opened Classification
  import opened Scanner

  /** The classification one live file receives against the old snapshot. */
  function VerdictOf(prior: Snapshot, norm: Normalizer, f: LiveFile): Verdict
  {
    match f.read
    case ReadFailed => Skipped
    case Read(size, mtime, hash) => Classify(prior.lastScan, HashLookup(prior.data), norm(f.raw), size, mtime, hash)
  }

  /** Every enumerated path counts as live, whether or not reading it succeeded. */
  function LivePaths(norm: Normalizer, live: seq<LiveFile>): set<string>
  {
    set f | f in live :: norm(f.raw)
  }

  function AddedPaths(prior: Snapshot, norm: Normalizer, live: seq<LiveFile>): set<string>
  {
    set f | f in live && VerdictOf(prior, norm, f).Added? :: norm(f.raw)
  }

  function UpdatedPaths(prior: Snapshot, norm: Normalizer, live: seq<LiveFile>): set<string>
  {
    set f | f in live && IsUpdate(VerdictOf(prior, norm, f)) :: norm(f.raw)
  }

  function RenamePairs(prior: Snapshot, norm: Normalizer, live: seq<LiveFile>): set<(string, string)>
  {
    set f | f in live && VerdictOf(prior, norm, f).Renamed? :: (VerdictOf(prior, norm, f).from, norm(f.raw))
  }

  /** Raw old paths whose normalized form was not enumerated. */
  function RemovedPaths(prior: Snapshot, norm: Normalizer, live: seq<LiveFile>): set<string>
  {
    set e | e in prior.data && norm(e.path) !in LivePaths(norm, live) :: e.path
  }

  function Diff(prior: Snapshot, norm: Normalizer, live: seq<LiveFile>): SnapshotInfo
  {
    SnapshotInfo(AddedPaths(prior, norm, live), RemovedPaths(prior, norm, live),
                 UpdatedPaths(prior, norm, live), RenamePairs(prior, norm, live))
  }

  /** The replacement snapshot: the read entries, their mtimes, the same directory. */
  function NewSnapshot(prior: Snapshot, norm: Normalizer, live: seq<LiveFile>): Snapshot
  {
    Snapshot(ScanMap(norm, live), ScannedEntries(norm, live), prior.directoryPath)
  }

  lemma DiffSnoc(prior: Snapshot, norm: Normalizer, s: seq<LiveFile>, f: LiveFile)
    ensures var p := norm(f.raw); var v := VerdictOf(prior, norm, f);
            && LivePaths(norm, s + [f]) == LivePaths(norm, s) + {p}
            && AddedPaths(prior, norm, s + [f]) == AddedPaths(prior, norm, s) + (if v.Added? then {p} else {})
            && UpdatedPaths(prior, norm, s + [f]) == UpdatedPaths(prior, norm, s) + (if IsUpdate(v) then {p} else {})
            && RenamePairs(prior, norm, s + [f]) == RenamePairs(prior, norm, s) + (if v.Renamed? then {(v.from, p)} else {})
  {
    assert forall g :: g in s + [f] <==> g in s || g == f;
  }

  /** The collections the per-file tasks share: the three result sets filled during the
      scan, the live paths, and the entries and LastScan of the replacement snapshot. */
  datatype Shared = Shared(added: set<string>, updated: set<string>, details: set<(string, string)>,
                           livePaths: set<string>, fileList: seq<FileEntry>, lastScan: map<string, int>)

  /** What the shared collections hold once the files of `done` have been processed. */
  function SharedAfter(prior: Snapshot, norm: Normalizer, done: seq<LiveFile>): Shared
  {
    Shared(AddedPaths(prior, norm, done), UpdatedPaths(prior, norm, done), RenamePairs(prior, norm, done),
           LivePaths(norm, done), ScannedEntries(norm, done), ScanMap(norm, done))
  }

  /** One per-file task: record the path as live, read it, and classify it (Case A or B). */
  method ScanTask(prior: Snapshot, norm: Normalizer, oldHashLookup: map<nat, seq<FileEntry>>,
                  ghost done: seq<LiveFile>, shared: Shared, f: LiveFile)
    returns (next: Shared)
    requires oldHashLookup == HashLookup(prior.data)
    requires shared == SharedAfter(prior, norm, done)
    ensures next == SharedAfter(prior, norm, done + [f])
  {
    DiffSnoc(prior, norm, done, f);
    ScanSnoc(norm, done, f);
    var chronoFilter := prior.lastScan;
    var added, updated, details := shared.added, shared.updated, shared.details;
    var fileList, lastScan := shared.fileList, shared.lastScan;
    var path := norm(f.raw);
    var livePaths := shared.livePaths + {path};
    match f.read {
      case Read(size, mtime, hash) =>
        fileList := fileList + [FileEntry(path, size, mtime, hash)];
        lastScan := lastScan[path := mtime];
        if path in chronoFilter {
          if mtime > chronoFilter[path] {
            if hash in oldHashLookup {
              var matchedOld := FirstMatch(oldHashLookup[hash], Near(hash, size, mtime));
              if matchedOld.Some? && matchedOld.value.path != path {
                details := details + {(matchedOld.value.path, path)};
                updated := updated + {path};
              } else {
                updated := updated + {path};
              }
            } else {
              updated := updated + {path};
            }
          }
        } else {
          if hash in oldHashLookup {
            var matchedOld := FirstMatch(oldHashLookup[hash], Exact(hash, size, mtime));
            if matchedOld.Some? {
              details := details + {(matchedOld.value.path, path)};
              updated := updated + {path};
            } else {
              added := added + {path};
            }
          } else {
            added := added + {path};
          }
        }
      case ReadFailed =>
        // the failure is logged and the file skipped
    }
    next := Shared(added, updated, details, livePaths, fileList, lastScan);
  }

  /** The removal pass: every raw old path whose normalized form is not live. */
  method CollectRemoved(prior: Snapshot, norm: Normalizer, livePaths: set<string>) returns (removed: set<string>)
    ensures removed == set e | e in prior.data && norm(e.path) !in livePaths :: e.path
  {
    removed := {};
    for k := 0 to |prior.data|
      invariant removed == set e | e in prior.data[..k] && norm(e.path) !in livePaths :: e.path
    {
      var oldEntry := prior.data[k];
      assert prior.data[..k + 1] == prior.data[..k] + [oldEntry];
      if norm(oldEntry.path) !in livePaths {
        removed := removed + {oldEntry.path};
      }
    }
    assert prior.data[..|prior.data|] == prior.data;
  }

  /** The tasks of one chunk, awaited together before the next chunk starts. */
  method RunChunk(prior: Snapshot, norm: Normalizer, oldHashLookup: map<nat, seq<FileEntry>>,
                  ghost before: seq<LiveFile>, shared: Shared, chunk: seq<LiveFile>)
    returns (next: Shared)
    requires oldHashLookup == HashLookup(prior.data)
    requires shared == SharedAfter(prior, norm, before)
    ensures next == SharedAfter(prior, norm, before + chunk)
  {
    next := shared;
    var j := 0;
    assert before + chunk[..0] == before;
    while j < |chunk|
      invariant 0 <= j <= |chunk|
      invariant next == SharedAfter(prior, norm, before + chunk[..j])
    {
      next := ScanTask(prior, norm, oldHashLookup, before + chunk[..j], next, chunk[j]);
      assert before + chunk[..j + 1] == (before + chunk[..j]) + [chunk[j]];
      j := j + 1;
    }
    assert chunk[..j] == chunk;
  }

  /** The chunk loop over the enumeration. Whatever the chunk size, the shared state at the
      end is that of one pass over the files in enumeration order. */
  method RunChunks(prior: Snapshot, norm: Normalizer, live: seq<LiveFile>, chunkSize: nat) returns (shared: Shared)
    requires chunkSize > 0
    ensures shared == SharedAfter(prior, norm, live)
  {
    var oldHashLookup := HashLookup(prior.data);
    shared := Shared({}, {}, {}, {}, [], map[]);
    var chunks := Chunk(live, chunkSize);
    var c := 0;
    while c < |chunks|
      invariant 0 <= c <= |chunks|
      invariant shared == SharedAfter(prior, norm, Flatten(chunks[..c]))
    {
      shared := RunChunk(prior, norm, oldHashLookup, Flatten(chunks[..c]), shared, chunks[c]);
      assert chunks[..c + 1] == chunks[..c] + [chunks[c]];
      FlattenSnoc(chunks[..c], chunks[c]);
      c := c + 1;
    }
    assert chunks[..c] == chunks;
    FlattenChunk(live, chunkSize);
  }

  /** The body of `UpdateDirectorySnapshot` after loading: run the tasks chunk by chunk,
      then the removal pass, and build the replacement snapshot. */
  method ClassifyLiveFiles(prior: Snapshot, norm: Normalizer, live: seq<LiveFile>)
    returns (info: SnapshotInfo, updatedSnapshot: Snapshot)
    ensures info == Diff(prior, norm, live)
    ensures updatedSnapshot == NewSnapshot(prior, norm, live)
  {
    var shared := RunChunks(prior, norm, live, CHUNK_SIZE);
    var removed := CollectRemoved(prior, norm, shared.livePaths);
    info := SnapshotInfo(shared.added, removed, shared.updated, shared.details);
    updatedSnapshot := Snapshot(shared.lastScan, shared.fileList, prior.directoryPath);
  }
}
