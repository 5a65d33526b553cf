/** The data model of the snapshot engine: file fingerprints, snapshots, scan results
    and the four classification sets returned to callers. */
module Types {

  /** DateTime ticks per second (one tick is 100 ns). */
  const TICKS_PER_SECOND: int := 10_000_000

  /** Number of enumerated paths processed per chunk. */
  const CHUNK_SIZE: nat := 50

  datatype Option<T> = None | Some(value: T)

  /** Failures that reach the caller (per-file read failures never do). EnumerationFailed is
      the exception the directory walk throws for a missing or unreadable directory. */
  datatype Error = NotFound | CorruptSnapshot | PersistenceFailed | EnumerationFailed

  datatype Result<T> = Ok(value: T) | Err(error: Error) {
    predicate IsFailure() { Err? }

    function PropagateFailure<U>(): Result<U>
      requires Err?
    {
      Err(error)
    }

    function Extract(): T
      requires Ok?
    {
      value
    }
  }

  /** One file's fingerprint: normalized path, byte length, last write time in ticks, content hash. */
  datatype FileEntry = FileEntry(path: string, size: nat, lastWriteUtc: int, hash: nat)

  /** The persisted state of one directory tree. */
  datatype Snapshot = Snapshot(lastScan: map<string, int>, data: seq<FileEntry>, directoryPath: string)

  /** The classification returned by a scan; `updatedFileDetails` holds (old path, new path) pairs. */
  datatype SnapshotInfo = SnapshotInfo(
    addedFiles: set<string>,
    removedFiles: set<string>,
    updatedFiles: set<string>,
    updatedFileDetails: set<(string, string)>)

  const EmptyInfo: SnapshotInfo := SnapshotInfo({}, {}, {}, {})

  /** What opening, stat-ing and hashing one enumerated file produced. */
  datatype ReadResult = Read(size: nat, mtime: int, hash: nat) | ReadFailed

  /** One enumerated path, as the enumeration returned it, with the outcome of reading it. */
  datatype LiveFile = LiveFile(raw: string, read: ReadResult)

  /** Path normalization (absolute, canonical path of a raw path). */
  type Normalizer = string -> string

  function Abs(x: int): (r: nat)
    ensures r == x || r == -x
  {
    if x < 0 then -x else x
  }

  /** The enumeration never yields one file twice: normalized live paths are pairwise distinct. */
  predicate DistinctPaths(norm: Normalizer, live: seq<LiveFile>)
  {
    forall i, j :: 0 <= i < j < |live| ==> norm(live[i].raw) != norm(live[j].raw)
  }

  /** Normalizing an already normalized path changes nothing. */
  ghost predicate Idempotent(norm: Normalizer)
  {
    forall s :: norm(norm(s)) == norm(s)
  }

  lemma SamePathSameFile(norm: Normalizer, live: seq<LiveFile>, f: LiveFile, g: LiveFile)
    requires DistinctPaths(norm, live)
    requires f in live && g in live && norm(f.raw) == norm(g.raw)
    ensures f == g
  {
    var i :| 0 <= i < |live| && live[i] == f;
    var j :| 0 <= j < |live| && live[j] == g;
    assert i == j;
  }
}
