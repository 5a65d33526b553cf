/** Per-path classification of a successfully read live file against the old snapshot
    (Case A: the path is in the old LastScan; Case B: it is not). */
module Classification {
  import opened Types
  import opened Lookup

  /** Skipped: the read failed. Modified: in Updated only. Renamed(from): in Updated and
      the pair (from, path) in the rename details. Added: in Added. */
  datatype Verdict = Unchanged | Modified | Renamed(from: string) | Added | Skipped

  predicate IsUpdate(v: Verdict)
  {
    v.Modified? || v.Renamed?
  }

  /** The branches of the full-scan task body for one read file at normalized `path`. */
  function Classify(lastScan: map<string, int>, lookup: map<nat, seq<FileEntry>>,
                    path: string, size: nat, mtime: int, hash: nat): (v: Verdict)
    ensures !v.Skipped?
    ensures path in lastScan ==> !v.Added?
    ensures path !in lastScan ==> v.Added? || v.Renamed?
  {
    if path in lastScan then
      if mtime > lastScan[path] then
        if hash in lookup then
          var matched := FirstMatch(lookup[hash], Near(hash, size, mtime));
          if matched.Some? && matched.value.path != path then Renamed(matched.value.path)
          else Modified
        else Modified
      else Unchanged
    else if hash in lookup then
      var matched := FirstMatch(lookup[hash], Exact(hash, size, mtime));
      if matched.Some? then Renamed(matched.value.path) else Added
    else Added
  }

  /** Case A: a path already recorded is unchanged unless its mtime is strictly newer;
      then it is an update, with a rename source exactly when the first old entry in
      old-snapshot order with the same hash and size and an mtime within one second
      exists and lies at another path. */
  lemma CaseA(data: seq<FileEntry>, lastScan: map<string, int>, path: string, size: nat, mtime: int, hash: nat)
    requires path in lastScan
    ensures var v := Classify(lastScan, HashLookup(data), path, size, mtime, hash);
            var m := FirstMatch(data, Near(hash, size, mtime));
            && (v == Unchanged <==> mtime <= lastScan[path])
            && (mtime > lastScan[path] ==> IsUpdate(v))
            && (v.Renamed? <==> mtime > lastScan[path] && m.Some? && m.value.path != path)
            && (v.Renamed? ==> v.from == m.value.path && IsFirstMatch(data, Near(hash, size, mtime), m.value))
  {
    LookupIsFirstInOldOrder(data, Near(hash, size, mtime));
  }

  /** Case B: a path not recorded is never unchanged; it is a rename target of the first
      old entry with the same hash, size and exactly equal mtime, and Added when there is none. */
  lemma CaseB(data: seq<FileEntry>, lastScan: map<string, int>, path: string, size: nat, mtime: int, hash: nat)
    requires path !in lastScan
    ensures var v := Classify(lastScan, HashLookup(data), path, size, mtime, hash);
            var m := FirstMatch(data, Exact(hash, size, mtime));
            && (v.Added? || v.Renamed?)
            && (v.Added? <==> forall e :: e in data ==> !Matches(Exact(hash, size, mtime), e))
            && (v.Renamed? <==> m.Some?)
            && (v.Renamed? ==> v.from == m.value.path && IsFirstMatch(data, Exact(hash, size, mtime), m.value))
  {
    LookupIsFirstInOldOrder(data, Exact(hash, size, mtime));
  }

  /** A rename source is always the path of some old entry with the live hash and size. */
  lemma RenameSourceIsOldEntry(data: seq<FileEntry>, lastScan: map<string, int>, path: string, size: nat, mtime: int, hash: nat)
    requires Classify(lastScan, HashLookup(data), path, size, mtime, hash).Renamed?
    ensures exists e :: e in data && e.hash == hash && e.size == size &&
              e.path == Classify(lastScan, HashLookup(data), path, size, mtime, hash).from
  {
    if path in lastScan {
      CaseA(data, lastScan, path, size, mtime, hash);
    } else {
      CaseB(data, lastScan, path, size, mtime, hash);
    }
  }
}
