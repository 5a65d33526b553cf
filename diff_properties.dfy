/** What a full rescan promises about its four result sets and the replacement snapshot. */
module DiffProperties {
  import opened Types
  import opened Lookup
  import opened Classification
  import opened Scanner
  import opened DiffEngine

  /** With distinct live paths, a path's membership in the result sets is decided by the
      verdict of the one live file at that path. */
  lemma MembershipByVerdict(prior: Snapshot, norm: Normalizer, live: seq<LiveFile>, f: LiveFile)
    requires DistinctPaths(norm, live) && f in live
    ensures var p := norm(f.raw); var v := VerdictOf(prior, norm, f);
            && (p in AddedPaths(prior, norm, live) <==> v.Added?)
            && (p in UpdatedPaths(prior, norm, live) <==> IsUpdate(v))
            && (forall a :: (a, p) in RenamePairs(prior, norm, live) <==> v == Renamed(a))
  {
    var p := norm(f.raw);
    forall g | g in live && norm(g.raw) == p ensures g == f {
      SamePathSameFile(norm, live, f, g);
    }
  }

  /** Unchanged files: a recorded path whose mtime is not strictly newer is in none of
      Added, Updated or the rename targets. */
  lemma UnchangedFileUnclassified(prior: Snapshot, norm: Normalizer, live: seq<LiveFile>, f: LiveFile)
    requires DistinctPaths(norm, live) && f in live && f.read.Read?
    requires norm(f.raw) in prior.lastScan && f.read.mtime <= prior.lastScan[norm(f.raw)]
    ensures norm(f.raw) !in AddedPaths(prior, norm, live)
    ensures norm(f.raw) !in UpdatedPaths(prior, norm, live)
    ensures forall a :: (a, norm(f.raw)) !in RenamePairs(prior, norm, live)
  {
    CaseA(prior.data, prior.lastScan, norm(f.raw), f.read.size, f.read.mtime, f.read.hash);
    MembershipByVerdict(prior, norm, live, f);
  }

  /** Case A: a recorded path with a strictly newer mtime is in Updated and not in Added;
      it is a rename target of `a` exactly when the first old entry (old-snapshot order)
      with its hash and size and an mtime within one second lies at `a`, another path. */
  lemma ChangedRecordedPath(prior: Snapshot, norm: Normalizer, live: seq<LiveFile>, f: LiveFile)
    requires DistinctPaths(norm, live) && f in live && f.read.Read?
    requires norm(f.raw) in prior.lastScan && f.read.mtime > prior.lastScan[norm(f.raw)]
    ensures norm(f.raw) in UpdatedPaths(prior, norm, live)
    ensures norm(f.raw) !in AddedPaths(prior, norm, live)
    ensures var m := FirstMatch(prior.data, Near(f.read.hash, f.read.size, f.read.mtime));
            forall a :: (a, norm(f.raw)) in RenamePairs(prior, norm, live) <==>
                          m.Some? && m.value.path == a && a != norm(f.raw)
  {
    CaseA(prior.data, prior.lastScan, norm(f.raw), f.read.size, f.read.mtime, f.read.hash);
    MembershipByVerdict(prior, norm, live, f);
  }

  /** Case B: a path not recorded lands in exactly one of Added and Updated; in Updated
      with the pair (m.path, path) exactly when m is the first old entry with the same hash,
      size and mtime, and in Added when no old entry has all three. */
  lemma NewPathClassified(prior: Snapshot, norm: Normalizer, live: seq<LiveFile>, f: LiveFile)
    requires DistinctPaths(norm, live) && f in live && f.read.Read?
    requires norm(f.raw) !in prior.lastScan
    ensures var c := Exact(f.read.hash, f.read.size, f.read.mtime);
            var m := FirstMatch(prior.data, c);
            && (norm(f.raw) in AddedPaths(prior, norm, live) <==> norm(f.raw) !in UpdatedPaths(prior, norm, live))
            && (norm(f.raw) in UpdatedPaths(prior, norm, live) <==> m.Some?)
            && (norm(f.raw) in AddedPaths(prior, norm, live) <==> forall e :: e in prior.data ==> !Matches(c, e))
            && (forall a :: (a, norm(f.raw)) in RenamePairs(prior, norm, live) <==> m.Some? && a == m.value.path)
  {
    CaseB(prior.data, prior.lastScan, norm(f.raw), f.read.size, f.read.mtime, f.read.hash);
    MembershipByVerdict(prior, norm, live, f);
  }

  /** Every rename target is also in Updated. */
  lemma RenamesImplyUpdates(prior: Snapshot, norm: Normalizer, live: seq<LiveFile>)
    ensures forall pr :: pr in RenamePairs(prior, norm, live) ==> pr.1 in UpdatedPaths(prior, norm, live)
  {
    forall pr | pr in RenamePairs(prior, norm, live) ensures pr.1 in UpdatedPaths(prior, norm, live) {
      var f :| f in live && VerdictOf(prior, norm, f).Renamed? && pr == (VerdictOf(prior, norm, f).from, norm(f.raw));
      assert IsUpdate(VerdictOf(prior, norm, f));
    }
  }

  /** A rename source is the raw path of an old entry with the target's hash and size. */
  lemma RenameSourceIsOldPath(prior: Snapshot, norm: Normalizer, live: seq<LiveFile>, a: string, p: string)
    requires (a, p) in RenamePairs(prior, norm, live)
    ensures exists e :: e in prior.data && e.path == a
  {
    var f :| f in live && VerdictOf(prior, norm, f).Renamed? && (a, p) == (VerdictOf(prior, norm, f).from, norm(f.raw));
    RenameSourceIsOldEntry(prior.data, prior.lastScan, norm(f.raw), f.read.size, f.read.mtime, f.read.hash);
  }

  lemma AddedUpdatedDisjoint(prior: Snapshot, norm: Normalizer, live: seq<LiveFile>)
    requires DistinctPaths(norm, live)
    ensures AddedPaths(prior, norm, live) !! UpdatedPaths(prior, norm, live)
  {
    forall p | p in AddedPaths(prior, norm, live) ensures p !in UpdatedPaths(prior, norm, live) {
      var f :| f in live && VerdictOf(prior, norm, f).Added? && p == norm(f.raw);
      MembershipByVerdict(prior, norm, live, f);
    }
  }

  /** Removal: an old entry's raw path is removed exactly when its normalized path was not
      enumerated, and nothing else is removed. */
  lemma RemovedExactly(prior: Snapshot, norm: Normalizer, live: seq<LiveFile>)
    ensures forall x :: x in RemovedPaths(prior, norm, live) ==> exists e :: e in prior.data && e.path == x
    ensures forall e :: e in prior.data ==>
              (e.path in RemovedPaths(prior, norm, live) <==> forall f :: f in live ==> norm(f.raw) != norm(e.path))
  {
    forall e | e in prior.data
      ensures e.path in RemovedPaths(prior, norm, live) <==> forall f :: f in live ==> norm(f.raw) != norm(e.path)
    {
      if e.path in RemovedPaths(prior, norm, live) {
        var e' :| e' in prior.data && norm(e'.path) !in LivePaths(norm, live) && e'.path == e.path;
        forall f | f in live ensures norm(f.raw) != norm(e.path) {
          assert norm(f.raw) in LivePaths(norm, live);
        }
      }
    }
  }

  /** A path that was enumerated but failed to read still counts as live: no old entry at
      that path is removed. */
  lemma FailedReadNeverRemoved(prior: Snapshot, norm: Normalizer, live: seq<LiveFile>, f: LiveFile, e: FileEntry)
    requires f in live && f.read.ReadFailed?
    requires e in prior.data && norm(e.path) == norm(f.raw)
    ensures e.path !in RemovedPaths(prior, norm, live)
  {
    RemovedExactly(prior, norm, live);
  }

  /** Rename detection does not suppress removal: a rename source that is no longer
      enumerated is in Removed as well. */
  lemma RenameKeepsRemoval(prior: Snapshot, norm: Normalizer, live: seq<LiveFile>, a: string, p: string)
    requires (a, p) in RenamePairs(prior, norm, live)
    requires forall f :: f in live ==> norm(f.raw) != norm(a)
    ensures a in RemovedPaths(prior, norm, live)
  {
    RenameSourceIsOldPath(prior, norm, live, a, p);
    RemovedExactly(prior, norm, live);
  }

  /** A removed path is not also reported as added, updated or as a rename target. */
  lemma RemovedPathUnclassified(prior: Snapshot, norm: Normalizer, live: seq<LiveFile>, e: FileEntry)
    requires e in prior.data && e.path in RemovedPaths(prior, norm, live)
    ensures norm(e.path) !in AddedPaths(prior, norm, live)
    ensures norm(e.path) !in UpdatedPaths(prior, norm, live)
    ensures forall a :: (a, norm(e.path)) !in RenamePairs(prior, norm, live)
  {
    RemovedExactly(prior, norm, live);
  }

  /** A file whose read failed gets no classification and is left out of the replacement
      snapshot's entries and LastScan. */
  lemma FailedReadLeftOut(prior: Snapshot, norm: Normalizer, live: seq<LiveFile>, f: LiveFile)
    requires DistinctPaths(norm, live) && f in live && f.read.ReadFailed?
    ensures norm(f.raw) !in AddedPaths(prior, norm, live)
    ensures norm(f.raw) !in UpdatedPaths(prior, norm, live)
    ensures forall a :: (a, norm(f.raw)) !in RenamePairs(prior, norm, live)
    ensures norm(f.raw) !in NewSnapshot(prior, norm, live).lastScan
    ensures forall e :: e in NewSnapshot(prior, norm, live).data ==> e.path != norm(f.raw)
  {
    MembershipByVerdict(prior, norm, live, f);
    ScanMapKeys(norm, live, norm(f.raw));
    forall g | g in live && g.read.Read? && norm(g.raw) == norm(f.raw) ensures false {
      SamePathSameFile(norm, live, f, g);
    }
    forall e | e in NewSnapshot(prior, norm, live).data ensures e.path != norm(f.raw) {
      ScannedEntriesMembership(norm, live, e);
      var g :| g in live && e in EntriesOf(norm, g);
      if e.path == norm(f.raw) {
        SamePathSameFile(norm, live, f, g);
      }
    }
  }

  /** The replacement snapshot holds exactly the successfully read entries, LastScan maps
      each of their paths to its mtime, and the directory is unchanged. */
  lemma NewSnapshotContents(prior: Snapshot, norm: Normalizer, live: seq<LiveFile>)
    requires DistinctPaths(norm, live)
    ensures var s := NewSnapshot(prior, norm, live);
            && s.directoryPath == prior.directoryPath
            && (forall e :: e in s.data <==> exists f :: f in live && f.read.Read? && e == FileEntry(norm(f.raw), f.read.size, f.read.mtime, f.read.hash))
            && (forall p :: p in s.lastScan <==> exists f :: f in live && f.read.Read? && norm(f.raw) == p)
            && (forall f :: f in live && f.read.Read? ==> s.lastScan[norm(f.raw)] == f.read.mtime)
  {
    var s := NewSnapshot(prior, norm, live);
    forall e ensures e in s.data <==> exists f :: f in live && f.read.Read? && e == FileEntry(norm(f.raw), f.read.size, f.read.mtime, f.read.hash) {
      ScannedEntriesMembership(norm, live, e);
    }
    forall p ensures p in s.lastScan <==> exists f :: f in live && f.read.Read? && norm(f.raw) == p {
      ScanMapKeys(norm, live, p);
    }
    forall f | f in live && f.read.Read? ensures s.lastScan[norm(f.raw)] == f.read.mtime {
      ScanMapValue(norm, live, f);
    }
  }

  /** Rescanning an unchanged tree against the snapshot its own scan produced reports nothing. */
  lemma RescanUnchangedIsEmpty(s: Snapshot, norm: Normalizer, live: seq<LiveFile>)
    requires Idempotent(norm) && DistinctPaths(norm, live)
    requires s.lastScan == ScanMap(norm, live) && s.data == ScannedEntries(norm, live)
    ensures Diff(s, norm, live) == EmptyInfo
  {
    forall f | f in live && f.read.Read? ensures VerdictOf(s, norm, f) == Unchanged {
      ScanMapValue(norm, live, f);
      CaseA(s.data, s.lastScan, norm(f.raw), f.read.size, f.read.mtime, f.read.hash);
    }
    assert AddedPaths(s, norm, live) == {};
    assert UpdatedPaths(s, norm, live) == {};
    assert RenamePairs(s, norm, live) == {};
    forall x | x in RemovedPaths(s, norm, live) ensures false {
      var e :| e in s.data && norm(e.path) !in LivePaths(norm, live) && e.path == x;
      ScannedEntriesMembership(norm, live, e);
    }
  }

  /** A file moved from "a.txt" to "b.txt" with its size and mtime kept is reported as an
      update of "b.txt" with the pair ("a.txt", "b.txt"), and "a.txt" is also reported as
      removed. */
  lemma RenameExample()
    ensures var e := FileEntry("a.txt", 3, 5, 7);
            var prior := Snapshot(map["a.txt" := 5], [e], "/d");
            var live := [LiveFile("b.txt", Read(3, 5, 7))];
            Diff(prior, p => p, live) == SnapshotInfo({}, {"a.txt"}, {"b.txt"}, {("a.txt", "b.txt")})
  {
  }
}
