/** Properties of the orchestrator: when it bootstraps and when it updates, the file the
    bootstrap writes, and the snapshot-id mismatch between the two. */
module KeeperProperties {
  import opened Types
  import opened DiffEngine
  import opened DiffProperties
  import opened SnapshotStore
  import opened Paths
  import opened Keeper

  /** With no file at the derived name, the orchestrator bootstraps: a failing walk is an
      error, and otherwise it returns the empty diff and the bootstrap file then holds the
      scan of the directory. */
  lemma MissingSnapshotBootstraps(fs: FileMap, tree: Tree, norm: Normalizer, d: string,
                                  root: string, id: Option<string>)
    requires SnapshotFileFor(root, SnapshotName(norm(d), id)) !in fs
    ensures var r := SnapshotDirectoryOutcome(fs, tree, norm, d, root, id);
            match tree(norm(d))
            case None => r == Err(EnumerationFailed)
            case Some(files) =>
              && r.Ok? && r.value.0 == EmptyInfo
              && Load(r.value.1, BootstrapTarget(norm(d), root)) == Ok(BootstrapSnapshot(norm(d), norm, files))
  {
    if tree(norm(d)).Some? {
      SaveCommits(fs, BootstrapTarget(norm(d), root), BootstrapSnapshot(norm(d), norm, tree(norm(d)).value));
    }
  }

  /** The bootstrap's effect does not depend on the snapshot id. */
  lemma BootstrapIgnoresSnapshotId(fs: FileMap, tree: Tree, norm: Normalizer, d: string,
                                   root: string, id1: Option<string>, id2: Option<string>)
    requires SnapshotFileFor(root, SnapshotName(norm(d), id1)) !in fs
    requires SnapshotFileFor(root, SnapshotName(norm(d), id2)) !in fs
    ensures SnapshotDirectoryOutcome(fs, tree, norm, d, root, id1) ==
            SnapshotDirectoryOutcome(fs, tree, norm, d, root, id2)
  {
  }

  /** With a file at the derived name, the orchestrator updates it: a file that does not
      decode is an error (never a silent re-bootstrap), and otherwise the diff is against a
      rescan of the directory recorded in the snapshot, not of the argument, and a walk of
      that directory that fails is an error that writes nothing. */
  lemma ExistingSnapshotUpdates(fs: FileMap, tree: Tree, norm: Normalizer, d: string,
                                root: string, id: Option<string>)
    requires SnapshotFileFor(root, SnapshotName(norm(d), id)) in fs
    ensures var file := SnapshotFileFor(root, SnapshotName(norm(d), id));
            var r := SnapshotDirectoryOutcome(fs, tree, norm, d, root, id);
            match fs[file]
            case Undecodable => r == Err(CorruptSnapshot)
            case Encoded(prior) =>
              match tree(prior.directoryPath)
              case None => r == Err(EnumerationFailed)
              case Some(live) =>
                && r.Ok?
                && r.value.0 == Diff(prior, norm, live)
                && Load(r.value.1, file) == Ok(NewSnapshot(prior, norm, live))
  {
  }

  /** As written, a snapshot id other than the directory's base name is never updated:
      the first call saves under the base name, the derived file is still missing, so every
      later call bootstraps again and reports no changes whatever the directory holds. */
  lemma SnapshotIdNeverUpdates(fs: FileMap, tree1: Tree, tree2: Tree, norm: Normalizer, d: string,
                               root: string, id: Option<string>)
    requires SnapshotFileFor(root, SnapshotName(norm(d), id)) !in fs
    requires SnapshotFileFor(root, SnapshotName(norm(d), id)) != BootstrapTarget(norm(d), root)
    requires SnapshotFileFor(root, SnapshotName(norm(d), id)) != TempName(BootstrapTarget(norm(d), root))
    ensures var r1 := SnapshotDirectoryOutcome(fs, tree1, norm, d, root, id);
            && (r1.Err? <==> tree1(norm(d)).None?)
            && (r1.Ok? ==>
                  && r1.value.0 == EmptyInfo
                  && SnapshotFileFor(root, SnapshotName(norm(d), id)) !in r1.value.1
                  && var r2 := SnapshotDirectoryOutcome(r1.value.1, tree2, norm, d, root, id);
                     && (r2.Err? <==> tree2(norm(d)).None?)
                     && (r2.Ok? ==> r2.value.0 == EmptyInfo))
  {
    if tree1(norm(d)).Some? {
      var file := SnapshotFileFor(root, SnapshotName(norm(d), id));
      var target := BootstrapTarget(norm(d), root);
      var fs1 := Committed(fs, target, BootstrapSnapshot(norm(d), norm, tree1(norm(d)).value));
      assert file !in fs1;
    }
  }

  lemma PhotosBaseName()
    ensures FileName("/data/photos") == "photos"
  {
    assert "/data/photos" == "/data" + [Separator] + "photos";
    FileNameAfterSeparator("/data", "photos");
  }

  /** The two file names of the example below. */
  lemma PhotosNames()
    ensures SnapshotFileFor("/snaps", SnapshotName("/data/photos", Some("backup"))) == "/snaps/backup.snapshot"
    ensures BootstrapTarget("/data/photos", "/snaps") == "/snaps/photos.snapshot"
  {
    PhotosBaseName();
    assert SnapshotName("/data/photos", Some("backup")) == "backup";
    assert SnapshotFileFor("/snaps", "backup") == "/snaps/backup.snapshot";
  }

  /** The inputs that show it: snapshot id "backup" for "/data/photos" under "/snaps". */
  lemma SnapshotIdExample(tree1: Tree, tree2: Tree)
    ensures var norm: Normalizer := p => p;
            var fs1 := SnapshotDirectoryOutcome(map[], tree1, norm, "/data/photos", "/snaps", Some("backup"));
            && SnapshotFileFor("/snaps", SnapshotName("/data/photos", Some("backup"))) == "/snaps/backup.snapshot"
            && BootstrapTarget("/data/photos", "/snaps") == "/snaps/photos.snapshot"
            && (fs1.Err? <==> tree1("/data/photos").None?)
            && (fs1.Ok? ==>
                  && fs1.value.0 == EmptyInfo
                  && var fs2 := SnapshotDirectoryOutcome(fs1.value.1, tree2, norm, "/data/photos", "/snaps", Some("backup"));
                     && (fs2.Err? <==> tree2("/data/photos").None?)
                     && (fs2.Ok? ==> fs2.value.0 == EmptyInfo))
  {
    var norm: Normalizer := p => p;
    PhotosNames();
    var file := "/snaps/backup.snapshot";
    var target := "/snaps/photos.snapshot";
    assert file != target by { assert file[7] != target[7]; }
    assert file != TempName(target) by { assert file[7] != TempName(target)[7]; }
    SnapshotIdNeverUpdates(map[], tree1, tree2, norm, "/data/photos", "/snaps", Some("backup"));
  }

  /** A second input that shows it without an id: a directory given with a trailing
      separator has the empty base name, so the orchestrator looks for "/snaps/.snapshot"
      while the bootstrap writes "/snaps.snapshot". */
  lemma TrailingSeparatorExample(tree1: Tree, tree2: Tree)
    ensures var norm: Normalizer := p => p;
            var fs1 := SnapshotDirectoryOutcome(map[], tree1, norm, "/data/photos/", "/snaps", None);
            && SnapshotFileFor("/snaps", SnapshotName("/data/photos/", None)) == "/snaps/.snapshot"
            && BootstrapTarget("/data/photos/", "/snaps") == "/snaps.snapshot"
            && (fs1.Err? <==> tree1("/data/photos/").None?)
            && (fs1.Ok? ==>
                  && fs1.value.0 == EmptyInfo
                  && var fs2 := SnapshotDirectoryOutcome(fs1.value.1, tree2, norm, "/data/photos/", "/snaps", None);
                     && (fs2.Err? <==> tree2("/data/photos/").None?)
                     && (fs2.Ok? ==> fs2.value.0 == EmptyInfo))
  {
    var norm: Normalizer := p => p;
    assert FileName("/data/photos/") == "";
    assert SnapshotFileFor("/snaps", "") == "/snaps/.snapshot";
    assert BootstrapTarget("/data/photos/", "/snaps") == "/snaps.snapshot";
    assert "/snaps/.snapshot" != "/snaps.snapshot" by {
      assert "/snaps/.snapshot"[6] != "/snaps.snapshot"[6];
    }
    assert "/snaps/.snapshot" != TempName("/snaps.snapshot") by {
      assert "/snaps/.snapshot"[6] != TempName("/snaps.snapshot")[6];
    }
    SnapshotIdNeverUpdates(map[], tree1, tree2, norm, "/data/photos/", "/snaps", None);
  }

  /** Corrected, the second call updates the file the first one wrote: its diff is that of
      the second scan against the first. */
  lemma CorrectedSecondCallUpdates(fs: FileMap, tree1: Tree, tree2: Tree, norm: Normalizer, d: string,
                                   root: string, id: Option<string>)
    requires SnapshotFileFor(root, SnapshotName(norm(d), id)) !in fs
    ensures var file := SnapshotFileFor(root, SnapshotName(norm(d), id));
            var r1 := CorrectedSnapshotDirectoryOutcome(fs, tree1, norm, d, root, id);
            match tree1(norm(d))
            case None => r1 == Err(EnumerationFailed)
            case Some(files1) =>
              var first := BootstrapSnapshot(norm(d), norm, files1);
              && r1.Ok? && r1.value.0 == EmptyInfo
              && Load(r1.value.1, file) == Ok(first)
              && var r2 := CorrectedSnapshotDirectoryOutcome(r1.value.1, tree2, norm, d, root, id);
                 match tree2(norm(d))
                 case None => r2 == Err(EnumerationFailed)
                 case Some(files2) =>
                   && r2.Ok? && r2.value.0 == Diff(first, norm, files2)
                   && Load(r2.value.1, file) == Ok(NewSnapshot(first, norm, files2))
  {
    if tree1(norm(d)).Some? {
      var file := SnapshotFileFor(root, SnapshotName(norm(d), id));
      SaveCommits(fs, file, BootstrapSnapshot(norm(d), norm, tree1(norm(d)).value));
    }
  }

  /** Corrected, a second call over an unchanged directory reports no changes. */
  lemma CorrectedRescanUnchanged(fs: FileMap, tree: Tree, norm: Normalizer, d: string,
                                 root: string, id: Option<string>)
    requires Idempotent(norm)
    requires tree(norm(d)).Some? ==> DistinctPaths(norm, tree(norm(d)).value)
    requires SnapshotFileFor(root, SnapshotName(norm(d), id)) !in fs
    ensures var r1 := CorrectedSnapshotDirectoryOutcome(fs, tree, norm, d, root, id);
            && (r1.Err? <==> tree(norm(d)).None?)
            && (r1.Ok? ==>
                  var r2 := CorrectedSnapshotDirectoryOutcome(r1.value.1, tree, norm, d, root, id);
                  r2.Ok? && r2.value.0 == EmptyInfo)
  {
    CorrectedSecondCallUpdates(fs, tree, tree, norm, d, root, id);
    if tree(norm(d)).Some? {
      var live := tree(norm(d)).value;
      RescanUnchangedIsEmpty(BootstrapSnapshot(norm(d), norm, live), norm, live);
    }
  }

  /** Without an id and with a non-empty base name, the bootstrap target is the derived file,
      so the code as written and the corrected orchestrator agree. */
  lemma AsWrittenAgreesWithoutId(fs: FileMap, tree: Tree, norm: Normalizer, d: string, root: string)
    requires FileName(norm(d)) != []
    ensures SnapshotDirectoryOutcome(fs, tree, norm, d, root, None) ==
            CorrectedSnapshotDirectoryOutcome(fs, tree, norm, d, root, None)
  {
    DerivedFileIsBootstrapTarget(norm(d), root);
  }

  /** Without an id, the file the orchestrator looks for is the one the bootstrap writes,
      unless the base name is empty. */
  lemma DerivedFileIsBootstrapTarget(directory: string, root: string)
    requires FileName(directory) != []
    ensures SnapshotFileFor(root, SnapshotName(directory, None)) == BootstrapTarget(directory, root)
  {
    var n := FileName(directory);
    assert n[0] != Separator by { assert n[0] in n; }
    CombineSuffix(root, n, ".snapshot");
  }
}
