/** The file scanner: chunking of the enumeration, the entries and LastScan map built
    from the successfully read files, and the per-chunk loop. */
module Scanner {
  import opened Types

  /** `Enumerable.Chunk(n)`: consecutive pieces of length n, the last one shorter. */
  function Chunk<T>(s: seq<T>, n: nat): (chunks: seq<seq<T>>)
    requires n > 0
    ensures forall c :: c in chunks ==> 0 < |c| <= n
    decreases |s|
  {
    if s == [] then []
    else if |s| <= n then [s]
    else [s[..n]] + Chunk(s[n..], n)
  }

  function Flatten<T>(chunks: seq<seq<T>>): seq<T>
  {
    if chunks == [] then [] else chunks[0] + Flatten(chunks[1..])
  }

  lemma {:induction false} FlattenSnoc<T>(chunks: seq<seq<T>>, c: seq<T>)
    ensures Flatten(chunks + [c]) == Flatten(chunks) + c
  {
    if chunks != [] {
      assert (chunks + [c])[1..] == chunks[1..] + [c];
      FlattenSnoc(chunks[1..], c);
    }
  }

  /** Chunking loses nothing and reorders nothing, whatever the chunk size. */
  lemma {:induction false} FlattenChunk<T>(s: seq<T>, n: nat)
    requires n > 0
    ensures Flatten(Chunk(s, n)) == s
    decreases |s|
  {
    if |s| > n {
      FlattenChunk(s[n..], n);
      assert Chunk(s, n)[1..] == Chunk(s[n..], n);
    }
  }

  /** The entry a live file contributes: one entry at its normalized path when the read succeeded. */
  function EntriesOf(norm: Normalizer, f: LiveFile): seq<FileEntry>
  {
    match f.read
    case Read(size, mtime, hash) => [FileEntry(norm(f.raw), size, mtime, hash)]
    case ReadFailed => []
  }

  /** The list of entries built from the enumeration, in enumeration order. */
  function ScannedEntries(norm: Normalizer, files: seq<LiveFile>): seq<FileEntry>
  {
    if files == [] then []
    else ScannedEntries(norm, files[..|files| - 1]) + EntriesOf(norm, files[|files| - 1])
  }

  /** The LastScan dictionary built from the enumeration (a later write to a key wins). */
  function ScanMap(norm: Normalizer, files: seq<LiveFile>): map<string, int>
  {
    if files == [] then map[]
    else
      var m := ScanMap(norm, files[..|files| - 1]);
      var f := files[|files| - 1];
      match f.read
      case Read(_, mtime, _) => m[norm(f.raw) := mtime]
      case ReadFailed => m
  }

  /** Step lemmas for extending the scanned prefix by one file. */
  lemma ScanSnoc(norm: Normalizer, files: seq<LiveFile>, f: LiveFile)
    ensures ScannedEntries(norm, files + [f]) == ScannedEntries(norm, files) + EntriesOf(norm, f)
    ensures ScanMap(norm, files + [f]) ==
      if f.read.Read? then ScanMap(norm, files)[norm(f.raw) := f.read.mtime] else ScanMap(norm, files)
  {
    assert (files + [f])[..|files|] == files;
  }

  lemma {:induction false} ScannedEntriesAppend(norm: Normalizer, a: seq<LiveFile>, b: seq<LiveFile>)
    ensures ScannedEntries(norm, a + b) == ScannedEntries(norm, a) + ScannedEntries(norm, b)
    decreases |b|
  {
    if b == [] {
      assert a + b == a;
    } else {
      var b' := b[..|b| - 1];
      assert a + b == (a + b') + [b[|b| - 1]];
      assert b == b' + [b[|b| - 1]];
      ScanSnoc(norm, a + b', b[|b| - 1]);
      ScanSnoc(norm, b', b[|b| - 1]);
      ScannedEntriesAppend(norm, a, b');
    }
  }

  /** Merging a chunk's dictionary into the accumulated one (`dict[k] = v` for each pair)
      gives the dictionary of the concatenated enumeration. */
  lemma {:induction false} ScanMapAppend(norm: Normalizer, a: seq<LiveFile>, b: seq<LiveFile>)
    ensures ScanMap(norm, a + b) == ScanMap(norm, a) + ScanMap(norm, b)
    decreases |b|
  {
    if b == [] {
      assert a + b == a;
    } else {
      var b' := b[..|b| - 1];
      var f := b[|b| - 1];
      assert a + b == (a + b') + [f];
      assert b == b' + [f];
      ScanSnoc(norm, a + b', f);
      ScanSnoc(norm, b', f);
      ScanMapAppend(norm, a, b');
    }
  }

  /** The bootstrap's accumulation over the chunks: the chunk lists appended in order, and
      the chunk dictionaries merged in order (a later chunk's pair wins). */
  function ChunkedEntries(norm: Normalizer, chunks: seq<seq<LiveFile>>): seq<FileEntry>
  {
    if chunks == [] then [] else ScannedEntries(norm, chunks[0]) + ChunkedEntries(norm, chunks[1..])
  }

  function ChunkedLastScan(norm: Normalizer, chunks: seq<seq<LiveFile>>): map<string, int>
  {
    if chunks == [] then map[] else ScanMap(norm, chunks[0]) + ChunkedLastScan(norm, chunks[1..])
  }

  /** Accumulating chunk by chunk gives the entries and dictionary of the whole enumeration. */
  lemma {:induction false} ChunkedScanFlat(norm: Normalizer, chunks: seq<seq<LiveFile>>)
    ensures ChunkedEntries(norm, chunks) == ScannedEntries(norm, Flatten(chunks))
    ensures ChunkedLastScan(norm, chunks) == ScanMap(norm, Flatten(chunks))
  {
    if chunks != [] {
      ChunkedScanFlat(norm, chunks[1..]);
      ScannedEntriesAppend(norm, chunks[0], Flatten(chunks[1..]));
      ScanMapAppend(norm, chunks[0], Flatten(chunks[1..]));
    }
  }

  /** The bootstrap Data and LastScan do not depend on the chunk size. */
  lemma ChunkSizeIrrelevant(norm: Normalizer, files: seq<LiveFile>, n: nat, m: nat)
    requires n > 0 && m > 0
    ensures ChunkedEntries(norm, Chunk(files, n)) == ChunkedEntries(norm, Chunk(files, m)) == ScannedEntries(norm, files)
    ensures ChunkedLastScan(norm, Chunk(files, n)) == ChunkedLastScan(norm, Chunk(files, m)) == ScanMap(norm, files)
  {
    ChunkedScanFlat(norm, Chunk(files, n));
    ChunkedScanFlat(norm, Chunk(files, m));
    FlattenChunk(files, n);
    FlattenChunk(files, m);
  }

  /** An entry is scanned exactly when some enumerated file was read successfully into it. */
  lemma {:induction false} ScannedEntriesMembership(norm: Normalizer, files: seq<LiveFile>, e: FileEntry)
    ensures e in ScannedEntries(norm, files) <==> exists f :: f in files && e in EntriesOf(norm, f)
    decreases |files|
  {
    if files != [] {
      var p := files[..|files| - 1];
      var f := files[|files| - 1];
      assert files == p + [f];
      ScannedEntriesMembership(norm, p, e);
      if e in EntriesOf(norm, f) {
        assert f in files;
      }
      assert forall g :: g in files <==> g in p || g == f;
    }
  }

  /** LastScan has a key exactly for the normalized paths of the files read successfully. */
  lemma {:induction false} ScanMapKeys(norm: Normalizer, files: seq<LiveFile>, path: string)
    ensures path in ScanMap(norm, files) <==> exists f :: f in files && f.read.Read? && norm(f.raw) == path
    decreases |files|
  {
    if files != [] {
      var p := files[..|files| - 1];
      var f := files[|files| - 1];
      assert files == p + [f];
      ScanMapKeys(norm, p, path);
      assert forall g :: g in files <==> g in p || g == f;
    }
  }

  /** With distinct paths, LastScan maps each read file's path to that file's mtime. */
  lemma {:induction false} ScanMapValue(norm: Normalizer, files: seq<LiveFile>, f: LiveFile)
    requires DistinctPaths(norm, files)
    requires f in files && f.read.Read?
    ensures norm(f.raw) in ScanMap(norm, files) && ScanMap(norm, files)[norm(f.raw)] == f.read.mtime
    decreases |files|
  {
    var p := files[..|files| - 1];
    var g := files[|files| - 1];
    assert files == p + [g];
    if f != g {
      assert f in p;
      assert DistinctPaths(norm, p) by {
        forall i, j | 0 <= i < j < |p| ensures norm(p[i].raw) != norm(p[j].raw) {
          assert p[i] == files[i] && p[j] == files[j];
        }
      }
      ScanMapValue(norm, p, f);
      if g.read.Read? {
        assert g in files;
        if norm(g.raw) == norm(f.raw) {
          SamePathSameFile(norm, files, f, g);
        }
      }
    }
  }

  /** One more chunk appends the entries of its files and merges their LastScan pairs. */
  lemma ScanOneMoreChunk(norm: Normalizer, chunks: seq<seq<LiveFile>>, c: nat)
    requires c < |chunks|
    ensures ScannedEntries(norm, Flatten(chunks[..c + 1])) ==
            ScannedEntries(norm, Flatten(chunks[..c])) + ScannedEntries(norm, chunks[c])
    ensures ScanMap(norm, Flatten(chunks[..c + 1])) == ScanMap(norm, Flatten(chunks[..c])) + ScanMap(norm, chunks[c])
  {
    assert chunks[..c + 1] == chunks[..c] + [chunks[c]];
    FlattenSnoc(chunks[..c], chunks[c]);
    ScannedEntriesAppend(norm, Flatten(chunks[..c]), chunks[c]);
    ScanMapAppend(norm, Flatten(chunks[..c]), chunks[c]);
  }

  /** `SaveDirectoryChunk`: reads every file of one chunk, keeping the successful ones. */
  method SaveDirectoryChunk(norm: Normalizer, files: seq<LiveFile>)
    returns (fileList: seq<FileEntry>, lastScanData: map<string, int>)
    ensures fileList == ScannedEntries(norm, files)
    ensures lastScanData == ScanMap(norm, files)
  {
    fileList, lastScanData := [], map[];
    var i := 0;
    while i < |files|
      invariant 0 <= i <= |files|
      invariant fileList == ScannedEntries(norm, files[..i])
      invariant lastScanData == ScanMap(norm, files[..i])
    {
      var f := files[i];
      var path := norm(f.raw);
      ScanSnoc(norm, files[..i], f);
      assert files[..i + 1] == files[..i] + [f];
      match f.read {
        case Read(size, mtime, hash) =>
          fileList := fileList + [FileEntry(path, size, mtime, hash)];
          lastScanData := lastScanData[path := mtime];
        case ReadFailed =>
          // the failure is logged and the file skipped
      }
      i := i + 1;
    }
    assert files[..i] == files;
  }
}
