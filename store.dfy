/** The snapshot file store: an abstract file map, the file operations the save protocol
    uses, the write-to-temp-then-replace protocol, and the states a crash can leave behind. */
module SnapshotStore {
  import opened Types

  /** The contents of a file: a complete encoding of a snapshot, or bytes that do not decode
      (a torn write, a foreign file). Only this distinction of the binary codec is modelled. */
  datatype Blob = Encoded(snapshot: Snapshot) | Undecodable

  type FileMap = map<string, Blob>

  /** Reading and decoding a snapshot file. */
  function Load(fs: FileMap, path: string): (r: Result<Snapshot>)
    ensures r.Err? <==> path !in fs || fs[path].Undecodable?
    ensures r.Ok? ==> fs[path] == Encoded(r.value)
    ensures r.Err? ==> (r.error == NotFound <==> path !in fs)
  {
    if path !in fs then Err(NotFound)
    else match fs[path]
      case Encoded(s) => Ok(s)
      case Undecodable => Err(CorruptSnapshot)
  }

  datatype FsOp =
    | WriteAllBytes(path: string, blob: Blob)
    | Replace(source: string, destination: string)
    | Move(source: string, destination: string)

  /** One file operation. Replace needs both files; Move needs the source and no destination. */
  function Apply(fs: FileMap, op: FsOp): (r: Result<FileMap>)
    ensures r.Err? <==> match op
                        case WriteAllBytes(_, _) => false
                        case Replace(src, dst) => src !in fs || dst !in fs
                        case Move(src, dst) => src !in fs || dst in fs
  {
    match op
    case WriteAllBytes(p, b) => Ok(fs[p := b])
    case Replace(src, dst) =>
      if src !in fs || dst !in fs then Err(PersistenceFailed) else Ok((fs - {src})[dst := fs[src]])
    case Move(src, dst) =>
      if src !in fs || dst in fs then Err(PersistenceFailed) else Ok((fs - {src})[dst := fs[src]])
  }

  /** A sequence of operations, stopping at the first failure. */
  function Run(fs: FileMap, ops: seq<FsOp>): Result<FileMap>
    decreases |ops|
  {
    if ops == [] then Ok(fs)
    else match Apply(fs, ops[0])
      case Ok(next) => Run(next, ops[1..])
      case Err(e) => Err(e)
  }

  function TempName(target: string): string
  {
    target + ".tmp"
  }

  /** The bootstrap save: write the temp file, then replace the target if it exists and
      move the temp file into place otherwise. */
  function SaveOps(fs: FileMap, target: string, s: Snapshot): (ops: seq<FsOp>)
    ensures |ops| == 2 && ops[0] == WriteAllBytes(TempName(target), Encoded(s))
    ensures ops[1] == (if target in fs then Replace(TempName(target), target) else Move(TempName(target), target))
  {
    var tmp := TempName(target);
    var written := fs[tmp := Encoded(s)];
    [WriteAllBytes(tmp, Encoded(s)), if target in written then Replace(tmp, target) else Move(tmp, target)]
  }

  /** The update save: write the temp file, then replace the target. */
  function ReplaceOps(target: string, s: Snapshot): seq<FsOp>
  {
    [WriteAllBytes(TempName(target), Encoded(s)), Replace(TempName(target), target)]
  }

  /** The file map once a save of `s` at `target` has completed. */
  function Committed(fs: FileMap, target: string, s: Snapshot): FileMap
  {
    (fs - {TempName(target)})[target := Encoded(s)]
  }

  /** The commit step after the temp file holds `s`: Replace succeeds exactly when the
      target exists, Move exactly when it does not, and both give the committed map. */
  lemma CommitStep(fs: FileMap, target: string, s: Snapshot)
    ensures var written := fs[TempName(target) := Encoded(s)];
            && Apply(written, Replace(TempName(target), target)) ==
                 (if target in fs then Ok(Committed(fs, target, s)) else Err(PersistenceFailed))
            && Apply(written, Move(TempName(target), target)) ==
                 (if target in fs then Err(PersistenceFailed) else Ok(Committed(fs, target, s)))
  {
    var tmp := TempName(target);
    assert tmp != target by { assert |tmp| == |target| + 4; }
    var written := fs[tmp := Encoded(s)];
    assert written - {tmp} == fs - {tmp};
  }

  /** The bootstrap save always succeeds: the target then holds `s`, the temp file is gone,
      and every other file is untouched. */
  lemma SaveCommits(fs: FileMap, target: string, s: Snapshot)
    ensures Run(fs, SaveOps(fs, target, s)) == Ok(Committed(fs, target, s))
    ensures Load(Committed(fs, target, s), target) == Ok(s)
    ensures forall p :: p != target && p != TempName(target) ==>
              (p in Committed(fs, target, s) <==> p in fs) &&
              (p in fs ==> Committed(fs, target, s)[p] == fs[p])
  {
    var tmp := TempName(target);
    assert tmp != target by { assert |tmp| == |target| + 4; }
    var ops := SaveOps(fs, target, s);
    var written := fs[tmp := Encoded(s)];
    assert Apply(fs, ops[0]) == Ok(written);
    assert ops[1..] == [ops[1]];
    CommitStep(fs, target, s);
    assert Run(written, [ops[1]]) == Apply(written, ops[1]);
  }

  /** The update save succeeds exactly when the target exists. */
  lemma ReplaceCommits(fs: FileMap, target: string, s: Snapshot)
    ensures Run(fs, ReplaceOps(target, s)) ==
            if target in fs then Ok(Committed(fs, target, s)) else Err(PersistenceFailed)
  {
    var tmp := TempName(target);
    var ops := ReplaceOps(target, s);
    var written := fs[tmp := Encoded(s)];
    assert Apply(fs, ops[0]) == Ok(written);
    assert ops[1..] == [ops[1]];
    CommitStep(fs, target, s);
    assert Run(written, [ops[1]]) == Apply(written, ops[1]);
  }

  /** Every file map an observer can find if the process stops while running `ops`: before
      each operation, half-way through a write (the file then holds torn bytes), and at the
      end. Replace and Move are atomic renames. */
  function Interrupted(fs: FileMap, ops: seq<FsOp>): (states: seq<FileMap>)
    ensures states != [] && states[0] == fs
    ensures |states| <= 2 * |ops| + 1
    decreases |ops|
  {
    if ops == [] then [fs]
    else
      var torn := if ops[0].WriteAllBytes? then [fs[ops[0].path := Undecodable]] else [];
      [fs] + torn + match Apply(fs, ops[0])
                    case Ok(next) => Interrupted(next, ops[1..])
                    case Err(_) => []
  }

  /** The target holds its old contents or the complete new encoding, and is never lost. */
  ghost predicate OldOrNew(fs: FileMap, st: FileMap, target: string, s: Snapshot)
  {
    && (target in fs ==> target in st)
    && (target in st ==> st[target] == Encoded(s) || (target in fs && st[target] == fs[target]))
  }

  lemma {:induction false} InterruptedWriteThenCommit(fs: FileMap, target: string, s: Snapshot, op: FsOp)
    requires op == Replace(TempName(target), target) || op == Move(TempName(target), target)
    requires TempName(target) in fs && fs[TempName(target)] == Encoded(s)
    ensures forall st :: st in Interrupted(fs, [op]) ==> st == fs || Apply(fs, op) == Ok(st)
  {
    assert [op][1..] == [];
  }

  /** Atomicity of both save protocols: whatever point the process stops at, the target
      file holds either its previous contents or the complete new snapshot, so loading it
      yields what it yielded before or the new snapshot. */
  lemma SaveIsAtomic(fs: FileMap, target: string, s: Snapshot, replaceOnly: bool)
    ensures var ops := if replaceOnly then ReplaceOps(target, s) else SaveOps(fs, target, s);
            forall st :: st in Interrupted(fs, ops) ==>
              OldOrNew(fs, st, target, s) &&
              (Load(st, target) == Load(fs, target) || Load(st, target) == Ok(s))
  {
    var tmp := TempName(target);
    assert tmp != target by { assert |tmp| == |target| + 4; }
    var ops := if replaceOnly then ReplaceOps(target, s) else SaveOps(fs, target, s);
    var written := fs[tmp := Encoded(s)];
    assert Apply(fs, ops[0]) == Ok(written);
    InterruptedWriteThenCommit(written, target, s, ops[1]);
    assert Interrupted(fs, ops) == [fs, fs[tmp := Undecodable]] + Interrupted(written, ops[1..]);
    assert ops[1..] == [ops[1]];
  }

  /** A save interrupted after the temp file was written but before the replace leaves the
      target untouched, and it still loads as before. */
  lemma InterruptedBeforeReplace(fs: FileMap, target: string, s: Snapshot)
    requires target in fs
    ensures var st := Run(fs, ReplaceOps(target, s)[..1]);
            st.Ok? && target in st.value && st.value[target] == fs[target] &&
            Load(st.value, target) == Load(fs, target)
  {
    var tmp := TempName(target);
    assert tmp != target by { assert |tmp| == |target| + 4; }
    assert ReplaceOps(target, s)[..1] == [WriteAllBytes(tmp, Encoded(s))];
  }
}
