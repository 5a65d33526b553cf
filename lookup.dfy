/** The old-snapshot hash lookup (entries grouped by hash, old order kept inside a group)
    and the first-match searches the rename detection runs over a group. */
module Lookup {
  import opened Types

  /** The three match predicates of the source, each with the hash of the lookup key:
      Near (Case A: same size, mtime within 1 s), Exact (Case B: same size and mtime),
      SameSize (single-file Case B: same size only). */
  datatype Criterion =
    | Near(hash: nat, size: nat, mtime: int)
    | Exact(hash: nat, size: nat, mtime: int)
    | SameSize(hash: nat, size: nat)

  predicate Matches(c: Criterion, e: FileEntry)
  {
    e.hash == c.hash && e.size == c.size &&
    match c
    case Near(_, _, mtime) => Abs(e.lastWriteUtc - mtime) < TICKS_PER_SECOND
    case Exact(_, _, mtime) => e.lastWriteUtc == mtime
    case SameSize(_, _) => true
  }

  /** Some index of `s` holds `e`, `e` matches, and nothing before that index matches. */
  ghost predicate IsFirstMatch(s: seq<FileEntry>, c: Criterion, e: FileEntry)
  {
    exists i :: 0 <= i < |s| && s[i] == e && Matches(c, e) &&
      forall j :: 0 <= j < i ==> !Matches(c, s[j])
  }

  /** `FirstOrDefault` with a match predicate. */
  function FirstMatch(s: seq<FileEntry>, c: Criterion): (r: Option<FileEntry>)
    ensures r.None? <==> forall e :: e in s ==> !Matches(c, e)
    ensures r.Some? ==> IsFirstMatch(s, c, r.value)
  {
    if s == [] then None
    else if Matches(c, s[0]) then Some(s[0])
    else FirstMatch(s[1..], c)
  }

  /** The old entries with hash `h`, in old-snapshot order. */
  function WithHash(data: seq<FileEntry>, h: nat): (g: seq<FileEntry>)
    ensures forall e :: e in g <==> e in data && e.hash == h
    ensures |g| <= |data|
  {
    if data == [] then []
    else (if data[0].hash == h then [data[0]] else []) + WithHash(data[1..], h)
  }

  function HashesOf(data: seq<FileEntry>): set<nat>
  {
    set e | e in data :: e.hash
  }

  /** `Data.GroupBy(f => f.Hash).ToDictionary(...)`: one non-empty group per hash present. */
  function HashLookup(data: seq<FileEntry>): (lk: map<nat, seq<FileEntry>>)
    ensures forall h :: h in lk <==> exists e :: e in data && e.hash == h
    ensures forall h :: h in lk ==> lk[h] != [] && forall e :: e in lk[h] <==> e in data && e.hash == h
  {
    map h | h in HashesOf(data) :: WithHash(data, h)
  }

  /** `TryGetValue(hash)` followed by `FirstOrDefault` over the group. */
  function LookupMatch(lk: map<nat, seq<FileEntry>>, c: Criterion): (r: Option<FileEntry>)
    ensures r.None? <==> c.hash !in lk || forall e :: e in lk[c.hash] ==> !Matches(c, e)
    ensures r.Some? ==> r.value in lk[c.hash] && Matches(c, r.value)
  {
    if c.hash in lk then FirstMatch(lk[c.hash], c) else None
  }

  lemma {:induction false} FirstMatchWithHash(data: seq<FileEntry>, c: Criterion)
    ensures FirstMatch(WithHash(data, c.hash), c) == FirstMatch(data, c)
  {
    if data != [] {
      FirstMatchWithHash(data[1..], c);
      if data[0].hash == c.hash {
        assert (WithHash(data, c.hash))[0] == data[0];
        assert WithHash(data, c.hash)[1..] == WithHash(data[1..], c.hash);
      } else {
        assert WithHash(data, c.hash) == WithHash(data[1..], c.hash);
      }
    }
  }

  /** Looking up a group and taking its first match is the first match in old-snapshot order. */
  lemma LookupIsFirstInOldOrder(data: seq<FileEntry>, c: Criterion)
    ensures LookupMatch(HashLookup(data), c) == FirstMatch(data, c)
  {
    var lk := HashLookup(data);
    if c.hash in lk {
      assert lk[c.hash] == WithHash(data, c.hash);
      FirstMatchWithHash(data, c);
    }
  }
}
