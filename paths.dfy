/** The two path helpers the orchestrator uses to name snapshot files, with Unix
    separator semantics. */
module Paths {

  const Separator: char := '/'

  /** `Path.GetFileName`: the part of `p` after its last separator (all of `p` if it has
      none, empty if `p` ends with one). */
  function FileName(p: string): (r: string)
    ensures Separator !in r
    ensures |r| <= |p| && r == p[|p| - |r|..]
    ensures r == p || p[|p| - |r| - 1] == Separator
  {
    if p == [] then []
    else if p[|p| - 1] == Separator then []
    else FileName(p[..|p| - 1]) + [p[|p| - 1]]
  }

  /** `Path.Combine` of two paths: the second alone if it is rooted or the first is empty,
      otherwise the two joined by exactly one separator. */
  function Combine(a: string, b: string): (r: string)
    ensures b == [] ==> r == a
    ensures b != [] && (b[0] == Separator || a == []) ==> r == b
    ensures b != [] && b[0] != Separator && a != [] ==>
              r == (if a[|a| - 1] == Separator then a + b else a + [Separator] + b)
  {
    if b == [] then a
    else if b[0] == Separator || a == [] then b
    else if a[|a| - 1] == Separator then a + b
    else a + [Separator] + b
  }

  /** Appending a suffix to a relative name before or after combining gives the same path. */
  lemma CombineSuffix(a: string, b: string, suffix: string)
    requires b != [] && b[0] != Separator
    ensures Combine(a, b + suffix) == Combine(a, b) + suffix
  {
    assert (b + suffix)[0] == b[0];
    if a != [] && a[|a| - 1] != Separator {
      assert a + [Separator] + (b + suffix) == (a + [Separator] + b) + suffix;
    } else if a != [] {
      assert a + (b + suffix) == (a + b) + suffix;
    }
  }

  /** The base name of a path is what follows its last separator. */
  lemma {:induction false} FileNameAfterSeparator(a: string, b: string)
    requires Separator !in b
    ensures FileName(a + [Separator] + b) == b
    decreases |b|
  {
    var p := a + [Separator] + b;
    if b != [] {
      var b' := b[..|b| - 1];
      assert p[..|p| - 1] == a + [Separator] + b';
      FileNameAfterSeparator(a, b');
      assert b == b' + [b[|b| - 1]];
    }
  }
}
