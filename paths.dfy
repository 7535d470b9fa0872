/**
 * Filesystem paths as sequences of components. `[]` is the filesystem root;
 * `os.path.join(root, name)` is `root + [name]`.
 */
module Paths {

  type Path = seq<string>

  /** The directory that contains `p` (`os.path.dirname` of a non-root path). */
  function Parent(p: Path): (q: Path)
    requires p != []
    ensures |q| == |p| - 1 && q == p[..|p| - 1]
  {
    p[..|p| - 1]
  }

  /** `p` and every directory above it, down to the root. */
  function Ancestry(p: Path): (a: set<Path>)
    ensures p in a && [] in a
    ensures forall q :: q in a ==> |q| <= |p| && q == p[..|q|]
  {
    assert p[..|p|] == p;
    assert p[..0] == [];
    set k | 0 <= k <= |p| :: p[..k]
  }

  /** `suffix` ends `s`. */
  predicate IsSuffix(suffix: string, s: string)
  {
    |suffix| <= |s| && s[|s| - |suffix|..] == suffix
  }
}
