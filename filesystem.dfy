/**
 * The part of the host filesystem the organizer touches: regular files with
 * their contents, directories, `os.makedirs(path, exist_ok=True)` and
 * `shutil.move(src, dest)`. Paths are component sequences; `[]` is the root.
 */
module HostFilesystem {

  import opened Wrappers
  import opened Paths

  type Bytes = seq<bv8>

  /** A snapshot of the filesystem: which paths are regular files (with content) and which are directories. */
  datatype FsState = FsState(files: map<Path, Bytes>, dirs: set<Path>)

  /** A tree: the root is a directory, nothing is both, and every entry sits in a directory. */
  ghost predicate WellFormed(s: FsState)
  {
    && [] in s.dirs
    && s.dirs !! s.files.Keys
    && (forall d {:trigger Parent(d)} :: d in s.dirs && d != [] ==> Parent(d) in s.dirs)
    && (forall f :: f in s.files ==> f != [] && Parent(f) in s.dirs)
  }

  /** Every directory above a directory is a directory. */
  lemma {:induction false} AncestorsOfDir(s: FsState, d: Path)
    requires WellFormed(s) && d in s.dirs
    ensures forall j :: 0 <= j <= |d| ==> d[..j] in s.dirs
    decreases |d|
  {
    if d != [] {
      AncestorsOfDir(s, Parent(d));
      forall j | 0 <= j <= |d|
        ensures d[..j] in s.dirs
      {
        if j < |d| {
          assert d[..j] == Parent(d)[..j];
        } else {
          assert d[..j] == d;
        }
      }
    }
  }

  /** Every directory above a file is a directory. */
  lemma AncestorsOfFile(s: FsState, f: Path)
    requires WellFormed(s) && f in s.files
    ensures forall j :: 0 <= j < |f| ==> f[..j] in s.dirs
  {
    AncestorsOfDir(s, Parent(f));
    forall j | 0 <= j < |f|
      ensures f[..j] in s.dirs
    {
      assert f[..j] == Parent(f)[..j];
    }
  }

  datatype OsError =
    | FileExists(path: Path)        // the path to create is a file
    | NotADirectory(path: Path)     // a directory above it is a file
    | PermissionDenied(path: Path)  // the host refuses the change
    | FileNotFound(path: Path)      // the source is gone, or the target's folder is missing
    | IsADirectory(path: Path)      // the target is a directory
    | MoveRefused(path: Path)       // the host refused this move (collision, device, rights)

  /** The new state and the exception, if any, of a filesystem call. */
  datatype FsResult = FsResult(state: FsState, error: Option<OsError>)

  /** Some directory above `p`, or `p` itself, is a regular file. */
  predicate BlockedByFile(s: FsState, p: Path)
  {
    exists j :: 1 <= j <= |p| && p[..j] in s.files
  }

  /**
   * `os.makedirs(p, exist_ok=True)`: an existing directory is success; a file
   * on the way is an error; otherwise every missing directory down to `p` is
   * created, unless the host denies it.
   */
  function MakeDirsResult(s: FsState, p: Path, denied: bool): (r: FsResult)
    requires WellFormed(s)
    ensures WellFormed(r.state)
    ensures r.error.None? <==> p in s.dirs || (!BlockedByFile(s, p) && !denied)
    ensures r.error.None? ==> r.state.files == s.files && r.state.dirs == s.dirs + Ancestry(p)
    ensures r.error.Some? ==> r.state == s
    ensures p in s.dirs ==> r == FsResult(s, None)
  {
    if p in s.dirs then
      AncestorsOfDir(s, p);
      assert s.dirs + Ancestry(p) == s.dirs;
      FsResult(s, None)
    else if p in s.files then
      assert p[..|p|] == p;
      FsResult(s, Some(FileExists(p)))
    else if BlockedByFile(s, p) then FsResult(s, Some(NotADirectory(p)))
    else if denied then FsResult(s, Some(PermissionDenied(p)))
    else
      var t := FsState(s.files, s.dirs + Ancestry(p));
      assert p == p[..|p|];
      GrownTreeIsWellFormed(s, p);
      FsResult(t, None)
  }

  lemma GrownTreeIsWellFormed(s: FsState, p: Path)
    requires WellFormed(s) && !BlockedByFile(s, p)
    ensures WellFormed(FsState(s.files, s.dirs + Ancestry(p)))
  {
    var t := FsState(s.files, s.dirs + Ancestry(p));
    forall d | d in t.dirs && d != []
      ensures Parent(d) in t.dirs
    {
      if d in Ancestry(p) {
        assert Parent(d) == p[..|d| - 1];
      }
    }
    forall q | q in Ancestry(p)
      ensures q !in s.files
    {
      if q != [] {
        assert q == p[..|q|];
      }
    }
  }

  /**
   * `shutil.move(src, dest)` as one primitive: it succeeds when `src` is a
   * file, `dest` lies in an existing directory and is not one, and the host
   * accepts the move; the content then lives at `dest` and no longer at `src`,
   * replacing whatever file was at `dest`.
   */
  function MoveResult(s: FsState, src: Path, dest: Path, refused: bool): (r: FsResult)
    requires WellFormed(s)
    ensures WellFormed(r.state)
    ensures r.error.None? <==>
      src in s.files && dest != [] && Parent(dest) in s.dirs && dest !in s.dirs && !refused
    ensures r.error.Some? ==> r.state == s
    ensures r.error.None? ==>
      && r.state.dirs == s.dirs
      && dest in r.state.files && r.state.files[dest] == s.files[src]
      && (src != dest ==> src !in r.state.files)
  {
    if src !in s.files then FsResult(s, Some(FileNotFound(src)))
    else if dest == [] || Parent(dest) !in s.dirs then FsResult(s, Some(FileNotFound(dest)))
    else if dest in s.dirs then FsResult(s, Some(IsADirectory(dest)))
    else if refused then FsResult(s, Some(MoveRefused(src)))
    else FsResult(FsState((s.files - {src})[dest := s.files[src]], s.dirs), None)
  }

  /** A move touches only its source and its target: every other path keeps what it held. */
  lemma MoveKeepsOtherPaths(s: FsState, src: Path, dest: Path, refused: bool)
    requires WellFormed(s)
    ensures var r := MoveResult(s, src, dest, refused);
      forall p :: p != src && p != dest ==>
        (p in r.state.files <==> p in s.files) && (p in s.files ==> r.state.files[p] == s.files[p])
  {
  }

  /** A move creates no file except its target, and no content that was not there before. */
  lemma MoveAddsOnlyTarget(s: FsState, src: Path, dest: Path, refused: bool)
    requires WellFormed(s)
    ensures var r := MoveResult(s, src, dest, refused);
      && (forall p :: p in r.state.files && p !in s.files ==> p == dest)
      && r.state.files.Values <= s.files.Values
  {
    var r := MoveResult(s, src, dest, refused);
    if r.error.None? {
      forall v | v in r.state.files.Values
        ensures v in s.files.Values
      {
        var p :| p in r.state.files && r.state.files[p] == v;
        if p == dest {
          assert s.files[src] == v;
        }
      }
    }
  }

  /** Creating a folder that `makedirs` has just created is success and changes nothing. */
  lemma MakeDirsIsIdempotent(s: FsState, p: Path, denied: bool, deniedAgain: bool)
    requires WellFormed(s) && MakeDirsResult(s, p, denied).error.None?
    ensures var once := MakeDirsResult(s, p, denied).state;
      MakeDirsResult(once, p, deniedAgain) == FsResult(once, None)
  {
  }

  /** The filesystem the organizer runs on. */
  class FileSystem {

    var files: map<Path, Bytes>
    var dirs: set<Path>

    function State(): FsState
      reads this
    {
      FsState(files, dirs)
    }

    ghost predicate Valid()
      reads this
    {
      WellFormed(State())
    }

    constructor (initial: FsState)
      requires WellFormed(initial)
      ensures Valid() && State() == initial
    {
      files := initial.files;
      dirs := initial.dirs;
    }

    /** `os.path.isdir`: true exactly for an existing directory, which is then not a file. */
    function IsDir(p: Path): (b: bool)
      reads this
      ensures b <==> p in State().dirs
      ensures Valid() && b ==> p !in State().files
    {
      p in dirs
    }

    /** `os.path.isfile`: true exactly for an existing regular file, which then sits in a directory. */
    function IsFile(p: Path): (b: bool)
      reads this
      ensures b <==> p in State().files
      ensures Valid() && b ==> p != [] && Parent(p) in State().dirs && p !in State().dirs
    {
      p in files
    }

    /** `os.makedirs(p, exist_ok=True)`; `denied` is the host's refusal to create directories. */
    method MakeDirs(p: Path, denied: bool) returns (err: Option<OsError>)
      requires Valid()
      modifies this
      ensures Valid()
      ensures FsResult(State(), err) == MakeDirsResult(old(State()), p, denied)
    {
      if p in dirs {
        return None;
      }
      if p in files {
        return Some(FileExists(p));
      }
      var k := 1;
      while k <= |p|
        invariant 1 <= k <= |p| + 1
        invariant forall j :: 1 <= j < k ==> p[..j] !in files
      {
        if p[..k] in files {
          return Some(NotADirectory(p));
        }
        k := k + 1;
      }
      if denied {
        return Some(PermissionDenied(p));
      }
      k := 0;
      while k <= |p|
        invariant 0 <= k <= |p| + 1
        invariant files == old(files)
        invariant dirs == old(dirs) + set j | 0 <= j < k :: p[..j]
      {
        dirs := dirs + {p[..k]};
        k := k + 1;
      }
      assert (set j | 0 <= j < |p| + 1 :: p[..j]) == Ancestry(p);
      GrownTreeIsWellFormed(old(State()), p);
      err := None;
    }

    /** `shutil.move(src, dest)`; `refused` is the host's refusal of this move. */
    method Move(src: Path, dest: Path, refused: bool) returns (err: Option<OsError>)
      requires Valid()
      modifies this
      ensures Valid()
      ensures FsResult(State(), err) == MoveResult(old(State()), src, dest, refused)
    {
      if src !in files {
        return Some(FileNotFound(src));
      }
      if dest == [] || Parent(dest) !in dirs {
        return Some(FileNotFound(dest));
      }
      if dest in dirs {
        return Some(IsADirectory(dest));
      }
      if refused {
        return Some(MoveRefused(src));
      }
      var content := files[src];
      files := files - {src};
      files := files[dest := content];
      err := None;
    }
  }
}
