/**
 * `organize_by_extension` and the exit-code mapping of `main`, shared by the
 * three copies of the organizer, which differ in two switches: whether the
 * source must be a directory up front, and which exceptions the mtime lookup
 * falls back on.
 *
 * `os.walk` is lazy and foreign: its enumeration is an input sequence of
 * (root, name) entries, as the walk would yield them while the run goes on.
 * What the host decides for each entry (an interrupt, the mtime answer, the
 * current time, a refusal of `makedirs` or of the move) is an input
 * `Environment` beside it.
 */
module Organizer {

  import opened Wrappers
  import opened Paths
  import opened Naming
  import opened YearMonthPrefix
  import opened HostFilesystem

  /** The two switches in which the copies differ. */
  datatype Variant = Variant(checksSource: bool, mtimeCatch: CatchPolicy)

  /** extension_file_organizer.py, version 1.0.1. */
  const ExtensionFileOrganizer: Variant := Variant(true, CatchOsError)

  /** archive/v1.0.0/extension_file_organizer.py. */
  const ArchivedExtensionFileOrganizer: Variant := Variant(true, CatchOsError)

  /** auto_file_sorter.py: no source check, and any exception from the lookup falls back. */
  const AutoFileSorter: Variant := Variant(false, CatchAnyException)

  /** One file name the walk yields, with the root it was listed under. */
  datatype Entry = Entry(root: Path, name: string)

  /** What the host does while one entry is handled. */
  datatype Environment = Environment(
    interrupted: bool,    // a KeyboardInterrupt arrives before the entry is handled
    mtime: MtimeLookup,   // the answer of os.path.getmtime
    now: YearMonth,       // what datetime.now() gives if the prefix falls back
    makedirsDenied: bool, // the host refuses to create the key folder
    moveRefused: bool)    // the host refuses the move

  /** An exception that leaves `organize_by_extension`. */
  datatype Error =
    | SourceNotFound(source: Path)             // the FileNotFoundError of the source check
    | PrefixFailed(path: Path, prefixError: PrefixError)
    | MakeDirsFailed(osError: OsError)

  /** How `organize_by_extension` ends, as `main` sees it. */
  datatype Outcome = Completed | Interrupted | Raised(error: Error)

  datatype LogRecord =
    | MtimeFallback(path: Path)                 // warning: mtime unavailable, current time used
    | Moved(src: Path, dest: Path)              // info: "Moved src -> dest"
    | MoveFailed(src: Path, cause: OsError)     // error: "Failed to move src"

  datatype StepResult = StepResult(state: FsState, log: seq<LogRecord>, failure: Option<Error>)

  datatype RunResult = RunResult(state: FsState, log: seq<LogRecord>, outcome: Outcome)

  /** The records logged before a run, followed by that run. */
  function AfterLog(log: seq<LogRecord>, r: RunResult): RunResult
  {
    RunResult(r.state, log + r.log, r.outcome)
  }

  /** The path of an entry: `os.path.join(root, name)`. */
  function SourcePath(e: Entry): (p: Path)
    ensures p != [] && Parent(p) == e.root && p[|p| - 1] == e.name
  {
    e.root + [e.name]
  }

  /** The body of the inner loop of `organize_by_extension` for one entry. */
  function Step(s: FsState, source: Path, e: Entry, env: Environment, policy: CatchPolicy): (r: StepResult)
    requires WellFormed(s)
    ensures WellFormed(r.state)
    ensures r.failure.Some? ==> r.state == s
    ensures SourcePath(e) !in s.files ==> r == StepResult(s, [], None)
    ensures s.dirs <= r.state.dirs
  {
    var src := SourcePath(e);
    if src !in s.files then StepResult(s, [], None)
    else
      match ResolvePrefix(env.mtime, env.now, policy)
      case Unresolved(cause) => StepResult(s, [], Some(PrefixFailed(src, cause)))
      case Resolved(prefix, fellBack) =>
        Relocate(s, src, DestinationDir(source, e.name), DestinationPath(source, prefix, e.name),
                 if fellBack then [MtimeFallback(src)] else [], env)
  }

  /**
   * The rest of that body once the key folder `dir` and the target `dest` are
   * known: create the folder (an error here leaves the loop), then move the
   * file (an error here is logged).
   */
  function Relocate(s: FsState, src: Path, dir: Path, dest: Path, warning: seq<LogRecord>, env: Environment): (r: StepResult)
    requires WellFormed(s)
    ensures WellFormed(r.state)
    ensures r.failure.Some? ==> r.state == s
    ensures s.dirs <= r.state.dirs
  {
    var made := MakeDirsResult(s, dir, env.makedirsDenied);
    if made.error.Some? then StepResult(s, warning, Some(MakeDirsFailed(made.error.value)))
    else
      var moved := MoveResult(made.state, src, dest, env.moveRefused);
      if moved.error.None? then StepResult(moved.state, warning + [Moved(src, dest)], None)
      else StepResult(moved.state, warning + [MoveFailed(src, moved.error.value)], None)
  }

  /** The loop over the walk: each entry in turn until an interrupt or an exception. */
  function Run(s: FsState, source: Path, entries: seq<Entry>, envs: seq<Environment>, policy: CatchPolicy): (r: RunResult)
    requires WellFormed(s) && |envs| == |entries|
    ensures WellFormed(r.state)
    decreases |entries|
  {
    if entries == [] then RunResult(s, [], Completed)
    else if envs[0].interrupted then RunResult(s, [], Interrupted)
    else
      var st := Step(s, source, entries[0], envs[0], policy);
      if st.failure.Some? then RunResult(st.state, st.log, Raised(st.failure.value))
      else AfterLog(st.log, Run(st.state, source, entries[1..], envs[1..], policy))
  }

  /** `organize_by_extension(source_dir)` of the copy `variant`. */
  function Organize(s: FsState, source: Path, entries: seq<Entry>, envs: seq<Environment>, variant: Variant): (r: RunResult)
    requires WellFormed(s) && |envs| == |entries|
    ensures WellFormed(r.state)
  {
    if variant.checksSource && source !in s.dirs then RunResult(s, [], Raised(SourceNotFound(source)))
    // os.walk reports a top it cannot list to its (absent) onerror and yields nothing
    else if source !in s.dirs then RunResult(s, [], Completed)
    else Run(s, source, entries, envs, variant.mtimeCatch)
  }

  /**
   * auto_file_sorter.py's `organize_by_extension(source_dir, logfile)`: the
   * log file is a parameter that the body never reads.
   */
  function AutoSorterOrganize(s: FsState, source: Path, logfile: Option<string>, entries: seq<Entry>,
                              envs: seq<Environment>): (r: RunResult)
    requires WellFormed(s) && |envs| == |entries|
    ensures WellFormed(r.state)
  {
    Organize(s, source, entries, envs, AutoFileSorter)
  }

  /** One pass of the inner loop of `organize_by_extension` on the filesystem `fs`. */
  method HandleEntry(fs: FileSystem, source: Path, e: Entry, env: Environment, policy: CatchPolicy)
    returns (records: seq<LogRecord>, failure: Option<Error>)
    requires fs.Valid()
    modifies fs
    ensures fs.Valid()
    ensures StepResult(fs.State(), records, failure) == Step(old(fs.State()), source, e, env, policy)
  {
    records, failure := [], None;
    var src := SourcePath(e);
    if !fs.IsFile(src) {
      return;
    }
    var resolution := ResolvePrefix(env.mtime, env.now, policy);
    if resolution.Unresolved? {
      return [], Some(PrefixFailed(src, resolution.error));
    }
    if resolution.fellBack {
      records := [MtimeFallback(src)];
    }
    var destDir := DestinationDir(source, e.name);
    var made := fs.MakeDirs(destDir, env.makedirsDenied);
    if made.Some? {
      return records, Some(MakeDirsFailed(made.value));
    }
    var dest := DestinationPath(source, resolution.prefix, e.name);
    var moved := fs.Move(src, dest, env.moveRefused);
    if moved.None? {
      records := records + [Moved(src, dest)];
    } else {
      records := records + [MoveFailed(src, moved.value)];
    }
  }

  /** An interrupt before entry `i` ends the run from `i` on, with no change and no record. */
  lemma RunInterruptedAt(s: FsState, source: Path, entries: seq<Entry>, envs: seq<Environment>, i: nat,
                         policy: CatchPolicy)
    requires WellFormed(s) && |envs| == |entries| && i < |entries| && envs[i].interrupted
    ensures Run(s, source, entries[i..], envs[i..], policy) == RunResult(s, [], Interrupted)
  {
    assert envs[i..][0] == envs[i];
  }

  /** A step that fails at entry `i` ends the run from `i` on with that step's state and records. */
  lemma RunRaisesAt(s: FsState, source: Path, entries: seq<Entry>, envs: seq<Environment>, i: nat,
                    policy: CatchPolicy)
    requires WellFormed(s) && |envs| == |entries| && i < |entries| && !envs[i].interrupted
    requires Step(s, source, entries[i], envs[i], policy).failure.Some?
    ensures var st := Step(s, source, entries[i], envs[i], policy);
      Run(s, source, entries[i..], envs[i..], policy) == RunResult(st.state, st.log, Raised(st.failure.value))
  {
    assert entries[i..][0] == entries[i] && envs[i..][0] == envs[i];
  }

  /** A step that does not fail at entry `i` is followed by the run from `i + 1` on. */
  lemma RunContinuesAt(s: FsState, source: Path, entries: seq<Entry>, envs: seq<Environment>, i: nat,
                       policy: CatchPolicy)
    requires WellFormed(s) && |envs| == |entries| && i < |entries| && !envs[i].interrupted
    requires Step(s, source, entries[i], envs[i], policy).failure.None?
    ensures var st := Step(s, source, entries[i], envs[i], policy);
      Run(s, source, entries[i..], envs[i..], policy)
      == AfterLog(st.log, Run(st.state, source, entries[i + 1..], envs[i + 1..], policy))
  {
    assert entries[i..][0] == entries[i] && envs[i..][0] == envs[i];
    assert entries[i..][1..] == entries[i + 1..] && envs[i..][1..] == envs[i + 1..];
  }

  /** Records logged in two batches are the records of both, in order. */
  lemma AfterLogTwice(first: seq<LogRecord>, second: seq<LogRecord>, r: RunResult)
    ensures AfterLog(first, AfterLog(second, r)) == AfterLog(first + second, r)
  {
    assert first + (second + r.log) == (first + second) + r.log;
  }

  /** `organize_by_extension` run on the filesystem `fs`. */
  method OrganizeByExtension(fs: FileSystem, source: Path, entries: seq<Entry>, envs: seq<Environment>, variant: Variant)
    returns (outcome: Outcome, log: seq<LogRecord>)
    requires fs.Valid() && |envs| == |entries|
    modifies fs
    ensures fs.Valid()
    ensures RunResult(fs.State(), log, outcome) == Organize(old(fs.State()), source, entries, envs, variant)
  {
    ghost var goal := Organize(fs.State(), source, entries, envs, variant);
    log := [];
    if variant.checksSource && !fs.IsDir(source) {
      return Raised(SourceNotFound(source)), log;
    }
    if !fs.IsDir(source) {
      return Completed, log;
    }
    var policy := variant.mtimeCatch;
    assert entries[0..] == entries && envs[0..] == envs;
    var i := 0;
    while i < |entries|
      invariant 0 <= i <= |entries|
      invariant fs.Valid()
      invariant goal == AfterLog(log, Run(fs.State(), source, entries[i..], envs[i..], policy))
    {
      ghost var before := fs.State();
      if envs[i].interrupted {
        RunInterruptedAt(before, source, entries, envs, i, policy);
        assert log + [] == log;
        return Interrupted, log;
      }
      var records, failure := HandleEntry(fs, source, entries[i], envs[i], policy);
      if failure.Some? {
        RunRaisesAt(before, source, entries, envs, i, policy);
        return Raised(failure.value), log + records;
      }
      RunContinuesAt(before, source, entries, envs, i, policy);
      AfterLogTwice(log, records, Run(fs.State(), source, entries[i + 1..], envs[i + 1..], policy));
      log := log + records;
      i := i + 1;
    }
    assert entries[i..] == [] && envs[i..] == [];
    assert log + [] == log;
    return Completed, log;
  }

  /** The exit status of `main` after `organize_by_extension` ended with `o`. */
  function ExitCode(o: Outcome): (code: int)
    ensures code == 0 || code == 1
    ensures code == 1 <==> o.Raised?
  {
    match o
    case Completed => 0
    case Interrupted => 0  // "shutting down gracefully", sys.exit(0)
    case Raised(_) => 1    // logged as critical, sys.exit(1)
  }
}
