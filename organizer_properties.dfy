/**
 * What the organizer promises, stated over the pure model of a run: the
 * source check, what one successful or failed move does, failure isolation,
 * where moved files land, and how the three copies relate.
 */
module OrganizerProperties {

  import opened Wrappers
  import opened Paths
  import opened Naming
  import opened YearMonthPrefix
  import opened HostFilesystem
  import opened Organizer

  /** A copy with the source check refuses a missing or non-directory source before touching anything. */
  lemma MissingSourceRaisesBeforeAnyChange(s: FsState, source: Path, entries: seq<Entry>, envs: seq<Environment>, variant: Variant)
    requires WellFormed(s) && |envs| == |entries|
    requires variant.checksSource && source !in s.dirs
    ensures var r := Organize(s, source, entries, envs, variant);
      r.outcome == Raised(SourceNotFound(source)) && r.state == s && r.log == [] && ExitCode(r.outcome) == 1
  {
  }

  /** auto_file_sorter.py has no source check: a source it cannot list is a run that does nothing and succeeds. */
  lemma UnlistableSourceIsSilentForAutoSorter(s: FsState, source: Path, entries: seq<Entry>, envs: seq<Environment>)
    requires WellFormed(s) && |envs| == |entries| && source !in s.dirs
    ensures var r := Organize(s, source, entries, envs, AutoFileSorter);
      r.outcome == Completed && r.state == s && r.log == [] && ExitCode(r.outcome) == 0
  {
  }

  /** A step on a regular file whose prefix resolves is the folder creation and the move. */
  lemma StepOnFile(s: FsState, source: Path, e: Entry, env: Environment, policy: CatchPolicy)
    requires WellFormed(s) && SourcePath(e) in s.files && ResolvePrefix(env.mtime, env.now, policy).Resolved?
    ensures var res := ResolvePrefix(env.mtime, env.now, policy);
      Step(s, source, e, env, policy)
      == Relocate(s, SourcePath(e), DestinationDir(source, e.name), DestinationPath(source, res.prefix, e.name),
                  if res.fellBack then [MtimeFallback(SourcePath(e))] else [], env)
  {
  }

  /** A folder whose parent exists: creating it adds that one folder. */
  lemma OneNewFolder(s: FsState, dir: Path)
    requires WellFormed(s) && dir != [] && Parent(dir) in s.dirs
    ensures s.dirs + Ancestry(dir) == s.dirs + {dir}
  {
    AncestorsOfDir(s, Parent(dir));
    forall q | q in Ancestry(dir) && q != dir
      ensures q in s.dirs
    {
      assert q == Parent(dir)[..|q|];
    }
  }

  /** Folder creation and move add at most one record after the warning. */
  lemma RelocateLength(s: FsState, src: Path, dir: Path, dest: Path, warning: seq<LogRecord>, env: Environment)
    requires WellFormed(s)
    ensures var st := Relocate(s, src, dir, dest, warning, env);
      st.log[..|warning|] == warning
      && (st.failure.None? ==> |st.log| == |warning| + 1)
      && (st.failure.Some? ==> st.log == warning)
  {
  }

  /**
   * Folder creation and move, when they log a move: the file is at `dest` and
   * no longer at `src`, with the same content; every other path is unchanged;
   * the only new folder is `dir`.
   */
  lemma RelocateMovesFile(s: FsState, src: Path, dir: Path, dest: Path, warning: seq<LogRecord>, env: Environment)
    requires WellFormed(s) && dir != [] && Parent(dir) in s.dirs && src != dest
    requires var st := Relocate(s, src, dir, dest, warning, env);
      st.failure.None? && |st.log| == |warning| + 1 && st.log[|st.log| - 1].Moved?
    ensures var st := Relocate(s, src, dir, dest, warning, env);
      && st.log[|st.log| - 1] == Moved(src, dest)
      && src in s.files && src !in st.state.files
      && dest in st.state.files && st.state.files[dest] == s.files[src]
      && (forall p :: p != src && p != dest ==>
            (p in st.state.files <==> p in s.files) && (p in s.files ==> st.state.files[p] == s.files[p]))
      && st.state.dirs == s.dirs + {dir}
  {
    var made := MakeDirsResult(s, dir, env.makedirsDenied);
    var moved := MoveResult(made.state, src, dest, env.moveRefused);
    assert made.error.None? && moved.error.None?;
    MoveKeepsOtherPaths(made.state, src, dest, env.moveRefused);
    OneNewFolder(s, dir);
  }

  /** The walk path of an entry is never its destination: the last components differ. */
  lemma SourceIsNotDestination(source: Path, e: Entry, prefix: string)
    ensures SourcePath(e) != DestinationPath(source, prefix, e.name)
  {
    var src, dest := SourcePath(e), DestinationPath(source, prefix, e.name);
    assert src[|src| - 1] == e.name;
    assert dest[|dest| - 1] == NewName(prefix, e.name);
  }

  /**
   * A step that logs a move took the file away from where the walk found it
   * and put the same content at `source/<key>/<prefix>-<name>`; nothing else
   * changed except that the key folder now exists.
   */
  lemma StepMovesFile(s: FsState, source: Path, e: Entry, env: Environment, policy: CatchPolicy)
    requires WellFormed(s) && source in s.dirs
    requires var st := Step(s, source, e, env, policy);
      st.failure.None? && st.log != [] && st.log[|st.log| - 1].Moved?
    ensures var st := Step(s, source, e, env, policy);
      var src, dest := SourcePath(e), st.log[|st.log| - 1].dest;
      && st.log[|st.log| - 1].src == src
      && src in s.files && src !in st.state.files
      && dest in st.state.files && st.state.files[dest] == s.files[src]
      && |dest| == |source| + 2 && dest[..|source| + 1] == DestinationDir(source, e.name)
      && IsPrefixedName(e.name, dest[|source| + 1])
      && (forall p :: p != src && p != dest ==>
            (p in st.state.files <==> p in s.files) && (p in s.files ==> st.state.files[p] == s.files[p]))
      && st.state.dirs == s.dirs + {DestinationDir(source, e.name)}
  {
    var res := ResolvePrefix(env.mtime, env.now, policy);
    assert SourcePath(e) in s.files && res.Resolved?;
    StepOnFile(s, source, e, env, policy);
    var warning := if res.fellBack then [MtimeFallback(SourcePath(e))] else [];
    var dir, dest := DestinationDir(source, e.name), DestinationPath(source, res.prefix, e.name);
    RelocateLength(s, SourcePath(e), dir, dest, warning, env);
    SourceIsNotDestination(source, e, res.prefix);
    assert Parent(dir) == source;
    RelocateMovesFile(s, SourcePath(e), dir, dest, warning, env);
    NewNameIsPrefixed(res.prefix, e.name);
  }

  /** `record` logs that moving `src` failed. */
  predicate FailedMoveOf(record: LogRecord, src: Path)
  {
    record.MoveFailed? && record.src == src
  }

  /** Folder creation that succeeds, then a refused move: the failure is logged and nothing fails. */
  lemma RelocateRefused(s: FsState, src: Path, dir: Path, dest: Path, warning: seq<LogRecord>, env: Environment)
    requires WellFormed(s) && MakeDirsResult(s, dir, env.makedirsDenied).error.None? && env.moveRefused
    ensures var st := Relocate(s, src, dir, dest, warning, env);
      && st.failure.None?
      && st.state.files == s.files
      && st.log != [] && FailedMoveOf(st.log[|st.log| - 1], src)
  {
    var made := MakeDirsResult(s, dir, env.makedirsDenied);
    assert MoveResult(made.state, src, dest, env.moveRefused).error.Some?;
  }

  /** A refused move is logged, leaves the file where it was, and does not stop the run. */
  lemma MoveRefusalIsContained(s: FsState, source: Path, e: Entry, env: Environment,
                               policy: CatchPolicy)
    requires WellFormed(s) && SourcePath(e) in s.files
    requires ResolvePrefix(env.mtime, env.now, policy).Resolved?
    requires MakeDirsResult(s, DestinationDir(source, e.name), env.makedirsDenied).error.None?
    requires env.moveRefused
    ensures var st := Step(s, source, e, env, policy);
      && st.failure.None?
      && st.state.files == s.files
      && st.log != [] && FailedMoveOf(st.log[|st.log| - 1], SourcePath(e))
  {
    StepOnFile(s, source, e, env, policy);
    var res := ResolvePrefix(env.mtime, env.now, policy);
    RelocateRefused(s, SourcePath(e), DestinationDir(source, e.name), DestinationPath(source, res.prefix, e.name),
                    if res.fellBack then [MtimeFallback(SourcePath(e))] else [], env);
  }

  /** The host lets the run go on: no interrupt, no refused folder, and an mtime the copy can use. */
  predicate Calm(env: Environment, policy: CatchPolicy)
  {
    && !env.interrupted && !env.makedirsDenied
    && (env.mtime.Stat? ==> InDatetimeRange(env.mtime.time))
    && (env.mtime.StatRaised? ==> Catches(policy, env.mtime.kind))
  }

  /** No file sits where the key folder of a walked entry must go. */
  ghost predicate KeyFoldersFree(s: FsState, source: Path, entries: seq<Entry>)
  {
    forall i :: 0 <= i < |entries| ==> DestinationDir(source, entries[i].name) !in s.files
  }

  /** When the key folder of `name` is not a file, no file blocks that folder. */
  lemma KeyFolderUnblocked(s: FsState, source: Path, name: string)
    requires WellFormed(s) && source in s.dirs && DestinationDir(source, name) !in s.files
    ensures !BlockedByFile(s, DestinationDir(source, name))
  {
    var dir := DestinationDir(source, name);
    AncestorsOfDir(s, source);
    forall j | 1 <= j <= |dir|
      ensures dir[..j] !in s.files
    {
      if j <= |source| {
        assert dir[..j] == source[..j];
      } else {
        assert dir[..j] == dir;
      }
    }
  }

  /** Folder creation and move fail exactly when the folder creation fails. */
  lemma RelocateFailsOnlyInMakeDirs(s: FsState, src: Path, dir: Path, dest: Path, warning: seq<LogRecord>,
                                    env: Environment)
    requires WellFormed(s)
    ensures Relocate(s, src, dir, dest, warning, env).failure.Some?
        <==> MakeDirsResult(s, dir, env.makedirsDenied).error.Some?
  {
  }

  /** Under a calm host, and with no file where the entry's key folder goes, a step never raises. */
  lemma StepCannotRaise(s: FsState, source: Path, e: Entry, env: Environment, policy: CatchPolicy)
    requires WellFormed(s) && source in s.dirs && DestinationDir(source, e.name) !in s.files && Calm(env, policy)
    ensures Step(s, source, e, env, policy).failure.None?
  {
    if SourcePath(e) in s.files {
      var res := ResolvePrefix(env.mtime, env.now, policy);
      assert res.Resolved?;
      StepOnFile(s, source, e, env, policy);
      KeyFolderUnblocked(s, source, e.name);
      RelocateFailsOnlyInMakeDirs(s, SourcePath(e), DestinationDir(source, e.name),
                                  DestinationPath(source, res.prefix, e.name),
                                  if res.fellBack then [MtimeFallback(SourcePath(e))] else [], env);
    }
  }

  /** A step only moves files into a key folder, so the key folders stay free. */
  lemma StepKeepsKeyFoldersFree(s: FsState, source: Path, e: Entry, env: Environment, policy: CatchPolicy,
                                entries: seq<Entry>)
    requires WellFormed(s) && KeyFoldersFree(s, source, entries)
    ensures KeyFoldersFree(Step(s, source, e, env, policy).state, source, entries)
  {
    StepAddsOnlyKeyFolderFiles(s, source, e, env, policy);
    var after := Step(s, source, e, env, policy).state;
    forall i | 0 <= i < |entries|
      ensures DestinationDir(source, entries[i].name) !in after.files
    {
      assert |DestinationDir(source, entries[i].name)| == |source| + 1;
    }
  }

  /** Folder creation and move create no file except the target, and no new content. */
  lemma RelocateAddsOnlyTarget(s: FsState, src: Path, dir: Path, dest: Path, warning: seq<LogRecord>, env: Environment)
    requires WellFormed(s)
    ensures var st := Relocate(s, src, dir, dest, warning, env);
      && (forall p :: p in st.state.files && p !in s.files ==> p == dest)
      && st.state.files.Values <= s.files.Values
  {
    var made := MakeDirsResult(s, dir, env.makedirsDenied);
    MoveAddsOnlyTarget(made.state, src, dest, env.moveRefused);
  }

  /** A step only creates a file two levels below the source, in the key folder of the entry. */
  lemma StepAddsOnlyKeyFolderFiles(s: FsState, source: Path, e: Entry, env: Environment, policy: CatchPolicy)
    requires WellFormed(s)
    ensures var st := Step(s, source, e, env, policy);
      forall p :: p in st.state.files && p !in s.files ==>
        |p| == |source| + 2 && p[..|source| + 1] == DestinationDir(source, e.name)
  {
    var res := ResolvePrefix(env.mtime, env.now, policy);
    if SourcePath(e) in s.files && res.Resolved? {
      StepOnFile(s, source, e, env, policy);
      RelocateAddsOnlyTarget(s, SourcePath(e), DestinationDir(source, e.name),
                             DestinationPath(source, res.prefix, e.name),
                             if res.fellBack then [MtimeFallback(SourcePath(e))] else [], env);
    }
  }

  /** A step never creates content: every file afterwards holds what some file held before. */
  lemma StepInventsNoContent(s: FsState, source: Path, e: Entry, env: Environment, policy: CatchPolicy)
    requires WellFormed(s)
    ensures Step(s, source, e, env, policy).state.files.Values <= s.files.Values
  {
    var res := ResolvePrefix(env.mtime, env.now, policy);
    if SourcePath(e) in s.files && res.Resolved? {
      StepOnFile(s, source, e, env, policy);
      RelocateAddsOnlyTarget(s, SourcePath(e), DestinationDir(source, e.name),
                             DestinationPath(source, res.prefix, e.name),
                             if res.fellBack then [MtimeFallback(SourcePath(e))] else [], env);
    }
  }

  /**
   * Failure isolation: refused moves never end a run. When the host neither
   * interrupts, nor refuses folders, nor gives unusable mtimes, and no file
   * occupies the key folder of a walked entry, the run completes, whatever
   * moves fail.
   */
  lemma {:induction false} MoveFailuresNeverAbort(s: FsState, source: Path, entries: seq<Entry>, envs: seq<Environment>,
                                                  policy: CatchPolicy)
    requires WellFormed(s) && |envs| == |entries| && source in s.dirs && KeyFoldersFree(s, source, entries)
    requires forall i :: 0 <= i < |envs| ==> Calm(envs[i], policy)
    ensures Run(s, source, entries, envs, policy).outcome == Completed
    ensures ExitCode(Run(s, source, entries, envs, policy).outcome) == 0
    decreases |entries|
  {
    if entries != [] {
      var st := Step(s, source, entries[0], envs[0], policy);
      StepCannotRaise(s, source, entries[0], envs[0], policy);
      StepKeepsKeyFoldersFree(s, source, entries[0], envs[0], policy, entries);
      assert forall i :: 0 <= i < |envs[1..]| ==> envs[1..][i] == envs[i + 1];
      assert forall i :: 0 <= i < |entries[1..]| ==> entries[1..][i] == entries[i + 1];
      MoveFailuresNeverAbort(st.state, source, entries[1..], envs[1..], policy);
    }
  }

  /**
   * A file whose name is its own key, lying directly in the source (such as
   * `no_extension`), sits where its key folder must go: `makedirs` raises
   * outside the `try` and the whole run ends with exit status 1.
   */
  lemma {:induction false} FileNamedLikeItsKeyAbortsRun(s: FsState, source: Path, entries: seq<Entry>,
                                                        envs: seq<Environment>, variant: Variant)
    requires WellFormed(s) && |envs| == |entries| && source in s.dirs
    requires entries != [] && entries[0].root == source && ExtensionKey(entries[0].name) == entries[0].name
    requires SourcePath(entries[0]) in s.files && Calm(envs[0], variant.mtimeCatch)
    ensures var r := Organize(s, source, entries, envs, variant);
      r.outcome == Raised(MakeDirsFailed(FileExists(SourcePath(entries[0])))) && r.state == s
      && ExitCode(r.outcome) == 1
  {
    assert DestinationDir(source, entries[0].name) == SourcePath(entries[0]);
  }

  /** The file `no_extension` in the source is such a file. */
  lemma SentinelFileAbortsRun(s: FsState, source: Path, envs: seq<Environment>, variant: Variant)
    requires WellFormed(s) && |envs| == 1 && source in s.dirs
    requires source + [NoExtension] in s.files && Calm(envs[0], variant.mtimeCatch)
    ensures ExitCode(Organize(s, source, [Entry(source, NoExtension)], envs, variant).outcome) == 1
  {
    var name := NoExtension;
    forall i | 0 <= i < |name| - 1
      ensures !IsExtensionDot(name, i)
    {
      assert name[i] != '.';
    }
    KeyWithoutExtension(name);
    FileNamedLikeItsKeyAbortsRun(s, source, [Entry(source, NoExtension)], envs, variant);
  }

  /** `renamed` is `name` behind a `YYYY-MM` prefix and a hyphen. */
  predicate IsPrefixedName(name: string, renamed: string)
  {
    && |renamed| == |name| + 8
    && MatchesPrefixPattern(renamed[..7]) && renamed[7] == '-'
    && renamed[8..] == name
  }

  /** The new name of a file is its old name behind a year-month prefix. */
  lemma NewNameIsPrefixed(prefix: string, name: string)
    requires MatchesPrefixPattern(prefix)
    ensures IsPrefixedName(name, NewName(prefix, name))
  {
    var n := NewName(prefix, name);
    assert n[..7] == prefix;
    assert n[|n| - |name|..] == name;
  }

  /**
   * Every move a run logs went into the key folder of the moved file's name,
   * under that name behind a year-month prefix.
   */
  ghost predicate LandsInKeyFolder(source: Path, record: LogRecord)
  {
    record.Moved? ==>
      && record.src != []
      && |record.dest| == |source| + 2
      && record.dest[..|source| + 1] == DestinationDir(source, record.src[|record.src| - 1])
      && IsPrefixedName(record.src[|record.src| - 1], record.dest[|source| + 1])
  }

  /** Every record of `log` satisfies `LandsInKeyFolder`. */
  ghost predicate AllLandInKeyFolders(source: Path, log: seq<LogRecord>)
  {
    forall k :: 0 <= k < |log| ==> LandsInKeyFolder(source, log[k])
  }

  /** A move of an entry to its destination lands in the entry's key folder. */
  lemma MoveRecordLands(source: Path, e: Entry, prefix: string)
    requires MatchesPrefixPattern(prefix)
    ensures LandsInKeyFolder(source, Moved(SourcePath(e), DestinationPath(source, prefix, e.name)))
  {
    var src := SourcePath(e);
    assert src[|src| - 1] == e.name;
    NewNameIsPrefixed(prefix, e.name);
  }

  /** Every move `log` records is the move from `src` to `dest`. */
  predicate MovesOnly(log: seq<LogRecord>, src: Path, dest: Path)
  {
    forall k :: 0 <= k < |log| && log[k].Moved? ==> log[k] == Moved(src, dest)
  }

  /** A fallback warning, or none, records no move. */
  lemma WarningMovesNothing(path: Path, src: Path, dest: Path)
    ensures MovesOnly([], src, dest) && MovesOnly([MtimeFallback(path)], src, dest)
  {
  }

  /** Folder creation and move log no move other than the one from `src` to `dest`. */
  lemma RelocateMovesOnly(s: FsState, src: Path, dir: Path, dest: Path, warning: seq<LogRecord>, env: Environment)
    requires WellFormed(s) && MovesOnly(warning, src, dest)
    ensures MovesOnly(Relocate(s, src, dir, dest, warning, env).log, src, dest)
  {
    var made := MakeDirsResult(s, dir, env.makedirsDenied);
    if made.error.None? {
      var moved := MoveResult(made.state, src, dest, env.moveRefused);
      var record := if moved.error.None? then Moved(src, dest) else MoveFailed(src, moved.error.value);
      forall k | 0 <= k < |warning + [record]| && (warning + [record])[k].Moved?
        ensures (warning + [record])[k] == Moved(src, dest)
      {
        if k < |warning| {
          assert (warning + [record])[k] == warning[k];
        }
      }
    }
  }

  /** A log whose only moves are those of an entry to its destination lands in key folders. */
  lemma MovesOnlyOfEntryLand(source: Path, e: Entry, prefix: string, log: seq<LogRecord>)
    requires MatchesPrefixPattern(prefix)
    requires MovesOnly(log, SourcePath(e), DestinationPath(source, prefix, e.name))
    ensures AllLandInKeyFolders(source, log)
  {
    MoveRecordLands(source, e, prefix);
  }

  lemma StepLandsInKeyFolder(s: FsState, source: Path, e: Entry, env: Environment, policy: CatchPolicy)
    requires WellFormed(s)
    ensures AllLandInKeyFolders(source, Step(s, source, e, env, policy).log)
  {
    var res := ResolvePrefix(env.mtime, env.now, policy);
    if SourcePath(e) in s.files && res.Resolved? {
      StepOnFile(s, source, e, env, policy);
      var src, dest := SourcePath(e), DestinationPath(source, res.prefix, e.name);
      var warning := if res.fellBack then [MtimeFallback(src)] else [];
      WarningMovesNothing(src, src, dest);
      RelocateMovesOnly(s, src, DestinationDir(source, e.name), dest, warning, env);
      MovesOnlyOfEntryLand(source, e, res.prefix, Step(s, source, e, env, policy).log);
    }
  }

  /** Two logs whose records all land make one whose records all land. */
  lemma ConcatenatedRecordsLand(source: Path, first: seq<LogRecord>, second: seq<LogRecord>)
    requires AllLandInKeyFolders(source, first) && AllLandInKeyFolders(source, second)
    ensures AllLandInKeyFolders(source, first + second)
  {
    forall k | 0 <= k < |first + second|
      ensures LandsInKeyFolder(source, (first + second)[k])
    {
      if k < |first| {
        assert (first + second)[k] == first[k];
      } else {
        assert (first + second)[k] == second[k - |first|];
      }
    }
  }

  lemma {:induction false} MovesLandInKeyFolders(s: FsState, source: Path, entries: seq<Entry>, envs: seq<Environment>,
                                                 policy: CatchPolicy)
    requires WellFormed(s) && |envs| == |entries|
    ensures AllLandInKeyFolders(source, Run(s, source, entries, envs, policy).log)
    decreases |entries|
  {
    if entries != [] && !envs[0].interrupted {
      var st := Step(s, source, entries[0], envs[0], policy);
      StepLandsInKeyFolder(s, source, entries[0], envs[0], policy);
      if st.failure.None? {
        var rest := Run(st.state, source, entries[1..], envs[1..], policy);
        MovesLandInKeyFolders(st.state, source, entries[1..], envs[1..], policy);
        assert Run(s, source, entries, envs, policy).log == st.log + rest.log;
        ConcatenatedRecordsLand(source, st.log, rest.log);
      }
    }
  }

  /** Moves never invent content: every file after a run holds content some file held before it. */
  lemma {:induction false} RunInventsNoContent(s: FsState, source: Path, entries: seq<Entry>, envs: seq<Environment>,
                                               policy: CatchPolicy)
    requires WellFormed(s) && |envs| == |entries|
    ensures Run(s, source, entries, envs, policy).state.files.Values <= s.files.Values
    decreases |entries|
  {
    if entries != [] && !envs[0].interrupted {
      var st := Step(s, source, entries[0], envs[0], policy);
      StepInventsNoContent(s, source, entries[0], envs[0], policy);
      if st.failure.None? {
        RunInventsNoContent(st.state, source, entries[1..], envs[1..], policy);
      }
    }
  }

  /** When no mtime lookup raises anything but an `OSError`, the two catch policies give the same run. */
  lemma {:induction false} PoliciesAgreeWithoutForeignExceptions(s: FsState, source: Path, entries: seq<Entry>,
                                                                 envs: seq<Environment>)
    requires WellFormed(s) && |envs| == |entries|
    requires forall i :: 0 <= i < |envs| && envs[i].mtime.StatRaised? ==> envs[i].mtime.kind == OsErrorKind
    ensures Run(s, source, entries, envs, CatchOsError) == Run(s, source, entries, envs, CatchAnyException)
    decreases |entries|
  {
    if entries != [] && !envs[0].interrupted {
      PoliciesAgreeOnOsErrors(envs[0].mtime, envs[0].now);
      var st := Step(s, source, entries[0], envs[0], CatchOsError);
      if st.failure.None? {
        assert forall i :: 0 <= i < |envs[1..]| ==> envs[1..][i] == envs[i + 1];
        PoliciesAgreeWithoutForeignExceptions(st.state, source, entries[1..], envs[1..]);
      }
    }
  }

  /**
   * On a source that is a directory and lookups that raise only `OSError`,
   * auto_file_sorter.py does what extension_file_organizer.py does.
   */
  lemma AutoSorterAgreesOnDirectories(s: FsState, source: Path, entries: seq<Entry>, envs: seq<Environment>)
    requires WellFormed(s) && |envs| == |entries| && source in s.dirs
    requires forall i :: 0 <= i < |envs| && envs[i].mtime.StatRaised? ==> envs[i].mtime.kind == OsErrorKind
    ensures Organize(s, source, entries, envs, AutoFileSorter)
         == Organize(s, source, entries, envs, ExtensionFileOrganizer)
  {
    PoliciesAgreeWithoutForeignExceptions(s, source, entries, envs);
  }

  /** The `logfile` argument of auto_file_sorter.py changes nothing about a run. */
  lemma LogfileHasNoEffect(s: FsState, source: Path, logfile: Option<string>, otherLogfile: Option<string>,
                           entries: seq<Entry>, envs: seq<Environment>)
    requires WellFormed(s) && |envs| == |entries|
    ensures AutoSorterOrganize(s, source, logfile, entries, envs)
         == AutoSorterOrganize(s, source, otherLogfile, entries, envs)
  {
  }

  /** The archived 1.0.0 copy runs the same pipeline as 1.0.1. */
  lemma ArchivedCopyAgrees(s: FsState, source: Path, entries: seq<Entry>, envs: seq<Environment>)
    requires WellFormed(s) && |envs| == |entries|
    ensures Organize(s, source, entries, envs, ArchivedExtensionFileOrganizer)
         == Organize(s, source, entries, envs, ExtensionFileOrganizer)
  {
  }
}
