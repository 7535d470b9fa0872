# Extension file organizer, modelled in Dafny

The repository's one pipeline is **classify, rename, move**. It walks a source
directory. For each regular file it:

- derives an *extension key*: the lowercased text after the last dot, or
  `no_extension`;
- creates the folder `source/<key>`;
- moves the file there under the name `<YYYY-MM>-<name>`, where `YYYY-MM` comes
  from the file's modification time.

The pipeline exists in three copies:

- `extension_file_organizer.py` (1.0.1);
- `archive/v1.0.0/extension_file_organizer.py` (1.0.0);
- `auto_file_sorter.py`.

They differ in two switches. These are the fields of `Organizer.Variant`:

- `checksSource`: whether a source that is not a directory raises
  `FileNotFoundError` before anything else happens;
- `mtimeCatch`: whether the fallback to the current time catches only `OSError`
  or any exception.

The model has these files:

- `wrappers.dfy`: the `Option` type.
- `paths.dfy`: paths as sequences of components.
- `naming.dfy`: the naming rules as pure functions. `os.path.splitext` follows
  its POSIX definition. `str.lstrip` and ASCII `str.lower` are included.
- `naming_examples.dfy`: the key rule on a few typical names (an uppercase
  extension, a double extension, no dot, a dotfile, a trailing dot).
- `prefix.dfy`: `get_year_month_prefix`. It covers the `%Y-%m` formatting and its
  inverse, the exception fallback, and the range that `datetime` accepts.
- `filesystem.dfy`: the host filesystem. The class `FileSystem` has a map from
  paths to contents and a set of directories. Its methods `MakeDirs`
  (`os.makedirs(..., exist_ok=True)`) and `Move` (`shutil.move`) are proved equal
  to the pure functions `MakeDirsResult` and `MoveResult`.
- `organizer.dfy`: the loop of `organize_by_extension`. The pure functions `Step`,
  `Run` and `Organize` specify it. The method `OrganizeByExtension` runs it on a
  `FileSystem` and is proved equal to `Organize`. `ExitCode` is the exit status
  that `main` derives from how the run ended.
- `organizer_properties.dfy`: what a run promises, stated as lemmas over the
  functions.

`os.walk` is lazy, and it is foreign code. The model takes what it yields as an
input: a sequence of `(root, name)` entries. Beside each entry is an
`Environment`, which holds what the host does while that entry is handled:

- whether a `KeyboardInterrupt` arrives;
- the answer of `os.path.getmtime`, already converted to a year and month, or the
  exception it raised;
- the current time that `datetime.now()` would give, should the prefix fall back
  to it; each entry has its own, so a run that crosses a month boundary can
  give two fallback prefixes;
- whether the host refuses the folder creation;
- whether the host refuses the move.

One might expect `no_extension` to be reserved for names without an extension.
It is not, and the model follows the code. The key is `no_extension` exactly
when the name has no extension, **or** when its extension is `no_extension` in
any letter case. So
`notes.NO_EXTENSION` shares the folder of the files without an extension.
`NamingExamples.SentinelIsAlsoAnExtension` states this.

## Model

| member | source | states |
|---|---|---|
| Naming.SplitExt | extension_file_organizer.py:88 | `os.path.splitext`: the two parts concatenate to the name; the extension is empty, or it starts with its only dot; it holds no separator |
| Naming.LStrip | extension_file_organizer.py:88 | `lstrip('.')`: the result is a suffix of the input that does not start with a dot, and everything removed was a dot |
| Naming.AsciiLower | extension_file_organizer.py:88 | `lower()`: same length, each character lowered, no capital letter left |
| Naming.ExtensionKey | extension_file_organizer.py:88 | the key is never empty, is lower case, and holds no dot and no separator |
| Naming.LoweredExtensionIsKeyShaped | extension_file_organizer.py:88 | the stripped, lowercased extension, when not empty, is lower case and holds no dot and no separator |
| Naming.SentinelIsKeyShaped | extension_file_organizer.py:88 | the fallback `no_extension` is itself a valid key |
| Naming.SplitAtExtensionDot | extension_file_organizer.py:88 | splitext splits at the last dot of the name, provided a non-dot character precedes that dot |
| Naming.KeyOfExtension | extension_file_organizer.py:88 | a name with an extension dot followed by text has, as its key, that text lowercased |
| Naming.KeyWithoutExtension | extension_file_organizer.py:88 | a name with no extension dot before its last character has the key `no_extension`; this covers no dot, only leading dots, and a trailing dot |
| NamingExamples.UppercaseExtensionExample | extension_file_organizer.py:88 | `IMAGE.JPG` has the key `jpg` |
| NamingExamples.DoubleExtensionExample | extension_file_organizer.py:88 | `archive.tar.gz` has the key `gz` |
| NamingExamples.PlainNameExample | extension_file_organizer.py:88 | `README` has the key `no_extension` |
| NamingExamples.DotfileExample | extension_file_organizer.py:88 | `.bashrc` has the key `no_extension` |
| NamingExamples.TrailingDotExample | extension_file_organizer.py:88 | `file.` has the key `no_extension` |
| NamingExamples.SentinelIsAlsoAnExtension | extension_file_organizer.py:88 | `notes.NO_EXTENSION` also has the key `no_extension` |
| Naming.DestinationDir | extension_file_organizer.py:89 | the destination folder lies directly inside the source, under the key of the name; the walk root plays no part |
| Naming.NewName | extension_file_organizer.py:91 | the new name is the prefix, a hyphen, then the original name; the original name is a proper suffix of it |
| Organizer.SourcePath | extension_file_organizer.py:84 | `os.path.join(root, name)`: the walk path lies directly inside the walk root and ends with the file's name |
| Naming.DestinationPath | extension_file_organizer.py:89-92 | the destination lies directly inside the key folder, under the new name |
| YearMonthPrefix.Format | extension_file_organizer.py:66 | `strftime("%Y-%m")` always gives four digits, a hyphen, and a month from `01` to `12` |
| YearMonthPrefix.FormatThenParse | extension_file_organizer.py:66 | the prefix reads back as exactly the year and month it was made from |
| YearMonthPrefix.ParseThenFormat | extension_file_organizer.py:66 | every string of the prefix shape that reads back is the prefix of the time it names |
| YearMonthPrefix.Catches | extension_file_organizer.py:63 | `except OSError` catches an `OSError` and nothing else; `except Exception` (auto_file_sorter.py:62) catches every lookup exception |
| YearMonthPrefix.ResolvePrefix | extension_file_organizer.py:61-66 | a prefix exists exactly when the mtime is in the range `datetime` accepts, or when the lookup raised an exception this copy catches; it falls back exactly when the lookup raised |
| YearMonthPrefix.ResolvedPrefixNamesTimeUsed | extension_file_organizer.py:61-66 | a resolved prefix names the mtime, or the current time when the lookup fell back |
| YearMonthPrefix.CatchAllNeverPropagatesLookup | auto_file_sorter.py:60-65 | with `except Exception`, the only way the prefix can fail is a timestamp out of range |
| YearMonthPrefix.PoliciesAgreeOnOsErrors | archive/v1.0.0/extension_file_organizer.py:56-61 | the two catch policies give the same prefix unless the lookup raises something other than `OSError` |
| HostFilesystem.MakeDirsResult | extension_file_organizer.py:90 | `makedirs(exist_ok=True)` succeeds exactly when the folder exists already, or when no file blocks the path and the host allows it; on success exactly the missing ancestors are added; on an error nothing changes |
| HostFilesystem.MakeDirsIsIdempotent | extension_file_organizer.py:90 | making a folder again, once made, succeeds and changes nothing |
| HostFilesystem.MoveResult | extension_file_organizer.py:94 | the move succeeds exactly when the source is a file, the target's folder exists, the target is not a folder, and the host agrees; then the content is at the target and not at the source, and the folders are unchanged; on an error nothing changes |
| HostFilesystem.MoveKeepsOtherPaths | extension_file_organizer.py:94 | a move leaves every path other than its source and target as it was |
| HostFilesystem.MoveAddsOnlyTarget | extension_file_organizer.py:94 | a move creates no file except its target, and no content that no file held before |
| HostFilesystem.FileSystem.IsDir | extension_file_organizer.py:79 | `os.path.isdir` holds exactly for an existing directory, which is then not a file |
| HostFilesystem.FileSystem.IsFile | extension_file_organizer.py:85 | `os.path.isfile` holds exactly for an existing regular file, which is then not a directory and sits in one |
| HostFilesystem.FileSystem.MakeDirs | extension_file_organizer.py:90 | the folder creation on the filesystem object has exactly the effect and error of `MakeDirsResult` |
| HostFilesystem.FileSystem.Move | extension_file_organizer.py:94 | the move on the filesystem object has exactly the effect and error of `MoveResult` |
| Organizer.Step | extension_file_organizer.py:84-97 | one entry: a path that is not a regular file is skipped with no change and no log record; a failure leaves the filesystem as it was; folders are never removed |
| Organizer.Relocate | extension_file_organizer.py:90-97 | folder creation then move: the filesystem stays well-formed, a failure leaves it as it was, and no folder is removed |
| Organizer.Run | extension_file_organizer.py:82-97 | the loop keeps the filesystem well-formed |
| Organizer.Organize | extension_file_organizer.py:79-97 | the whole call keeps the filesystem well-formed |
| Organizer.HandleEntry | extension_file_organizer.py:84-97 | one pass of the loop body on the filesystem object has the new state, log records and failure that `Step` gives |
| Organizer.RunInterruptedAt | extension_file_organizer.py:82-84 | proof helper, `Run`'s own equation at index `i`: an interrupt before entry `i` ends the run from `i` on, with no change and no record |
| Organizer.RunRaisesAt | extension_file_organizer.py:87-90 | proof helper, `Run`'s own equation at index `i`: a step that raises at entry `i` ends the run from `i` on, with that step's state and records |
| Organizer.RunContinuesAt | extension_file_organizer.py:82-97 | proof helper, `Run`'s own equation at index `i`: a step that does not raise at entry `i` is followed by the run from `i + 1` on |
| Organizer.OrganizeByExtension | extension_file_organizer.py:79-97 | the loop on the filesystem object ends in the state, log and outcome that `Organize` gives |
| Organizer.AutoSorterOrganize | auto_file_sorter.py:68-95 | the `logfile` variant keeps the filesystem well-formed |
| Organizer.ExitCode | extension_file_organizer.py:136-143 | the exit status is 0 or 1, and it is 1 exactly when an exception other than an interrupt ended the run |
| OrganizerProperties.MissingSourceRaisesBeforeAnyChange | extension_file_organizer.py:79-80 | a copy with the source check raises `FileNotFoundError` on a source that is not a directory, with no change, no log record, and exit status 1 |
| OrganizerProperties.UnlistableSourceIsSilentForAutoSorter | auto_file_sorter.py:77 | auto_file_sorter.py on a source that is not a directory completes, changes nothing, logs nothing, and exits with 0 |
| OrganizerProperties.StepOnFile | archive/v1.0.0/extension_file_organizer.py:80-88 | on a regular file whose prefix resolves, a step is the folder creation and move into `source/<key>` and `source/<key>/<prefix>-<name>`, with the fallback warning first when there was one |
| OrganizerProperties.OneNewFolder | archive/v1.0.0/extension_file_organizer.py:86 | creating a folder whose parent exists adds only that folder |
| OrganizerProperties.RelocateMovesFile | archive/v1.0.0/extension_file_organizer.py:86-91 | a logged move is `Moved src -> dest`; the file is at the target with the same content and no longer at its old path; every other path is unchanged; the folders are the old ones plus the key folder |
| OrganizerProperties.SourceIsNotDestination | archive/v1.0.0/extension_file_organizer.py:80-88 | a file's walk path is never its destination, because the new name differs from the old one |
| OrganizerProperties.StepMovesFile | archive/v1.0.0/extension_file_organizer.py:80-91 | the same, for a whole step that logs a move; the target is in the entry's key folder, named `YYYY-MM`, a hyphen, then the old name |
| OrganizerProperties.RelocateLength | archive/v1.0.0/extension_file_organizer.py:86-93 | the log keeps the warning, then holds exactly one more record when the step does not fail and none when it does |
| OrganizerProperties.RelocateRefused | archive/v1.0.0/extension_file_organizer.py:89-93 | after a successful folder creation, a refused move leaves every file where it was, logs `Failed to move src`, and does not fail |
| OrganizerProperties.MoveRefusalIsContained | archive/v1.0.0/extension_file_organizer.py:89-93 | a refused move leaves every file where it was, logs `Failed to move src`, and does not fail the step |
| OrganizerProperties.KeyFolderUnblocked | extension_file_organizer.py:90 | when the key folder of a name is not itself a file, no file blocks that folder |
| OrganizerProperties.RelocateFailsOnlyInMakeDirs | extension_file_organizer.py:90-97 | folder creation and move fail exactly when the folder creation fails; a move error never fails the step |
| OrganizerProperties.StepCannotRaise | extension_file_organizer.py:87-97 | when the host is calm and no file occupies the entry's key folder, a step never raises |
| OrganizerProperties.RelocateAddsOnlyTarget | extension_file_organizer.py:90-94 | folder creation and move create no file other than the target, and no new content |
| OrganizerProperties.StepAddsOnlyKeyFolderFiles | extension_file_organizer.py:84-97 | a step creates files only two levels below the source, inside the key folder of the entry |
| OrganizerProperties.StepKeepsKeyFoldersFree | extension_file_organizer.py:84-97 | a step never puts a file where the key folder of any walked entry would go |
| OrganizerProperties.StepInventsNoContent | extension_file_organizer.py:84-97 | after a step, every file holds content that some file held before it |
| OrganizerProperties.MoveFailuresNeverAbort | extension_file_organizer.py:82-97 | failed moves never end a run: under a calm host, and with no file where the key folder of a walked entry goes, the run completes with exit status 0 whatever moves fail |
| OrganizerProperties.FileNamedLikeItsKeyAbortsRun | extension_file_organizer.py:90 | a file directly in the source whose name is its own key blocks its key folder: `makedirs` raises outside the `try`, the run ends with no change, and the exit status is 1 |
| OrganizerProperties.SentinelFileAbortsRun | extension_file_organizer.py:88-90 | a file called `no_extension` in the source ends the run with exit status 1 |
| OrganizerProperties.NewNameIsPrefixed | extension_file_organizer.py:91 | with a prefix of the `YYYY-MM` shape, the new name is that prefix, a hyphen, then exactly the old name |
| OrganizerProperties.MoveRecordLands | archive/v1.0.0/extension_file_organizer.py:85-88 | the move of an entry to its destination lands in the key folder of the entry's name, under the old name behind a `YYYY-MM` prefix and a hyphen |
| OrganizerProperties.RelocateMovesOnly | archive/v1.0.0/extension_file_organizer.py:86-91 | folder creation and move log no move other than the one from the walk path to the target |
| OrganizerProperties.MovesOnlyOfEntryLand | archive/v1.0.0/extension_file_organizer.py:85-91 | a log whose only moves are those of one entry to its destination lands in key folders |
| OrganizerProperties.StepLandsInKeyFolder | archive/v1.0.0/extension_file_organizer.py:80-91 | every move a step logs lands in the key folder of the moved file's name, under `YYYY-MM`, a hyphen, then the old name |
| OrganizerProperties.MovesLandInKeyFolders | archive/v1.0.0/extension_file_organizer.py:78-93 | every move a run logs lands in the key folder of the moved file's name, under `YYYY-MM`, a hyphen, then the old name |
| OrganizerProperties.RunInventsNoContent | archive/v1.0.0/extension_file_organizer.py:78-93 | after a run, every file holds content that some file held before it |
| OrganizerProperties.PoliciesAgreeWithoutForeignExceptions | auto_file_sorter.py:60-65 | when every mtime lookup raises only `OSError`, the two catch policies give identical runs |
| OrganizerProperties.AutoSorterAgreesOnDirectories | auto_file_sorter.py:68-95 | on a source that is a directory, and with only `OSError` lookups, auto_file_sorter.py does exactly what extension_file_organizer.py does |
| OrganizerProperties.LogfileHasNoEffect | auto_file_sorter.py:68 | holds by construction, the parameter being unused: the `logfile` argument does not change the run |
| OrganizerProperties.ArchivedCopyAgrees | archive/v1.0.0/extension_file_organizer.py:64-93 | holds by construction, the two variants being equal constants: the 1.0.0 copy runs exactly the pipeline of 1.0.1 |

## Left out

- Organizer.Run: its contract states only that the filesystem stays well-formed. What a run does is stated by the lemmas of `OrganizerProperties`.
- Organizer.Organize: the same; `MissingSourceRaisesBeforeAnyChange`, `UnlistableSourceIsSilentForAutoSorter` and the run lemmas state its behaviour.
- Organizer.AutoSorterOrganize: the same; `LogfileHasNoEffect` and `AutoSorterAgreesOnDirectories` state its behaviour.
- `setup_logging`, `parse_arguments` and argparse: these are logging and command-line plumbing. The log is modelled only as the sequence of records a run emits (a fallback warning, a move, a failed move), without the message text or levels.
- `datetime.fromtimestamp(...)`: the float timestamp and the local time zone are not modelled. A lookup hands over the calendar year and month, and a year outside 1 to 9999 stands for the conversion's error.
- YearMonthPrefix.Format: always pads the year to four digits. Some C libraries print years below 1000 without padding.
- `os.walk` laziness: entries are a given sequence. The model does not relate that sequence to the directory tree, so it cannot claim that each file is handled once. Subfolders of the source that existed before the run, such as the key folders of an earlier run, are listed only when the walk reaches them. A file moved into one of them before then is handled again and gets a second prefix. A folder the run itself creates is never walked, because the source is listed before its first file is handled.
- HostFilesystem.MoveResult: `shutil.move` is one primitive that succeeds or fails. A successful move overwrites an existing file at the target. A target that is a directory counts as a failure, not as a move into it. The cross-device copy-and-delete fallback and the host's collision rules are bundled into the refusal flag.
- HostFilesystem.MakeDirsResult: a denied `makedirs` leaves no partly created directories behind.
- Naming.AsciiLower: is ASCII `lower()`, not Unicode case mapping.
- Interrupts: a `KeyboardInterrupt` arrives only between entries, not in the middle of a folder creation or a move.
- The run's exceptions other than those listed in `Organizer.Error` and `HostFilesystem.OsError` (memory, encoding, and so on) are not modelled.
- Case-insensitive filesystems (the default on macOS and Windows, which auto_file_sorter.py names): paths are compared exactly, as on a case-sensitive host. On a case-insensitive host a top-level file `JPG` would block the folder `jpg`, and `a.txt` and `A.txt` from two subfolders would overwrite each other. `OrganizerProperties.KeyFolderUnblocked`, `OrganizerProperties.StepCannotRaise` and `OrganizerProperties.MoveFailuresNeverAbort` are proved for case-sensitive hosts only.
- `os.path.isfile` following symbolic links: links are not modelled, and an entry counts as a regular file exactly when its path is a file of the model.
- file_organizer.py is not part of this model. It calls `os.system()` with no argument and raises before anything runs, and it holds no organizing logic.
- The test file is not part of this model. It only runs `--help` in a subprocess.
