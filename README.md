# matla: mode dispatch and the Apalache mode

This project models two parts of the `matla` command-line front end in
Dafny and proves properties of them.

**The mode dispatcher** (`mode.dfy`, module `Mode`). It models the three
dispatch phases of `matla_api/src/mode.rs`:

- `try_pre_user_load`: setup, then uninstall;
- `try_pre_project_load`: init, update, tlc, then apalache;
- `try_post_loading`: run, test, then clean.

Each phase walks its modes in a fixed order. The first mode whose subcommand
is present is initialised and launched, and the modes after it are never
looked at. A phase answers one of four things:

- `None`: no mode was selected;
- `Some(Err(..))`: initialisation failed, launch failed, or the exit code was
  missing;
- `Some(Ok(None))`: a local mode succeeded;
- `Some(Ok(Some(code)))`: TLC, Apalache or run succeeded, with that exit code.

Each mode's selection test, the result of building it and the result of its
`launch` are inputs to the model. The `wrap_try!` early return is the
function `WrapTry`, and anyhow's `.context(..)` is `Res.WithContext`. An error
is a root message wrapped in a chain of contexts (`common.dfy`).

**The Apalache mode** (`apalache_cla.dfy`, module `ApalacheCla`, and
`apalache.dfy`, module `Apalache`). It models `matla_api/src/mode/apalache.rs`:

- `cla::check_matches`:
  - the pass-through values are split at every character with the Unicode
    White_Space property, as Rust's `char::is_whitespace` defines it;
  - each piece is trimmed and the empty pieces are dropped;
  - the result is proved equal to the whitespace-separated words of the
    values joined by spaces.
- The show-config printer of `Run::try_matla_project`:
  - a method with a `for` loop, proved to write exactly the lines given by
    `ConfigLines`;
  - standard output is modelled as the text written to it.
- The output relay of `Run::launch`:
  - a `while` loop over the record stream, proved to print the delivered
    records in order and to report the errors in order;
  - the child's stream is a sequence, and reading past its end gives `None`.
- The join of the child: its result is returned unchanged, and a panic
  becomes the error "failed to join Apalache process".

Two behaviours of the code are kept as written:

- The uninstall initialisation context is "uninstall mod initialization
  failed" (`matla_api/src/mode.rs:60`). Every other mode says "mode".
- The show-config text omits the pass-through arguments. The command is shown
  inside `try_matla_project`, and `launch` appends the arguments only
  afterwards (`matla_api/src/mode/apalache.rs:89-92`). `Launch` states both
  facts: the text shown, and the command spawned with the arguments appended.

## Model

| member | source | states |
|---|---|---|
| Mode.WrapTry | matla_api/src/mode.rs:37-44 | On `Ok(v)` the rest of the computation runs on `v`; on `Err(e)` the result is `Some(Err(e))`, whatever the rest would have done |
| Mode.Attempt | matla_api/src/mode.rs:91-100 | One arm: `None` iff the mode is not selected. A failed build gives `Some(Err)` in "<mode> mode initialization failed". A failed launch gives `Some(Err)` in "mode <mode> failed". A local success gives `Some(Ok(None))`. A process success gives `Some(Ok(Some(code)))` with the process's own code, and a missing code gives `Some(Err)` with the "failed to retrieve exit code" message |
| Mode.FirstSelected | matla_api/src/mode.rs:50-68 | The index of the first selected candidate: every candidate before it is unselected, and it is selected unless it is past the end |
| Mode.TryPhase | matla_api/src/mode.rs:50-68 | A phase is `None` iff no candidate is selected; otherwise it is the attempt of the first selected candidate |
| Mode.LaterCandidatesIgnored | matla_api/src/mode.rs:75-101 | Once a candidate is selected, appending any further candidates does not change the phase's result |
| Mode.UnselectedCandidatesSkipped | matla_api/src/mode.rs:75-101 | Unselected candidates in front make no difference to the phase's result |
| Mode.InitContextStart | matla_api/src/mode.rs:52 | An initialisation context starts with the mode's name, so its first two characters are the mode's initials |
| Mode.LaunchContextStart | matla_api/src/mode.rs:55 | A launch context starts with "mode " followed by the mode's name, so the mode's initials are at positions 5 and 6 |
| Mode.InitAndLaunchContextsDiffer | matla_api/src/mode.rs:76-81 | No initialisation context equals any launch context |
| Mode.InitContextNamesMode | matla_api/src/mode.rs:52-60 | Two modes with the same initialisation context are the same mode |
| Mode.LaunchContextNamesMode | matla_api/src/mode.rs:55-63 | Two modes with the same launch context are the same mode |
| Mode.LocalModeHasNoExitCode | matla_api/src/mode.rs:79-82 | A local mode answers `None`, `Some(Ok(None))` or an error, never a numeric code |
| Mode.InitFailureSkipsLaunch | matla_api/src/mode.rs:76-78 | When building the mode fails, the phase's result does not depend on what launch would return |
| Mode.PreUserLoad | matla_api/src/mode.rs:49-69 | `None` iff neither setup nor uninstall is selected. A selected setup decides; otherwise uninstall decides |
| Mode.PreProjectLoad | matla_api/src/mode.rs:74-114 | `None` iff none of init, update, tlc and apalache is selected. Otherwise the first selected of them, in that order, decides |
| Mode.PostLoading | matla_api/src/mode.rs:119-147 | `None` iff none of run, test and clean is selected. Otherwise the first selected of them, in that order, decides |
| Mode.Dispatch | matla_api/src/mode.rs:46-147 | The three phases in order answer `None` iff no mode of any phase is selected |
| Mode.PhasesInSequence | matla_api/src/mode.rs:66-68 | Running one phase and, only when it answers `None`, the next is the same as one phase over both candidate lists |
| Mode.DispatchIsFirstMatch | matla_api/src/mode.rs:46-147 | The driver equals a single phase over all nine modes in order: the first selected mode decides |
| Mode.SetupBeforeUninstall | matla_api/src/mode.rs:50-58 | When setup is selected, uninstall's selection test and launch make no difference |
| Mode.EarlierPhaseWins | matla_api/src/mode.rs:49-69 | When the pre-user-load phase answers, the driver's result is that answer, whatever the later modes say |
| Apalache.NewRun | matla_api/src/mode/apalache.rs:75-82 | Building a run fails iff the project path cannot be found, with that error. Otherwise the target is the project path with the build flag set, and the pass-through arguments and show-config flag are kept |
| Apalache.ProjectCommand | matla_api/src/mode/apalache.rs:130-137 | The command is produced iff all four project calls succeed; otherwise the result is the error of the first call that fails |
| Apalache.Rows | matla_api/src/mode/apalache.rs:139-141 | One row per argument plus one: "> " and the program first, then each argument indented by four spaces, in order |
| Apalache.WithContinuation | matla_api/src/mode/apalache.rs:141 | Each row is ended by " \" and nothing else changes |
| Apalache.ConfigLines | matla_api/src/mode/apalache.rs:139-147 | Every row but the last is continued. The working directory appears on "\| in `dir`" iff there is one, and a blank line ends the text |
| Apalache.ShowConfig | matla_api/src/mode/apalache.rs:138-148 | The loop writes exactly the lines `ConfigLines` gives, each ended by a newline |
| Apalache.TryMatlaProject | matla_api/src/mode/apalache.rs:129-150 | Fails iff a project call fails, with that error, and then shows nothing. Otherwise it returns the command and shows it iff the show-config flag is set |
| Apalache.DeliveredIsPrefix | matla_api/src/mode/apalache.rs:98-103 | The records handled are the stream's items, in order, up to its first `None` |
| Apalache.PrintedAppend | matla_api/src/mode/apalache.rs:98-116 | Printed lines and reported errors of two runs of records follow each other |
| Apalache.ErrorDoesNotStopRelay | matla_api/src/mode/apalache.rs:111-114 | An error record is reported in its place, and the records after it are printed as if it were absent |
| Apalache.PrintedInOrder | matla_api/src/mode/apalache.rs:104-110 | Each record is printed once, in arrival order, behind the "> " marker iff it came from the error stream |
| Apalache.RelayStopsAtClose | matla_api/src/mode/apalache.rs:99-103 | Nothing after the first `None` is read |
| Apalache.RelayOne | matla_api/src/mode/apalache.rs:104-114 | Handling one more record adds its printed line, or its reported error, at the end |
| Apalache.Relay | matla_api/src/mode/apalache.rs:98-116 | The loop's output is the printed lines of the delivered records, and its reports are their errors, both in order |
| Apalache.Launch | matla_api/src/mode/apalache.rs:85-122 | If preparing the command fails, nothing is shown, spawned or relayed, and that error is returned. Otherwise the command is spawned with the pass-through arguments appended, the show-config text comes before the relayed output, and the join result is returned or the panic becomes "failed to join Apalache process" |
| ApalacheCla.WordLength | matla_api/src/mode/apalache.rs:43 | The first word's length is at most the text's length, and when it is shorter the character right after the word is whitespace (that no whitespace comes earlier is `ApalacheCla.FirstWord`) |
| ApalacheCla.FirstWord | matla_api/src/mode/apalache.rs:43 | The first word holds no whitespace, so with `WordLength` it ends at the first whitespace character |
| ApalacheCla.SplitPiecesHaveNoWhitespace | matla_api/src/mode/apalache.rs:43 | No piece of a split holds a whitespace character |
| ApalacheCla.SplitWithoutWhitespace | matla_api/src/mode/apalache.rs:43 | Text without whitespace splits into itself alone |
| ApalacheCla.SplitAtWhitespace | matla_api/src/mode/apalache.rs:43 | Splitting `a`, a whitespace character, then `b` gives the pieces of `a` followed by the pieces of `b` |
| ApalacheCla.SplitAfterWhitespace | matla_api/src/mode/apalache.rs:43 | A leading whitespace character gives an empty first piece |
| ApalacheCla.SplitWordThenWhitespace | matla_api/src/mode/apalache.rs:43 | A word followed by whitespace is a piece of its own |
| ApalacheCla.SplitWeave | matla_api/src/mode/apalache.rs:43 | Splitting loses nothing: there is one more piece than there are whitespace characters, and putting those characters back between the pieces rebuilds the text |
| ApalacheCla.TrimStartDropsWhitespace | matla_api/src/mode/apalache.rs:48 | Trimming the start drops the longest all-whitespace prefix. What is left is a suffix that is empty or starts with a non-whitespace character |
| ApalacheCla.TrimEndDropsWhitespace | matla_api/src/mode/apalache.rs:48 | Trimming the end drops the longest all-whitespace suffix. What is left is a prefix that is empty or ends with a non-whitespace character |
| ApalacheCla.TrimmedEnds | matla_api/src/mode/apalache.rs:48 | A trimmed string neither starts nor ends with whitespace |
| ApalacheCla.TrimWord | matla_api/src/mode/apalache.rs:48 | Trimming text without whitespace changes nothing |
| ApalacheCla.KeptPieces | matla_api/src/mode/apalache.rs:47-54 | From whitespace-free pieces, the kept ones are non-empty, whitespace-free and taken from the pieces |
| ApalacheCla.KeepCons | matla_api/src/mode/apalache.rs:47-54 | A whitespace-free piece is kept as it is when non-empty and dropped when empty |
| ApalacheCla.KeepAppend | matla_api/src/mode/apalache.rs:47-54 | Filtering two runs of pieces gives the two filtered runs, in order |
| ApalacheCla.PiecesHaveNoWhitespace | matla_api/src/mode/apalache.rs:39-46 | No flattened piece of any value holds whitespace |
| ApalacheCla.PiecesAppend | matla_api/src/mode/apalache.rs:39-46 | The pieces of two runs of values are the pieces of the first run followed by those of the second |
| ApalacheCla.TailArgs | matla_api/src/mode/apalache.rs:38-55 | No trailing values give no arguments, and every argument is non-empty and whitespace-free |
| ApalacheCla.TailArgsAppend | matla_api/src/mode/apalache.rs:39-55 | The arguments of two runs of values are the arguments of the first run followed by those of the second |
| ApalacheCla.KeptPiecesAreWords | matla_api/src/mode/apalache.rs:43-54 | The kept pieces of a text are exactly its maximal whitespace-free words, in order |
| ApalacheCla.TailArgsAreWords | matla_api/src/mode/apalache.rs:38-55 | The arguments are exactly the words of the values joined by single spaces, in order |
| ApalacheCla.SingleWordPassedThrough | matla_api/src/mode/apalache.rs:38-55 | A single non-empty value without whitespace is passed through unchanged |
| ApalacheCla.WhitespaceSeparates | matla_api/src/mode/apalache.rs:38-55 | A leading space, a double space and a trailing tab in the values only separate the words |
| ApalacheCla.CheckMatches | matla_api/src/mode/apalache.rs:36-58 | `None` iff the subcommand is absent. Otherwise the run fails iff the project path cannot be found, and it carries the normalised arguments and the show-config flag as given |
| ApalacheCla.Selection | matla_api/src/mode/apalache.rs:36-58 | The dispatcher's view of `check_matches`: `None` iff the subcommand is absent, and a failure iff the project path cannot be found, with that error |
| ApalacheCla.ApalacheArm | matla_api/src/mode.rs:101-110 | The Apalache arm fed by `check_matches` and by the launch result: not selected without the subcommand; a missing project path gives "apalache mode initialization failed"; a failed launch gives "mode apalache failed"; a finished process gives its exit code, or the missing-code error |

## Left out

- Building the clap commands and querying `ArgMatches` (`matla_api/src/mode.rs:22-34`, `matla_api/src/mode/apalache.rs:16-33`). These are library plumbing. Subcommand presence, the raw values and the show-config flag are inputs.
- The project calls `conf::top_cla::project_path`, `SourceProject::from_path`, `into_full_apalache` and `full_apalache_cmd`. They touch the filesystem, so they are results given as inputs that may fail.
- `thread::ChildCmd`, the child process and its reader threads are not part of this model. Their point is concurrency. The stream they deliver is a given finite sequence, and the join outcome is an input.
- The other modes' `launch` bodies and `check_matches` functions are not part of this model. Their outcomes are the inputs of the dispatcher.
- The binary's `main`, which calls the three phases and maps their result to a process exit code, is not part of this model. `Dispatch` models only its calling order.
- Terminal styling, logging and `report_error`. The styled prefix is the constant marker ">", and reported errors are collected in order instead of being printed.
- `to_string_lossy` and `OsStr` conversions. Programs, arguments and paths are strings.
- The `.expect("failed to generate Apalache command")` in `launch` can never fire: `try_matla_project` only ever returns `Some` on success. `Launch` therefore has no panic branch for it.
- Mode.Dispatch: its own contract states only when the driver answers `None`. The full characterisation, first match over all nine modes, is `Mode.DispatchIsFirstMatch`.
- ApalacheCla.TailArgs: its own contract states only the shape of the arguments. Their exact value is stated by `ApalacheCla.TailArgsAreWords`.
