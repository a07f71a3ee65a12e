# uwpdumper-rs, modelled in Dafny

uwpdumper copies the files of a sandboxed UWP application out of its package.

- The controller (`uwpdumper-cli`) finds or launches the target process. It checks the architecture, creates a shared-memory channel and injects the payload DLL. It then waits for the DLL's `Ready` packet, sets the start flag and renders what the payload reports until a `Complete` or `Fatal` packet or the `finished` flag.
- The payload (`uwpdumper-payload`) runs on a worker thread inside the target. It scans the package directory, pre-creates the destination directories and copies every file into `TempState\DUMP`. Along the way it reports progress in three phases: the scan, the directories and the copies.

This project models that protocol and its bookkeeping:

- `ipc.dfy`: the channel, as two classes.
  - `IpcHost` is the controller's view: a FIFO queue of packets, a progress pair and the `started`, `finished` and sync flags.
  - `IpcClient` is the payload's side, which records every event it publishes.
- `polling.dfy`: the controller's handshake and `run_message_loop`. Each is a method proved equal to a specification function over a script of what the payload does between two polls.
- `launch.dfy`: the three controller flows, as the sequence of operating-system calls each makes.
- `cli.dfy`: process selection and the progress-bar arithmetic.
- `package.dfy`: the package listing, its errors, the lookup and the activation id.
- `dumper.dfy`: the payload pipeline `run`, with the recursive scan as imperative methods over a directory tree value.
- `payload.dfy`: the worker thread and `DllMain`.
- `text.dfy`, `os.dfy` and `wrappers.dfy`: the standard-library string operations and result types the core relies on.

The operating system is a set of parameters, never code:

- liveness, injection and channel creation;
- suspension and the DLL lookup;
- package lookup and `TempState`;
- the directory tree and per-file copy success;
- the COM activation and the PowerShell output.

## What the code promises and what it does

The model follows the code in each case.

- `inject_and_dump_suspended` is documented as resuming the suspended process on failure (main.rs:222), through its `resume_on_error` helper. The helper is called only when:
  - the channel cannot be created;
  - the injection fails;
  - the handshake times out.

  `launch_and_dump` also resumes when the DLL is missing (main.rs:209-215). A crash during the handshake returns without a resume, because the process is dead (main.rs:268). A completed dump does not resume either. `Launch.LaunchResumesOnFailure` states exactly this.
- `run` only counts per-file copy failures (dumper.rs:110-112). It reports them in the summary line and never fails because of them.
- `display_progress` does not reject a count above the total. The `40 - filled` subtraction underflows only from 103% up, so `(101, 100)` draws a full bar (`Cli.UnderflowIff`, `Cli.OverTotalDrawsFullBar`).

## Model

| member | source | states |
|---|---|---|
| Cli.FindProcess | crates/uwpdumper-cli/src/main.rs:519-532 | A failed listing or no criterion finds nothing. With a pid: the first process with that pid, present iff one exists. With only a name: the first process whose name contains the query, compared after lower-casing ASCII letters only, present iff one matches. |
| Cli.FindProcessIgnoresName | crates/uwpdumper-cli/src/main.rs:522-523 | When a pid is given the name is not consulted. |
| Cli.DisplayProgress | crates/uwpdumper-cli/src/main.rs:649-668 | (0,0) draws nothing; a zero total shows the scanned count; otherwise the bar's filled and empty cells add up to 40. The u32 product wraps. |
| Cli.BarFor | crates/uwpdumper-cli/src/main.rs:665-668 | The `40 - filled` subtraction underflows exactly from 103% up; otherwise the bar keeps the percentage and 40 cells. |
| Cli.BarInRange | crates/uwpdumper-cli/src/main.rs:649-668 | While `current*100` fits in 32 bits and current ≤ total: a bar of at most 100%, 100% and full exactly when current == total. |
| Cli.Percent | crates/uwpdumper-cli/src/main.rs:665-667 | A count up to the total gives at most 100%, exactly 100% and a full bar at the total. |
| Cli.UnderflowIff | crates/uwpdumper-cli/src/main.rs:665-668 | The drawing panics iff the total is non-zero and the (wrapped) percentage is at least 103. |
| Cli.OverTotalDrawsFullBar | crates/uwpdumper-cli/src/main.rs:665-668 | (101, 100) draws 101% as a full bar instead of failing. |
| Cli.WrappedProductShowsZero | crates/uwpdumper-cli/src/main.rs:665 | As written, a finished count of 42949673 shows 0% with an empty bar. |
| Cli.DisplayProgressWide | crates/uwpdumper-cli/src/main.rs:649-668 | The corrected line, with an unbounded product: same blank and scan cases. |
| Cli.WideBarInRange | crates/uwpdumper-cli/src/main.rs:665-668 | With the corrected product every count up to the total draws a bar of at most 100%, full exactly at the total. |
| Package.ErrorTextDistinguishes | crates/uwpdumper-cli/src/package.rs:21-37 | Equal display texts mean the same variant and the same wrapped text: the PowerShell message, or the Windows error's own display text. |
| Package.ClassifyFailure | crates/uwpdumper-cli/src/package.rs:77-85 | "PowerShell is not in PATH" iff stderr contains "is not recognized" or "not found"; otherwise `PowerShellFailed(stderr)`. |
| Package.ListPackages | crates/uwpdumper-cli/src/package.rs:57-103 | A spawn failure is `PowerShellUnavailable(error)`; a failed run is classified by its stderr; otherwise the packages are the parsed output lines. |
| Package.ParseLinesConcat | crates/uwpdumper-cli/src/package.rs:88-102 | Packages keep the order of their lines: parsing a concatenation is concatenating the parses. |
| Package.ParseLinesCount | crates/uwpdumper-cli/src/package.rs:88-102 | At most one package per line. |
| Package.FormatParse | crates/uwpdumper-cli/src/package.rs:71 | When no field holds the separator bar, the line the listing script prints for a package parses back to that package, whatever extra fields follow. |
| Package.BarInDisplayNameShifts | crates/uwpdumper-cli/src/package.rs:63-71 | A display name made of `a`, a bar and `b` (manifest text may hold a bar) shifts the fields: the line parses to display name `a`, family name `b` and the real family name as app id. |
| Text.SplitJoin | crates/uwpdumper-cli/src/package.rs:91 | Splitting fields joined by a separator they do not contain gives back the fields. |
| Text.JoinSplit | crates/uwpdumper-cli/src/package.rs:91 | Joining the pieces of a split gives back the text. |
| Package.FindPackage | crates/uwpdumper-cli/src/package.rs:106-112 | A listing error is passed on. Otherwise: the first package whose name contains the query, compared after lower-casing ASCII letters only, present iff one matches. |
| Package.ActivationIdWellFormed | crates/uwpdumper-cli/src/package.rs:137-138 | The id ends in its only 0 unit, and what precedes it decodes to `family!app`. |
| Text.DecodeEncode | crates/uwpdumper-cli/src/package.rs:138 | UTF-16 decoding inverts `encode_utf16`. |
| Package.LaunchPackage | crates/uwpdumper-cli/src/package.rs:119-147 | A COM setup failure is a Windows error. Otherwise the activation manager's answer for `ActivationId(p)` is the result: its pid, or its error. |
| Polling.WaitForReady | crates/uwpdumper-cli/src/main.rs:261-284 | The imperative wait ends as the `Await` specification says, with the same packets consumed and left queued. Nothing else in the channel changes. |
| Polling.AwaitBounded | crates/uwpdumper-cli/src/main.rs:262 | At most 500 polls; a timeout used all 500; a crash is seen before that poll reads. |
| Polling.AwaitReadyIffRead | crates/uwpdumper-cli/src/main.rs:270-275 | The handshake succeeds iff it read `Ready`, which is then the last packet read; every earlier packet read was something else, dropped. |
| Polling.AwaitFifo | crates/uwpdumper-cli/src/main.rs:352-374 | Packets read plus packets left are the initial queue plus the payload's arrivals, in order. |
| Polling.RunMessageLoop | crates/uwpdumper-cli/src/main.rs:595-646 | The loop's result, rendered packets, drawn progress and final channel state are those of the `Loop` specification. |
| Polling.DrainUntilTerminal | crates/uwpdumper-cli/src/main.rs:610-621 | The first drain is `MainDrain` of the queue and leaves its rest queued. |
| Polling.DrainUntilComplete | crates/uwpdumper-cli/src/main.rs:635-641 | The final drain is `FinalDrain` of the queue and leaves its rest queued. |
| Polling.MainDrainSpec | crates/uwpdumper-cli/src/main.rs:610-621 | The drain renders the queue in order. It stops iff there is a terminal packet, just after the first one, and yields a path iff that packet is `Complete`. |
| Polling.FinalDrainSpec | crates/uwpdumper-cli/src/main.rs:633-642 | The final drain renders in order up to the first `Complete` and yields its path, and yields a path iff there is a `Complete`. |
| Polling.FinalDrainPassesFatal | crates/uwpdumper-cli/src/main.rs:635-640 | After `finished`, a `Fatal` is rendered and passed over and a later `Complete` still wins. |
| Polling.StepOrder | crates/uwpdumper-cli/src/main.rs:598-631 | A dead target is seen before any read. A pass that stops in the first drain touches no progress or flags. A pass past it renders the whole queue before sampling, draws only a changed pair, and acks the sync after that. |
| Polling.LoopFifo | crates/uwpdumper-cli/src/main.rs:610-641 | Everything the loop renders is a prefix of the queued packets followed by the payload's pushes. |
| Polling.LoopResult | crates/uwpdumper-cli/src/main.rs:612-641 | A path is returned iff the last packet rendered is `Complete`, and it is that packet's path; no earlier packet is `Complete`. |
| Polling.LoopShown | crates/uwpdumper-cli/src/main.rs:624-628 | Progress is redrawn only when it changed: the first pair differs from (0,0) and no pair is drawn twice in a row. |
| Launch.Attach | crates/uwpdumper-cli/src/main.rs:223-299 | Creating the channel, injecting, the handshake and the message loop make exactly the calls `AttachSpec` gives and end with its exit. |
| Launch.InjectAndDump | crates/uwpdumper-cli/src/main.rs:301-390 | The flow makes the calls of `InjectSpec`. |
| Launch.LaunchAndDump | crates/uwpdumper-cli/src/main.rs:161-221 | The flow makes the calls of `LaunchSpec`. |
| Launch.InjectRejects32Bit | crates/uwpdumper-cli/src/main.rs:303-324 | The architecture is queried first. A 32-bit answer ends the flow before the channel or the injection, and any other answer, an error included, creates the channel. It never resumes. |
| Launch.AttachDumpsOnlyWhenReady | crates/uwpdumper-cli/src/main.rs:235-296 | The dump starts iff the channel was created, the DLL injected and `Ready` read. The exit then carries the loop's path, and a copy happens only with a path and an output directory. |
| Launch.DumpCalls | crates/uwpdumper-cli/src/main.rs:289-296 | The dump phase starts the dump first, never resumes, and copies the loop's path to the output iff both are present. |
| Launch.AttachResumes | crates/uwpdumper-cli/src/main.rs:225-284 | When attaching a suspended target it is resumed exactly once, as the last call, iff channel creation or the injection failed or the handshake timed out. |
| Launch.SuspendedResumes | crates/uwpdumper-cli/src/main.rs:201-219 | A failed suspension ends the flow without a resume. After it succeeds, the target is resumed once, last, iff the DLL is missing or attaching fails other than by a crash. |
| Launch.LaunchResumesOnFailure | crates/uwpdumper-cli/src/main.rs:161-284 | The whole launch flow resumes exactly on the resuming exits, once, as its last call, and only a process it suspended. |
| Dumper.LookupError | crates/uwpdumper-payload/src/dumper.rs:35-43 | Lookup error code 0x80073D54 (as i32) gives `NotUwpProcess`; any other gives `PackageInfo(e)`. |
| Dumper.DumperErrorTextDistinguishes | crates/uwpdumper-payload/src/dumper.rs:15-29 | Equal display texts mean the same variant, the same I/O message and the same Windows error display text. |
| Dumper.CollectFilesRecursive | crates/uwpdumper-payload/src/dumper.rs:147-171 | Files, the directory counter, the error and the published progress are those of `ScanNode`. |
| Dumper.CollectFilesWithProgress | crates/uwpdumper-payload/src/dumper.rs:140-145 | The scan from a zero counter: its files, or its first error. |
| Dumper.ScanCounts | crates/uwpdumper-payload/src/dumper.rs:153-168 | Each directory is counted once on entry with `(count, 0)` published, so the progress is the counter going up one by one. The scan fails iff the tree holds an error; otherwise it counts every directory. |
| Dumper.ScanFilesBelow | crates/uwpdumper-payload/src/dumper.rs:158-166 | Every file found lies strictly below the scanned directory. |
| Dumper.ScanFindsAll | crates/uwpdumper-payload/src/dumper.rs:153-168 | On a tree without errors a path is collected iff it is a non-directory entry of the tree, and the number of paths is the number of such entries. |
| Dumper.ScanRoot | crates/uwpdumper-payload/src/dumper.rs:153-156 | A root that is not a directory yields no files and no progress; a directory root publishes (1, 0) first. |
| Dumper.PlanDirectories | crates/uwpdumper-payload/src/dumper.rs:75-82 | The loop builds exactly `DestDirs`. |
| Dumper.DestDirsMembers | crates/uwpdumper-payload/src/dumper.rs:75-82 | A directory is planned iff it is the parent of some file's destination. |
| Dumper.DestDirsCount | crates/uwpdumper-payload/src/dumper.rs:84 | No more directories than files. |
| Dumper.DestDirsInDump | crates/uwpdumper-payload/src/dumper.rs:76-81 | For files below the package path, every planned directory lies in the dump directory. |
| Dumper.CreateDirectories | crates/uwpdumper-payload/src/dumper.rs:85-96 | Every planned directory is created once. Published: the count line, (0,d), a sync, (i+1,d) per directory, (d,d) and a sync. |
| Dumper.DirectoryPhaseBounded | crates/uwpdumper-payload/src/dumper.rs:86-95 | Every directory-phase progress pair has current ≤ total == d. |
| Dumper.Failures | crates/uwpdumper-payload/src/dumper.rs:111-113 | Failures never exceed the number of files. |
| Dumper.FailuresExtremes | crates/uwpdumper-payload/src/dumper.rs:111-113 | No failures iff every copy succeeds; all failed iff every copy fails. |
| Dumper.CopyFiles | crates/uwpdumper-payload/src/dumper.rs:98-122 | Every file is processed once. The error count is the number of failing copies, at most the total. Published: the copy line, (0,t), (i+1,t) per file, (t,t) and a sync. |
| Dumper.CopyPhaseBounded | crates/uwpdumper-payload/src/dumper.rs:101-121 | Every copy-phase progress pair has current ≤ total, and the last is (total, total). |
| Dumper.Run | crates/uwpdumper-payload/src/dumper.rs:32-137 | The result and the published events are those of `Pipeline`. |
| Dumper.Report | crates/uwpdumper-payload/src/dumper.rs:124-134 | Given the error count, the closing lines are the summary, with `copied = total - errors`. |
| Dumper.PipelineEvents | crates/uwpdumper-payload/src/dumper.rs:32-137 | `run` publishes only logs, progress and syncs (never `Ready`, `Complete` or `Fatal`), and every progress pair with a total stays within it. |
| Dumper.PipelineSucceeds | crates/uwpdumper-payload/src/dumper.rs:35-66 | `run` succeeds iff the lookups succeed, an old dump is removed, the directory is created and the scan meets no error. It then yields `TempState\DUMP`; copy failures never change the result. |
| Dumper.PipelineSummary | crates/uwpdumper-payload/src/dumper.rs:124-136 | A successful run ends with the summary for the scanned files, whose error count is at most the total, then the output path. |
| Payload.FirstStart | crates/uwpdumper-payload/src/lib.rs:65-67 | The poll that ends the wait is the first to see the start flag. |
| Payload.Terminal | crates/uwpdumper-payload/src/lib.rs:70-85 | The closing packet is terminal, and `Complete` iff `run` succeeded. |
| Payload.WaitForStart | crates/uwpdumper-payload/src/lib.rs:65-67 | The spin loop polls up to and including the first poll that sees the flag. |
| Payload.DumperThread | crates/uwpdumper-payload/src/lib.rs:49-94 | If the channel does not open: no channel, exit 1. Otherwise it publishes `Ready`, the polls, `run`'s events, the terminal packet and `finished`, and exits with 0 or 1 by `run`'s result. |
| Payload.ReadyThenStart | crates/uwpdumper-payload/src/lib.rs:61-70 | `Ready` is first and only. Every poll before the first set flag sees it clear, and nothing of `run` is published before it. |
| Payload.OneTerminalThenFinished | crates/uwpdumper-payload/src/lib.rs:70-93 | Exactly one terminal packet, just before `finished`, which is last and unique: `Complete(path)` on success, `Fatal("Dumper failed: " + e)` on failure. The exit code is 0 iff `Complete`, 1 iff `Fatal`. |
| Payload.Library.DllMain | crates/uwpdumper-payload/src/lib.rs:19-46 | Always true. Only process attach stores the handle and starts a worker; any other reason changes nothing. |

## Findings

| source | as written | input that shows it | evidently intended | confidence | as-written member | corrected member |
|---|---|---|---|---|---|---|
| crates/uwpdumper-cli/src/main.rs:665 | `current * 100` is computed in `u32` before the division: it wraps in a release build and panics in a debug build once `current` exceeds 42949672 | `display_progress(42949673, 42949673)` shows 0% and an empty bar | a percentage of at most 100 that reaches 100 at the total, for every count up to the total | not executed | Cli.WrappedProductShowsZero | Cli.WideBarInRange |

## Left out

- The shared channel crate is not part of this model: its memory layout, packet encoding and sync rendezvous. `IpcHost` and `IpcClient` stand for it as a queue, a progress pair and flags, and a full queue is not modelled.
- The `inject`, `process` and `uwp` modules are not part of this model. Their answers are parameters: liveness, architecture, channel creation, injection, suspension, process listing, current package and `TempState`.
- `copy_to_output` (main.rs:392-517) walks and copies the dump in parallel. It appears only as the `CopyToOutput` call it is given.
- `main`, `print_banner`, `get_dll_path`, `list_packages_command`, `select_process_interactive`, `clear_progress_line` and `display_packet` are console presentation and argument handling. The DLL lookup is a boolean.
- The PowerShell command and the COM activation manager are foreign calls. Their output and errors are parameters.
- Concurrency is not modelled. The `par_iter` copy is a sequential loop in file order, and the atomic counters are plain counters. The payload running beside the controller is a script of what it writes between two polls.
- Sleeps, `Instant` and the `{:.1}s` formatting are left out. The elapsed time arrives as text.
- Filesystem effects are not modelled. The package directory is a tree value, and copy success is a set of failing source paths. `create_dir_all` results are ignored, as the source ignores them.
- Dumper.CreateDirectories visits the directory set in an unspecified order, as `HashSet` iteration does. The model does not fix that order.
- Dumper.CopyFiles: file and directory counts are unbounded naturals. The `as u32` truncation of more than 2^32 files or directories is not modelled.
- The windows crate is not part of this model. A Windows error carries the whole text its `Display` writes as given, so nothing here says how that text shows the system message or the HRESULT.
- Dumper.DumperErrorTextDistinguishes: for `PackageInfo` the text determines the Windows error's display text, not its code, since that text is taken as given.
- Package.ErrorTextDistinguishes: for `WindowsError` the text determines the Windows error's display text, not its code, for the same reason.
- Cli.FindProcess: `to_lowercase` is Unicode case mapping; the model lowers only `A`-`Z`. A name or query with non-ASCII capitals (`É`, the Kelvin sign) can match in the program and not in the model.
- Package.FindPackage: case mapping is ASCII-only, as for Cli.FindProcess.
- Package.FormatParse holds only when no field contains `|`. A display name comes from the manifest and may hold one; the listing then parses into shifted fields and a wrong activation id (`Package.BarInDisplayNameShifts`). The model keeps that behaviour rather than correcting it.
- Dumper.CollectFilesRecursive: `is_dir` follows symbolic links and junctions. A link back to an ancestor makes the source recurse until the stack runs out. The tree value is finite, so such cycles cannot be represented and the modelled scan always ends.
- Polling.RunMessageLoop: the loop is modelled only on scripts where the target dies or the payload finishes. A payload that never finishes leaves the source spinning forever.
- Payload.DumperThread: the start flag is assumed to be set eventually. `unload_self` and `FreeLibraryAndExitThread` are left out, and the exit code is returned instead.
- Payload.Library.DllMain: `DisableThreadLibraryCalls` and `CreateThread` are left out, and a worker count stands for the spawned thread.
- Launch.AttachResumes: a failing `resume_process` only prints a warning, so the model records the call and not its outcome.
