/**
 * The payload's dump pipeline (`dumper.rs`): identify the current package,
 * prepare the dump directory, scan the package directory depth-first,
 * create the destination directories, copy every file, and report progress
 * and log lines through the channel as it goes.
 *
 * The file system is a parameter: the package directory is a tree of
 * `Node`s as `is_dir` and `read_dir` see it, and the copy of a file
 * succeeds unless its path is among the failing ones. The copies run one
 * after another here.
 */
module Dumper {
  import opened Wrappers
  import opened Os
  import opened Text
  import opened Ipc

  // ---------------------------------------------------------------------
  // Errors
  // ---------------------------------------------------------------------

  datatype DumperError =
    | PackageInfo(error: WinError)
    | Io(message: IoError)
    | NotUwpProcess

  /** The `#[error]` texts. */
  function DumperErrorText(e: DumperError): string
  {
    match e
    case PackageInfo(w) => "Failed to get package info: " + w.text
    case Io(m) => "IO error: " + m
    case NotUwpProcess => "This process is not a UWP application"
  }

  /** The HRESULT the package lookup fails with outside a packaged process. */
  const NotPackagedCode: nat := 0x80073D54

  /** How a failed package lookup is reported: the "no package identity"
      code, read as an `i32`, means the process is not a UWP application;
      every other error is passed on as a package-information error. */
  function LookupError(e: WinError): (r: DumperError)
    ensures r == NotUwpProcess <==> e.code == AsI32(NotPackagedCode)
    ensures r != NotUwpProcess ==> r == PackageInfo(e)
  {
    if e.code == AsI32(NotPackagedCode) then NotUwpProcess else PackageInfo(e)
  }

  /** The texts tell the three errors apart, and determine the I/O error's
      text and the Windows error's text. */
  lemma DumperErrorTextDistinguishes(e1: DumperError, e2: DumperError)
    requires DumperErrorText(e1) == DumperErrorText(e2)
    ensures e1.PackageInfo? == e2.PackageInfo? && e1.Io? == e2.Io? && e1.NotUwpProcess? == e2.NotUwpProcess?
    ensures e1.Io? ==> e1 == e2
    ensures e1.PackageInfo? ==> e1.error.text == e2.error.text
  {
    var s := DumperErrorText(e1);
    assert s[0] == DumperErrorText(e2)[0];
    if e1.Io? {
      assert e1.message == s[10..];
    } else if e1.PackageInfo? {
      assert e1.error.text == s[|"Failed to get package info: "|..];
    }
  }

  // ---------------------------------------------------------------------
  // Scan
  // ---------------------------------------------------------------------

  /** A path as the scan sees it: not a directory (a file, or anything
      `is_dir` rejects), or a directory with its listing. */
  datatype Node = NotDir | Dir(listing: Listing)

  /** `read_dir` either fails or yields the entries in its own order. */
  datatype Listing = Unreadable(error: IoError) | Listed(entries: seq<Entry>)

  /** One item of a listing: an entry, or the error `read_dir` yields in its place. */
  datatype Entry = Entry(name: string, node: Node) | BadEntry(error: IoError)

  /** The state of `collect_files_recursive` after a call: the files pushed,
      the directories counted, the progress published, and the error that
      ended the scan, if any. */
  datatype Scan = Scan(files: seq<Path>, dirs: nat, events: seq<Event>, error: Option<IoError>)

  /** The scan of `path`, holding `n`, with `dirs` directories counted so far. */
  function ScanNode(path: Path, n: Node, dirs: nat): Scan
    decreases n
  {
    match n
    case NotDir => Scan([], dirs, [], None)
    case Dir(listing) =>
      match listing
      case Unreadable(e) => Scan([], dirs + 1, [ProgressSet(dirs + 1, 0)], Some(e))
      case Listed(es) =>
        var r := ScanEntries(path, es, dirs + 1);
        Scan(r.files, r.dirs, [ProgressSet(dirs + 1, 0)] + r.events, r.error)
  }

  /** The loop over a directory's entries: a directory entry is scanned
      recursively, any other entry is pushed as a file; the first error ends it. */
  function ScanEntries(dir: Path, es: seq<Entry>, dirs: nat): Scan
    decreases es
  {
    if es == [] then Scan([], dirs, [], None)
    else
      var first := ScanEntry(dir, es[0], dirs);
      if first.error.Some? then first
      else
        var rest := ScanEntries(dir, es[1..], first.dirs);
        Scan(first.files + rest.files, rest.dirs, first.events + rest.events, rest.error)
  }

  function ScanEntry(dir: Path, e: Entry, dirs: nat): Scan
    decreases e
  {
    match e
    case BadEntry(err) => Scan([], dirs, [], Some(err))
    case Entry(name, child) =>
      if child.Dir? then ScanNode(dir + [name], child, dirs) else Scan([dir + [name]], dirs, [], None)
  }

  /** `(a+1, total), …, (b, total)`: the progress values of a counter going from a to b. */
  function Ramp(a: nat, b: nat, total: nat): (r: seq<Event>)
    ensures |r| == if b <= a then 0 else b - a
    ensures forall k :: 0 <= k < |r| ==> r[k] == ProgressSet(a + k + 1, total)
    decreases b
  {
    if b <= a then [] else Ramp(a, b - 1, total) + [ProgressSet(b, total)]
  }

  lemma {:induction false} RampSplit(a: nat, m: nat, b: nat, total: nat)
    requires a <= m <= b
    ensures Ramp(a, b, total) == Ramp(a, m, total) + Ramp(m, b, total)
  {
    var l := Ramp(a, m, total) + Ramp(m, b, total);
    assert |l| == |Ramp(a, b, total)|;
    forall k | 0 <= k < |l|
      ensures l[k] == Ramp(a, b, total)[k]
    {
      if k >= m - a {
        assert l[k] == Ramp(m, b, total)[k - (m - a)];
      }
    }
  }

  /** Number of directories in a tree, the root included. */
  function DirCount(n: Node): nat
    decreases n
  {
    match n
    case NotDir => 0
    case Dir(listing) => 1 + (if listing.Listed? then EntriesDirCount(listing.entries) else 0)
  }

  function EntriesDirCount(es: seq<Entry>): nat
    decreases es
  {
    if es == [] then 0 else (if es[0].Entry? then DirCount(es[0].node) else 0) + EntriesDirCount(es[1..])
  }

  /** Some listing in the tree fails, or yields an error for an entry. */
  predicate HasError(n: Node)
    decreases n
  {
    n.Dir? && (n.listing.Unreadable? || EntriesHaveError(n.listing.entries))
  }

  predicate EntriesHaveError(es: seq<Entry>)
    decreases es
  {
    es != [] && (es[0].BadEntry? || HasError(es[0].node) || EntriesHaveError(es[1..]))
  }

  /** The scan counts each directory it enters exactly once and publishes
      `(count, 0)` on entering it: the progress it emits is the counter
      going up one by one. It fails exactly when the tree holds an error;
      without one it enters every directory of the tree. */
  lemma {:induction false} ScanCounts(path: Path, n: Node, dirs: nat)
    ensures var s := ScanNode(path, n, dirs);
      s.dirs >= dirs && s.events == Ramp(dirs, s.dirs, 0) &&
      (s.error.Some? <==> HasError(n)) &&
      (s.error.None? ==> s.dirs == dirs + DirCount(n))
    decreases n
  {
    match n
    case NotDir =>
    case Dir(listing) =>
      match listing
      case Unreadable(e) =>
      case Listed(es) =>
        EntriesCounts(path, es, dirs + 1);
        var r := ScanEntries(path, es, dirs + 1);
        RampSplit(dirs, dirs + 1, r.dirs, 0);
  }

  lemma {:induction false} EntriesCounts(dir: Path, es: seq<Entry>, dirs: nat)
    ensures var s := ScanEntries(dir, es, dirs);
      s.dirs >= dirs && s.events == Ramp(dirs, s.dirs, 0) &&
      (s.error.Some? <==> EntriesHaveError(es)) &&
      (s.error.None? ==> s.dirs == dirs + EntriesDirCount(es))
    decreases es
  {
    if es != [] {
      var first := ScanEntry(dir, es[0], dirs);
      match es[0]
      case BadEntry(_) =>
      case Entry(name, child) =>
        if child.Dir? {
          ScanCounts(dir + [name], child, dirs);
        }
        if first.error.None? {
          EntriesCounts(dir, es[1..], first.dirs);
          var rest := ScanEntries(dir, es[1..], first.dirs);
          RampSplit(dirs, first.dirs, rest.dirs, 0);
        }
    }
  }

  /** Every path the scan pushes lies strictly below the scanned path. */
  lemma {:induction false} ScanFilesBelow(path: Path, n: Node, dirs: nat)
    ensures forall f :: f in ScanNode(path, n, dirs).files ==> |path| < |f| && f[..|path|] == path
    decreases n
  {
    if n.Dir? && n.listing.Listed? {
      EntriesFilesBelow(path, n.listing.entries, dirs + 1);
    }
  }

  lemma {:induction false} EntriesFilesBelow(dir: Path, es: seq<Entry>, dirs: nat)
    ensures forall f :: f in ScanEntries(dir, es, dirs).files ==> |dir| < |f| && f[..|dir|] == dir
    decreases es
  {
    if es != [] {
      var first := ScanEntry(dir, es[0], dirs);
      if es[0].Entry? {
        var p := dir + [es[0].name];
        if es[0].node.Dir? {
          ScanFilesBelow(p, es[0].node, dirs);
          forall f | f in first.files
            ensures |dir| < |f| && f[..|dir|] == dir
          {
            assert f[..|dir|] == f[..|p|][..|dir|];
          }
        } else {
          assert p[..|dir|] == dir;
        }
      }
      if first.error.None? {
        EntriesFilesBelow(dir, es[1..], first.dirs);
      }
    }
  }

  /** Number of files in a tree: the non-directory entries of every
      directory whose listing can be read. */
  function FileCount(n: Node): nat
    decreases n
  {
    if n.Dir? && n.listing.Listed? then EntriesFileCount(n.listing.entries) else 0
  }

  function EntriesFileCount(es: seq<Entry>): nat
    decreases es
  {
    if es == [] then 0
    else
      (if es[0].BadEntry? then 0 else if es[0].node.Dir? then FileCount(es[0].node) else 1) +
      EntriesFileCount(es[1..])
  }

  /** `f` is the path of a non-directory entry somewhere in the tree at `path`. */
  predicate FileIn(path: Path, n: Node, f: Path)
    decreases n
  {
    n.Dir? && n.listing.Listed? && EntriesFileIn(path, n.listing.entries, f)
  }

  predicate EntriesFileIn(dir: Path, es: seq<Entry>, f: Path)
    decreases es
  {
    es != [] &&
    ((es[0].Entry? && (if es[0].node.Dir? then FileIn(dir + [es[0].name], es[0].node, f) else f == dir + [es[0].name])) ||
     EntriesFileIn(dir, es[1..], f))
  }

  /** On a tree without errors the scan misses nothing: a path is collected
      iff it is a file of the tree, and there are exactly as many paths as
      files. */
  lemma {:induction false} ScanFindsAll(path: Path, n: Node, dirs: nat)
    requires !HasError(n)
    ensures var s := ScanNode(path, n, dirs);
      |s.files| == FileCount(n) && forall f :: f in s.files <==> FileIn(path, n, f)
    decreases n
  {
    if n.Dir? && n.listing.Listed? {
      EntriesFindAll(path, n.listing.entries, dirs + 1);
    }
  }

  lemma {:induction false} EntriesFindAll(dir: Path, es: seq<Entry>, dirs: nat)
    requires !EntriesHaveError(es)
    ensures var s := ScanEntries(dir, es, dirs);
      |s.files| == EntriesFileCount(es) && forall f :: f in s.files <==> EntriesFileIn(dir, es, f)
    decreases es
  {
    if es != [] {
      var first := ScanEntry(dir, es[0], dirs);
      var p := dir + [es[0].name];
      if es[0].node.Dir? {
        ScanCounts(p, es[0].node, dirs);
        ScanFindsAll(p, es[0].node, dirs);
      }
      assert first.error.None?;
      EntriesFindAll(dir, es[1..], first.dirs);
    }
  }

  /** `collect_files_recursive`: `files` and `dirsScanned` are the caller's
      vector and counter, returned updated. */
  method CollectFilesRecursive(ipc: IpcClient, dir: Path, node: Node, files: seq<Path>, dirsScanned: nat)
    returns (files': seq<Path>, dirsScanned': nat, err: Option<IoError>)
    modifies ipc
    ensures var s := ScanNode(dir, node, dirsScanned);
      files' == files + s.files && dirsScanned' == s.dirs && err == s.error &&
      ipc.emitted == old(ipc.emitted) + s.events
    decreases node, 2
  {
    files', dirsScanned', err := files, dirsScanned, None;
    if node.NotDir? {
      assert files + [] == files && ipc.emitted + [] == ipc.emitted;
      return;
    }
    dirsScanned' := dirsScanned' + 1;
    ipc.SetProgress(dirsScanned', 0);
    match node.listing
    case Unreadable(e) =>
      err := Some(e);
      assert files + [] == files;
    case Listed(es) =>
      ghost var before := ipc.emitted;
      files', dirsScanned', err := CollectEntries(ipc, dir, node, es, files', dirsScanned');
      assert ipc.emitted == old(ipc.emitted) + [ProgressSet(dirsScanned + 1, 0)] + ScanEntries(dir, es, dirsScanned + 1).events;
  }

  /** The `for entry in fs::read_dir(dir)?` loop of `collect_files_recursive`. */
  method CollectEntries(ipc: IpcClient, dir: Path, ghost node: Node, es: seq<Entry>, files: seq<Path>, dirsScanned: nat)
    returns (files': seq<Path>, dirsScanned': nat, err: Option<IoError>)
    requires node == Dir(Listed(es))
    modifies ipc
    ensures var s := ScanEntries(dir, es, dirsScanned);
      files' == files + s.files && dirsScanned' == s.dirs && err == s.error &&
      ipc.emitted == old(ipc.emitted) + s.events
    decreases node, 1
  {
    files', dirsScanned', err := files, dirsScanned, None;
    var i := 0;
    ghost var goal := ScanEntries(dir, es, dirsScanned);
    ghost var accFiles: seq<Path> := [];
    ghost var accEvents: seq<Event> := [];
    while i < |es|
      invariant 0 <= i <= |es|
      invariant files' == files + accFiles && ipc.emitted == old(ipc.emitted) + accEvents && err == None
      invariant ScanResumes(goal, accFiles, accEvents, ScanEntries(dir, es[i..], dirsScanned'))
    {
      ghost var emitted := ipc.emitted;
      var f, d, r := CollectEntry(ipc, dir, node, es[i], files', dirsScanned');
      ghost var step := ScanEntry(dir, es[i], dirsScanned');
      Advance(goal, dir, es, i, dirsScanned', files, old(ipc.emitted), accFiles, accEvents, files', emitted, f, ipc.emitted);
      accFiles, accEvents := accFiles + step.files, accEvents + step.events;
      files', dirsScanned', err := f, d, r;
      if err.Some? {
        return;
      }
      i := i + 1;
    }
    assert es[i..] == [];
    assert accFiles + [] == accFiles && accEvents + [] == accEvents;
  }

  /** The entry loop's bookkeeping after entry `i`: the accumulated files and
      events grow by the entry's scan, and either the loop goes on with the
      remaining entries or the entry's error ends the whole scan. */
  lemma Advance(goal: Scan, dir: Path, es: seq<Entry>, i: nat, dirs: nat,
                files0: seq<Path>, events0: seq<Event>, accFiles: seq<Path>, accEvents: seq<Event>,
                files: seq<Path>, events: seq<Event>, files': seq<Path>, events': seq<Event>)
    requires i < |es|
    requires files == files0 + accFiles && events == events0 + accEvents
    requires ScanResumes(goal, accFiles, accEvents, ScanEntries(dir, es[i..], dirs))
    requires var step := ScanEntry(dir, es[i], dirs);
      files' == files + step.files && events' == events + step.events
    ensures var step := ScanEntry(dir, es[i], dirs);
      files' == files0 + (accFiles + step.files) && events' == events0 + (accEvents + step.events) &&
      (step.error.Some? ==> goal == Scan(accFiles + step.files, step.dirs, accEvents + step.events, step.error)) &&
      (step.error.None? ==> ScanResumes(goal, accFiles + step.files, accEvents + step.events, ScanEntries(dir, es[i + 1..], step.dirs)))
  {
    var step := ScanEntry(dir, es[i], dirs);
    EntriesStep(dir, es, i, dirs);
    ScanResumesStep(goal, accFiles, accEvents, ScanEntries(dir, es[i..], dirs), step, ScanEntries(dir, es[i + 1..], step.dirs));
    if step.error.Some? {
      assert accFiles + [] == accFiles && accEvents + [] == accEvents;
    }
  }

  /** One entry of the loop: recurse into a directory, push anything else. */
  method CollectEntry(ipc: IpcClient, dir: Path, ghost node: Node, e: Entry, files: seq<Path>, dirsScanned: nat)
    returns (files': seq<Path>, dirsScanned': nat, err: Option<IoError>)
    requires node.Dir? && node.listing.Listed? && e in node.listing.entries
    modifies ipc
    ensures var s := ScanEntry(dir, e, dirsScanned);
      files' == files + s.files && dirsScanned' == s.dirs && err == s.error &&
      ipc.emitted == old(ipc.emitted) + s.events
    decreases node, 0
  {
    match e
    case BadEntry(x) =>
      files', dirsScanned', err := files, dirsScanned, Some(x);
      assert files + [] == files && ipc.emitted + [] == ipc.emitted;
    case Entry(name, child) =>
      var path := dir + [name];
      if child.Dir? {
        files', dirsScanned', err := CollectFilesRecursive(ipc, path, child, files, dirsScanned);
      } else {
        files', dirsScanned', err := files + [path], dirsScanned, None;
        assert ipc.emitted + [] == ipc.emitted;
      }
  }

  /** `whole` is the scan that produced the given prefixes and continued as `rest`. */
  predicate ScanResumes(whole: Scan, files: seq<Path>, events: seq<Event>, rest: Scan)
  {
    whole.files == files + rest.files && whole.events == events + rest.events &&
    whole.dirs == rest.dirs && whole.error == rest.error
  }

  /** How the entry loop continues after entry `i`. */
  lemma EntriesStep(dir: Path, es: seq<Entry>, i: nat, dirs: nat)
    requires i < |es|
    ensures var first := ScanEntry(dir, es[i], dirs);
      var r := ScanEntries(dir, es[i..], dirs);
      if first.error.Some? then r == first
      else ScanResumes(r, first.files, first.events, ScanEntries(dir, es[i + 1..], first.dirs))
  {
    assert es[i..][0] == es[i] && es[i..][1..] == es[i + 1..];
  }

  lemma ScanResumesStep(goal: Scan, files: seq<Path>, events: seq<Event>, here: Scan, step: Scan, rest: Scan)
    requires ScanResumes(goal, files, events, here)
    requires step.error.Some? ==> here == step
    requires step.error.None? ==> ScanResumes(here, step.files, step.events, rest)
    ensures step.error.Some? ==> goal == Scan(files + step.files, step.dirs, events + step.events, step.error)
    ensures step.error.None? ==> ScanResumes(goal, files + step.files, events + step.events, rest)
  {
    if step.error.None? {
      assert files + (step.files + rest.files) == (files + step.files) + rest.files;
      assert events + (step.events + rest.events) == (events + step.events) + rest.events;
    }
  }

  /** `collect_files_with_progress`: the scan of the package directory from
      an empty list and a zero counter; an error aborts it. */
  method CollectFilesWithProgress(ipc: IpcClient, dir: Path, tree: Node) returns (r: Result<seq<Path>, IoError>)
    modifies ipc
    ensures var s := ScanNode(dir, tree, 0);
      r == (if s.error.Some? then Err(s.error.value) else Ok(s.files)) &&
      ipc.emitted == old(ipc.emitted) + s.events
  {
    var files, _, err := CollectFilesRecursive(ipc, dir, tree, [], 0);
    if err.Some? {
      return Err(err.value);
    }
    assert files == ScanNode(dir, tree, 0).files by {
      assert [] + ScanNode(dir, tree, 0).files == ScanNode(dir, tree, 0).files;
    }
    return Ok(files);
  }

  /** A root that is not a directory yields no files and no progress; one
      that is yields `(1, 0)` first. */
  lemma ScanRoot(path: Path, n: Node)
    ensures n.NotDir? ==> ScanNode(path, n, 0) == Scan([], 0, [], None)
    ensures n.Dir? ==> var s := ScanNode(path, n, 0); s.dirs >= 1 && s.events[0] == ProgressSet(1, 0)
  {
    if n.Dir? {
      ScanCounts(path, n, 0);
    }
  }

  // ---------------------------------------------------------------------
  // Destination directories
  // ---------------------------------------------------------------------

  /** `dump.join(f.strip_prefix(base).unwrap_or(f))`. A path outside `base`
      stays as it is, as joining an absolute path does. */
  function Dest(f: Path, base: Path, dump: Path): Path
  {
    if |base| <= |f| && f[..|base|] == base then dump + f[|base|..] else f
  }

  /** `Path::parent`: all components but the last; none for the empty path. */
  function Parent(p: Path): Option<Path>
  {
    if p == [] then None else Some(p[..|p| - 1])
  }

  /** The directories to pre-create: the parents of the destinations of the
      files of the prefix scanned so far. */
  function DestDirs(files: seq<Path>, base: Path, dump: Path): set<Path>
  {
    if files == [] then {}
    else
      var last := Parent(Dest(files[|files| - 1], base, dump));
      DestDirs(files[..|files| - 1], base, dump) + (if last.Some? then {last.value} else {})
  }

  /** The directory set is exactly the set of parents of the destinations. */
  lemma DestDirsMembers(files: seq<Path>, base: Path, dump: Path)
    ensures forall d :: d in DestDirs(files, base, dump) <==>
      exists i :: 0 <= i < |files| && Parent(Dest(files[i], base, dump)) == Some(d)
  {
    forall d
      ensures d in DestDirs(files, base, dump) <==>
        exists i :: 0 <= i < |files| && Parent(Dest(files[i], base, dump)) == Some(d)
    {
      DestDirsMember(files, base, dump, d);
    }
  }

  lemma {:induction false} DestDirsMember(files: seq<Path>, base: Path, dump: Path, d: Path)
    ensures d in DestDirs(files, base, dump) <==>
      exists i :: 0 <= i < |files| && Parent(Dest(files[i], base, dump)) == Some(d)
  {
    if files != [] {
      var n := |files| - 1;
      var init := files[..n];
      var last := Parent(Dest(files[n], base, dump));
      assert DestDirs(files, base, dump) == DestDirs(init, base, dump) + (if last.Some? then {last.value} else {});
      DestDirsMember(init, base, dump, d);
      assert forall i :: 0 <= i < n ==> init[i] == files[i];
    }
  }

  /** Hence there are at most as many directories as files. */
  lemma {:induction false} DestDirsCount(files: seq<Path>, base: Path, dump: Path)
    ensures |DestDirs(files, base, dump)| <= |files|
  {
    if files != [] {
      DestDirsCount(files[..|files| - 1], base, dump);
    }
  }

  /** For files lying strictly below the package directory, every directory
      to create lies within the dump directory. */
  lemma DestDirsInDump(files: seq<Path>, base: Path, dump: Path)
    requires forall f :: f in files ==> |base| < |f| && f[..|base|] == base
    ensures forall d :: d in DestDirs(files, base, dump) ==> |dump| <= |d| && d[..|dump|] == dump
  {
    DestDirsMembers(files, base, dump);
    forall d | d in DestDirs(files, base, dump)
      ensures |dump| <= |d| && d[..|dump|] == dump
    {
      var i :| 0 <= i < |files| && Parent(Dest(files[i], base, dump)) == Some(d);
      assert files[i] in files;
      DestParentInDump(files[i], base, dump);
    }
  }

  lemma DestParentInDump(f: Path, base: Path, dump: Path)
    requires |base| < |f| && f[..|base|] == base
    ensures var d := Parent(Dest(f, base, dump)); d.Some? && |dump| <= |d.value| && d.value[..|dump|] == dump
  {
    var dest := dump + f[|base|..];
    assert Dest(f, base, dump) == dest;
    assert dest[..|dest| - 1][..|dump|] == dump;
  }

  /** The `for file in &files` loop that fills the `HashSet`. */
  method PlanDirectories(files: seq<Path>, base: Path, dump: Path) returns (dirs: set<Path>)
    ensures dirs == DestDirs(files, base, dump)
  {
    dirs := {};
    var i := 0;
    while i < |files|
      invariant 0 <= i <= |files|
      invariant dirs == DestDirs(files[..i], base, dump)
    {
      var dest := Dest(files[i], base, dump);
      if dest != [] {
        dirs := dirs + {dest[..|dest| - 1]};
      }
      assert files[..i + 1][..i] == files[..i];
      i := i + 1;
    }
    assert files[..i] == files;
  }

  /** What the directory phase publishes for `d` directories: a log line,
      `(0, d)` and a sync, one step per directory, then `(d, d)` and a sync. */
  function DirectoryPhase(d: nat): seq<Event>
  {
    [InfoLog("Creating " + NatToString(d) + " directories..."), ProgressSet(0, d), SyncRequested] +
    Ramp(0, d, d) + [ProgressSet(d, d), SyncRequested]
  }

  /** Creates every planned directory once, in the set's own order, ignoring
      failures; `created` is that order. */
  method CreateDirectories(ipc: IpcClient, dirs: set<Path>) returns (created: seq<Path>)
    modifies ipc
    ensures |created| == |dirs| && forall p :: p in created <==> p in dirs
    ensures ipc.emitted == old(ipc.emitted) + DirectoryPhase(|dirs|)
  {
    var total := |dirs|;
    ipc.Info("Creating " + NatToString(total) + " directories...");
    ipc.SetProgress(0, total);
    ipc.Sync();
    ghost var start := ipc.emitted;
    var remaining := dirs;
    created := [];
    var i := 0;
    while remaining != {}
      invariant i == |created| && i + |remaining| == total
      invariant remaining <= dirs && forall p :: p in created <==> p in dirs && p !in remaining
      invariant ipc.emitted == start + Ramp(0, i, total)
      decreases |remaining|
    {
      var dir :| dir in remaining;
      created := created + [dir];
      remaining := remaining - {dir};
      i := i + 1;
      ipc.SetProgress(i, total);
    }
    ipc.SetProgress(total, total);
    ipc.Sync();
  }

  /** Every progress value of the directory phase with a total stays within it. */
  lemma DirectoryPhaseBounded(d: nat)
    ensures forall k :: 0 <= k < |DirectoryPhase(d)| && DirectoryPhase(d)[k].ProgressSet? ==>
      DirectoryPhase(d)[k].current <= DirectoryPhase(d)[k].total == d
  {
    var e := DirectoryPhase(d);
    forall k | 0 <= k < |e| && e[k].ProgressSet?
      ensures e[k].current <= e[k].total == d
    {
      if 3 <= k < 3 + d {
        assert e[k] == Ramp(0, d, d)[k - 3];
      }
    }
  }

  // ---------------------------------------------------------------------
  // Copy
  // ---------------------------------------------------------------------

  /** Number of files whose copy fails. */
  function Failures(files: seq<Path>, failing: set<Path>): (n: nat)
    ensures n <= |files|
  {
    if files == [] then 0
    else Failures(files[..|files| - 1], failing) + (if files[|files| - 1] in failing then 1 else 0)
  }

  /** No errors exactly when no copy fails; all errors exactly when all do. */
  lemma {:induction false} FailuresExtremes(files: seq<Path>, failing: set<Path>)
    ensures Failures(files, failing) == 0 <==> forall i :: 0 <= i < |files| ==> files[i] !in failing
    ensures Failures(files, failing) == |files| <==> forall i :: 0 <= i < |files| ==> files[i] in failing
  {
    if files != [] {
      var init := files[..|files| - 1];
      FailuresExtremes(init, failing);
      assert forall i :: 0 <= i < |init| ==> init[i] == files[i];
    }
  }

  lemma FailuresSnoc(files: seq<Path>, i: nat, failing: set<Path>)
    requires i < |files|
    ensures Failures(files[..i + 1], failing) == Failures(files[..i], failing) + (if files[i] in failing then 1 else 0)
  {
    assert files[..i + 1][..i] == files[..i];
  }

  /** What the copy phase publishes for `total` files: a log line, `(0,
      total)`, one step per file, then `(total, total)` and a sync. */
  function CopyPhase(total: nat): seq<Event>
  {
    [InfoLog("Copying " + NatToString(total) + " files (parallel)..."), ProgressSet(0, total)] +
    Ramp(0, total, total) + [ProgressSet(total, total), SyncRequested]
  }

  /** The copy loop, one file after another: each file counts as processed
      once, whether or not its copy succeeds, and a failure only counts an
      error, so there are never more errors than files. */
  method CopyFiles(ipc: IpcClient, files: seq<Path>, base: Path, dump: Path, failing: set<Path>)
    returns (errors: nat)
    modifies ipc
    ensures errors == Failures(files, failing) && errors <= |files|
    ensures ipc.emitted == old(ipc.emitted) + CopyPhase(|files|)
  {
    var total := |files|;
    ipc.Info("Copying " + NatToString(total) + " files (parallel)...");
    ipc.SetProgress(0, total);
    ghost var start := ipc.emitted;
    var processed := 0;
    errors := 0;
    while processed < total
      invariant processed <= total
      invariant errors == Failures(files[..processed], failing)
      invariant ipc.emitted == start + Ramp(0, processed, total)
    {
      FailuresSnoc(files, processed, failing);
      if files[processed] in failing {
        errors := errors + 1;
      }
      processed := processed + 1;
      ipc.SetProgress(processed, total);
    }
    ipc.SetProgress(total, total);
    ipc.Sync();
    assert files[..processed] == files;
  }

  /** Every progress value of the copy phase stays within its total, and
      the last one is `(total, total)`. */
  lemma CopyPhaseBounded(total: nat)
    ensures var e := CopyPhase(total);
      e[|e| - 2] == ProgressSet(total, total) &&
      forall k :: 0 <= k < |e| && e[k].ProgressSet? ==> e[k].current <= e[k].total == total
  {
    var e := CopyPhase(total);
    forall k | 0 <= k < |e| && e[k].ProgressSet?
      ensures e[k].current <= e[k].total == total
    {
      if 2 <= k < 2 + total {
        assert e[k] == Ramp(0, total, total)[k - 2];
      }
    }
  }

  // ---------------------------------------------------------------------
  // The run
  // ---------------------------------------------------------------------

  /** What `CurrentPackage::current` reports about the running package. */
  datatype CurrentPackage = CurrentPackage(familyName: string, fullName: string, path: Path)

  /** Everything `run` learns from outside: the package lookup, the
      TempState lookup, whether a previous dump exists and how removing it
      and creating the dump directory go, the package directory tree, the
      files whose copy fails, and the elapsed time as printed. */
  datatype Host = Host(
    package: Result<CurrentPackage, WinError>,
    tempState: Result<Path, DumperError>,
    dumpExists: bool,
    removeError: Option<IoError>,
    createError: Option<IoError>,
    tree: Node,
    failing: set<Path>,
    elapsed: string)

  /** The result of `run` and what it published on the way. */
  datatype RunOut = RunOut(result: Result<Path, DumperError>, events: seq<Event>)

  function PackageLines(pkg: CurrentPackage): seq<Event>
  {
    [InfoLog("Family Name: " + pkg.familyName), InfoLog("Full Name: " + pkg.fullName),
     InfoLog("Package Path: " + PathText(pkg.path))]
  }

  function DumpedText(copied: nat, errors: nat, elapsed: string): string
  {
    "Dumped " + NatToString(copied) + " files (" + NatToString(errors) + " errors) in " + elapsed + "s"
  }

  /** `run`, step by step: the lookups, the removal of a previous dump and
      the creation of the dump directory, each of which can end it with an
      error, then the dump proper. */
  function Pipeline(h: Host): RunOut
  {
    var e0 := [InfoLog("Retrieving package information...")];
    match h.package
    case Err(e) => RunOut(Err(LookupError(e)), e0)
    case Ok(pkg) =>
      var l := Located(h, pkg);
      RunOut(l.result, e0 + l.events)
  }

  /** Once the package is known: its description, then the TempState lookup. */
  function Located(h: Host, pkg: CurrentPackage): RunOut
  {
    var e0 := PackageLines(pkg);
    match h.tempState
    case Err(e) => RunOut(Err(e), e0)
    case Ok(temp) =>
      var p := Prepared(h, pkg, temp + ["DUMP"]);
      RunOut(p.result, e0 + p.events)
  }

  /** Once the dump path is known: removing a previous dump and creating the
      directory, then the dump proper. */
  function Prepared(h: Host, pkg: CurrentPackage, dump: Path): RunOut
  {
    var e0 := [InfoLog("Dump Path: " + PathText(dump))] +
      (if h.dumpExists then [InfoLog("Cleaning up previous dump...")] else []);
    if h.dumpExists && h.removeError.Some? then RunOut(Err(Io(h.removeError.value)), e0)
    else if h.createError.Some? then RunOut(Err(Io(h.createError.value)), e0)
    else
      var d := Dumped(h, pkg, dump);
      RunOut(d.result, e0 + d.events)
  }

  /** The dump proper: the scan, which can end it with an error, then the
      rest, which cannot. */
  function Dumped(h: Host, pkg: CurrentPackage, dump: Path): RunOut
  {
    var s := ScanNode(pkg.path, h.tree, 0);
    var e0 := [InfoLog("Scanning package files...")] + s.events;
    if s.error.Some? then RunOut(Err(Io(s.error.value)), e0)
    else RunOut(Ok(dump), e0 + Populated(s.files, pkg.path, dump, h.failing, h.elapsed))
  }

  /** After the scan: a sync and the file count, the directory phase, the
      copy phase, and the summary with the copied and failed counts. */
  function Populated(files: seq<Path>, base: Path, dump: Path, failing: set<Path>, elapsed: string): seq<Event>
  {
    [SyncRequested] + [InfoLog("Found " + NatToString(|files|) + " files to dump")] +
    DirectoryPhase(|DestDirs(files, base, dump)|) + CopyPhase(|files|) + Summary(files, failing, elapsed, dump)
  }

  /** The closing lines: the copied and failed counts, and the output path. */
  function Summary(files: seq<Path>, failing: set<Path>, elapsed: string, dump: Path): seq<Event>
  {
    var errors := Failures(files, failing);
    [Pushed(Log(Success, DumpedText(|files| - errors, errors, elapsed))), InfoLog("Output: " + PathText(dump))]
  }

  lemma Extend<T>(a: seq<T>, b: seq<T>, c: seq<T>)
    ensures (a + b) + c == a + (b + c)
  {
  }

  /** `run`. */
  method Run(ipc: IpcClient, h: Host) returns (r: Result<Path, DumperError>)
    modifies ipc
    ensures r == Pipeline(h).result && ipc.emitted == old(ipc.emitted) + Pipeline(h).events
  {
    ghost var start := ipc.emitted;
    ipc.Info("Retrieving package information...");
    if h.package.Err? {
      return Err(LookupError(h.package.error));
    }
    r := RunLocated(ipc, h, h.package.value);
    Extend(start, [InfoLog("Retrieving package information...")], Located(h, h.package.value).events);
  }

  /** The part of `run` after the package lookup. */
  method RunLocated(ipc: IpcClient, h: Host, pkg: CurrentPackage) returns (r: Result<Path, DumperError>)
    modifies ipc
    ensures r == Located(h, pkg).result && ipc.emitted == old(ipc.emitted) + Located(h, pkg).events
  {
    ghost var start := ipc.emitted;
    ipc.Info("Family Name: " + pkg.familyName);
    ipc.Info("Full Name: " + pkg.fullName);
    ipc.Info("Package Path: " + PathText(pkg.path));
    assert ipc.emitted == start + PackageLines(pkg);
    if h.tempState.Err? {
      return Err(h.tempState.error);
    }
    var dump := h.tempState.value + ["DUMP"];
    r := RunPrepared(ipc, h, pkg, dump);
    Extend(start, PackageLines(pkg), Prepared(h, pkg, dump).events);
  }

  /** The part of `run` after the TempState lookup. */
  method RunPrepared(ipc: IpcClient, h: Host, pkg: CurrentPackage, dump: Path) returns (r: Result<Path, DumperError>)
    modifies ipc
    ensures r == Prepared(h, pkg, dump).result && ipc.emitted == old(ipc.emitted) + Prepared(h, pkg, dump).events
  {
    ghost var start := ipc.emitted;
    ipc.Info("Dump Path: " + PathText(dump));
    ghost var acc := [InfoLog("Dump Path: " + PathText(dump))];
    if h.dumpExists {
      ipc.Info("Cleaning up previous dump...");
      Extend(start, acc, [InfoLog("Cleaning up previous dump...")]);
      acc := acc + [InfoLog("Cleaning up previous dump...")];
      if h.removeError.Some? {
        return Err(Io(h.removeError.value));
      }
    } else {
      assert acc + [] == acc;
    }
    if h.createError.Some? {
      return Err(Io(h.createError.value));
    }
    r := DumpFiles(ipc, h, pkg, dump);
    Extend(start, acc, Dumped(h, pkg, dump).events);
  }

  /** The part of `run` after the dump directory exists. */
  method DumpFiles(ipc: IpcClient, h: Host, pkg: CurrentPackage, dump: Path) returns (r: Result<Path, DumperError>)
    modifies ipc
    ensures r == Dumped(h, pkg, dump).result && ipc.emitted == old(ipc.emitted) + Dumped(h, pkg, dump).events
  {
    ghost var start := ipc.emitted;
    ghost var s := ScanNode(pkg.path, h.tree, 0);
    ipc.Info("Scanning package files...");
    var scanned := CollectFilesWithProgress(ipc, pkg.path, h.tree);
    Extend(start, [InfoLog("Scanning package files...")], s.events);
    if scanned.Err? {
      return Err(Io(scanned.error));
    }
    ghost var acc := [InfoLog("Scanning package files...")] + s.events;
    Populate(ipc, scanned.value, pkg.path, dump, h.failing, h.elapsed);
    Extend(start, acc, Populated(scanned.value, pkg.path, dump, h.failing, h.elapsed));
    r := Ok(dump);
  }

  /** The part of `run` after the scan. */
  method Populate(ipc: IpcClient, files: seq<Path>, base: Path, dump: Path, failing: set<Path>, elapsed: string)
    modifies ipc
    ensures ipc.emitted == old(ipc.emitted) + Populated(files, base, dump, failing, elapsed)
  {
    ghost var start := ipc.emitted;
    var total := |files|;
    ipc.Sync();
    ipc.Info("Found " + NatToString(total) + " files to dump");
    ghost var acc := [SyncRequested] + [InfoLog("Found " + NatToString(total) + " files to dump")];
    Extend(start, [SyncRequested], [InfoLog("Found " + NatToString(total) + " files to dump")]);
    var dirs := PlanDirectories(files, base, dump);
    var _ := CreateDirectories(ipc, dirs);
    Extend(start, acc, DirectoryPhase(|dirs|));
    acc := acc + DirectoryPhase(|dirs|);
    var errors := CopyFiles(ipc, files, base, dump, failing);
    Extend(start, acc, CopyPhase(total));
    acc := acc + CopyPhase(total);
    Report(ipc, files, failing, elapsed, dump, errors);
    Extend(start, acc, Summary(files, failing, elapsed, dump));
  }

  /** The closing lines of `run`, given the number of failed copies. */
  method Report(ipc: IpcClient, files: seq<Path>, failing: set<Path>, elapsed: string, dump: Path, errors: nat)
    requires errors == Failures(files, failing)
    modifies ipc
    ensures ipc.emitted == old(ipc.emitted) + Summary(files, failing, elapsed, dump)
  {
    var copied := |files| - errors;
    ipc.Success(DumpedText(copied, errors, elapsed));
    ipc.Info("Output: " + PathText(dump));
  }

  /** What `run` may publish: log lines, progress values and sync requests;
      never `Ready`, `Complete` or `Fatal`, which are the thread's. */
  predicate Reportable(e: Event)
  {
    (e.Pushed? && e.packet.Log?) || e.ProgressSet? || e.SyncRequested?
  }

  /** Every event is reportable, and every progress value with a known
      total stays within it. */
  predicate WellReported(es: seq<Event>)
  {
    forall e :: e in es ==> Reportable(e) && (e.ProgressSet? && e.total > 0 ==> e.current <= e.total)
  }

  lemma WellReportedConcat(a: seq<Event>, b: seq<Event>)
    requires WellReported(a) && WellReported(b)
    ensures WellReported(a + b)
  {
  }

  /** `run` publishes only log lines, progress and syncs, and every progress
      value with a known total stays within it. */
  lemma PipelineEvents(h: Host)
    ensures WellReported(Pipeline(h).events)
  {
    if h.package.Ok? {
      var pkg := h.package.value;
      if h.tempState.Ok? {
        var dump := h.tempState.value + ["DUMP"];
        var e0 := [InfoLog("Dump Path: " + PathText(dump))] +
          (if h.dumpExists then [InfoLog("Cleaning up previous dump...")] else []);
        assert WellReported(e0);
        if !(h.dumpExists && h.removeError.Some?) && h.createError.None? {
          DumpedEvents(h, pkg, dump);
          WellReportedConcat(e0, Dumped(h, pkg, dump).events);
        }
        assert WellReported(Prepared(h, pkg, dump).events);
        assert WellReported(PackageLines(pkg));
        WellReportedConcat(PackageLines(pkg), Prepared(h, pkg, dump).events);
      }
      assert WellReported(Located(h, pkg).events);
      WellReportedConcat([InfoLog("Retrieving package information...")], Located(h, pkg).events);
    }
  }

  lemma DumpedEvents(h: Host, pkg: CurrentPackage, dump: Path)
    ensures WellReported(Dumped(h, pkg, dump).events)
  {
    var s := ScanNode(pkg.path, h.tree, 0);
    ScanCounts(pkg.path, h.tree, 0);
    assert WellReported(s.events);
    WellReportedConcat([InfoLog("Scanning package files...")], s.events);
    if s.error.None? {
      PopulatedEvents(s.files, pkg.path, dump, h.failing, h.elapsed);
      WellReportedConcat([InfoLog("Scanning package files...")] + s.events, Populated(s.files, pkg.path, dump, h.failing, h.elapsed));
    }
  }

  lemma PopulatedEvents(files: seq<Path>, base: Path, dump: Path, failing: set<Path>, elapsed: string)
    ensures WellReported(Populated(files, base, dump, failing, elapsed))
  {
    var total := |files|;
    var errors := Failures(files, failing);
    var d := |DestDirs(files, base, dump)|;
    DirectoryPhaseBounded(d);
    CopyPhaseBounded(total);
    var e1 := [SyncRequested] + [InfoLog("Found " + NatToString(total) + " files to dump")];
    assert WellReported(e1);
    WellReportedConcat(e1, DirectoryPhase(d));
    WellReportedConcat(e1 + DirectoryPhase(d), CopyPhase(total));
    var e2 := e1 + DirectoryPhase(d) + CopyPhase(total);
    var tail := [Pushed(Log(Success, DumpedText(total - errors, errors, elapsed)))];
    WellReportedConcat(e2, tail);
    WellReportedConcat(e2 + tail, [InfoLog("Output: " + PathText(dump))]);
  }

  /** `run` succeeds exactly when both lookups succeed, the previous dump
      (if any) is removed, the dump directory is created and the scan meets
      no error, and then yields `TempState\DUMP`; the copies do not matter. */
  lemma PipelineSucceeds(h: Host)
    ensures Pipeline(h).result.Ok? <==>
      h.package.Ok? && h.tempState.Ok? && !(h.dumpExists && h.removeError.Some?) && h.createError.None? &&
      !HasError(h.tree)
    ensures Pipeline(h).result.Ok? ==> Pipeline(h).result.value == h.tempState.value + ["DUMP"]
    ensures forall failing :: Pipeline(h.(failing := failing)).result == Pipeline(h).result
  {
    if h.package.Ok? {
      ScanCounts(h.package.value.path, h.tree, 0);
    }
  }

  /** `s` ends with `t`. */
  predicate EndsWith(s: seq<Event>, t: seq<Event>)
  {
    |t| <= |s| && s[|s| - |t|..] == t
  }

  lemma EndsWithConcat(a: seq<Event>, b: seq<Event>, t: seq<Event>)
    requires EndsWith(b, t)
    ensures EndsWith(a + b, t)
  {
    assert (a + b)[|a + b| - |t|..] == b[|b| - |t|..];
  }

  /** A successful run ends with the summary, whose copied and failed
      counts add up to the number of files the scan found, and the output
      path. */
  lemma PipelineSummary(h: Host)
    requires h.package.Ok? && h.tempState.Ok? && !(h.dumpExists && h.removeError.Some?) && h.createError.None?
    requires !HasError(h.tree)
    ensures var files := ScanNode(h.package.value.path, h.tree, 0).files;
      Failures(files, h.failing) <= |files| &&
      EndsWith(Pipeline(h).events, Summary(files, h.failing, h.elapsed, h.tempState.value + ["DUMP"]))
  {
    var pkg := h.package.value;
    var dump := h.tempState.value + ["DUMP"];
    ScanCounts(pkg.path, h.tree, 0);
    DumpedEnds(h, pkg, dump);
    var t := Summary(ScanNode(pkg.path, h.tree, 0).files, h.failing, h.elapsed, dump);
    var e0 := [InfoLog("Dump Path: " + PathText(dump))] +
      (if h.dumpExists then [InfoLog("Cleaning up previous dump...")] else []);
    EndsWithConcat(e0, Dumped(h, pkg, dump).events, t);
    EndsWithConcat(PackageLines(pkg), Prepared(h, pkg, dump).events, t);
    EndsWithConcat([InfoLog("Retrieving package information...")], Located(h, pkg).events, t);
  }

  lemma DumpedEnds(h: Host, pkg: CurrentPackage, dump: Path)
    requires ScanNode(pkg.path, h.tree, 0).error.None?
    ensures EndsWith(Dumped(h, pkg, dump).events, Summary(ScanNode(pkg.path, h.tree, 0).files, h.failing, h.elapsed, dump))
  {
    var s := ScanNode(pkg.path, h.tree, 0);
    var t := Summary(s.files, h.failing, h.elapsed, dump);
    var pre := [SyncRequested] + [InfoLog("Found " + NatToString(|s.files|) + " files to dump")] +
      DirectoryPhase(|DestDirs(s.files, pkg.path, dump)|) + CopyPhase(|s.files|);
    EndsWithConcat(pre, t, t);
    EndsWithConcat([InfoLog("Scanning package files...")] + s.events, Populated(s.files, pkg.path, dump, h.failing, h.elapsed), t);
  }
}
