/**
 * The injected library (`lib.rs`): the entry point the loader calls, and
 * the worker thread that connects to the channel, announces itself, waits
 * for the controller's go-ahead, runs the dump, reports its outcome and
 * marks the run finished.
 *
 * Whether the channel opens, the successive values of the start flag and
 * everything the dump learns from the system are parameters. Unloading the
 * library is the thread's exit code.
 */
module Payload {
  import opened Wrappers
  import opened Os
  import opened Ipc
  import opened Dumper

  // ---------------------------------------------------------------------
  // The worker thread
  // ---------------------------------------------------------------------

  /** Index of the first poll that sees the start flag set. */
  function FirstStart(starts: seq<bool>): (k: nat)
    requires true in starts
    ensures k < |starts| && starts[k]
    ensures forall j :: 0 <= j < k ==> !starts[j]
  {
    if starts[0] then 0 else 1 + FirstStart(starts[1..])
  }

  /** The polls of the start flag, one event per poll. */
  function Polled(starts: seq<bool>): (r: seq<Event>)
    ensures |r| == |starts|
    ensures forall j :: 0 <= j < |r| ==> r[j] == StartPolled(starts[j])
  {
    if starts == [] then [] else Polled(starts[..|starts| - 1]) + [StartPolled(starts[|starts| - 1])]
  }

  /** The packet that ends the run: the dump path on success, the error
      text on failure. */
  function Terminal(r: Result<Path, DumperError>): (p: Packet)
    ensures IsTerminal(p)
    ensures p.Complete? <==> r.Ok?
  {
    match r
    case Ok(dump) => Complete(PathText(dump))
    case Err(e) => Fatal("Dumper failed: " + DumperErrorText(e))
  }

  /** The thread's exit code after a run with this result. */
  function ExitCode(r: Result<Path, DumperError>): nat
  {
    if r.Ok? then 0 else 1
  }

  /** What the thread publishes before `run`: `Ready`, then the polls of
      the start flag up to the first that sees it set. */
  function Announced(starts: seq<bool>): seq<Event>
    requires true in starts
  {
    [Pushed(Ready)] + Polled(starts[..FirstStart(starts) + 1])
  }

  /** What the thread publishes after `run`: the terminal packet, then the
      finished flag. */
  function Concluded(r: Result<Path, DumperError>): seq<Event>
  {
    [Pushed(Terminal(r)), FinishedSet]
  }

  /** Everything the thread publishes once the channel is open. */
  function ThreadEvents(starts: seq<bool>, h: Host): seq<Event>
    requires true in starts
  {
    Announced(starts) + Pipeline(h).events + Concluded(Pipeline(h).result)
  }

  /** `dumper_thread`. `opens` says whether `IpcClient::open` succeeds;
      `starts` are the values successive polls of the start flag see, which
      the controller eventually sets. The channel is the returned client,
      absent when it could not be opened. */
  method DumperThread(opens: bool, starts: seq<bool>, h: Host) returns (exitCode: nat, ipc: IpcClient?)
    requires true in starts
    ensures ipc == null <==> !opens
    ensures ipc == null ==> exitCode == 1
    ensures ipc != null ==> fresh(ipc) && ipc.emitted == ThreadEvents(starts, h) && exitCode == ExitCode(Pipeline(h).result)
  {
    if !opens {
      return 1, null;
    }
    ipc := new IpcClient.Open();
    ipc.PushPacket(Ready);
    assert ipc.emitted == [Pushed(Ready)];
    WaitForStart(ipc, starts);
    assert ipc.emitted == Announced(starts);
    var result := Run(ipc, h);
    ghost var before := ipc.emitted;
    assert before == Announced(starts) + Pipeline(h).events;
    match result {
      case Ok(dump) =>
        ipc.PushPacket(Complete(PathText(dump)));
        exitCode := 0;
      case Err(e) =>
        ipc.PushPacket(Fatal("Dumper failed: " + DumperErrorText(e)));
        exitCode := 1;
    }
    ipc.SetFinished();
    assert ipc.emitted == before + Concluded(result);
  }

  /** The `while !ipc.should_start()` loop. */
  method WaitForStart(ipc: IpcClient, starts: seq<bool>)
    requires true in starts
    modifies ipc
    ensures ipc.emitted == old(ipc.emitted) + Polled(starts[..FirstStart(starts) + 1])
  {
    var k := 0;
    var go := ipc.ShouldStart(starts[0]);
    assert starts[..1] == [starts[0]];
    while !go
      invariant k < |starts| && go == starts[k]
      invariant forall j :: 0 <= j < k ==> !starts[j]
      invariant ipc.emitted == old(ipc.emitted) + Polled(starts[..k + 1])
      decreases |starts| - k
    {
      k := k + 1;
      go := ipc.ShouldStart(starts[k]);
      assert starts[..k + 1][..k] == starts[..k];
    }
  }

  /** Indexing into three consecutive parts. */
  lemma At3(a: seq<Event>, b: seq<Event>, c: seq<Event>, j: nat)
    requires j < |a| + |b| + |c|
    ensures (a + b + c)[j] == if j < |a| then a[j] else if j < |a| + |b| then b[j - |a|] else c[j - |a| - |b|]
  {
  }

  /** `Ready` is the first event and the only `Ready`; the thread waits,
      polling, until it sees the start flag, and `run` publishes nothing
      before that. */
  lemma ReadyThenStart(starts: seq<bool>, h: Host)
    requires true in starts
    ensures var ev := ThreadEvents(starts, h);
      var n := FirstStart(starts);
      n + 1 < |ev| && ev[0] == Pushed(Ready) && ev[n + 1] == StartPolled(true) &&
      forall j :: 0 <= j < |ev| ==>
        (0 < j ==> ev[j] != Pushed(Ready)) &&
        (0 < j <= n ==> ev[j] == StartPolled(false)) &&
        (Reportable(ev[j]) ==> n + 1 < j)
  {
    var n := FirstStart(starts);
    var polls := Polled(starts[..n + 1]);
    var head := Announced(starts);
    var run := Pipeline(h).events;
    var tail := Concluded(Pipeline(h).result);
    var ev := ThreadEvents(starts, h);
    PipelineEvents(h);
    assert |head| == n + 2;
    assert head[n + 1] == polls[n];
    forall j | 0 <= j < |ev|
      ensures 0 < j ==> ev[j] != Pushed(Ready)
      ensures 0 < j <= n ==> ev[j] == StartPolled(false)
      ensures Reportable(ev[j]) ==> n + 1 < j
    {
      At3(head, run, tail, j);
      if j < |head| {
        if 0 < j {
          assert head[j] == polls[j - 1];
        }
      } else if j < |head| + |run| {
        assert run[j - |head|] in run;
      }
    }
  }

  /** Exactly one terminal packet is published, just before the finished
      flag, which is set once and last: `Complete` with the dump path when
      `run` succeeds, `Fatal` with the error text when it fails. The exit
      code is 0 after `Complete` and 1 after `Fatal`. */
  lemma OneTerminalThenFinished(starts: seq<bool>, h: Host)
    requires true in starts
    ensures var ev := ThreadEvents(starts, h);
      var r := Pipeline(h).result;
      |ev| >= 3 &&
      ev[|ev| - 2] == Pushed(Terminal(r)) && ev[|ev| - 1] == FinishedSet &&
      forall j :: 0 <= j < |ev| - 2 ==> !(ev[j].Pushed? && IsTerminal(ev[j].packet)) && ev[j] != FinishedSet
    ensures var r := Pipeline(h).result;
      (r.Ok? ==> Terminal(r) == Complete(PathText(r.value))) &&
      (r.Err? ==> Terminal(r) == Fatal("Dumper failed: " + DumperErrorText(r.error))) &&
      (ExitCode(r) == 0 <==> Terminal(r).Complete?) &&
      (ExitCode(r) == 1 <==> Terminal(r).Fatal?)
  {
    var n := FirstStart(starts);
    var polls := Polled(starts[..n + 1]);
    var head := Announced(starts);
    var run := Pipeline(h).events;
    var tail := Concluded(Pipeline(h).result);
    var ev := ThreadEvents(starts, h);
    PipelineEvents(h);
    forall j | 0 <= j < |ev| - 2
      ensures !(ev[j].Pushed? && IsTerminal(ev[j].packet)) && ev[j] != FinishedSet
    {
      At3(head, run, tail, j);
      if j < |head| {
        if 0 < j {
          assert head[j] == polls[j - 1];
        }
      } else {
        assert run[j - |head|] in run;
      }
    }
    At3(head, run, tail, |ev| - 2);
    At3(head, run, tail, |ev| - 1);
  }

  // ---------------------------------------------------------------------
  // The entry point
  // ---------------------------------------------------------------------

  const ProcessDetach: nat := 0
  const ProcessAttach: nat := 1

  /** The library's process-wide state: the module handle kept for
      unloading, and the number of worker threads started. */
  class Library {
    var moduleHandle: nat
    var workers: nat

    constructor ()
      ensures moduleHandle == 0 && workers == 0
    {
      moduleHandle := 0;
      workers := 0;
    }

    /** `DllMain`: always reports success; only a process attach records
        the handle and starts a worker. */
    method DllMain(handle: nat, reason: nat) returns (ok: bool)
      modifies this
      ensures ok
      ensures reason == ProcessAttach ==> moduleHandle == handle && workers == old(workers) + 1
      ensures reason != ProcessAttach ==> moduleHandle == old(moduleHandle) && workers == old(workers)
    {
      if reason == ProcessAttach {
        moduleHandle := handle;
        workers := workers + 1;
      }
      ok := true;
    }
  }
}
