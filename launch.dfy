/**
 * The controller's three flows (`main.rs`): attaching to a running process
 * (`inject_and_dump`), attaching to a process it launched and suspended
 * (`inject_and_dump_suspended`), and launching a package first
 * (`launch_and_dump`).
 *
 * Each flow is a method that runs the handshake and the message loop over
 * a fresh channel and records, in order, the calls it makes into the
 * operating system; it is proved equal to a specification function, and
 * the lemmas state which exits resume the target and which calls can
 * happen on which paths. What the operating system answers (the
 * architecture query, channel creation, injection, suspension, the DLL
 * lookup, and the payload's activity) arrives as parameters.
 */
module Launch {
  import opened Wrappers
  import opened Text
  import opened Ipc
  import opened Polling
  import Package

  /** The answer of the architecture query. */
  datatype Arch = Is32 | Is64 | ArchUnknown(error: string)

  /** Everything a flow learns about its target after it has a pid: the
      architecture, whether the channel can be created and the DLL
      injected, what the payload has pushed before the first read, the
      handshake's polls and the message loop's iterations. */
  datatype Target = Target(
    arch: Arch,
    ipcOk: bool,
    injectOk: bool,
    early: seq<Packet>,
    readyTicks: seq<ReadyTick>,
    loopTicks: seq<Tick>)

  /** The handshake runs exactly its 500 polls unless it stops earlier, and
      the payload eventually ends the message loop. */
  predicate Scripted(t: Target)
  {
    |t.readyTicks| == ReadyPolls && Terminates(t.loopTicks)
  }

  /** The calls a flow makes into the operating system, in order. */
  datatype Call =
    | QueryArch
    | CreateIpc
    | InjectDll
    | StartDump
    | CopyToOutput(source: string, dest: string)
    | SearchPackages
    | LaunchPackage(activationId: seq<Unit16>)
    | Suspend(pid: nat)
    | LocateDll
    | Resume(pid: nat)

  /** How a flow ends. */
  datatype Exit =
    | Rejected32Bit
    | IpcCreateFailed
    | InjectionFailed
    | TargetCrashed
    | ReadyTimeout
    | DumpDone(path: Option<string>)
    | LookupFailed(error: Package.PackageError)
    | NoSuchPackage
    | LaunchFailed(error: Package.PackageError)
    | SuspendFailed
    | NoDll

  datatype Session = Session(exit: Exit, calls: seq<Call>)
  /** The channel's state once the payload has pushed `early` into a fresh one. */
  function Fresh(early: seq<Packet>): HostView
  {
    HostView(early, Progress(0, 0), false, false)
  }

  /** The resume call made on the failures after which the suspended flow
      resumes its target; nothing when the target was not suspended. */
  function Resumed(resume: Option<nat>): seq<Call>
  {
    if resume.Some? then [Resume(resume.value)] else []
  }

  /** Once `Ready` was read: start the dump, run the message loop over the
      packets still queued, and copy the dump when an output directory was
      given and the loop returned a path. */
  function DumpSpec(queue: seq<Packet>, loopTicks: seq<Tick>, output: Option<string>): Session
    requires Terminates(loopTicks)
  {
    var path := Loop(Fresh(queue), loopTicks, 0, Progress(0, 0)).result;
    Session(DumpDone(path), [StartDump] +
      (if output.Some? && path.Some? then [CopyToOutput(path.value, output.value)] else []))
  }

  /** The wait for `Ready` once the DLL is injected: a crash ends the flow
      as it is, a timeout resumes the target, `Ready` goes on to the dump. */
  function HandshakeSpec(t: Target, output: Option<string>, resume: Option<nat>): Session
    requires Scripted(t)
  {
    var r := Await(t.early, t.readyTicks);
    match r.outcome
    case CrashedDuringInit => Session(TargetCrashed, [])
    case TimedOut => Session(ReadyTimeout, Resumed(resume))
    case ReadySeen => DumpSpec(r.queue, t.loopTicks, output)
  }

  /** The common part of both injection flows, from channel creation to
      the end of the message loop. `resume` is the process to resume on
      the failures after which the suspended flow resumes it. */
  function AttachSpec(t: Target, output: Option<string>, resume: Option<nat>): Session
    requires Scripted(t)
  {
    if !t.ipcOk then Session(IpcCreateFailed, [CreateIpc] + Resumed(resume))
    else if !t.injectOk then Session(InjectionFailed, [CreateIpc, InjectDll] + Resumed(resume))
    else
      var h := HandshakeSpec(t, output, resume);
      Session(h.exit, [CreateIpc, InjectDll] + h.calls)
  }

  /** `inject_and_dump`: a 32-bit target is rejected before anything else
      happens; an unknown architecture is only warned about. */
  function InjectSpec(t: Target, output: Option<string>): Session
    requires Scripted(t)
  {
    if t.arch.Is32? then Session(Rejected32Bit, [QueryArch])
    else
      var a := AttachSpec(t, output, None);
      Session(a.exit, [QueryArch] + a.calls)
  }

  /** What `launch_and_dump` learns besides the target: the package
      listing, the query, how COM setup and activation go, whether the
      suspension succeeds and whether the DLL is found. */
  datatype Launcher = Launcher(
    listing: Result<seq<Package.InstalledPackage>, Package.PackageError>,
    query: string,
    setup: Option<Package.Os.WinError>,
    activate: seq<Unit16> -> Result<nat, Package.Os.WinError>,
    suspendOk: bool,
    dllFound: bool)

  /** The launched process `pid` is suspended; a failed suspension ends the
      flow without a resume, a missing DLL resumes it, and otherwise the
      suspended injection flow follows. */
  function SuspendedSpec(pid: nat, suspendOk: bool, dllFound: bool, t: Target, output: Option<string>): Session
    requires Scripted(t)
  {
    if !suspendOk then Session(SuspendFailed, [Suspend(pid)])
    else if !dllFound then Session(NoDll, [Suspend(pid), LocateDll, Resume(pid)])
    else
      var a := AttachSpec(t, output, Some(pid));
      Session(a.exit, [Suspend(pid), LocateDll] + a.calls)
  }

  /** `launch_and_dump` once the package is found: launch it, then suspend
      it and inject. */
  function LaunchedSpec(p: Package.InstalledPackage, l: Launcher, t: Target, output: Option<string>): Session
    requires Scripted(t)
  {
    var launched := [SearchPackages, LaunchPackage(Package.ActivationId(p))];
    match Package.LaunchPackage(p, l.setup, l.activate)
    case Err(e) => Session(LaunchFailed(e), launched)
    case Ok(pid) =>
      var s := SuspendedSpec(pid, l.suspendOk, l.dllFound, t, output);
      Session(s.exit, launched + s.calls)
  }

  /** `launch_and_dump`: find the package, launch it, then suspend it and
      inject. */
  function LaunchSpec(l: Launcher, t: Target, output: Option<string>): Session
    requires Scripted(t)
  {
    match Package.FindPackage(l.listing, l.query)
    case Err(e) => Session(LookupFailed(e), [SearchPackages])
    case Ok(None) => Session(NoSuchPackage, [SearchPackages])
    case Ok(Some(p)) => LaunchedSpec(p, l, t, output)
  }

  // ---------------------------------------------------------------------
  // The flows
  // ---------------------------------------------------------------------

  /** Start the dump and run the message loop on a channel that holds
      nothing but queued packets. */
  method RunDump(ch: IpcHost, loopTicks: seq<Tick>, output: Option<string>) returns (exit: Exit, calls: seq<Call>)
    requires Terminates(loopTicks) && ch.View() == Fresh(ch.queue)
    modifies ch
    ensures Session(exit, calls) == DumpSpec(old(ch.queue), loopTicks, output)
  {
    ch.StartDump();
    var path, _, _ := RunMessageLoop(ch, loopTicks);
    calls := [StartDump];
    if output.Some? && path.Some? {
      calls := calls + [CopyToOutput(path.value, output.value)];
    }
    exit := DumpDone(path);
  }

  /** Wait for `Ready`, then dump. */
  method Handshake(ch: IpcHost, t: Target, output: Option<string>, resume: Option<nat>) returns (exit: Exit, calls: seq<Call>)
    requires Scripted(t) && ch.View() == Fresh(t.early)
    modifies ch
    ensures Session(exit, calls) == HandshakeSpec(t, output, resume)
  {
    var outcome, _ := WaitForReady(ch, t.readyTicks);
    if outcome == CrashedDuringInit {
      return TargetCrashed, [];
    }
    if outcome == TimedOut {
      return ReadyTimeout, Resumed(resume);
    }
    exit, calls := RunDump(ch, t.loopTicks, output);
  }

  /** Create the channel, inject, and hand over to the handshake; with
      `resume` given this is `inject_and_dump_suspended`. */
  method Attach(t: Target, output: Option<string>, resume: Option<nat>) returns (exit: Exit, calls: seq<Call>)
    requires Scripted(t)
    ensures Session(exit, calls) == AttachSpec(t, output, resume)
  {
    calls := [CreateIpc];
    if !t.ipcOk {
      return IpcCreateFailed, calls + Resumed(resume);
    }
    var ch := new IpcHost.Create();
    calls := calls + [InjectDll];
    if !t.injectOk {
      return InjectionFailed, calls + Resumed(resume);
    }
    ch.Receive(Writes(t.early, None, false, false));
    assert ch.View() == Fresh(t.early);
    var rest;
    exit, rest := Handshake(ch, t, output, resume);
    calls := calls + rest;
  }

  /** `inject_and_dump`. */
  method InjectAndDump(t: Target, output: Option<string>) returns (exit: Exit, calls: seq<Call>)
    requires Scripted(t)
    ensures Session(exit, calls) == InjectSpec(t, output)
  {
    calls := [QueryArch];
    if t.arch.Is32? {
      return Rejected32Bit, calls;
    }
    var rest;
    exit, rest := Attach(t, output, None);
    calls := calls + rest;
  }

  /** The part of `launch_and_dump` after the launch: suspend, find the
      DLL, and run `inject_and_dump_suspended`. */
  method SuspendAndAttach(pid: nat, suspendOk: bool, dllFound: bool, t: Target, output: Option<string>) returns (exit: Exit, calls: seq<Call>)
    requires Scripted(t)
    ensures Session(exit, calls) == SuspendedSpec(pid, suspendOk, dllFound, t, output)
  {
    calls := [Suspend(pid)];
    if !suspendOk {
      return SuspendFailed, calls;
    }
    calls := calls + [LocateDll];
    if !dllFound {
      return NoDll, calls + [Resume(pid)];
    }
    var rest;
    exit, rest := Attach(t, output, Some(pid));
    calls := calls + rest;
  }

  /** `launch_and_dump` from the launch of the package found on. */
  method LaunchFound(p: Package.InstalledPackage, l: Launcher, t: Target, output: Option<string>) returns (exit: Exit, calls: seq<Call>)
    requires Scripted(t)
    ensures Session(exit, calls) == LaunchedSpec(p, l, t, output)
  {
    calls := [SearchPackages, LaunchPackage(Package.ActivationId(p))];
    var launched := Package.LaunchPackage(p, l.setup, l.activate);
    if launched.Err? {
      return LaunchFailed(launched.error), calls;
    }
    var rest;
    exit, rest := SuspendAndAttach(launched.value, l.suspendOk, l.dllFound, t, output);
    calls := calls + rest;
  }

  /** `launch_and_dump`. */
  method LaunchAndDump(l: Launcher, t: Target, output: Option<string>) returns (exit: Exit, calls: seq<Call>)
    requires Scripted(t)
    ensures Session(exit, calls) == LaunchSpec(l, t, output)
  {
    var found := Package.FindPackage(l.listing, l.query);
    if found.Err? {
      return LookupFailed(found.error), [SearchPackages];
    }
    if found.value.None? {
      return NoSuchPackage, [SearchPackages];
    }
    exit, calls := LaunchFound(found.value.value, l, t, output);
  }

  // ---------------------------------------------------------------------
  // What the flows promise
  // ---------------------------------------------------------------------

  /** Number of resume calls. */
  function Resumes(calls: seq<Call>): nat
  {
    if calls == [] then 0 else (if calls[0].Resume? then 1 else 0) + Resumes(calls[1..])
  }

  lemma {:induction false} ResumesConcat(a: seq<Call>, b: seq<Call>)
    ensures Resumes(a + b) == Resumes(a) + Resumes(b)
  {
    if a != [] {
      assert (a + b)[1..] == a[1..] + b;
      ResumesConcat(a[1..], b);
    } else {
      assert a + b == b;
    }
  }

  /** A sequence of calls without a resume call counts none. */
  lemma {:induction false} NoResumes(calls: seq<Call>)
    requires forall c :: c in calls ==> !c.Resume?
    ensures Resumes(calls) == 0
  {
    if calls != [] {
      assert calls[0] in calls;
      assert forall c :: c in calls[1..] ==> c in calls;
      NoResumes(calls[1..]);
    }
  }

  /** `Resumed` makes one resume call exactly when there is a process to resume. */
  lemma ResumedCount(resume: Option<nat>)
    ensures Resumes(Resumed(resume)) == (if resume.Some? then 1 else 0)
    ensures forall c :: c in Resumed(resume) ==> c == Resume(resume.value)
  {
    if resume.Some? {
      assert Resumed(resume)[1..] == [];
    }
  }

  /** The dump phase starts the dump first and never resumes the target;
      it copies the dump exactly when an output directory was given and the
      message loop returned a path, and then copies that path there. */
  lemma DumpCalls(queue: seq<Packet>, loopTicks: seq<Tick>, output: Option<string>)
    requires Terminates(loopTicks)
    ensures var s := DumpSpec(queue, loopTicks, output);
      var path := Loop(Fresh(queue), loopTicks, 0, Progress(0, 0)).result;
      s.exit == DumpDone(path) && s.calls[0] == StartDump && Resumes(s.calls) == 0 &&
      (forall c :: c in s.calls ==> c.StartDump? || c.CopyToOutput?) &&
      (forall c :: c in s.calls && c.CopyToOutput? ==> c == CopyToOutput(path.value, output.value)) &&
      ((exists c :: c in s.calls && c.CopyToOutput?) <==> output.Some? && path.Some?)
  {
    var s := DumpSpec(queue, loopTicks, output);
    NoResumes(s.calls);
    assert s.calls[0] == StartDump;
    var path := Loop(Fresh(queue), loopTicks, 0, Progress(0, 0)).result;
    if output.Some? && path.Some? {
      assert s.calls[1] in s.calls;
    }
  }

  /** While attaching, the dump is started exactly when the channel was
      created, the DLL injected and `Ready` read; the flow then ends with
      the path the message loop returned, and copies the dump only then. */
  lemma AttachDumpsOnlyWhenReady(t: Target, output: Option<string>, resume: Option<nat>)
    requires Scripted(t)
    ensures var s := AttachSpec(t, output, resume);
      var r := Await(t.early, t.readyTicks);
      s.calls[0] == CreateIpc &&
      (StartDump in s.calls <==> t.ipcOk && t.injectOk && r.outcome == ReadySeen) &&
      (StartDump in s.calls <==> s.exit.DumpDone?) &&
      (s.exit.DumpDone? ==> s.exit.path == Loop(Fresh(r.queue), t.loopTicks, 0, Progress(0, 0)).result) &&
      ((exists c :: c in s.calls && c.CopyToOutput?) ==> s.exit.DumpDone? && s.exit.path.Some? && output.Some?)
  {
    var s := AttachSpec(t, output, resume);
    var r := Await(t.early, t.readyTicks);
    ResumedCount(resume);
    if t.ipcOk && t.injectOk && r.outcome == ReadySeen {
      DumpCalls(r.queue, t.loopTicks, output);
      var d := DumpSpec(r.queue, t.loopTicks, output);
      assert s.calls[2] == d.calls[0];
      assert forall c :: c in s.calls ==> c in [CreateIpc, InjectDll] || c in d.calls;
    }
  }

  /** During the handshake the target is resumed (once, as the last call)
      only on a timeout, and only when a process to resume is given. */
  lemma HandshakeResumes(t: Target, output: Option<string>, resume: Option<nat>)
    requires Scripted(t)
    ensures var h := HandshakeSpec(t, output, resume);
      (forall c :: c in h.calls ==> AttachCall(c)) &&
      Resumes(h.calls) == (if resume.Some? && h.exit.ReadyTimeout? then 1 else 0) &&
      (Resumes(h.calls) == 1 ==> h.calls[|h.calls| - 1] == Resume(resume.value))
  {
    var r := Await(t.early, t.readyTicks);
    ResumedCount(resume);
    if r.outcome == ReadySeen {
      DumpCalls(r.queue, t.loopTicks, output);
    } else if r.outcome == CrashedDuringInit {
      NoResumes([]);
    }
  }

  /** While attaching, the target is resumed (once, as the last call)
      exactly on the resuming exits, and only when a process to resume is
      given: never after a crash during the handshake or after the dump. */
  lemma AttachResumes(t: Target, output: Option<string>, resume: Option<nat>)
    requires Scripted(t)
    ensures var s := AttachSpec(t, output, resume);
      (forall c :: c in s.calls ==> AttachCall(c)) &&
      Resumes(s.calls) == (if resume.Some? && ResumingExit(s.exit) then 1 else 0) &&
      (Resumes(s.calls) == 1 ==> s.calls[|s.calls| - 1] == Resume(resume.value))
  {
    ResumedCount(resume);
    if !t.ipcOk {
      NoResumes([CreateIpc]);
      ResumesConcat([CreateIpc], Resumed(resume));
    } else {
      NoResumes([CreateIpc, InjectDll]);
      if !t.injectOk {
        ResumesConcat([CreateIpc, InjectDll], Resumed(resume));
      } else {
        HandshakeResumes(t, output, resume);
        ResumesConcat([CreateIpc, InjectDll], HandshakeSpec(t, output, resume).calls);
      }
    }
  }

  /** Only these calls are made while attaching. */
  predicate AttachCall(c: Call)
  {
    c.CreateIpc? || c.InjectDll? || c.StartDump? || c.CopyToOutput? || c.Resume?
  }

  /** The exits after which the suspended flow resumes the target. */
  predicate ResumingExit(e: Exit)
  {
    e.NoDll? || e.IpcCreateFailed? || e.InjectionFailed? || e.ReadyTimeout?
  }

  /** `inject_and_dump` asks for the architecture first; a 32-bit target
      ends the flow there, before the channel is created or the DLL
      injected, and any other answer (an error included) goes on to create
      the channel. It never resumes anything. */
  lemma InjectRejects32Bit(t: Target, output: Option<string>)
    requires Scripted(t)
    ensures var s := InjectSpec(t, output);
      s.calls[0] == QueryArch &&
      (t.arch.Is32? <==> s.exit == Rejected32Bit) &&
      (t.arch.Is32? <==> CreateIpc !in s.calls) &&
      (t.arch.Is32? ==> s.calls == [QueryArch]) &&
      Resumes(s.calls) == 0
  {
    var s := InjectSpec(t, output);
    if !t.arch.Is32? {
      AttachDumpsOnlyWhenReady(t, output, None);
      AttachResumes(t, output, None);
      var a := AttachSpec(t, output, None);
      assert s.calls[1] == a.calls[0];
      ResumesConcat([QueryArch], a.calls);
    }
  }

  /** The target is resumed exactly once, as the last call, on the
      resuming exits, never otherwise, and only a process the flow
      suspended. */
  predicate ResumesOnFailure(s: Session)
  {
    Resumes(s.calls) == (if ResumingExit(s.exit) then 1 else 0) &&
    (Resumes(s.calls) == 1 ==> s.calls[|s.calls| - 1].Resume? && Suspend(s.calls[|s.calls| - 1].pid) in s.calls)
  }

  /** Calls made before, none of them a resume, do not change that. */
  lemma ResumesOnFailureAfter(head: seq<Call>, s: Session)
    requires Resumes(head) == 0 && ResumesOnFailure(s)
    ensures ResumesOnFailure(Session(s.exit, head + s.calls))
  {
    ResumesConcat(head, s.calls);
    if Resumes(s.calls) == 1 {
      var last := s.calls[|s.calls| - 1];
      assert (head + s.calls)[|head + s.calls| - 1] == last;
      assert Suspend(last.pid) in head + s.calls;
    }
  }

  /** After the launch, a failed suspension ends the flow without a resume;
      once suspended, the target is resumed exactly once, as the last call,
      when the DLL is missing, the channel cannot be created, the injection
      fails or the handshake times out, and never otherwise. */
  lemma SuspendedResumes(pid: nat, suspendOk: bool, dllFound: bool, t: Target, output: Option<string>)
    requires Scripted(t)
    ensures var s := SuspendedSpec(pid, suspendOk, dllFound, t, output);
      s.calls[0] == Suspend(pid) &&
      (!suspendOk <==> s.exit == SuspendFailed) &&
      ResumesOnFailure(s) &&
      (Resumes(s.calls) == 1 ==> s.calls[|s.calls| - 1] == Resume(pid))
  {
    var s := SuspendedSpec(pid, suspendOk, dllFound, t, output);
    NoResumes([Suspend(pid)]);
    NoResumes([Suspend(pid), LocateDll]);
    if suspendOk && !dllFound {
      ResumesConcat([Suspend(pid), LocateDll], [Resume(pid)]);
      assert [Resume(pid)][1..] == [];
      assert s.calls == [Suspend(pid), LocateDll] + [Resume(pid)];
    } else if suspendOk {
      AttachResumes(t, output, Some(pid));
      var a := AttachSpec(t, output, Some(pid));
      ResumesConcat([Suspend(pid), LocateDll], a.calls);
      assert s.calls[0] == Suspend(pid);
    }
  }

  /** `launch_and_dump` resumes only a process it launched and suspended:
      exactly once, as its last call, on the resuming exits, and never when
      the lookup, the launch or the suspension failed. */
  lemma LaunchResumesOnFailure(l: Launcher, t: Target, output: Option<string>)
    requires Scripted(t)
    ensures ResumesOnFailure(LaunchSpec(l, t, output))
  {
    var found := Package.FindPackage(l.listing, l.query);
    NoResumes([SearchPackages]);
    if found.Ok? && found.value.Some? {
      LaunchedResumes(found.value.value, l, t, output);
    }
  }

  lemma LaunchedResumes(p: Package.InstalledPackage, l: Launcher, t: Target, output: Option<string>)
    requires Scripted(t)
    ensures ResumesOnFailure(LaunchedSpec(p, l, t, output))
  {
    var launched := [SearchPackages, LaunchPackage(Package.ActivationId(p))];
    NoResumes(launched);
    match Package.LaunchPackage(p, l.setup, l.activate)
    case Err(_) =>
    case Ok(pid) =>
      SuspendedResumes(pid, l.suspendOk, l.dllFound, t, output);
      ResumesOnFailureAfter(launched, SuspendedSpec(pid, l.suspendOk, l.dllFound, t, output));
  }
}
