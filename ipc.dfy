/**
 * The shared channel between the controller and the payload, as the two
 * sides use it. Its memory layout, naming and synchronisation live in a
 * crate that is not part of this model, so the channel is abstract here:
 * a FIFO of packets, a (current, total) progress pair, and the start,
 * finished and sync flags.
 *
 * The controller's side is `IpcHost`, which holds that state. The payload's
 * side is `IpcClient`, which records every operation the payload performs
 * on the channel, in order, as its `emitted` trace.
 */
module Ipc {
  import opened Wrappers

  datatype LogLevel = Info | Success | Warning | Error

  /** The packet kinds the core sends and matches on. */
  datatype Packet =
    | Log(level: LogLevel, message: string)
    | Ready
    | Complete(message: string)
    | Fatal(message: string)

  /** `Complete` and `Fatal` end a run. */
  predicate IsTerminal(p: Packet)
  {
    p.Complete? || p.Fatal?
  }

  /** A progress sample; `total == 0` means the count is still unknown. */
  datatype Progress = Progress(current: nat, total: nat)

  /** One payload-side operation on the channel. */
  datatype Event =
    | Pushed(packet: Packet)
    | ProgressSet(current: nat, total: nat)
    | SyncRequested
    | StartPolled(seen: bool)
    | FinishedSet

  function InfoLog(message: string): Event
  {
    Pushed(Log(Info, message))
  }

  /** What the payload writes into the channel between two controller polls. */
  datatype Writes = Writes(packets: seq<Packet>, progress: Option<Progress>, sync: bool, finish: bool)

  /** The controller-visible state of the channel. */
  datatype HostView = HostView(queue: seq<Packet>, progress: Progress, finished: bool, syncPending: bool)

  /** The effect of the payload's writes on the controller-visible state:
      packets are appended, progress is overwritten, the flags are one-shot. */
  function Deliver(v: HostView, w: Writes): HostView
  {
    HostView(v.queue + w.packets,
             if w.progress.Some? then w.progress.value else v.progress,
             v.finished || w.finish,
             v.syncPending || w.sync)
  }

  /** The controller's handle on the channel (`IpcHost`). */
  class IpcHost {
    var queue: seq<Packet>
    var progress: Progress
    var started: bool
    var finished: bool
    var syncPending: bool

    function View(): HostView
      reads this
    {
      HostView(queue, progress, finished, syncPending)
    }

    /** `IpcHost::create`: a fresh region with an empty queue and every flag unset. */
    constructor Create()
      ensures View() == HostView([], Progress(0, 0), false, false) && !started
    {
      queue := [];
      progress := Progress(0, 0);
      started, finished, syncPending := false, false, false;
    }

    /** The oldest unread packet, if any. */
    method TryRead() returns (p: Option<Packet>)
      modifies this`queue
      ensures old(queue) == [] ==> p == None && queue == []
      ensures old(queue) != [] ==> p == Some(old(queue)[0]) && queue == old(queue)[1..]
    {
      if queue == [] {
        p := None;
      } else {
        p := Some(queue[0]);
        queue := queue[1..];
      }
    }

    method GetProgress() returns (p: Progress)
      ensures p == progress
    {
      p := progress;
    }

    method CheckAndAckSync()
      modifies this`syncPending
      ensures !syncPending
    {
      syncPending := false;
    }

    method IsFinished() returns (b: bool)
      ensures b == finished
    {
      b := finished;
    }

    method StartDump()
      modifies this`started
      ensures started
    {
      started := true;
    }

    /** The payload's writes landing in the region while the controller is
        not reading (they come from the other process). */
    method Receive(w: Writes)
      modifies this`queue, this`progress, this`finished, this`syncPending
      ensures View() == Deliver(old(View()), w)
    {
      queue := queue + w.packets;
      if w.progress.Some? {
        progress := w.progress.value;
      }
      finished := finished || w.finish;
      syncPending := syncPending || w.sync;
    }
  }

  /** The payload's handle on the channel (`IpcClient`). */
  class IpcClient {
    var emitted: seq<Event>

    /** `IpcClient::open` when it succeeds. */
    constructor Open()
      ensures emitted == []
    {
      emitted := [];
    }

    method PushPacket(p: Packet)
      modifies this
      ensures emitted == old(emitted) + [Pushed(p)]
    {
      emitted := emitted + [Pushed(p)];
    }

    /** `ipc.info(msg)`. */
    method Info(message: string)
      modifies this
      ensures emitted == old(emitted) + [InfoLog(message)]
    {
      emitted := emitted + [InfoLog(message)];
    }

    /** `ipc.success(msg)`. */
    method Success(message: string)
      modifies this
      ensures emitted == old(emitted) + [Pushed(Log(LogLevel.Success, message))]
    {
      emitted := emitted + [Pushed(Log(LogLevel.Success, message))];
    }

    method SetProgress(current: nat, total: nat)
      modifies this
      ensures emitted == old(emitted) + [ProgressSet(current, total)]
    {
      emitted := emitted + [ProgressSet(current, total)];
    }

    /** The request half of the rendezvous; waiting for the controller's
        acknowledgement is the other process's business. */
    method Sync()
      modifies this
      ensures emitted == old(emitted) + [SyncRequested]
    {
      emitted := emitted + [SyncRequested];
    }

    /** One poll of the start flag, whose current value is `signal`. */
    method ShouldStart(signal: bool) returns (go: bool)
      modifies this
      ensures go == signal
      ensures emitted == old(emitted) + [StartPolled(signal)]
    {
      go := signal;
      emitted := emitted + [StartPolled(signal)];
    }

    method SetFinished()
      modifies this
      ensures emitted == old(emitted) + [FinishedSet]
    {
      emitted := emitted + [FinishedSet];
    }
  }
}
