/**
 * The controller's two polling loops over the channel: the readiness
 * handshake after injection, and `run_message_loop`.
 *
 * The payload runs concurrently in another process. Its activity reaches
 * the model as a script of ticks, one per loop iteration: whether the
 * target is alive when the iteration checks, and what the payload wrote
 * into the channel while the controller was not reading. Each loop is a
 * method over an `IpcHost`, proved equal to a recursive specification
 * function; the lemmas state what the source promises about those functions.
 */
module Polling {
  import opened Wrappers
  import opened Ipc

  // ---------------------------------------------------------------------
  // Readiness handshake
  // ---------------------------------------------------------------------

  /** Number of polls before the controller gives up (10 ms apart, 5 s in all). */
  const ReadyPolls: nat := 500

  /** One poll of the handshake: the liveness answer, and the packets the
      payload pushed during the sleep that follows the read. */
  datatype ReadyTick = ReadyTick(alive: bool, arrivals: seq<Packet>)

  datatype ReadyOutcome = ReadySeen | CrashedDuringInit | TimedOut

  /** `polls` counts liveness checks, `consumed` the packets read. */
  datatype ReadyRun = ReadyRun(outcome: ReadyOutcome, polls: nat, consumed: seq<Packet>, queue: seq<Packet>)

  /** The handshake over `queue` and the remaining ticks. */
  function Await(queue: seq<Packet>, ticks: seq<ReadyTick>): (r: ReadyRun)
    ensures r.polls <= |ticks|
    ensures |r.consumed| <= r.polls
    decreases |ticks|
  {
    if ticks == [] then ReadyRun(TimedOut, 0, [], queue)
    else if !ticks[0].alive then ReadyRun(CrashedDuringInit, 1, [], queue)
    else if queue != [] && queue[0] == Ready then ReadyRun(ReadySeen, 1, [Ready], queue[1..])
    else
      var read := if queue == [] then [] else [queue[0]];
      var rest := Await(queue[|read|..] + ticks[0].arrivals, ticks[1..]);
      ReadyRun(rest.outcome, rest.polls + 1, read + rest.consumed, rest.queue)
  }

  /** One poll that neither sees a crash nor reads `Ready`: what was read,
      then the rest of the handshake on the updated queue. */
  lemma AwaitPoll(queue: seq<Packet>, ticks: seq<ReadyTick>)
    requires ticks != [] && ticks[0].alive && !(queue != [] && queue[0] == Ready)
    ensures var read := if queue == [] then [] else [queue[0]];
      var r := Await(queue, ticks); var r' := Await(queue[|read|..] + ticks[0].arrivals, ticks[1..]);
      r.outcome == r'.outcome && r.polls == r'.polls + 1 && r.consumed == read + r'.consumed && r.queue == r'.queue
  {
  }

  /** The polls that stop the handshake: a dead target, or `Ready` at the head. */
  lemma AwaitStops(queue: seq<Packet>, ticks: seq<ReadyTick>)
    requires ticks != []
    ensures !ticks[0].alive ==> Await(queue, ticks) == ReadyRun(CrashedDuringInit, 1, [], queue)
    ensures ticks[0].alive && queue != [] && queue[0] == Ready ==>
      Await(queue, ticks) == ReadyRun(ReadySeen, 1, [Ready], queue[1..])
  {
  }

  /** `whole` is the run that read `consumed` and then continued as `rest`. */
  predicate Resumes(whole: ReadyRun, consumed: seq<Packet>, rest: ReadyRun)
  {
    whole.outcome == rest.outcome && whole.consumed == consumed + rest.consumed && whole.queue == rest.queue
  }

  /** One pass of the wait loop's body: the liveness check, one read, and
      the payload's pushes during the sleep that follows. `ticks` is the
      rest of the script, starting with this pass's tick. */
  method PollOnce(ch: IpcHost, tick: ReadyTick, ghost ticks: seq<ReadyTick>) returns (stop: bool, outcome: ReadyOutcome, read: seq<Packet>)
    requires ticks != [] && ticks[0] == tick
    modifies ch
    ensures !tick.alive ==> stop && outcome == CrashedDuringInit && read == [] && ch.queue == old(ch.queue)
    ensures tick.alive && old(ch.queue) != [] && old(ch.queue)[0] == Ready ==>
      stop && outcome == ReadySeen && read == [Ready] && ch.queue == old(ch.queue)[1..]
    ensures tick.alive && !(old(ch.queue) != [] && old(ch.queue)[0] == Ready) ==>
      !stop && read == (if old(ch.queue) == [] then [] else [old(ch.queue)[0]]) &&
      ch.queue == old(ch.queue)[|read|..] + tick.arrivals
    ensures stop ==> Resumes(Await(old(ch.queue), ticks), read, ReadyRun(outcome, 0, [], ch.queue))
    ensures !stop ==> Resumes(Await(old(ch.queue), ticks), read, Await(ch.queue, ticks[1..]))
    ensures ch.progress == old(ch.progress) && ch.finished == old(ch.finished)
    ensures ch.syncPending == old(ch.syncPending) && ch.started == old(ch.started)
  {
    AwaitStops(ch.queue, ticks);
    if !tick.alive {
      return true, CrashedDuringInit, [];
    }
    ghost var q := ch.queue;
    var pkt := ch.TryRead();
    if pkt == Some(Ready) {
      assert [Ready] + [] == [Ready];
      return true, ReadySeen, [Ready];
    }
    AwaitPoll(q, ticks);
    read := if pkt.Some? then [pkt.value] else [];
    ch.Receive(Writes(tick.arrivals, None, false, false));
    stop, outcome := false, TimedOut;
  }

  lemma ResumesTrans(whole: ReadyRun, consumed: seq<Packet>, mid: ReadyRun, read: seq<Packet>, rest: ReadyRun)
    requires Resumes(whole, consumed, mid) && Resumes(mid, read, rest)
    ensures Resumes(whole, consumed + read, rest)
  {
    assert consumed + (read + rest.consumed) == (consumed + read) + rest.consumed;
  }

  /** The wait loop of `inject_and_dump` and `inject_and_dump_suspended`. */
  method WaitForReady(ch: IpcHost, ticks: seq<ReadyTick>) returns (outcome: ReadyOutcome, consumed: seq<Packet>)
    requires |ticks| == ReadyPolls
    modifies ch
    ensures var r := Await(old(ch.queue), ticks);
      outcome == r.outcome && consumed == r.consumed && ch.queue == r.queue
    ensures ch.View() == old(ch.View()).(queue := ch.queue) && ch.started == old(ch.started)
  {
    consumed := [];
    var i := 0;
    ghost var goal := Await(ch.queue, ticks);
    while i < ReadyPolls
      invariant 0 <= i <= ReadyPolls
      invariant ch.progress == old(ch.progress) && ch.finished == old(ch.finished)
      invariant ch.syncPending == old(ch.syncPending) && ch.started == old(ch.started)
      invariant Resumes(goal, consumed, Await(ch.queue, ticks[i..]))
    {
      assert ticks[i..][0] == ticks[i] && ticks[i..][1..] == ticks[i + 1..];
      ghost var here := Await(ch.queue, ticks[i..]);
      var stop, out, read := PollOnce(ch, ticks[i], ticks[i..]);
      if stop {
        ResumesTrans(goal, consumed, here, read, ReadyRun(out, 0, [], ch.queue));
        assert consumed + read + [] == consumed + read;
        consumed := consumed + read;
        outcome := out;
        return;
      }
      ResumesTrans(goal, consumed, here, read, Await(ch.queue, ticks[i + 1..]));
      consumed := consumed + read;
      i := i + 1;
    }
    assert ticks[i..] == [];
    outcome := TimedOut;
  }

  /** The handshake never polls more than its bound, and checks liveness
      before every read (a crash poll reads nothing). */
  lemma {:induction false} AwaitBounded(queue: seq<Packet>, ticks: seq<ReadyTick>)
    requires |ticks| == ReadyPolls
    ensures Await(queue, ticks).polls <= ReadyPolls
    ensures Await(queue, ticks).outcome == TimedOut ==> Await(queue, ticks).polls == ReadyPolls
    ensures Await(queue, ticks).outcome == CrashedDuringInit ==> |Await(queue, ticks).consumed| < Await(queue, ticks).polls
  {
    AwaitCounts(queue, ticks);
  }

  lemma {:induction false} AwaitCounts(queue: seq<Packet>, ticks: seq<ReadyTick>)
    ensures Await(queue, ticks).outcome == TimedOut ==> Await(queue, ticks).polls == |ticks|
    ensures Await(queue, ticks).outcome == CrashedDuringInit ==> |Await(queue, ticks).consumed| < Await(queue, ticks).polls
    decreases |ticks|
  {
    if ticks != [] && ticks[0].alive && !(queue != [] && queue[0] == Ready) {
      var read := if queue == [] then [] else [queue[0]];
      AwaitCounts(queue[|read|..] + ticks[0].arrivals, ticks[1..]);
    }
  }

  /** The handshake succeeds exactly when it reads a `Ready` packet; that
      packet is the last one read, and every packet read before it was some
      other kind, silently dropped. */
  lemma {:induction false} AwaitReadyIffRead(queue: seq<Packet>, ticks: seq<ReadyTick>)
    ensures var r := Await(queue, ticks);
      (r.outcome == ReadySeen <==> Ready in r.consumed) &&
      (r.outcome == ReadySeen ==> r.consumed[|r.consumed| - 1] == Ready) &&
      (forall k :: 0 <= k < |r.consumed| - 1 ==> r.consumed[k] != Ready)
    decreases |ticks|
  {
    if ticks != [] && ticks[0].alive && !(queue != [] && queue[0] == Ready) {
      var read := if queue == [] then [] else [queue[0]];
      AwaitReadyIffRead(queue[|read|..] + ticks[0].arrivals, ticks[1..]);
    }
  }

  /** Everything the handshake reads was queued, in order: the packets read
      followed by those still queued are the initial queue followed by the
      payload's arrivals, up to the poll where the handshake stopped. */
  lemma {:induction false} AwaitFifo(queue: seq<Packet>, ticks: seq<ReadyTick>)
    ensures var r := Await(queue, ticks);
      r.consumed + r.queue == queue + ReadyArrivals(ticks[..Delivered(r)])
    decreases |ticks|
  {
    var r := Await(queue, ticks);
    if ticks == [] {
      assert ticks[..0] == [];
    } else if !ticks[0].alive || (queue != [] && queue[0] == Ready) {
      assert ticks[..0] == [];
      if ticks[0].alive { assert [queue[0]] + queue[1..] == queue; }
    } else {
      var read := if queue == [] then [] else [queue[0]];
      var q' := queue[|read|..] + ticks[0].arrivals;
      var r' := Await(q', ticks[1..]);
      AwaitFifo(q', ticks[1..]);
      AwaitPoll(queue, ticks);
      AwaitPolledOnce(q', ticks[1..]);
      FifoPoll(queue, ticks, read, r', r);
    }
  }

  /** The inductive step of `AwaitFifo`: one poll that read `read` and
      queued its tick's arrivals, followed by the run `r'`. */
  lemma FifoPoll(queue: seq<Packet>, ticks: seq<ReadyTick>, read: seq<Packet>, r': ReadyRun, r: ReadyRun)
    requires ticks != [] && |read| <= |queue| && read == queue[..|read|]
    requires Delivered(r') <= |ticks| - 1 && (r'.outcome != TimedOut ==> r'.polls >= 1)
    requires r'.consumed + r'.queue == queue[|read|..] + ticks[0].arrivals + ReadyArrivals(ticks[1..][..Delivered(r')])
    requires r == ReadyRun(r'.outcome, r'.polls + 1, read + r'.consumed, r'.queue)
    ensures r.consumed + r.queue == queue + ReadyArrivals(ticks[..Delivered(r)])
  {
    var n := Delivered(r');
    assert Delivered(r) == n + 1;
    ReadyArrivalsCons(ticks, n);
    calc {
      r.consumed + r.queue;
      (read + r'.consumed) + r'.queue;
      read + (r'.consumed + r'.queue);
      read + (queue[|read|..] + ticks[0].arrivals + ReadyArrivals(ticks[1..][..n]));
      (read + queue[|read|..]) + (ticks[0].arrivals + ReadyArrivals(ticks[1..][..n]));
      { assert read + queue[|read|..] == queue; }
      queue + ReadyArrivals(ticks[..n + 1]);
    }
  }

  /** Number of polls whose arrivals reached the queue: every poll except
      one that stopped the handshake. */
  function Delivered(r: ReadyRun): nat
  {
    if r.outcome == TimedOut || r.polls == 0 then r.polls else r.polls - 1
  }

  lemma ReadyArrivalsCons(ticks: seq<ReadyTick>, n: nat)
    requires n < |ticks|
    ensures ReadyArrivals(ticks[..n + 1]) == ticks[0].arrivals + ReadyArrivals(ticks[1..][..n])
  {
    assert ticks[..n + 1][0] == ticks[0];
    assert ticks[..n + 1][1..] == ticks[1..][..n];
  }

  lemma {:induction false} AwaitPolledOnce(queue: seq<Packet>, ticks: seq<ReadyTick>)
    ensures Await(queue, ticks).outcome != TimedOut ==> Await(queue, ticks).polls >= 1
    decreases |ticks|
  {
    if ticks != [] && ticks[0].alive && !(queue != [] && queue[0] == Ready) {
      var read := if queue == [] then [] else [queue[0]];
      AwaitPolledOnce(queue[|read|..] + ticks[0].arrivals, ticks[1..]);
    }
  }

  /** All packets the payload pushes over a script of handshake ticks. */
  function ReadyArrivals(ticks: seq<ReadyTick>): seq<Packet>
  {
    if ticks == [] then [] else ticks[0].arrivals + ReadyArrivals(ticks[1..])
  }

  // ---------------------------------------------------------------------
  // Message loop
  // ---------------------------------------------------------------------

  /** One iteration of the message loop: the liveness answer at its start,
      and what the payload writes before the iteration's finished check. */
  datatype Tick = Tick(alive: bool, writes: Writes)

  /** The loop only returns when the target dies or the payload finishes:
      the script must end with such a tick. */
  predicate Terminates(ticks: seq<Tick>)
  {
    |ticks| > 0 && (!ticks[|ticks| - 1].alive || ticks[|ticks| - 1].writes.finish)
  }

  /** Index of the first `Complete` or `Fatal` packet, or the length. */
  function TerminalIndex(q: seq<Packet>): (k: nat)
    ensures k <= |q|
    ensures forall j :: 0 <= j < k ==> !IsTerminal(q[j])
    ensures k < |q| ==> IsTerminal(q[k])
  {
    if q == [] then 0 else if IsTerminal(q[0]) then 0 else 1 + TerminalIndex(q[1..])
  }

  /** Index of the first `Complete` packet, or the length. */
  function CompleteIndex(q: seq<Packet>): (k: nat)
    ensures k <= |q|
    ensures forall j :: 0 <= j < k ==> !q[j].Complete?
    ensures k < |q| ==> q[k].Complete?
  {
    if q == [] then 0 else if q[0].Complete? then 0 else 1 + CompleteIndex(q[1..])
  }

  /** A drain of the queue: the packets rendered, whether the loop stops,
      its result if it does, and what stays queued. */
  datatype Drain = Drain(rendered: seq<Packet>, stop: bool, result: Option<string>, rest: seq<Packet>)

  /** The drain at the top of every iteration: stops at the first terminal packet. */
  function MainDrain(q: seq<Packet>): Drain
  {
    var k := TerminalIndex(q);
    if k < |q| then
      Drain(q[..k + 1], true, if q[k].Complete? then Some(q[k].message) else None, q[k + 1..])
    else Drain(q, false, None, [])
  }

  /** The drain after `finished` is seen: only `Complete` stops it early. */
  function FinalDrain(q: seq<Packet>): Drain
  {
    var k := CompleteIndex(q);
    if k < |q| then Drain(q[..k + 1], true, Some(q[k].message), q[k + 1..])
    else Drain(q, true, None, [])
  }

  /** One pass of the loop body; `shown` holds the progress pairs drawn. */
  datatype StepOut = StepOut(stop: bool, result: Option<string>, rendered: seq<Packet>, shown: seq<Progress>, after: HostView)

  function Step(v: HostView, t: Tick, last: Progress): StepOut
  {
    if !t.alive then StepOut(true, None, [], [], v)
    else
      var d := MainDrain(v.queue);
      if d.stop then StepOut(true, d.result, d.rendered, [], v.(queue := d.rest))
      else
        var shown := if v.progress != last then [v.progress] else [];
        var w := Deliver(v.(queue := [], syncPending := false), t.writes);
        if w.finished then
          var f := FinalDrain(w.queue);
          StepOut(true, f.result, d.rendered + f.rendered, shown, w.(queue := f.rest))
        else StepOut(false, None, d.rendered, shown, w)
  }

  datatype LoopRun = LoopRun(result: Option<string>, rendered: seq<Packet>, shown: seq<Progress>, after: HostView)

  /** The loop from state `v` at tick `i` of the script, with `last` the
      progress drawn last. */
  function Loop(v: HostView, ticks: seq<Tick>, i: nat, last: Progress): LoopRun
    requires Terminates(ticks) && i < |ticks|
    decreases |ticks| - i
  {
    var s := Step(v, ticks[i], last);
    if s.stop then LoopRun(s.result, s.rendered, s.shown, s.after)
    else
      assert i + 1 < |ticks|;
      var r := Loop(s.after, ticks, i + 1, v.progress);
      LoopRun(r.result, s.rendered + r.rendered, s.shown + r.shown, r.after)
  }

  /** The `while let Some(pkt) = ipc.try_read()` drain at the top of every
      iteration: render packets in order, stop at the first terminal one. */
  method DrainUntilTerminal(ch: IpcHost) returns (d: Drain)
    modifies ch`queue
    ensures d == MainDrain(old(ch.queue)) && ch.queue == d.rest
  {
    ghost var q := ch.queue;
    var rendered := [];
    ghost var j := 0;
    while true
      invariant 0 <= j <= |q| && ch.queue == q[j..]
      invariant rendered == q[..j]
      invariant forall k :: 0 <= k < j ==> !IsTerminal(q[k])
      decreases |ch.queue|
    {
      var pkt := ch.TryRead();
      if pkt.None? {
        break;
      }
      assert pkt.value == q[j] && q[..j + 1] == q[..j] + [q[j]];
      rendered := rendered + [pkt.value];
      if pkt.value.Complete? {
        assert TerminalIndex(q) == j;
        return Drain(rendered, true, Some(pkt.value.message), ch.queue);
      } else if pkt.value.Fatal? {
        assert TerminalIndex(q) == j;
        return Drain(rendered, true, None, ch.queue);
      }
      j := j + 1;
    }
    assert q[..j] == q && TerminalIndex(q) == |q|;
    d := Drain(rendered, false, None, []);
  }

  /** The drain after `finished` is observed: only `Complete` ends it early. */
  method DrainUntilComplete(ch: IpcHost) returns (d: Drain)
    modifies ch`queue
    ensures d == FinalDrain(old(ch.queue)) && ch.queue == d.rest
  {
    ghost var q := ch.queue;
    var rendered := [];
    ghost var j := 0;
    while true
      invariant 0 <= j <= |q| && ch.queue == q[j..]
      invariant rendered == q[..j]
      invariant forall k :: 0 <= k < j ==> !q[k].Complete?
      decreases |ch.queue|
    {
      var pkt := ch.TryRead();
      if pkt.None? {
        break;
      }
      assert pkt.value == q[j] && q[..j + 1] == q[..j] + [q[j]];
      rendered := rendered + [pkt.value];
      if pkt.value.Complete? {
        assert CompleteIndex(q) == j;
        return Drain(rendered, true, Some(pkt.value.message), ch.queue);
      }
      j := j + 1;
    }
    assert q[..j] == q && CompleteIndex(q) == |q|;
    d := Drain(rendered, true, None, []);
  }

  /** One pass of the body of `run_message_loop`. */
  method Iterate(ch: IpcHost, t: Tick, last: Progress, ghost ticks: seq<Tick>, ghost i: nat) returns (s: StepOut)
    requires Terminates(ticks) && i < |ticks| && ticks[i] == t
    modifies ch
    ensures s == Step(old(ch.View()), t, last) && ch.View() == s.after
    ensures ch.started == old(ch.started)
    ensures s.stop ==> Loop(old(ch.View()), ticks, i, last) == LoopRun(s.result, s.rendered, s.shown, s.after)
    ensures !s.stop ==> (i + 1 < |ticks| && |s.shown| <= 1 &&
      Continues(Loop(old(ch.View()), ticks, i, last), s.rendered, s.shown,
        Loop(ch.View(), ticks, i + 1, if s.shown != [] then s.shown[0] else last)))
  {
    ghost var v := ch.View();
    LoopUnfold(v, ticks, i, last);
    if !t.alive {
      return StepOut(true, None, [], [], ch.View());
    }
    var d := DrainUntilTerminal(ch);
    if d.stop {
      return StepOut(true, d.result, d.rendered, [], ch.View());
    }
    var shown := [];
    var progress := ch.GetProgress();
    if progress != last {
      shown := [progress];
    }
    ch.CheckAndAckSync();
    // the payload's writes land before the finished check
    ch.Receive(t.writes);
    var done := ch.IsFinished();
    if done {
      var f := DrainUntilComplete(ch);
      return StepOut(true, f.result, d.rendered + f.rendered, shown, ch.View());
    }
    s := StepOut(false, None, d.rendered, shown, ch.View());
  }

  /** How `Loop` continues after one pass of the body. */
  lemma LoopUnfold(v: HostView, ticks: seq<Tick>, i: nat, last: Progress)
    requires Terminates(ticks) && i < |ticks|
    ensures var s := Step(v, ticks[i], last); var r := Loop(v, ticks, i, last);
      if s.stop then r == LoopRun(s.result, s.rendered, s.shown, s.after)
      else (i + 1 < |ticks| &&
        var r' := Loop(s.after, ticks, i + 1, v.progress);
        r == LoopRun(r'.result, s.rendered + r'.rendered, s.shown + r'.shown, r'.after))
  {
  }

  /** `whole` is the loop that rendered and drew the given prefixes, then
      continued as `rest`. */
  predicate Continues(whole: LoopRun, rendered: seq<Packet>, shown: seq<Progress>, rest: LoopRun)
  {
    whole.result == rest.result && whole.rendered == rendered + rest.rendered &&
    whole.shown == shown + rest.shown && whole.after == rest.after
  }

  lemma ContinuesTrans(whole: LoopRun, rendered: seq<Packet>, shown: seq<Progress>, mid: LoopRun,
                       rendered': seq<Packet>, shown': seq<Progress>, rest: LoopRun)
    requires Continues(whole, rendered, shown, mid) && Continues(mid, rendered', shown', rest)
    ensures Continues(whole, rendered + rendered', shown + shown', rest)
  {
    assert rendered + (rendered' + rest.rendered) == (rendered + rendered') + rest.rendered;
    assert shown + (shown' + rest.shown) == (shown + shown') + rest.shown;
  }

  /** `run_message_loop`: returns the dump path of the first `Complete`, or
      None; also returns the packets rendered and the progress pairs drawn. */
  method RunMessageLoop(ch: IpcHost, ticks: seq<Tick>) returns (result: Option<string>, rendered: seq<Packet>, shown: seq<Progress>)
    requires Terminates(ticks)
    modifies ch
    ensures var r := Loop(old(ch.View()), ticks, 0, Progress(0, 0));
      result == r.result && rendered == r.rendered && shown == r.shown && ch.View() == r.after
    ensures ch.started == old(ch.started)
  {
    var last := Progress(0, 0);
    rendered, shown := [], [];
    var i := 0;
    ghost var goal := Loop(ch.View(), ticks, 0, last);
    while true
      invariant i < |ticks|
      invariant ch.started == old(ch.started)
      invariant Continues(goal, rendered, shown, Loop(ch.View(), ticks, i, last))
      decreases |ticks| - i
    {
      ghost var here := Loop(ch.View(), ticks, i, last);
      var s := Iterate(ch, ticks[i], last, ticks, i);
      if !s.stop {
        ContinuesTrans(goal, rendered, shown, here, s.rendered, s.shown,
          Loop(ch.View(), ticks, i + 1, if s.shown != [] then s.shown[0] else last));
      }
      rendered := rendered + s.rendered;
      shown := shown + s.shown;
      if s.stop {
        result := s.result;
        return;
      }
      if s.shown != [] {
        last := s.shown[0];
      }
      i := i + 1;
    }
  }

  // ---------------------------------------------------------------------
  // What the message loop promises
  // ---------------------------------------------------------------------

  /** The main drain renders the queue in order up to and including the
      first terminal packet, stops exactly when there is one, and yields a
      path exactly when that packet is `Complete`. */
  lemma MainDrainSpec(q: seq<Packet>)
    ensures var d := MainDrain(q);
      d.rendered + d.rest == q &&
      (d.stop <==> exists j :: 0 <= j < |q| && IsTerminal(q[j])) &&
      (d.stop ==> IsTerminal(d.rendered[|d.rendered| - 1])) &&
      (forall j :: 0 <= j < |d.rendered| - 1 ==> !IsTerminal(d.rendered[j])) &&
      (d.result.Some? <==> d.stop && d.rendered[|d.rendered| - 1].Complete?) &&
      (d.result.Some? ==> d.result.value == d.rendered[|d.rendered| - 1].message)
  {
    var k := TerminalIndex(q);
    if k < |q| {
      assert q[..k + 1] + q[k + 1..] == q;
    } else {
      assert q + [] == q;
    }
  }

  /** The final drain renders the queue in order up to and including the
      first `Complete`, and yields its path; `Fatal` does not stop it. */
  lemma FinalDrainSpec(q: seq<Packet>)
    ensures var d := FinalDrain(q);
      d.rendered + d.rest == q && d.stop &&
      (d.result.Some? <==> exists j :: 0 <= j < |q| && q[j].Complete?) &&
      (forall j :: 0 <= j < |d.rendered| - 1 ==> !d.rendered[j].Complete?) &&
      (d.result.Some? ==> d.rendered[|d.rendered| - 1] == Complete(d.result.value))
  {
    var k := CompleteIndex(q);
    if k < |q| {
      assert q[..k + 1] + q[k + 1..] == q;
    } else {
      assert q + [] == q;
    }
  }

  /** A `Fatal` packet seen after `finished` is rendered and passed over. */
  lemma FinalDrainPassesFatal(m: string, path: string)
    ensures FinalDrain([Fatal(m), Complete(path)]) == Drain([Fatal(m), Complete(path)], true, Some(path), [])
  {
    assert CompleteIndex([Fatal(m), Complete(path)]) == 1 by {
      assert [Fatal(m), Complete(path)][1..] == [Complete(path)];
    }
  }

  /** Whether a pass gets past its first drain (and so samples progress,
      acks the sync request and lets the payload's writes in). */
  predicate Proceeds(v: HostView, t: Tick)
  {
    t.alive && !MainDrain(v.queue).stop
  }

  /** One pass: a dead target is seen before anything is read; a pass that
      stops in the first drain leaves progress, flags and the sync request
      alone; a pass that gets past it has rendered the whole queue before
      acknowledging sync, so only a request written after the ack is pending. */
  lemma StepOrder(v: HostView, t: Tick, last: Progress)
    ensures var s := Step(v, t, last);
      (!t.alive ==> s.stop && s.result == None && s.rendered == [] && s.shown == [] && s.after == v) &&
      (!Proceeds(v, t) ==> s.shown == [] && s.after.progress == v.progress &&
                           s.after.syncPending == v.syncPending && s.after.finished == v.finished) &&
      (Proceeds(v, t) ==> v.queue <= s.rendered && s.after.syncPending == t.writes.sync) &&
      (Proceeds(v, t) ==> (s.shown == [v.progress] <==> v.progress != last) && |s.shown| <= 1)
  {
    if Proceeds(v, t) {
      MainDrainSpec(v.queue);
      var d := MainDrain(v.queue);
      assert d.rest == [] && d.rendered == v.queue;
      var w := Deliver(v.(queue := [], syncPending := false), t.writes);
      if w.finished {
        assert v.queue <= v.queue + FinalDrain(w.queue).rendered;
      }
    }
  }

  /** All packets the payload pushes over a script. */
  function Pushes(ticks: seq<Tick>): seq<Packet>
  {
    if ticks == [] then [] else ticks[0].writes.packets + Pushes(ticks[1..])
  }

  /** One pass renders a prefix of what was queued followed by what the
      payload pushes during the pass; what it does not render stays queued. */
  lemma StepFifo(v: HostView, t: Tick, last: Progress)
    ensures var s := Step(v, t, last);
      s.rendered + s.after.queue == v.queue + (if Proceeds(v, t) then t.writes.packets else [])
  {
    if !Proceeds(v, t) {
      MainDrainSpec(v.queue);
      assert v.queue + [] == v.queue;
    } else {
      StepFifoProceeds(v, t, last);
    }
  }

  lemma StepFifoProceeds(v: HostView, t: Tick, last: Progress)
    requires Proceeds(v, t)
    ensures var s := Step(v, t, last); s.rendered + s.after.queue == v.queue + t.writes.packets
  {
    var s := Step(v, t, last);
    MainDrainSpec(v.queue);
    var d := MainDrain(v.queue);
    assert d.rendered == v.queue;
    var w := Deliver(v.(queue := [], syncPending := false), t.writes);
    if w.finished {
      FinalDrainSpec(w.queue);
      var f := FinalDrain(w.queue);
      calc {
        s.rendered + s.after.queue;
        (d.rendered + f.rendered) + f.rest;
        d.rendered + (f.rendered + f.rest);
        v.queue + t.writes.packets;
      }
    }
  }

  lemma PushesSplit(ticks: seq<Tick>, i: nat)
    requires i < |ticks|
    ensures Pushes(ticks[i..]) == ticks[i].writes.packets + Pushes(ticks[i + 1..])
  {
    assert ticks[i..][1..] == ticks[i + 1..];
  }

  /** The loop renders packets in exactly the order they were queued: what
      it renders is a prefix of the initial queue followed by every packet
      the payload pushes from tick `i` on. */
  lemma {:induction false} LoopFifo(v: HostView, ticks: seq<Tick>, i: nat, last: Progress)
    requires Terminates(ticks) && i < |ticks|
    ensures Loop(v, ticks, i, last).rendered <= v.queue + Pushes(ticks[i..])
    decreases |ticks| - i
  {
    var s := Step(v, ticks[i], last);
    StepFifo(v, ticks[i], last);
    PushesSplit(ticks, i);
    var pushed := if Proceeds(v, ticks[i]) then ticks[i].writes.packets else [];
    var all := v.queue + Pushes(ticks[i..]);
    assert v.queue + pushed <= all by {
      if Proceeds(v, ticks[i]) {
        assert all == (v.queue + pushed) + Pushes(ticks[i + 1..]);
      } else {
        assert v.queue + pushed == v.queue;
      }
    }
    if s.stop {
      assert s.rendered <= s.rendered + s.after.queue;
    } else {
      StepOrder(v, ticks[i], last);
      var r' := Loop(s.after, ticks, i + 1, v.progress);
      LoopFifo(s.after, ticks, i + 1, v.progress);
      assert Proceeds(v, ticks[i]);
      assert all == s.rendered + (s.after.queue + Pushes(ticks[i + 1..]));
      assert Loop(v, ticks, i, last).rendered == s.rendered + r'.rendered;
    }
  }

  /** A path is yielded exactly when the last packet rendered is
      `Complete`, and it is that packet's path; no `Complete` comes before
      the last packet. */
  predicate YieldsLastComplete(result: Option<string>, rendered: seq<Packet>)
  {
    (result.Some? <==> rendered != [] && rendered[|rendered| - 1].Complete?) &&
    (result.Some? ==> result.value == rendered[|rendered| - 1].message) &&
    (forall j :: 0 <= j < |rendered| - 1 ==> !rendered[j].Complete?)
  }

  /** Packets rendered before, none of them terminal, do not change that. */
  lemma YieldsAfter(a: seq<Packet>, b: seq<Packet>, result: Option<string>)
    requires forall j :: 0 <= j < |a| ==> !IsTerminal(a[j])
    requires YieldsLastComplete(result, b)
    ensures YieldsLastComplete(result, a + b)
  {
    if b == [] {
      assert a + b == a;
    } else {
      assert (a + b)[|a + b| - 1] == b[|b| - 1];
      forall j | 0 <= j < |a + b| - 1
        ensures !(a + b)[j].Complete?
      {
        if j >= |a| {
          assert (a + b)[j] == b[j - |a|];
        }
      }
    }
  }

  /** The loop yields a dump path exactly when the last packet it rendered
      is `Complete`, and it is that packet's path; no `Complete` is rendered
      before the last packet. */
  lemma {:induction false} LoopResult(v: HostView, ticks: seq<Tick>, i: nat, last: Progress)
    requires Terminates(ticks) && i < |ticks|
    ensures var r := Loop(v, ticks, i, last);
      YieldsLastComplete(r.result, r.rendered)
    decreases |ticks| - i
  {
    var s := Step(v, ticks[i], last);
    StepResult(v, ticks[i], last);
    if !s.stop {
      LoopResult(s.after, ticks, i + 1, v.progress);
      var r' := Loop(s.after, ticks, i + 1, v.progress);
      YieldsAfter(s.rendered, r'.rendered, r'.result);
    }
  }

  /** The result part of one pass: only a stopping pass yields a path, and
      a pass that continues renders no terminal packet. */
  lemma StepResult(v: HostView, t: Tick, last: Progress)
    ensures var s := Step(v, t, last);
      (!s.stop ==> s.result == None && forall j :: 0 <= j < |s.rendered| ==> !IsTerminal(s.rendered[j])) &&
      YieldsLastComplete(s.result, s.rendered)
  {
    MainDrainSpec(v.queue);
    if t.alive && !MainDrain(v.queue).stop {
      var d := MainDrain(v.queue);
      var w := Deliver(v.(queue := [], syncPending := false), t.writes);
      if w.finished {
        FinalDrainSpec(w.queue);
        var f := FinalDrain(w.queue);
        var all := d.rendered + f.rendered;
        assert forall j :: 0 <= j < |d.rendered| ==> all[j] == d.rendered[j];
        assert forall j :: |d.rendered| <= j < |all| ==> all[j] == f.rendered[j - |d.rendered|];
      }
    }
  }

  /** Progress is redrawn only when it changed: the first pair drawn
      differs from `last`, and no pair is drawn twice in a row. */
  lemma {:induction false} LoopShown(v: HostView, ticks: seq<Tick>, i: nat, last: Progress)
    requires Terminates(ticks) && i < |ticks|
    ensures var r := Loop(v, ticks, i, last);
      (r.shown != [] ==> r.shown[0] != last) &&
      (forall j :: 0 <= j < |r.shown| - 1 ==> r.shown[j] != r.shown[j + 1])
    decreases |ticks| - i
  {
    var t := ticks[i];
    var s := Step(v, t, last);
    StepOrder(v, t, last);
    if !s.stop {
      var r' := Loop(s.after, ticks, i + 1, v.progress);
      LoopShown(s.after, ticks, i + 1, v.progress);
      var r := Loop(v, ticks, i, last);
      assert r.shown == s.shown + r'.shown;
      if s.shown != [] {
        assert r.shown[0] == v.progress;
        assert forall j :: 1 <= j < |r.shown| ==> r.shown[j] == r'.shown[j - 1];
      }
    }
  }
}
