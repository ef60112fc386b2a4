/** A start is honoured: one that has to wait for borrowed frames is remembered and posted once they are back, and from
    any start that executes the camera can reach streaming if and only if every counted frame can come back. */
module CameraDeferral {
  import opened Options
  import V = V4L2CameraSource
  import opened CameraProtocol
  import opened CameraSafety
  import opened CameraRecovery
  import opened CameraAccounting
  import opened CameraCompletion

  // ---------------------------------------------------------------- a deferred start is posted, and once

  /** A start that has been posted for the camera is still pending. */
  ghost predicate PostedIsKept(p: Protocol) {
    p.present && p.slot.state != Deleting && p.slot.rt.startQueued ==> StartCamera in Pending(p)
  }

  /** Only an executed StartCamera takes one away and leaves the camera as it is otherwise. */
  lemma ExecKeepsPosted(p: Protocol, reply: DriverReply, now: int)
    requires PostedIsKept(p)
    ensures PostedIsKept(Step(p, Exec(reply, now)))
  {
    if p.queue != [] && !p.polling {
      PopCommand(p);
    }
  }

  lemma StepKeepsPosted(p: Protocol, e: Event)
    requires PostedIsKept(p)
    ensures PostedIsKept(Step(p, e))
  {
    if e.Exec? {
      ExecKeepsPosted(p, e.reply, e.now);
    } else {
      StepAnnounces(p, e);
      if e.Drain? && p.returned != [] {
        DrainedSlot(p.slot, p.returned[0], e.qbufOk);
      }
    }
  }

  lemma {:induction false} RunKeepsPosted(p: Protocol, es: seq<Event>)
    requires PostedIsKept(p)
    ensures PostedIsKept(Run(p, es))
    decreases |es|
  {
    if es != [] {
      StepKeepsPosted(p, es[0]);
      RunKeepsPosted(Step(p, es[0]), es[1..]);
    }
  }

  function UserStarts(es: seq<Event>): nat
    decreases |es|
  {
    if es == [] then 0 else (if es[0].UserStart? then 1 else 0) + UserStarts(es[1..])
  }

  /** Along the run no command executes that settles a deferred start. */
  ghost predicate NothingSettles(p: Protocol, es: seq<Event>)
    decreases |es|
  {
    es == []
    || (!(es[0].Exec? && p.queue != []
          && (p.queue[0].StartCamera? || p.queue[0].StopCamera? || p.queue[0].RestartCamera?))
        && NothingSettles(Step(p, es[0]), es[1..]))
  }

  lemma PostedStands(p: Protocol, e: Event)
    requires p.slot.rt.startQueued
    requires !(e.Exec? && p.queue != []
               && (p.queue[0].StartCamera? || p.queue[0].StopCamera? || p.queue[0].RestartCamera?))
    ensures Step(p, e).slot.rt.startQueued
  {
    if e.Drain? && p.returned != [] {
      DrainedSlot(p.slot, p.returned[0], e.qbufOk);
    }
  }

  lemma PostedAddsNone(p: Protocol, e: Event)
    requires p.slot.rt.startQueued
    ensures Pending(Step(p, e))[StartCamera] <= Pending(p)[StartCamera] + (if e.UserStart? then 1 else 0)
  {
    if e.Exec? {
      ExecutedIsPendingNoMore(p, e.reply, e.now);
      return;
    }
    StepAnnounces(p, e);
    if e.Drain? && p.returned != [] {
      DrainedSlot(p.slot, p.returned[0], e.qbufOk);
    }
  }

  lemma {:induction false} PostedOnce(p: Protocol, es: seq<Event>)
    requires p.slot.rt.startQueued && NothingSettles(p, es)
    ensures Pending(Run(p, es))[StartCamera] <= Pending(p)[StartCamera] + UserStarts(es)
    decreases |es|
  {
    if es != [] {
      PostedStands(p, es[0]);
      PostedAddsNone(p, es[0]);
      PostedOnce(Step(p, es[0]), es[1..]);
    }
  }

  /** A start is waiting for frames. */
  predicate Deferred(p: Protocol) {
    p.present && p.slot.state == Stopped && p.slot.rt.startPending
  }

  /** In every run a deferred start that is not pending is posted by the first check that finds no frame out, and not
      again, however many checks follow, until a command has settled it. */
  lemma DeferredStartIsPostedOnce(p: Protocol, es: seq<Event>, now: int, fs: seq<Event>)
    requires Initial(p)
    requires Deferred(Run(p, es)) && !Run(p, es).polling && StartCamera !in Pending(Run(p, es))
    requires NothingSettles(Step(Run(p, es), Check(now)), fs)
    ensures var q := Run(p, es);
            var r := Step(q, Check(now));
            && Pending(r)[StartCamera] == (if q.slot.rt.inFlightFrames == 0 then 1 else 0)
            && (q.slot.rt.inFlightFrames == 0 ==> Pending(Run(r, fs))[StartCamera] <= 1 + UserStarts(fs))
  {
    RunKeepsPosted(p, es);
    var q := Run(p, es);
    if q.slot.rt.inFlightFrames == 0 {
      PostedOnce(Step(q, Check(now)), fs);
    }
  }

  // ---------------------------------------------------------------- a deferred start can be completed

  ghost predicate DeferredHome(p: Protocol) {
    Quiet(p) && Deferred(p) && NothingToStop(p) && PostedIsKept(p)
  }

  /** With every frame home, a start is pending after the next check. */
  lemma CheckLeavesStartPending(p: Protocol)
    requires DeferredHome(p)
    ensures var q := Step(p, Check(0));
            Quiet(q) && q.slot.state == Stopped && NothingToStop(q) && StartCamera in Pending(q)
  {
    StepKeepsHealthy(p, Check(0));
  }

  /** A stopped camera with a start in its queue, or what executing that start has led to. */
  ghost predicate StartingOrStarted(p: Protocol) {
    if p.slot.state == Stopped
    then Quiet(p) && p.posting == multiset{} && NothingToStop(p) && StartCamera in p.queue
    else Over(p, true) || (Failed(p) && NothingToStop(p))
  }

  function NextCommand(p: Protocol): Option<Event> {
    if p.slot.state == Stopped && p.queue != [] then Some(Exec(WILLING, 0)) else None
  }

  /** A start on a stopped camera with nothing out streams or fails; any other recovery command leaves it stopped. */
  lemma StoppedExec(s: Slot, c: Command)
    requires s.state == Stopped && s.rt.inFlightFrames == 0 && c != StopCamera && c != DeleteCamera
    ensures var t := ExecOn(s, c, WILLING, 0);
            if c == StartCamera then t.state == Error || (t.state == Streaming && t.source.st == V.Streaming)
            else t == s
  {
  }

  lemma ExecutedNext(p: Protocol)
    requires p.present && !p.polling && p.queue != [] && !p.queue[0].DeleteCamera?
    ensures Step(p, Exec(WILLING, 0)) == p.(queue := p.queue[1..], slot := ExecOn(p.slot, p.queue[0], WILLING, 0))
  {
  }

  lemma ExecNext(p: Protocol)
    requires StartingOrStarted(p) && NextCommand(p).Some?
    ensures var q := Step(p, Exec(WILLING, 0));
            StartingOrStarted(q) && |q.queue| < |p.queue|
  {
    PopCommand(p);
    assert p.queue[0] in Pending(p);
    StoppedExec(p.slot, p.queue[0]);
    ExecutedNext(p);
    ExecutedIsPendingNoMore(p, WILLING, 0);
    if Step(p, Exec(WILLING, 0)).slot.state != Streaming {
      StepKeepsHealthy(p, Exec(WILLING, 0));
    }
  }

  lemma ExecUntilStarted(p: Protocol) returns (es: seq<Event>)
    requires StartingOrStarted(p)
    ensures NoRequests(es) && StartingOrStarted(Run(p, es)) && Run(p, es).slot.state != Stopped
  {
    forall q | StartingOrStarted(q) && NextCommand(q).Some?
      ensures var e := NextCommand(q).value;
              StartingOrStarted(Step(q, e)) && |Step(q, e).queue| < |q.queue| && !UserRequest(e) && !e.Fault?
    {
      ExecNext(q);
    }
    es := Repeat(p, (q: Protocol) => StartingOrStarted(q), (q: Protocol) => NextCommand(q),
                 (q: Protocol) => |q.queue|);
  }

  /** From a started camera on: it streams, or it fails and recovers. */
  lemma StreamFrom(p: Protocol) returns (es: seq<Event>)
    requires Over(p, true) || (Failed(p) && NothingToStop(p))
    ensures NoRequests(es) && Over(Run(p, es), true)
  {
    if Over(p, true) {
      es := [];
    } else {
      es := CompleteFrom(p);
    }
  }

  /** With the frames home and a start pending, pushing and executing the pending commands starts the camera. */
  lemma StartsFrom(q: Protocol) returns (fs: seq<Event>)
    requires Quiet(q) && q.slot.state == Stopped && NothingToStop(q) && StartCamera in Pending(q)
    ensures NoRequests(fs) && Over(Run(q, fs), true)
  {
    var f1 := PostAll(q);
    var q1 := Run(q, f1);
    var f2 := ExecUntilStarted(q1);
    var q2 := Run(q1, f2);
    var f3 := StreamFrom(q2);
    JoinRuns(q1, f2, f3);
    JoinRuns(q, f1, f2 + f3);
    fs := f1 + (f2 + f3);
  }

  lemma DeferredCompletes(q: Protocol) returns (fs: seq<Event>)
    requires Down(q) && Deferred(q) && NothingToStop(q) && PostedIsKept(q)
    ensures NoRequests(fs) && Over(Run(q, fs), true)
  {
    var f1 := BringHome(q);
    var q1 := Run(q, f1);
    CheckLeavesStartPending(q1);
    var f2 := StartsFrom(Step(q1, Check(0)));
    RunOne(q1, Check(0), f2);
    JoinRuns(q, f1, [Check(0)] + f2);
    fs := f1 + ([Check(0)] + f2);
  }

  // ---------------------------------------------------------------- and when it cannot

  /** Stopped, with a frame counted that can never be uncounted, or removed. */
  ghost predicate StuckStopped(p: Protocol) {
    Inv(p) && (p.present ==> p.slot.state == Stopped && Uncountable(p) > 0)
  }

  /** With frames counted, no command moves a stopped camera but one that removes it. */
  lemma StoppedWaits(s: Slot, c: Command, reply: DriverReply, now: int)
    requires s.state == Stopped && s.rt.inFlightFrames > 0
    ensures ExecOn(s, c, reply, now).state == Stopped
  {
  }

  lemma StaysStopped(p: Protocol, e: Event)
    requires p.present && p.slot.state == Stopped && p.slot.rt.inFlightFrames > 0 && !UserRequest(e) && !e.Fault?
    ensures Step(p, e).slot.state == Stopped
  {
    match e
    case Exec(reply, now) => if p.queue != [] { StoppedWaits(p.slot, p.queue[0], reply, now); }
    case Drain(qbufOk) => if p.returned != [] { DrainedSlot(p.slot, p.returned[0], qbufOk); }
    case _ =>
  }

  lemma StuckStoppedStep(p: Protocol, e: Event)
    requires StuckStopped(p) && !UserRequest(e) && !e.Fault?
    ensures StuckStopped(Step(p, e))
  {
    StepKeepsInv(p, e);
    if p.present {
      OutIsCounted(p);
      StaysStopped(p, e);
      DownStepKeepsUncountable(p, e);
    } else {
      NobodyStaysAway(p, e);
    }
  }

  lemma NobodyStaysAway(p: Protocol, e: Event)
    requires !p.present
    ensures !Step(p, e).present
  {
  }

  lemma {:induction false} StuckStoppedForever(p: Protocol, es: seq<Event>)
    requires StuckStopped(p) && NoRequests(es)
    ensures StuckStopped(Run(p, es))
    decreases |es|
  {
    if es != [] {
      assert es[0] in es;
      assert forall e | e in es[1..] :: e in es;
      StuckStoppedStep(p, es[0]);
      StuckStoppedForever(Step(p, es[0]), es[1..]);
    }
  }

  /** Over every run, hazardous or not: a stopped camera with a deferred start, and no stop or removal pending, can
      reach streaming without a further request if and only if every frame that is counted is out under the current
      lease generation. */
  lemma DeferredStartCompletesIff(p: Protocol, es: seq<Event>)
    requires Initial(p) && Deferred(Run(p, es)) && NothingToStop(Run(p, es))
    ensures (exists fs :: NoRequests(fs) && Over(Run(Run(p, es), fs), true))
       <==> Run(p, es).slot.rt.inFlightFrames == Out(Run(p, es))
  {
    InitialInv(p);
    RunKeepsInv(p, es);
    RunKeepsRecovery(p, es);
    RunKeepsPosted(p, es);
    var q := Run(p, es);
    OutIsCounted(q);
    if q.slot.rt.inFlightFrames == Out(q) {
      var fs := DeferredCompletes(q);
      assert NoRequests(fs) && Over(Run(q, fs), true);
    } else {
      forall fs | NoRequests(fs) ensures !Over(Run(q, fs), true) {
        StuckStoppedForever(q, fs);
      }
    }
  }

  // ---------------------------------------------------------------- every executed start

  /** The next command is a start of a camera that takes commands. */
  predicate StartIsNext(p: Protocol) {
    p.present && !p.polling && p.queue != [] && p.queue[0] == StartCamera && p.slot.state != Deleting
  }

  /** A start streams, or is remembered because frames are out, or fails and leaves a recovery to be done. */
  lemma StartOutcome(p: Protocol, reply: DriverReply, now: int)
    requires StartIsNext(p) && Inv(p)
    ensures var q := Step(p, Exec(reply, now));
            if p.slot.state == Stopped && p.slot.rt.inFlightFrames != 0
            then Deferred(q) && q.slot.source == p.slot.source
            else Over(q, true) || (q.present && q.slot.state == Error && q.slot.rt.restartPending)
  {
  }

  /** No start is lost: after any run in which every counted frame can still come back, a StartCamera that executes,
      with no stop or removal behind it, leaves the camera where some continuation without a further request ends in
      streaming, whatever the driver answered to the start. */
  lemma StartIsHonoured(p: Protocol, es: seq<Event>, reply: DriverReply, now: int) returns (fs: seq<Event>)
    requires Initial(p) && StartIsNext(Run(p, es)) && NothingToStop(Run(p, es))
    requires Run(p, es).slot.rt.inFlightFrames == Out(Run(p, es))
    ensures NoRequests(fs) && Over(Run(Step(Run(p, es), Exec(reply, now)), fs), true)
  {
    InitialInv(p);
    RunKeepsInv(p, es);
    RunKeepsRecovery(p, es);
    RunKeepsPosted(p, es);
    fs := HonourStart(Run(p, es), reply, now);
  }

  /** A start that does not stream at once leaves the camera healthy, and what was pending but itself. */
  lemma StartLeavesHealthy(q: Protocol, reply: DriverReply, now: int)
    requires Healthy(q) && PostedIsKept(q) && StartIsNext(q) && NothingToStop(q)
    requires Step(q, Exec(reply, now)).slot.state != Streaming
    ensures var r := Step(q, Exec(reply, now)); Healthy(r) && PostedIsKept(r) && NothingToStop(r)
  {
    StepKeepsInv(q, Exec(reply, now));
    StepKeepsRecovery(q, Exec(reply, now));
    ExecKeepsUncountable(q, reply, now);
    ExecKeepsPosted(q, reply, now);
    ExecutedIsPendingNoMore(q, reply, now);
  }

  lemma HonourStart(q: Protocol, reply: DriverReply, now: int) returns (fs: seq<Event>)
    requires Healthy(q) && PostedIsKept(q) && StartIsNext(q) && NothingToStop(q)
    ensures NoRequests(fs) && Over(Run(Step(q, Exec(reply, now)), fs), true)
  {
    var r := Step(q, Exec(reply, now));
    StartOutcome(q, reply, now);
    if Over(r, true) {
      fs := [];
    } else {
      StartLeavesHealthy(q, reply, now);
      if r.slot.state == Error {
        fs := CompleteFrom(r);
      } else {
        fs := DeferredCompletes(r);
      }
    }
  }
}
