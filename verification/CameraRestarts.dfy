/** What a restart is made of and when it may happen: a stopped device is handed every buffer again, a hang-up leads to
    a rebuild, and no restart is posted before the back-off of the last failure is over. */
module CameraRestarts {
  import V = V4L2CameraSource
  import opened CameraProtocol
  import opened CameraSafety
  import opened CameraRecovery

  // ---------------------------------------------------------------- executed commands, without naming their bodies

  /** The step executes command c on a camera that takes commands. */
  predicate Executes(p: Protocol, e: Event, c: Command) {
    && e.Exec? && p.present && !p.polling && p.queue != [] && p.queue[0] == c && p.slot.state != Deleting
  }

  /** The buffers are set up, the driver takes each that it does not hold yet, and STREAMON. */
  predicate StreamAccepted(source: V.Source, reply: DriverReply) {
    && source.st == V.BufferAllocated && reply.streamOn
    && forall i | 0 <= i < |source.queued| :: source.queued[i] || i !in reply.refused
  }

  /** The driver accepts every phase of a rebuild. */
  predicate RebuildAccepted(reply: DriverReply) {
    reply.openOk && reply.configureOk && V.SetupAccepted(reply.setup) && reply.streamOn
  }

  predicate RestartAccepted(s: Slot, reply: DriverReply) {
    if s.rt.requiresDeviceReopen then RebuildAccepted(reply) else StreamAccepted(s.source, reply)
  }

  /** A StartCamera that asks the device to stream. */
  predicate StartTried(s: Slot) {
    s.state != Streaming && s.source.st != V.Streaming && !(s.state == Stopped && s.rt.inFlightFrames != 0)
  }

  /** RestartCamera of the current generation, with nothing out. */
  predicate RestartTried(s: Slot, c: Command) {
    && c == RestartCamera(s.rt.recoveryGeneration)
    && s.state == Error && s.rt.restartPending && s.rt.inFlightFrames == 0
  }

  lemma StartStreamsIff(source: V.Source, reply: DriverReply)
    ensures V.Start(source, reply.refused, reply.streamOn).1 <==> StreamAccepted(source, reply)
  {
    V.QueueFromEffect(source.queued, 0, reply.refused);
  }

  lemma AttemptStreamsIff(s: Slot, reply: DriverReply)
    requires s.bufferCount > 0
    ensures AttemptRestart(s, reply).1 <==> RestartAccepted(s, reply)
  {
    if s.rt.requiresDeviceReopen {
      RebuildSucceedsIffDriverAgrees(s, reply);
    } else {
      LightSucceedsIff(s, reply);
    }
  }

  // ---------------------------------------------------------------- a stopped device starts from scratch

  /** StopCamera, or the ProcessError of the current failure, executes on a streaming device. */
  predicate StopsDevice(p: Protocol, e: Event) {
    && p.slot.source.st == V.Streaming
    && (Executes(p, e, StopCamera)
        || (p.slot.state == Error && Executes(p, e, ProcessError(p.slot.rt.recoveryGeneration))))
  }

  /** Along the run no StartCamera or RestartCamera executes. */
  ghost predicate NothingStarts(p: Protocol, es: seq<Event>)
    decreases |es|
  {
    es == []
    || (!(es[0].Exec? && p.queue != [] && (p.queue[0].StartCamera? || p.queue[0].RestartCamera?))
        && NothingStarts(Step(p, es[0]), es[1..]))
  }

  /** The device neither streams nor is any buffer of it handed over. */
  predicate Dark(p: Protocol, source: V.Source) {
    p.slot.source == source && source.st != V.Streaming && !p.polling && p.slot.state != Streaming
  }

  lemma StaysDark(p: Protocol, e: Event, source: V.Source)
    requires Dark(p, source)
    requires !(e.Exec? && p.queue != [] && (p.queue[0].StartCamera? || p.queue[0].RestartCamera?))
    ensures Dark(Step(p, e), source)
  {
  }

  lemma {:induction false} RunStaysDark(p: Protocol, es: seq<Event>, source: V.Source)
    requires Dark(p, source) && NothingStarts(p, es)
    ensures Dark(Run(p, es), source)
    decreases |es|
  {
    if es != [] {
      StaysDark(p, es[0], source);
      RunStaysDark(Step(p, es[0]), es[1..], source);
    }
  }

  lemma DeviceStops(p: Protocol, e: Event)
    requires Inv(p) && StopsDevice(p, e)
    ensures var source := Step(p, e).slot.source;
            && Dark(Step(p, e), source) && source.st == V.BufferAllocated
            && |source.queued| == |p.slot.source.queued| > 0
            && forall i | 0 <= i < |source.queued| :: !source.queued[i]
  {
  }

  /** The next command asks the device to stream, and does not rebuild it. */
  predicate TriesNext(p: Protocol) {
    && p.present && !p.polling && p.queue != []
    && ((p.queue[0] == StartCamera && p.slot.state != Deleting && StartTried(p.slot))
        || (RestartTried(p.slot, p.queue[0]) && !p.slot.rt.requiresDeviceReopen))
  }

  lemma TriedNext(p: Protocol, reply: DriverReply, now: int)
    requires TriesNext(p)
    ensures Step(p, Exec(reply, now)).slot.state == Streaming <==> StreamAccepted(p.slot.source, reply)
  {
    StartStreamsIff(p.slot.source, reply);
  }

  /** After any run, once StopCamera or a current ProcessError has executed on a streaming device, the driver holds no
      buffer until the next attempt to stream, and that attempt succeeds if and only if the driver takes every single
      buffer and STREAMON. */
  lemma StoppedDeviceStartsFromScratch(p: Protocol, es: seq<Event>, e: Event, fs: seq<Event>, reply: DriverReply,
                                       now: int)
    requires Initial(p) && StopsDevice(Run(p, es), e) && NothingStarts(Step(Run(p, es), e), fs)
    ensures var n := |Run(p, es).slot.source.queued|;
            var r := Run(Step(Run(p, es), e), fs);
            && n > 0 && |r.slot.source.queued| == n && (forall i | 0 <= i < n :: !r.slot.source.queued[i])
            && (TriesNext(r) ==>
                  (Step(r, Exec(reply, now)).slot.state == Streaming
                   <==> reply.streamOn && forall i | 0 <= i < n :: i !in reply.refused))
  {
    InitialInv(p);
    RunKeepsInv(p, es);
    var q := Run(p, es);
    var stopped := Step(q, e);
    DeviceStops(q, e);
    RunStaysDark(stopped, fs, stopped.slot.source);
    var r := Run(stopped, fs);
    if TriesNext(r) {
      TriedNext(r, reply, now);
    }
  }

  // ---------------------------------------------------------------- what a stop and a start leave behind

  /** No pending recovery command will be taken up. */
  ghost predicate AllStale(p: Protocol) {
    forall c | c in Pending(p) && (c.ProcessError? || c.RestartCamera?) ::
      c.generation < p.slot.rt.recoveryGeneration
  }

  /** StopCamera executes, or a StartCamera finds the camera streaming. */
  predicate Supersedes(p: Protocol, e: Event) {
    Executes(p, e, StopCamera)
    || (Executes(p, e, StartCamera) && (p.slot.state == Streaming || p.slot.source.st == V.Streaming)
        && !(p.slot.state == Stopped && p.slot.rt.inFlightFrames != 0))
  }

  /** After any run, an executed stop, and a start that finds the camera streaming, drop every deferred start and
      pending restart and make every recovery command that is still pending stale. */
  lemma OldRecoveryIsOver(p: Protocol, es: seq<Event>, e: Event)
    requires Initial(p) && Supersedes(Run(p, es), e)
    ensures var q := Step(Run(p, es), e);
            && AllStale(q) && q.slot.state == (if Run(p, es).queue[0] == StopCamera then Stopped else Streaming)
            && !q.slot.rt.startPending && !q.slot.rt.startQueued
            && !q.slot.rt.restartPending && !q.slot.rt.restartQueued
  {
    RunKeepsRecovery(p, es);
    ExecutedIsPendingNoMore(Run(p, es), e.reply, e.now);
  }

  predicate Clean(s: Slot) {
    s.state == Streaming ==>
      && !s.rt.startPending && !s.rt.startQueued && !s.rt.restartPending && !s.rt.restartQueued
      && !s.rt.requiresDeviceReopen && s.rt.restartAttempts == 0
  }

  lemma CommandKeepsClean(s: Slot, c: Command, reply: DriverReply, now: int)
    requires Clean(s)
    ensures Clean(ExecOn(s, c, reply, now))
  {
  }

  lemma StepKeepsClean(p: Protocol, e: Event)
    requires Clean(p.slot)
    ensures Clean(Step(p, e).slot)
  {
    if e.Exec? && p.queue != [] {
      CommandKeepsClean(p.slot, p.queue[0], e.reply, e.now);
    } else if e.Drain? && p.returned != [] {
      DrainedSlot(p.slot, p.returned[0], e.qbufOk);
    }
  }

  /** In every run a streaming camera has nothing left of any failure before: no flag, no failure counted. */
  lemma {:induction false} StreamingIsClean(p: Protocol, es: seq<Event>)
    requires Clean(p.slot)
    ensures Clean(Run(p, es).slot)
    decreases |es|
  {
    if es != [] {
      StepKeepsClean(p, es[0]);
      StreamingIsClean(Step(p, es[0]), es[1..]);
    }
  }

  // ---------------------------------------------------------------- from a fault to a rebuild

  /** A fault of the camera: poll reports one, a user asks for recovery, or the driver refuses a returned buffer. */
  predicate Alarm(p: Protocol, e: Event) {
    && p.present
    && match e
       case Fault(_) => p.polling && p.slot.state != Error && p.slot.state != Deleting
       case UserRecover(_) => p.slot.state != Error && p.slot.state != Deleting
       case Drain(qbufOk) => p.slot.state == Streaming && p.returned != [] && !qbufOk
                             && p.returned[0].generation == p.slot.rt.leaseGeneration
       case _ => false
  }

  /** Hang-ups, requests to reopen and refused buffers want a rebuild. */
  predicate WantsRebuild(e: Event) {
    match e
    case Fault(hangUp) => hangUp
    case UserRecover(reopen) => reopen
    case _ => true
  }

  /** An alarm fails the camera, opens a new recovery generation with one ProcessError to execute, and notes whether a
      rebuild is wanted; the device and the failures counted so far stay as they are. */
  lemma AlarmOpensEpisode(p: Protocol, e: Event)
    requires Inv(p) && RecoveryInv(p) && Alarm(p, e)
    ensures var q := Step(p, e);
            && RecoveryInv(q) && q.slot.state == Error && q.slot.source == p.slot.source && Owes(q, ProcessIt)
            && q.slot.rt.recoveryGeneration == p.slot.rt.recoveryGeneration + 1
            && q.slot.rt.restartAttempts == p.slot.rt.restartAttempts
            && q.slot.rt.requiresDeviceReopen == WantsRebuild(e)
  {
    var q := Step(p, e);
    if e.Drain? {
      DrainedSlot(p.slot, p.returned[0], e.qbufOk);
    }
    FailedKeepsRecovery(p, q, WantsRebuild(e));
  }

  /** Some light attempt of the run fails as the third failure in a row or a later one. */
  ghost predicate ThirdLightFailure(p: Protocol, es: seq<Event>)
    decreases |es|
  {
    es != []
    && ((LightFailure(p, es[0]) && p.slot.rt.restartAttempts + 1 >= 3) || ThirdLightFailure(Step(p, es[0]), es[1..]))
  }

  lemma CommandRequiresRebuild(s: Slot, c: Command, reply: DriverReply, now: int)
    requires s.state == Error
    requires var t := ExecOn(s, c, reply, now);
             t.state == Error && t.rt.recoveryGeneration == s.rt.recoveryGeneration
    ensures ExecOn(s, c, reply, now).rt.requiresDeviceReopen
       <==> s.rt.requiresDeviceReopen || (FailsLightly(s, c, reply) && s.rt.restartAttempts + 1 >= 3)
  {
  }

  lemma RebuildBecomesRequired(p: Protocol, e: Event)
    requires p.slot.state == Error && Step(p, e).slot.state == Error
    requires Step(p, e).slot.rt.recoveryGeneration == p.slot.rt.recoveryGeneration
    ensures Step(p, e).slot.rt.requiresDeviceReopen
       <==> p.slot.rt.requiresDeviceReopen || (LightFailure(p, e) && p.slot.rt.restartAttempts + 1 >= 3)
  {
    if e.Exec? && p.queue != [] && !p.polling && p.present {
      CommandRequiresRebuild(p.slot, p.queue[0], e.reply, e.now);
    } else if e.Drain? && p.returned != [] {
      DrainedSlot(p.slot, p.returned[0], e.qbufOk);
    }
  }

  /** Within one episode a rebuild is required once it was wanted or a light attempt was the third to fail. */
  lemma {:induction false} RebuildIsRequiredIff(p: Protocol, es: seq<Event>, generation: nat)
    requires OneEpisode(p, es, generation)
    ensures Run(p, es).slot.rt.requiresDeviceReopen <==> p.slot.rt.requiresDeviceReopen || ThirdLightFailure(p, es)
    ensures p.slot.rt.requiresDeviceReopen ==> LightFailures(p, es) == 0
    decreases |es|
  {
    if es != [] {
      EpisodeStep(p, es, generation);
      RebuildBecomesRequired(p, es[0]);
      RebuildIsRequiredIff(Step(p, es[0]), es[1..], generation);
    }
  }

  lemma RestartOutcome(s: Slot, reply: DriverReply, now: int)
    requires RestartTried(s, RestartCamera(s.rt.recoveryGeneration)) && s.bufferCount > 0
    ensures ExecOn(s, RestartCamera(s.rt.recoveryGeneration), reply, now).state == Streaming
       <==> RestartAccepted(s, reply)
  {
    AttemptStreamsIff(s, reply);
  }

  lemma NextRestart(r: Protocol, reply: DriverReply, now: int)
    requires RestartsNext(r) && r.slot.bufferCount > 0
    ensures Step(r, Exec(reply, now)).slot.state == Streaming <==> RestartAccepted(r.slot, reply)
  {
    RestartOutcome(r.slot, reply, now);
  }

  /** A restart attempt is the next command. */
  predicate RestartsNext(p: Protocol) {
    p.present && !p.polling && p.queue != [] && RestartTried(p.slot, p.queue[0])
  }

  /** After any run, an alarm and any continuation of its episode: a rebuild is required if and only if the alarm wanted
      one or a light attempt failed as the third failure in a row; if the alarm wanted one no light attempt is made at
      all. The next restart streams if and only if the driver accepts what is then required. */
  lemma AlarmsLeadToRebuild(p: Protocol, es: seq<Event>, e: Event, fs: seq<Event>, reply: DriverReply, now: int)
    requires Initial(p) && Alarm(Run(p, es), e)
    requires OneEpisode(Step(Run(p, es), e), fs, Run(p, es).slot.rt.recoveryGeneration + 1)
    ensures var q := Step(Run(p, es), e);
            var r := Run(q, fs);
            && (r.slot.rt.requiresDeviceReopen <==> WantsRebuild(e) || ThirdLightFailure(q, fs))
            && (WantsRebuild(e) ==> LightFailures(q, fs) == 0)
            && (RestartsNext(r) ==>
                  (Step(r, Exec(reply, now)).slot.state == Streaming
                   <==> if WantsRebuild(e) || ThirdLightFailure(q, fs) then RebuildAccepted(reply)
                        else StreamAccepted(r.slot.source, reply)))
  {
    InitialInv(p);
    RunKeepsInv(p, es);
    RunKeepsRecovery(p, es);
    AlarmOpensEpisode(Run(p, es), e);
    var q := Step(Run(p, es), e);
    var generation := q.slot.rt.recoveryGeneration;
    RebuildIsRequiredIff(q, fs, generation);
    RunKeepsRecovery(q, fs);
    var r := Run(q, fs);
    if RestartsNext(r) {
      NextRestart(r, reply, now);
    }
  }

  // ---------------------------------------------------------------- back-off

  /** Failures in a row, and the time of the last. */
  datatype History = History(failures: nat, last: int)

  /** The step is a failure: a start or restart the driver refuses, or a fault that is taken up. */
  predicate Fails(p: Protocol, e: Event) {
    e.Exec? && p.queue != [] && Executes(p, e, p.queue[0]) && CommandFails(p.slot, p.queue[0], e.reply)
  }

  predicate CommandFails(s: Slot, c: Command, reply: DriverReply) {
    match c
    case StartCamera => StartTried(s) && !StreamAccepted(s.source, reply)
    case ProcessError(g) => s.state == Error && g == s.rt.recoveryGeneration
    case RestartCamera(_) => RestartTried(s, c) && !RestartAccepted(s, reply)
    case _ => false
  }

  function Record(h: History, p: Protocol, e: Event): History {
    if Fails(p, e) then History(h.failures + 1, e.now)
    else if e.Exec? && Step(p, e).slot.state == Streaming then History(0, h.last)
    else h
  }

  /** What a run records; it does not look at the manager's counter or clock. */
  function Recorded(h: History, p: Protocol, es: seq<Event>): History
    decreases |es|
  {
    if es == [] then h else Recorded(Record(h, p, es[0]), Step(p, es[0]), es[1..])
  }

  predicate Timely(h: History, s: Slot) {
    && s.rt.restartAttempts == h.failures && (s.state == Streaming ==> h.failures == 0)
    && (h.failures > 0 ==> s.rt.nextRestartTime == h.last + RestartBackoff(h.failures))
  }

  lemma StartIsTimely(h: History, s: Slot, reply: DriverReply, now: int)
    requires Timely(h, s) && SlotModes(s)
    ensures var t := ExecStart(s, reply, now);
            if CommandFails(s, StartCamera, reply) then t.state != Streaming && Timely(History(h.failures + 1, now), t)
            else Timely(if t.state == Streaming then History(0, h.last) else h, t)
  {
    StartStreamsIff(s.source, reply);
  }

  lemma RestartIsTimely(h: History, s: Slot, generation: nat, reply: DriverReply, now: int)
    requires Timely(h, s) && s.bufferCount > 0
    ensures var t := ExecRestart(s, generation, reply, now);
            if CommandFails(s, RestartCamera(generation), reply)
            then t.state != Streaming && Timely(History(h.failures + 1, now), t)
            else Timely(if t.state == Streaming then History(0, h.last) else h, t)
  {
    AttemptStreamsIff(s, reply);
  }

  lemma CommandIsTimely(h: History, s: Slot, c: Command, reply: DriverReply, now: int)
    requires Timely(h, s) && SlotModes(s) && s.bufferCount > 0 && s.state != Deleting
    ensures var t := ExecOn(s, c, reply, now);
            if CommandFails(s, c, reply) then t.state != Streaming && Timely(History(h.failures + 1, now), t)
            else Timely(if t.state == Streaming then History(0, h.last) else h, t)
  {
    match c
    case StartCamera => StartIsTimely(h, s, reply, now);
    case RestartCamera(g) => RestartIsTimely(h, s, g, reply, now);
    case _ =>
  }

  lemma ExecIsTimely(h: History, p: Protocol, e: Event)
    requires Timely(h, p.slot) && Modes(p) && p.slot.bufferCount > 0 && e.Exec?
    ensures Timely(Record(h, p, e), Step(p, e).slot)
  {
    if p.queue != [] && Executes(p, e, p.queue[0]) {
      CommandIsTimely(h, p.slot, p.queue[0], e.reply, e.now);
    }
  }

  lemma OtherStepsAreTimely(h: History, p: Protocol, e: Event)
    requires Timely(h, p.slot) && !e.Exec?
    ensures Timely(h, Step(p, e).slot)
  {
  }

  /** Every run counts its failures in a row and sets the time of the next restart by the last of them. */
  lemma {:induction false} RunIsTimely(h: History, p: Protocol, es: seq<Event>)
    requires Timely(h, p.slot) && RecoveryInv(p) && Inv(p)
    ensures Timely(Recorded(h, p, es), Run(p, es).slot)
    decreases |es|
  {
    if es != [] {
      if es[0].Exec? {
        ExecIsTimely(h, p, es[0]);
      } else {
        OtherStepsAreTimely(h, p, es[0]);
      }
      StepKeepsRecovery(p, es[0]);
      StepKeepsInv(p, es[0]);
      RunIsTimely(Record(h, p, es[0]), Step(p, es[0]), es[1..]);
    }
  }

  /** A restart is due: the camera waits for one, no frame is out, and the back-off of the last failure is over. */
  predicate Due(p: Protocol, h: History, now: int) {
    && p.present && !p.polling && p.slot.state == Error && Owes(p, WaitForFrames) && p.slot.rt.inFlightFrames == 0
    && now >= h.last + RestartBackoff(h.failures)
  }

  lemma CheckPostsDue(p: Protocol, h: History, now: int)
    requires RecoveryInv(p) && Timely(h, p.slot)
    ensures var posted := Step(p, Check(now)).posting;
            if Due(p, h, now) then posted == p.posting + multiset{RestartCamera(p.slot.rt.recoveryGeneration)}
            else forall c: Command | c.RestartCamera? :: posted[c] == p.posting[c]
  {
  }

  /** Only the poll thread's check announces restarts. */
  lemma OthersPostNoRestart(p: Protocol, e: Event, c: Command)
    requires c.RestartCamera? && !e.Check?
    ensures Pending(Step(p, e))[c] <= Pending(p)[c]
  {
    if e.Exec? {
      ExecutedIsPendingNoMore(p, e.reply, e.now);
      return;
    }
    StepAnnounces(p, e);
    if e.Drain? && p.returned != [] {
      DrainedSlot(p.slot, p.returned[0], e.qbufOk);
    }
  }

  /** After any run: a step announces a RestartCamera if and only if it is a check at a time when one is due, which
      is not before the last failure plus the back-off for the failures in a row. Then it announces one, of the
      current generation. */
  lemma RestartsWaitForBackoff(p: Protocol, es: seq<Event>, e: Event)
    requires Initial(p)
    ensures var q, h := Run(p, es), Recorded(History(0, 0), p, es);
            if e.Check? && Due(q, h, e.now)
            then Step(q, e).posting == q.posting + multiset{RestartCamera(q.slot.rt.recoveryGeneration)}
                 && h.failures >= 1
            else forall c: Command | c.RestartCamera? :: Pending(Step(q, e))[c] <= Pending(q)[c]
  {
    InitialInv(p);
    RunIsTimely(History(0, 0), p, es);
    RunKeepsRecovery(p, es);
    var q, h := Run(p, es), Recorded(History(0, 0), p, es);
    if e.Check? {
      CheckPostsDue(q, h, e.now);
    } else {
      forall c: Command | c.RestartCamera? ensures Pending(Step(q, e))[c] <= Pending(q)[c] {
        OthersPostNoRestart(q, e, c);
      }
    }
  }
}
