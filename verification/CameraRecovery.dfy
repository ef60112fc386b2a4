/** Recovery: a failed camera always has exactly one thing left to do, a stopped camera stays stopped,
    light restarts escalate, and recovery can always be completed. */
module CameraRecovery {
  import V = V4L2CameraSource
  import opened CameraProtocol
  import opened CameraSafety

  // ---------------------------------------------------------------- one obligation at a time

  /** Commands pushed or about to be pushed. */
  function Pending(p: Protocol): multiset<Command> {
    multiset(p.queue) + p.posting
  }

  ghost predicate NoFutureCommands(p: Protocol) {
    forall c | c in Pending(p) ::
      (c.ProcessError? || c.RestartCamera?) ==> c.generation <= p.slot.rt.recoveryGeneration
  }

  datatype Obligation = ProcessIt | WaitForFrames | RestartIt

  /** What is left to do for a failed camera, seen from the flags and the pending commands. */
  predicate Owes(p: Protocol, o: Obligation) {
    var rt := p.slot.rt;
    var processing := Pending(p)[ProcessError(rt.recoveryGeneration)];
    var restarting := Pending(p)[RestartCamera(rt.recoveryGeneration)];
    match o
    case ProcessIt => processing == 1 && restarting == 0 && !rt.restartPending && !rt.restartQueued
    case WaitForFrames => processing == 0 && restarting == 0 && rt.restartPending && !rt.restartQueued
    case RestartIt => processing == 0 && restarting == 1 && rt.restartPending && rt.restartQueued
  }

  predicate OwesSomething(p: Protocol) {
    Owes(p, ProcessIt) || Owes(p, WaitForFrames) || Owes(p, RestartIt)
  }

  /** Exactly one obligation while failed; none of the recovery flags otherwise. */
  ghost predicate RecoveryInv(p: Protocol) {
    && NoFutureCommands(p) && p.slot.bufferCount > 0
    && (p.slot.state == Error && p.present ==> OwesSomething(p))
    && (p.slot.state != Error && p.slot.state != Deleting ==> !p.slot.rt.restartPending && !p.slot.rt.restartQueued)
    && (p.slot.rt.restartPending ==> p.slot.source.st != V.Streaming && p.slot.rt.restartAttempts >= 1)
    && (p.slot.rt.startPending ==> p.slot.state != Streaming)
  }

  lemma PopCommand(p: Protocol)
    requires p.queue != []
    ensures multiset(p.queue) == multiset{p.queue[0]} + multiset(p.queue[1..])
  {
    assert p.queue == [p.queue[0]] + p.queue[1..];
  }

  /** The commands a step announces. */
  function Announced(p: Protocol, e: Event): seq<Command> {
    if !p.present then []
    else match e
    case UserStart => if p.slot.state != Deleting then [StartCamera] else []
    case UserStop => if p.slot.state != Deleting then [StopCamera] else []
    case UserDelete(running) => if running then [DeleteCamera] else []
    case UserRecover(reopen) => FaultOn(p.slot, reopen).1
    case Fault(hangUp) => if p.polling then FaultOn(p.slot, hangUp).1 else []
    case Check(now) => if p.polling then [] else CheckOn(p.slot, now).1
    case Drain(qbufOk) => if p.returned == [] then [] else DrainOn(p.slot, p.returned[0], qbufOk).1
    case _ => []
  }

  lemma ExecutedIsPendingNoMore(p: Protocol, reply: DriverReply, now: int)
    ensures Pending(Step(p, Exec(reply, now))) <= Pending(p)
  {
    if p.queue != [] {
      PopCommand(p);
    }
  }

  /** Commands become pending when they are announced, and stay pending until they are executed. */
  lemma StepAnnounces(p: Protocol, e: Event)
    requires !e.Exec?
    ensures Pending(Step(p, e)) == Pending(p) + multiset(Announced(p, e))
  {
    hide ExecOn, FaultOn, CheckOn, DrainOn, LeaseOn;
    if e.Post? {
      PostedIsPending(p, e.c);
    }
  }

  /** What executing c may do to the recovery bookkeeping. */
  predicate RecoveryEffect(s: Slot, c: Command, t: Slot) {
    var g := s.rt.recoveryGeneration;
    && t.rt.recoveryGeneration >= g && t.bufferCount == s.bufferCount
    && (t.rt.restartPending ==> t.source.st != V.Streaming && t.rt.restartAttempts >= 1)
    && (t.rt.startPending ==> t.state != Streaming)
    && (t.state == Deleting <==> s.state == Deleting)
    && match t.state
       case Deleting => t == s
       case Error =>
         || (t == s && c != ProcessError(g) && (c == RestartCamera(g) ==> !s.rt.restartPending))
         || (t.rt.recoveryGeneration > g && t.rt.restartPending && !t.rt.restartQueued)
         || (t.rt.recoveryGeneration == g && s.state == Error
             && (c == ProcessError(g) || (c == RestartCamera(g) && s.rt.restartPending))
             && t.rt.restartPending && !t.rt.restartQueued)
       case _ => !t.rt.restartPending && !t.rt.restartQueued
  }

  lemma ExecHasRecoveryEffect(s: Slot, c: Command, reply: DriverReply, now: int)
    requires s.state != Error && s.state != Deleting ==> !s.rt.restartPending && !s.rt.restartQueued
    requires s.rt.restartPending ==> s.source.st != V.Streaming && s.rt.restartAttempts >= 1
    requires s.rt.startPending ==> s.state != Streaming
    ensures RecoveryEffect(s, c, ExecOn(s, c, reply, now))
  {
    if s.source.st != V.Streaming && c.RestartCamera? {
      var (t, ok) := AttemptRestart(s, reply);
      assert !ok ==> t.st != V.Streaming;
    }
  }

  lemma ExecutedKeepsRecovery(p: Protocol, q: Protocol)
    requires RecoveryInv(p) && p.queue != []
    requires q.queue == p.queue[1..] && q.posting == p.posting && q.present == p.present
    requires RecoveryEffect(p.slot, p.queue[0], q.slot)
    ensures RecoveryInv(q)
  {
    PopCommand(p);
    var g := q.slot.rt.recoveryGeneration;
    if g > p.slot.rt.recoveryGeneration {
      assert ProcessError(g) !in Pending(p) && RestartCamera(g) !in Pending(p);
    }
  }

  /** A fresh failure: its ProcessError is the only command of the new generation. */
  lemma FailedKeepsRecovery(p: Protocol, q: Protocol, reopen: bool)
    requires RecoveryInv(p) && p.slot.state != Error && p.slot.state != Deleting
    requires q.slot.state == Error && q.slot.rt.recoveryGeneration == p.slot.rt.recoveryGeneration + 1
    requires q.slot.rt.restartPending == p.slot.rt.restartPending && q.slot.rt.restartQueued == p.slot.rt.restartQueued
    requires q.slot.bufferCount == p.slot.bufferCount
    requires q.queue == p.queue && q.posting == p.posting + multiset{ProcessError(q.slot.rt.recoveryGeneration)}
    ensures RecoveryInv(q) && Owes(q, ProcessIt)
  {
    var g := q.slot.rt.recoveryGeneration;
    assert ProcessError(g) !in Pending(p) && RestartCamera(g) !in Pending(p);
  }

  /** Steps that change neither flags nor generation, and post no recovery command. */
  lemma UntouchedKeepsRecovery(p: Protocol, q: Protocol)
    requires RecoveryInv(p)
    requires q.slot.state == p.slot.state || q.slot.state == Deleting
    requires q.slot.source.st == p.slot.source.st && q.slot.bufferCount == p.slot.bufferCount
    requires q.slot.rt.(inFlightFrames := 0, startQueued := false)
             == p.slot.rt.(inFlightFrames := 0, startQueued := false)
    requires q.present ==> p.present
    requires forall c: Command | c.ProcessError? || c.RestartCamera? :: Pending(q)[c] == Pending(p)[c]
    ensures RecoveryInv(q)
  {
    forall c | c in Pending(q) && (c.ProcessError? || c.RestartCamera?)
      ensures c.generation <= q.slot.rt.recoveryGeneration
    {
      assert c in Pending(p);
    }
  }

  lemma ExecKeepsRecovery(p: Protocol, reply: DriverReply, now: int)
    requires RecoveryInv(p)
    ensures RecoveryInv(Step(p, Exec(reply, now)))
  {
    var q := Step(p, Exec(reply, now));
    if p.queue != [] && !p.polling {
      PopCommand(p);
      if p.present && !p.queue[0].DeleteCamera? {
        ExecHasRecoveryEffect(p.slot, p.queue[0], reply, now);
        ExecutedKeepsRecovery(p, q);
      }
    }
  }

  lemma CheckKeepsRecovery(p: Protocol, now: int)
    requires RecoveryInv(p)
    ensures RecoveryInv(Step(p, Check(now)))
  {
  }

  lemma DrainKeepsRecovery(p: Protocol, qbufOk: bool)
    requires RecoveryInv(p)
    ensures RecoveryInv(Step(p, Drain(qbufOk)))
  {
    if p.returned != [] {
      if p.present {
        DrainedSlot(p.slot, p.returned[0], qbufOk);
        DrainedKeepsRecovery(p, Step(p, Drain(qbufOk)), p.returned[0], qbufOk);
      } else {
        PendingDecides(p, Step(p, Drain(qbufOk)));
      }
    }
  }

  /** A return touches counter and queued bits, or fails the camera as any fault does. */
  lemma DrainedSlot(s: Slot, item: Lease, qbufOk: bool)
    ensures var (t, cs) := DrainOn(s, item, qbufOk);
            && t.source.st == s.source.st && t.bufferCount == s.bufferCount
            && (if cs == [] then t.state == s.state && t.rt == s.rt.(inFlightFrames := t.rt.inFlightFrames)
                else s.state == Streaming && t.state == Error && cs == [ProcessError(s.rt.recoveryGeneration + 1)]
                     && t.rt == s.rt.(inFlightFrames := t.rt.inFlightFrames, requiresDeviceReopen := true,
                                      recoveryGeneration := s.rt.recoveryGeneration + 1))
  {
  }

  lemma DrainedKeepsRecovery(p: Protocol, q: Protocol, item: Lease, qbufOk: bool)
    requires RecoveryInv(p) && p.present && q.present && q.queue == p.queue
    requires var (t, cs) := DrainOn(p.slot, item, qbufOk);
             q.slot == t && q.posting == p.posting + multiset(cs)
    ensures RecoveryInv(q)
  {
    DrainedSlot(p.slot, item, qbufOk);
    if DrainOn(p.slot, item, qbufOk).1 == [] {
      UntouchedKeepsRecovery(p, q);
    } else {
      FailedKeepsRecovery(p, q, true);
    }
  }

  lemma FaultKeepsRecovery(p: Protocol, e: Event)
    requires RecoveryInv(p)
    requires e.Fault? || e.UserRecover?
    ensures RecoveryInv(Step(p, e))
  {
    var q := Step(p, e);
    if q.slot != p.slot {
      FailedKeepsRecovery(p, q, false);
    }
  }

  /** Pushing an announced command changes only where it is pending. */
  lemma PostedIsPending(p: Protocol, c: Command)
    ensures Pending(Step(p, Post(c))) == Pending(p)
  {
    if c in p.posting {
      assert multiset(p.queue + [c]) == multiset(p.queue) + multiset{c};
    }
  }

  lemma PostKeepsRecovery(p: Protocol, c: Command)
    requires RecoveryInv(p)
    ensures RecoveryInv(Step(p, Post(c)))
  {
    PostedIsPending(p, c);
    PendingDecides(p, Step(p, Post(c)));
  }

  /** The bookkeeping depends on the slot and on what is pending. */
  lemma PendingDecides(p: Protocol, q: Protocol)
    requires RecoveryInv(p) && q.slot == p.slot && q.present == p.present && Pending(q) == Pending(p)
    ensures RecoveryInv(q)
  {
  }

  lemma UserCommandKeepsRecovery(p: Protocol, e: Event)
    requires RecoveryInv(p) && (e.UserStart? || e.UserStop?)
    ensures RecoveryInv(Step(p, e))
  {
    UntouchedKeepsRecovery(p, Step(p, e));
  }

  lemma DeleteKeepsRecovery(p: Protocol, running: bool)
    requires RecoveryInv(p)
    ensures RecoveryInv(Step(p, UserDelete(running)))
  {
    UntouchedKeepsRecovery(p, Step(p, UserDelete(running)));
  }

  lemma DequeueKeepsRecovery(p: Protocol, index: nat)
    requires RecoveryInv(p)
    ensures RecoveryInv(Step(p, Dequeue(index)))
  {
    UntouchedKeepsRecovery(p, Step(p, Dequeue(index)));
  }

  lemma LeaseKeepsRecovery(p: Protocol)
    requires RecoveryInv(p)
    ensures RecoveryInv(Step(p, MakeLease))
  {
    UntouchedKeepsRecovery(p, Step(p, MakeLease));
  }

  /** Steps that leave slot and commands alone. */
  lemma BystanderKeepsRecovery(p: Protocol, e: Event)
    requires RecoveryInv(p) && (e.DropLease? || e.Snapshot? || e.EndPoll?)
    ensures RecoveryInv(Step(p, e))
  {
    PendingDecides(p, Step(p, e));
  }

  lemma StepKeepsRecovery(p: Protocol, e: Event)
    requires RecoveryInv(p)
    ensures RecoveryInv(Step(p, e))
  {
    match e
    case Exec(reply, now) => ExecKeepsRecovery(p, reply, now);
    case Check(now) => CheckKeepsRecovery(p, now);
    case Drain(qbufOk) => DrainKeepsRecovery(p, qbufOk);
    case Post(c) => PostKeepsRecovery(p, c);
    case Fault(_) => FaultKeepsRecovery(p, e);
    case UserRecover(_) => FaultKeepsRecovery(p, e);
    case UserStart => UserCommandKeepsRecovery(p, e);
    case UserStop => UserCommandKeepsRecovery(p, e);
    case UserDelete(running) => DeleteKeepsRecovery(p, running);
    case Dequeue(index) => DequeueKeepsRecovery(p, index);
    case MakeLease => LeaseKeepsRecovery(p);
    case _ => BystanderKeepsRecovery(p, e);
  }

  lemma {:induction false} RunKeepsRecovery(p: Protocol, es: seq<Event>)
    requires RecoveryInv(p)
    ensures RecoveryInv(Run(p, es))
    decreases |es|
  {
    if es != [] {
      StepKeepsRecovery(p, es[0]);
      RunKeepsRecovery(Step(p, es[0]), es[1..]);
    }
  }

  /** In every run a registered camera in Error has exactly one obligation: one pending ProcessError of the current
      generation; waiting for frames or back-off; or one pending RestartCamera of the current generation. */
  lemma RecoveryNeverForgets(p: Protocol, es: seq<Event>)
    requires Initial(p)
    ensures var q := Run(p, es);
            q.present && q.slot.state == Error ==>
              exists o :: Owes(q, o) && forall other | Owes(q, other) :: other == o
  {
    RunKeepsRecovery(p, es);
    var q := Run(p, es);
    if q.present && q.slot.state == Error {
      var o :| Owes(q, o);
      assert forall other | Owes(q, other) :: other == o;
    }
  }

  // ---------------------------------------------------------------- a stopped camera stays stopped

  /** A StopCamera has taken effect. */
  predicate StoppedForGood(p: Protocol) {
    && (p.slot.state == Stopped || p.slot.state == Deleting || !p.present)
    && p.slot.source.st != V.Streaming && !p.polling && !p.slot.rt.startPending
  }

  /** Neither an executed StartCamera nor a recovery request happens along the run. */
  ghost predicate NobodyRestarts(p: Protocol, es: seq<Event>)
    decreases |es|
  {
    es == []
    || (!es[0].UserRecover?
        && (es[0].Exec? && p.queue != [] ==> p.queue[0] != StartCamera)
        && NobodyRestarts(Step(p, es[0]), es[1..]))
  }

  lemma {:induction false} StopIsFinal(p: Protocol, es: seq<Event>)
    requires StoppedForGood(p) && Modes(p) && NobodyRestarts(p, es)
    ensures Run(p, es).slot.source.st != V.Streaming && StoppedForGood(Run(p, es))
    decreases |es|
  {
    if es != [] {
      var q := Step(p, es[0]);
      StopStep(p, es[0]);
      StopIsFinal(q, es[1..]);
    }
  }

  lemma StopStep(p: Protocol, e: Event)
    requires StoppedForGood(p) && Modes(p) && !e.UserRecover?
    requires e.Exec? && p.queue != [] ==> p.queue[0] != StartCamera
    ensures StoppedForGood(Step(p, e)) && Modes(Step(p, e))
  {
  }

  /** Whatever stale commands are pending, executing StopCamera on a live camera reaches that situation. */
  lemma StopTakesEffect(p: Protocol, reply: DriverReply, now: int)
    requires Inv(p) && p.present && !p.polling && p.queue != [] && p.queue[0] == StopCamera && p.slot.state != Deleting
    ensures StoppedForGood(Step(p, Exec(reply, now))) && Modes(Step(p, Exec(reply, now)))
  {
  }

  /** After any run, once a StopCamera executes the source cannot stream again, whatever commands are still queued,
      until a StartCamera executes or recovery is requested anew; and a slot in Streaming always means a streaming
      source. */
  lemma StopHolds(p: Protocol, es: seq<Event>, reply: DriverReply, now: int, fs: seq<Event>)
    requires Initial(p)
    ensures Run(p, es).slot.state == Streaming ==> Run(p, es).slot.source.st == V.Streaming
    ensures var q := Run(p, es);
            var stopped := Step(q, Exec(reply, now));
            q.present && !q.polling && q.queue != [] && q.queue[0] == StopCamera && q.slot.state != Deleting
            && NobodyRestarts(stopped, fs)
            ==> Run(stopped, fs).slot.source.st != V.Streaming
  {
    InitialInv(p);
    RunKeepsInv(p, es);
    var q := Run(p, es);
    if q.present && !q.polling && q.queue != [] && q.queue[0] == StopCamera && q.slot.state != Deleting {
      StopTakesEffect(q, reply, now);
      var stopped := Step(q, Exec(reply, now));
      if NobodyRestarts(stopped, fs) {
        StopIsFinal(stopped, fs);
      }
    }
  }

  // ---------------------------------------------------------------- escalation

  /** The step is a light restart attempt (no rebuild) that fails. */
  predicate LightFailure(p: Protocol, e: Event) {
    e.Exec? && !p.polling && p.present && p.queue != [] && FailsLightly(p.slot, p.queue[0], e.reply)
  }

  predicate FailsLightly(s: Slot, c: Command, reply: DriverReply) {
    && s.state == Error && s.rt.restartPending && s.rt.inFlightFrames == 0
    && c == RestartCamera(s.rt.recoveryGeneration)
    && !s.rt.requiresDeviceReopen && !AttemptRestart(s, reply).1
  }

  function LightFailures(p: Protocol, es: seq<Event>): nat
    decreases |es|
  {
    if es == [] then 0
    else (if LightFailure(p, es[0]) then 1 else 0) + LightFailures(Step(p, es[0]), es[1..])
  }

  /** The camera stays failed in one and the same recovery generation. */
  ghost predicate OneEpisode(p: Protocol, es: seq<Event>, generation: nat)
    decreases |es|
  {
    p.slot.state == Error && p.slot.rt.recoveryGeneration == generation
    && (es == [] || OneEpisode(Step(p, es[0]), es[1..], generation))
  }

  /** Light attempts still allowed to fail. */
  function LightBudget(rt: Runtime): nat {
    if rt.requiresDeviceReopen then 0
    else
      var attempts := if rt.restartPending then rt.restartAttempts else rt.restartAttempts + 1;
      if attempts >= 2 then 1 else 2
  }

  lemma {:induction false} FailuresSpendBudget(p: Protocol, es: seq<Event>, generation: nat)
    requires RecoveryInv(p) && OneEpisode(p, es, generation)
    ensures LightFailures(p, es) + LightBudget(Run(p, es).slot.rt) <= LightBudget(p.slot.rt)
    decreases |es|
  {
    if es != [] {
      StepKeepsRecovery(p, es[0]);
      EpisodeStep(p, es, generation);
      EscalationStep(p, es[0]);
      FailuresSpendBudget(Step(p, es[0]), es[1..], generation);
    }
  }

  lemma EpisodeStep(p: Protocol, es: seq<Event>, generation: nat)
    requires es != [] && OneEpisode(p, es, generation)
    ensures p.slot.state == Error && p.slot.rt.recoveryGeneration == generation
    ensures Step(p, es[0]).slot.state == Error && Step(p, es[0]).slot.rt.recoveryGeneration == generation
    ensures OneEpisode(Step(p, es[0]), es[1..], generation)
  {
    var q := Step(p, es[0]);
    assert OneEpisode(q, es[1..], generation);
  }

  lemma EscalationStep(p: Protocol, e: Event)
    requires RecoveryInv(p) && p.slot.state == Error
    requires Step(p, e).slot.state == Error
    requires Step(p, e).slot.rt.recoveryGeneration == p.slot.rt.recoveryGeneration
    ensures (if LightFailure(p, e) then 1 else 0) + LightBudget(Step(p, e).slot.rt) <= LightBudget(p.slot.rt)
  {
    if e.Exec? {
      if p.queue != [] && !p.polling && p.present {
        ExecSpendsBudget(p.slot, p.queue[0], e.reply, e.now);
      }
    } else {
      OtherStepsSpendNothing(p, e);
    }
  }

  lemma OtherStepsSpendNothing(p: Protocol, e: Event)
    requires p.slot.state == Error && !e.Exec?
    ensures LightBudget(Step(p, e).slot.rt) == LightBudget(p.slot.rt)
  {
  }

  lemma ExecSpendsBudget(s: Slot, c: Command, reply: DriverReply, now: int)
    requires s.state == Error && (s.rt.restartPending ==> s.rt.restartAttempts >= 1)
    requires ExecOn(s, c, reply, now).rt.recoveryGeneration == s.rt.recoveryGeneration
    requires ExecOn(s, c, reply, now).state == Error
    ensures (if FailsLightly(s, c, reply) then 1 else 0) + LightBudget(ExecOn(s, c, reply, now).rt) <= LightBudget(s.rt)
  {
  }

  /** Within one episode at most two light attempts fail; from the second failure on a rebuild is required
      until the episode ends. */
  lemma EscalationBound(p: Protocol, es: seq<Event>, generation: nat)
    requires RecoveryInv(p) && OneEpisode(p, es, generation)
    ensures LightFailures(p, es) <= 2
    ensures LightFailures(p, es) == 2 ==> Run(p, es).slot.rt.requiresDeviceReopen
  {
    FailuresSpendBudget(p, es, generation);
  }

  // ---------------------------------------------------------------- a rebuild always fits the device's state

  /** A rebuild attempt, made from whatever state the device is in, succeeds exactly when the driver accepts
      every phase and STREAMON: no call is rejected for being made in the wrong state. */
  lemma RebuildSucceedsIffDriverAgrees(s: Slot, reply: DriverReply)
    requires s.rt.requiresDeviceReopen && s.bufferCount > 0
    ensures AttemptRestart(s, reply).1
       <==> reply.openOk && reply.configureOk && V.SetupAccepted(reply.setup) && reply.streamOn
  {
    V.RebuildNeedsOnlyTheDriver(s.source, s.bufferCount, reply.openOk, reply.configureOk, reply.setup);
    var (source, ready) := Rebuild(s, reply);
    if ready {
      V.QueueFromEffect(source.queued, 0, reply.refused);
    }
  }

  /** A light attempt succeeds exactly when the buffers are still set up and the driver takes every idle one. */
  lemma LightSucceedsIff(s: Slot, reply: DriverReply)
    requires !s.rt.requiresDeviceReopen
    ensures AttemptRestart(s, reply).1
       <==> s.source.st == V.BufferAllocated && reply.streamOn
            && forall i | 0 <= i < |s.source.queued| :: s.source.queued[i] || i !in reply.refused
  {
    V.QueueFromEffect(s.source.queued, 0, reply.refused);
  }
}
