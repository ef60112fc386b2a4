/** When recovery can be completed: from a failed state that any run can reach, there is a continuation made only of
    poll-thread steps, returned frames and a willing driver that ends the failure, if and only if every frame that is
    counted is out under the current lease generation. */
module CameraCompletion {
  import opened Options
  import V = V4L2CameraSource
  import opened CameraProtocol
  import opened CameraSafety
  import opened CameraRecovery
  import opened CameraAccounting

  /** Every frame that is counted can come back and be uncounted. */
  ghost predicate Recoverable(p: Protocol) {
    Uncountable(p) == 0
  }

  ghost predicate Healthy(p: Protocol) {
    Inv(p) && RecoveryInv(p) && Recoverable(p)
  }

  ghost predicate Failed(p: Protocol) {
    Healthy(p) && p.present && p.slot.state == Error
  }

  /** No pending command stops or removes the camera. */
  predicate NothingToStop(p: Protocol) {
    StopCamera !in Pending(p) && DeleteCamera !in Pending(p)
  }

  /** The failure has ended; `streams` says that it ended in streaming. */
  predicate Over(p: Protocol, streams: bool) {
    if streams then p.present && p.slot.state == Streaming && p.slot.source.st == V.Streaming
    else !p.present || p.slot.state == Streaming || p.slot.state == Stopped
  }

  /** Only the poll thread, the device and the frame holders act. */
  predicate NoRequests(es: seq<Event>) {
    forall e | e in es :: !UserRequest(e) && !e.Fault?
  }

  /** Failed or stopped: no step but an executed command or a request changes that. */
  ghost predicate Down(p: Protocol) {
    Healthy(p) && p.present && (p.slot.state == Error || p.slot.state == Stopped)
  }

  /** What bringing the frames home does not touch. */
  datatype Standing = Standing(state: CameraState, startPending: bool, startQueued: bool, pending: multiset<Command>)

  function StandingOf(p: Protocol): Standing {
    Standing(p.slot.state, p.slot.rt.startPending, p.slot.rt.startQueued, Pending(p))
  }

  ghost predicate Settled(p: Protocol) {
    Down(p) && !p.polling && p.holding == None
  }

  ghost predicate Quiet(p: Protocol) {
    Settled(p) && p.live == multiset{} && p.returned == [] && p.slot.rt.inFlightFrames == 0
  }

  lemma StepKeepsHealthy(p: Protocol, e: Event)
    requires Down(p) && Step(p, e).slot.state != Streaming
    ensures Healthy(Step(p, e))
  {
    StepKeepsInv(p, e);
    StepKeepsRecovery(p, e);
    DownStepKeepsUncountable(p, e);
  }

  lemma RunOne(p: Protocol, e: Event, rest: seq<Event>)
    ensures Run(p, [e] + rest) == Run(Step(p, e), rest)
    ensures NoRequests(rest) && !UserRequest(e) && !e.Fault? ==> NoRequests([e] + rest)
  {
    RunFirst(p, e, rest);
  }

  lemma FinishHolding(p: Protocol)
    requires Down(p)
    ensures var q := Step(p, MakeLease);
            Down(q) && q.holding == None && StandingOf(q) == StandingOf(p)
  {
    StepKeepsHealthy(p, MakeLease);
  }

  lemma FinishPolling(p: Protocol)
    requires Down(p) && p.holding == None
    ensures Settled(Step(p, EndPoll)) && StandingOf(Step(p, EndPoll)) == StandingOf(p)
  {
    StepKeepsHealthy(p, EndPoll);
  }

  lemma Settle(p: Protocol) returns (es: seq<Event>)
    requires Down(p)
    ensures NoRequests(es) && Settled(Run(p, es))
    ensures StandingOf(Run(p, es)) == StandingOf(p)
  {
    SettlingRun(p);
    es := SETTLING;
    FinishHolding(p);
    FinishPolling(Step(p, MakeLease));
  }

  const SETTLING: seq<Event> := [MakeLease] + [EndPoll]

  lemma SettlingRun(p: Protocol)
    ensures NoRequests(SETTLING) && Run(p, SETTLING) == Step(Step(p, MakeLease), EndPoll)
  {
    RunFirst(p, MakeLease, [EndPoll]);
    RunSingle(Step(p, MakeLease), EndPoll);
  }

  /** Steps taken one after another as long as there is a next one. Each keeps `keep` and comes closer to the end. */
  lemma {:induction false} Repeat(p: Protocol, keep: Protocol -> bool, next: Protocol -> Option<Event>,
                                  distance: Protocol -> nat)
    returns (es: seq<Event>)
    requires keep(p)
    requires forall q | keep(q) && next(q).Some? ::
               var r := Step(q, next(q).value);
               keep(r) && distance(r) < distance(q) && !UserRequest(next(q).value) && !next(q).value.Fault?
    ensures NoRequests(es) && keep(Run(p, es)) && next(Run(p, es)) == None
    decreases distance(p)
  {
    if next(p) == None {
      es := [];
    } else {
      var e := next(p).value;
      var rest := Repeat(Step(p, e), keep, next, distance);
      es := [e] + rest;
      RunOne(p, e, rest);
    }
  }

  ghost function SomeDrop(p: Protocol): Option<Event> {
    if p.live == multiset{} then None
    else
      var l :| l in p.live;
      Some(DropLease(l))
  }

  lemma DropOne(p: Protocol, l: Lease)
    requires Settled(p) && l in p.live
    ensures var q := Step(p, DropLease(l));
            Settled(q) && |q.live| < |p.live| && StandingOf(q) == StandingOf(p)
  {
    StepKeepsHealthy(p, DropLease(l));
    assert |p.live - multiset{l}| == |p.live| - 1;
  }

  ghost predicate SettledOwing(p: Protocol, standing: Standing) {
    Settled(p) && StandingOf(p) == standing
  }

  lemma NextDrop(p: Protocol, standing: Standing)
    requires SettledOwing(p, standing) && SomeDrop(p).Some?
    ensures var e := SomeDrop(p).value;
            SettledOwing(Step(p, e), standing) && |Step(p, e).live| < |p.live| && !UserRequest(e) && !e.Fault?
  {
    DropOne(p, SomeDrop(p).value.l);
  }

  lemma DropAll(p: Protocol) returns (es: seq<Event>)
    requires Settled(p)
    ensures NoRequests(es) && Settled(Run(p, es)) && Run(p, es).live == multiset{}
    ensures StandingOf(Run(p, es)) == StandingOf(p)
  {
    var standing := StandingOf(p);
    forall q | SettledOwing(q, standing) && SomeDrop(q).Some?
      ensures var e := SomeDrop(q).value;
              SettledOwing(Step(q, e), standing) && |Step(q, e).live| < |q.live| && !UserRequest(e) && !e.Fault?
    {
      NextDrop(q, standing);
    }
    es := Repeat(p, (q: Protocol) => SettledOwing(q, standing), (q: Protocol) => SomeDrop(q),
                 (q: Protocol) => |q.live|);
  }

  lemma DrainOne(p: Protocol)
    requires Settled(p) && p.live == multiset{} && p.returned != []
    ensures var q := Step(p, Drain(true));
            Settled(q) && q.live == multiset{} && q.returned == p.returned[1..] && StandingOf(q) == StandingOf(p)
  {
    StepKeepsHealthy(p, Drain(true));
    DrainedSlot(p.slot, p.returned[0], true);
  }

  lemma NothingOutIsQuiet(p: Protocol)
    requires Settled(p) && p.live == multiset{} && p.returned == []
    ensures Quiet(p)
  {
    assert p.live + multiset(p.returned) == multiset{};
  }

  function SomeDrain(p: Protocol): Option<Event> {
    if p.returned == [] then None else Some(Drain(true))
  }

  ghost predicate ReturnedOwing(p: Protocol, standing: Standing) {
    SettledOwing(p, standing) && p.live == multiset{}
  }

  lemma NextDrain(p: Protocol, standing: Standing)
    requires ReturnedOwing(p, standing) && SomeDrain(p).Some?
    ensures var e := SomeDrain(p).value;
            ReturnedOwing(Step(p, e), standing) && |Step(p, e).returned| < |p.returned| && !UserRequest(e) && !e.Fault?
  {
    DrainOne(p);
  }

  lemma DrainToTheEnd(p: Protocol, standing: Standing) returns (es: seq<Event>)
    requires ReturnedOwing(p, standing)
    ensures NoRequests(es) && ReturnedOwing(Run(p, es), standing) && SomeDrain(Run(p, es)) == None
  {
    forall q | ReturnedOwing(q, standing) && SomeDrain(q).Some?
      ensures var e := SomeDrain(q).value;
              ReturnedOwing(Step(q, e), standing) && |Step(q, e).returned| < |q.returned|
              && !UserRequest(e) && !e.Fault?
    {
      NextDrain(q, standing);
    }
    es := Repeat(p, (q: Protocol) => ReturnedOwing(q, standing), (q: Protocol) => SomeDrain(q),
                 (q: Protocol) => |q.returned|);
  }

  lemma DrainAll(p: Protocol) returns (es: seq<Event>)
    requires Settled(p) && p.live == multiset{}
    ensures NoRequests(es) && Quiet(Run(p, es)) && StandingOf(Run(p, es)) == StandingOf(p)
  {
    es := DrainToTheEnd(p, StandingOf(p));
    NothingOutIsQuiet(Run(p, es));
  }

  ghost function SomePost(p: Protocol): Option<Event> {
    if p.posting == multiset{} then None
    else
      var c :| c in p.posting;
      Some(Post(c))
  }

  lemma PostOne(p: Protocol, c: Command)
    requires Quiet(p) && c in p.posting
    ensures var q := Step(p, Post(c));
            Quiet(q) && q.posting == p.posting - multiset{c} && StandingOf(q) == StandingOf(p)
  {
    StepKeepsHealthy(p, Post(c));
    PostedIsPending(p, c);
  }

  ghost predicate QuietOwing(p: Protocol, standing: Standing) {
    Quiet(p) && StandingOf(p) == standing
  }

  lemma NextPost(p: Protocol, standing: Standing)
    requires QuietOwing(p, standing) && SomePost(p).Some?
    ensures var e := SomePost(p).value;
            QuietOwing(Step(p, e), standing) && |Step(p, e).posting| < |p.posting| && !UserRequest(e) && !e.Fault?
  {
    var c := SomePost(p).value.c;
    PostOne(p, c);
    assert |p.posting - multiset{c}| == |p.posting| - 1;
  }

  lemma PostAll(p: Protocol) returns (es: seq<Event>)
    requires Quiet(p)
    ensures NoRequests(es) && Quiet(Run(p, es)) && Run(p, es).posting == multiset{}
    ensures StandingOf(Run(p, es)) == StandingOf(p)
  {
    var standing := StandingOf(p);
    forall q | QuietOwing(q, standing) && SomePost(q).Some?
      ensures var e := SomePost(q).value;
              QuietOwing(Step(q, e), standing) && |Step(q, e).posting| < |q.posting| && !UserRequest(e) && !e.Fault?
    {
      NextPost(q, standing);
    }
    es := Repeat(p, (q: Protocol) => QuietOwing(q, standing), (q: Protocol) => SomePost(q),
                 (q: Protocol) => |q.posting|);
  }

  /** What is left of the pending commands, none of which has ended the failure so far. */
  ghost predicate Executing(p: Protocol, streams: bool) {
    Quiet(p) && p.slot.state == Error && p.posting == multiset{} && (streams ==> NothingToStop(p))
  }

  /** A command that ends a failure ends it in Streaming or Stopped. */
  lemma ExecOutcome(s: Slot, c: Command)
    requires s.state == Error && SlotModes(s)
    ensures var t := ExecOn(s, c, WILLING, 0);
            t.rt.inFlightFrames == s.rt.inFlightFrames
            && (t.state == Error || (t.state == Streaming && t.source.st == V.Streaming)
                || (t.state == Stopped && c == StopCamera))
  {
    RestartShape(s, WILLING);
  }

  /** One pending command ends the failure or is gone without adding another. */
  lemma ExecOne(p: Protocol, streams: bool)
    requires Executing(p, streams) && p.queue != []
    ensures var q := Step(p, Exec(WILLING, 0));
            q.queue == p.queue[1..] && (Executing(q, streams) || (!Failed(q) && Over(q, streams)))
  {
    var q := Step(p, Exec(WILLING, 0));
    PopCommand(p);
    ExecOutcome(p.slot, p.queue[0]);
    assert streams ==> p.queue[0] in Pending(p);
    if q.present && q.slot.state == Error {
      QuietExec(p);
    }
  }

  lemma QuietExec(p: Protocol)
    requires Quiet(p) && p.slot.state == Error
    requires Step(p, Exec(WILLING, 0)).present && Step(p, Exec(WILLING, 0)).slot.state == Error
    ensures Quiet(Step(p, Exec(WILLING, 0)))
  {
    StepKeepsHealthy(p, Exec(WILLING, 0));
    if p.queue != [] {
      ExecOutcome(p.slot, p.queue[0]);
    }
  }

  ghost predicate ExecutingOrOver(p: Protocol, streams: bool) {
    Executing(p, streams) || (!Failed(p) && Over(p, streams))
  }

  ghost function SomeExec(p: Protocol): Option<Event> {
    if Failed(p) && p.queue != [] then Some(Exec(WILLING, 0)) else None
  }

  lemma NextExec(p: Protocol, streams: bool)
    requires ExecutingOrOver(p, streams) && SomeExec(p).Some?
    ensures var e := SomeExec(p).value;
            ExecutingOrOver(Step(p, e), streams) && |Step(p, e).queue| < |p.queue| && !UserRequest(e) && !e.Fault?
  {
    ExecOne(p, streams);
  }

  /** Executing the pending commands either ends the failure or leaves only the wait for back-off. */
  lemma ExecAll(p: Protocol, streams: bool) returns (es: seq<Event>)
    requires Executing(p, streams)
    ensures NoRequests(es)
    ensures Over(Run(p, es), streams) || (Executing(Run(p, es), streams) && Run(p, es).queue == [])
  {
    forall q | ExecutingOrOver(q, streams) && SomeExec(q).Some?
      ensures var e := SomeExec(q).value;
              ExecutingOrOver(Step(q, e), streams) && |Step(q, e).queue| < |q.queue| && !UserRequest(e) && !e.Fault?
    {
      NextExec(q, streams);
    }
    es := Repeat(p, (q: Protocol) => ExecutingOrOver(q, streams), (q: Protocol) => SomeExec(q),
                 (q: Protocol) => |q.queue|);
  }

  /** Nothing is pending, and the back-off is all that is waited for. */
  ghost predicate Waiting(p: Protocol) {
    Quiet(p) && p.slot.state == Error && p.queue == [] && p.posting == multiset{}
  }

  /** With nothing pending, the poll thread posts exactly the restart it owes. */
  lemma RestartIsPosted(p: Protocol)
    requires Waiting(p)
    ensures p.slot.rt.restartPending && p.slot.rt.restartAttempts >= 1
    ensures Step(p, Check(p.slot.rt.nextRestartTime))
         == p.(slot := p.slot.(rt := p.slot.rt.(restartQueued := true)),
               posting := multiset{RestartCamera(p.slot.rt.recoveryGeneration)})
    ensures Quiet(Step(p, Check(p.slot.rt.nextRestartTime)))
  {
    CheckPosts(p);
    StepKeepsHealthy(p, Check(p.slot.rt.nextRestartTime));
  }

  lemma CheckPosts(p: Protocol)
    requires RecoveryInv(p) && p.present && !p.polling && p.slot.state == Error && p.slot.rt.inFlightFrames == 0
    requires p.queue == [] && p.posting == multiset{}
    ensures p.slot.rt.restartPending && p.slot.rt.restartAttempts >= 1
    ensures Step(p, Check(p.slot.rt.nextRestartTime))
         == p.(slot := p.slot.(rt := p.slot.rt.(restartQueued := true)),
               posting := multiset{RestartCamera(p.slot.rt.recoveryGeneration)})
  {
    assert Owes(p, WaitForFrames);
  }

  lemma RestartIsQueued(p: Protocol, c: Command)
    requires Quiet(p) && p.queue == [] && p.posting == multiset{c}
    ensures Step(p, Post(c)) == p.(queue := [c], posting := multiset{})
    ensures Quiet(Step(p, Post(c)))
  {
    StepKeepsHealthy(p, Post(c));
  }

  /** Executing it streams, or leaves the camera failed with nothing pending and one light attempt fewer. */
  lemma RestartIsExecuted(p: Protocol, now: int)
    requires Quiet(p) && p.slot.state == Error && p.posting == multiset{}
    requires p.queue == [RestartCamera(p.slot.rt.recoveryGeneration)]
    requires p.slot.rt.restartPending && p.slot.rt.restartAttempts >= 1
    ensures var q := Step(p, Exec(WILLING, now));
            Over(q, true) || (Waiting(q) && LightBudget(q.slot.rt) < LightBudget(p.slot.rt))
  {
    AttemptOutcome(p.slot, now);
    ExecutedRestart(p, now);
    if Step(p, Exec(WILLING, now)).slot.state == Error {
      StepKeepsHealthy(p, Exec(WILLING, now));
    }
  }

  lemma ExecutedRestart(p: Protocol, now: int)
    requires p.present && !p.polling && p.queue == [RestartCamera(p.slot.rt.recoveryGeneration)]
    ensures Step(p, Exec(WILLING, now)) == p.(queue := [], slot := ExecOn(p.slot, p.queue[0], WILLING, now))
  {
    assert p.queue[1..] == [];
  }

  lemma AttemptOutcome(s: Slot, now: int)
    requires s.state == Error && s.rt.restartPending && s.rt.inFlightFrames == 0 && s.bufferCount > 0
    requires s.rt.restartAttempts >= 1
    ensures var t := ExecOn(s, RestartCamera(s.rt.recoveryGeneration), WILLING, now);
            (t.state == Streaming && t.source.st == V.Streaming)
            || (t.state == Error && t.rt.inFlightFrames == 0 && LightBudget(t.rt) < LightBudget(s.rt))
  {
    if s.rt.requiresDeviceReopen {
      RebuildSucceedsIffDriverAgrees(s, WILLING);
    } else {
      LightSucceedsIff(s, WILLING);
    }
  }

  /** One attempt: posted, queued, executed. */
  function Attempt(p: Protocol): seq<Event> {
    [Check(p.slot.rt.nextRestartTime), Post(RestartCamera(p.slot.rt.recoveryGeneration)),
     Exec(WILLING, p.slot.rt.nextRestartTime)]
  }

  lemma AttemptIsARun(p: Protocol)
    ensures NoRequests(Attempt(p))
    ensures Run(p, Attempt(p)) == Step(Step(Step(p, Attempt(p)[0]), Attempt(p)[1]), Attempt(p)[2])
  {
    var es := Attempt(p);
    assert es[1..] == [es[1]] + [es[2]] && es == [es[0]] + ([es[1]] + [es[2]]);
    RunFirst(p, es[0], [es[1]] + [es[2]]);
    RunFirst(Step(p, es[0]), es[1], [es[2]]);
    RunSingle(Step(Step(p, es[0]), es[1]), es[2]);
  }

  lemma AttemptOnce(p: Protocol)
    requires Waiting(p)
    ensures var q := Run(p, Attempt(p));
            Over(q, true) || (Waiting(q) && LightBudget(q.slot.rt) < LightBudget(p.slot.rt))
  {
    var c, now := RestartCamera(p.slot.rt.recoveryGeneration), p.slot.rt.nextRestartTime;
    AttemptIsARun(p);
    RestartIsPosted(p);
    RestartIsQueued(Step(p, Check(now)), c);
    RestartIsExecuted(Step(Step(p, Check(now)), Post(c)), now);
  }

  lemma JoinRuns(p: Protocol, es: seq<Event>, fs: seq<Event>)
    requires NoRequests(es) && NoRequests(fs)
    ensures NoRequests(es + fs) && Run(p, es + fs) == Run(Run(p, es), fs)
  {
    RunConcat(p, es, fs);
  }

  lemma {:induction false} AttemptUntilOver(p: Protocol) returns (es: seq<Event>)
    requires Waiting(p)
    ensures NoRequests(es) && Over(Run(p, es), true)
    decreases LightBudget(p.slot.rt)
  {
    var q := Run(p, Attempt(p));
    AttemptOnce(p);
    AttemptIsARun(p);
    if Over(q, true) {
      es := Attempt(p);
    } else {
      var rest := AttemptUntilOver(q);
      JoinRuns(p, Attempt(p), rest);
      es := Attempt(p) + rest;
    }
  }

  /** Every frame comes home and every announced command is pushed. */
  lemma BringHome(q: Protocol) returns (fs: seq<Event>)
    requires Down(q)
    ensures NoRequests(fs) && Quiet(Run(q, fs)) && Run(q, fs).posting == multiset{}
    ensures StandingOf(Run(q, fs)) == StandingOf(q)
  {
    var f1 := Settle(q);
    var q1 := Run(q, f1);
    var f2 := DropAll(q1);
    var q2 := Run(q1, f2);
    var f3 := DrainAll(q2);
    var q3 := Run(q2, f3);
    var f4 := PostAll(q3);
    fs := f1 + (f2 + (f3 + f4));
    RunConcat(q, f1, f2 + (f3 + f4));
    RunConcat(q1, f2, f3 + f4);
    RunConcat(q2, f3, f4);
  }

  lemma CompleteFrom(q: Protocol) returns (fs: seq<Event>)
    requires Failed(q)
    ensures NoRequests(fs) && Over(Run(q, fs), NothingToStop(q))
  {
    var f1 := BringHome(q);
    var q1 := Run(q, f1);
    var f2 := ExecAll(q1, NothingToStop(q));
    var q2 := Run(q1, f2);
    var f3 := [];
    if !Over(q2, NothingToStop(q)) {
      f3 := AttemptUntilOver(q2);
    }
    fs := f1 + (f2 + f3);
    RunConcat(q, f1, f2 + f3);
    RunConcat(q1, f2, f3);
  }

  /** Recovery is never stuck: after any hazard-free run that leaves the camera failed, some continuation without any
      further request ends the failure, and it ends in streaming unless a stop or a removal was already pending. */
  lemma RecoveryCanComplete(p: Protocol, es: seq<Event>) returns (fs: seq<Event>)
    requires Initial(p) && HazardFree(p, es)
    requires Run(p, es).present && Run(p, es).slot.state == Error
    ensures NoRequests(fs)
    ensures Over(Run(p, es + fs), NothingToStop(Run(p, es)))
  {
    InitialInv(p);
    RunKeepsInv(p, es);
    RunKeepsRecovery(p, es);
    ExactMeansOut(Run(p, es));
    fs := CompleteFrom(Run(p, es));
    RunConcat(p, es, fs);
  }

  // ---------------------------------------------------------------- and when it cannot

  /** No command of a user is pending that could end the failure by itself. */
  predicate LeftAlone(p: Protocol) {
    NothingToStop(p) && StartCamera !in Pending(p)
  }

  /** A failed camera, left alone, with a frame counted that can never be uncounted. */
  ghost predicate Stuck(p: Protocol) {
    Inv(p) && p.present && p.slot.state == Error && LeftAlone(p) && Uncountable(p) > 0
  }

  /** With frames counted, a pending recovery command does not end the failure. */
  lemma RecoveryCommandWaits(s: Slot, c: Command, reply: DriverReply, now: int)
    requires s.state == Error && s.rt.inFlightFrames > 0 && (c.ProcessError? || c.RestartCamera?)
    ensures ExecOn(s, c, reply, now).state == Error
  {
  }

  lemma StuckExec(p: Protocol, reply: DriverReply, now: int)
    requires Stuck(p)
    ensures var q := Step(p, Exec(reply, now));
            q.present && q.slot.state == Error && LeftAlone(q)
  {
    OutIsCounted(p);
    if p.queue != [] && !p.polling {
      PopCommand(p);
      assert p.queue[0] in Pending(p);
      RecoveryCommandWaits(p.slot, p.queue[0], reply, now);
    }
  }

  lemma StuckPost(p: Protocol, c: Command)
    requires Stuck(p)
    ensures var q := Step(p, Post(c));
            q.present && q.slot.state == Error && LeftAlone(q)
  {
    PostedIsPending(p, c);
  }

  lemma StuckCheck(p: Protocol, now: int)
    requires Stuck(p)
    ensures Step(p, Check(now)) == p
  {
    OutIsCounted(p);
  }

  lemma StuckDrain(p: Protocol, qbufOk: bool)
    requires Stuck(p)
    ensures var q := Step(p, Drain(qbufOk));
            q.present && q.slot.state == Error && Pending(q) == Pending(p)
  {
    if p.returned != [] {
      DrainedSlot(p.slot, p.returned[0], qbufOk);
    }
  }

  /** Frames and faults leave a failed camera as it is. */
  lemma StuckWaits(p: Protocol, e: Event)
    requires p.present && p.slot.state == Error
    requires e.DropLease? || e.MakeLease? || e.Dequeue? || e.Fault? || e.Snapshot? || e.EndPoll?
    ensures var q := Step(p, e);
            q.present && q.slot.state == Error && Pending(q) == Pending(p)
  {
  }

  lemma StuckStep(p: Protocol, e: Event)
    requires Stuck(p) && !UserRequest(e)
    ensures Stuck(Step(p, e))
  {
    match e {
      case Exec(reply, now) => StuckExec(p, reply, now);
      case Post(c) => StuckPost(p, c);
      case Check(now) => StuckCheck(p, now);
      case Drain(qbufOk) => StuckDrain(p, qbufOk);
      case _ => StuckWaits(p, e);
    }
    StepKeepsInv(p, e);
    DownStepKeepsUncountable(p, e);
  }

  lemma {:induction false} StuckForever(p: Protocol, es: seq<Event>)
    requires Stuck(p) && NoRequests(es)
    ensures Stuck(Run(p, es))
    decreases |es|
  {
    if es != [] {
      assert es[0] in es;
      assert forall e | e in es[1..] :: e in es;
      StuckStep(p, es[0]);
      StuckForever(Step(p, es[0]), es[1..]);
    }
  }

  /** The exact condition, over every run, hazardous or not: a failed camera with no user command pending can be brought
      back to streaming without a further request if and only if every frame that is counted is out under the current
      lease generation. */
  lemma RecoveryCanCompleteIff(p: Protocol, es: seq<Event>)
    requires Initial(p)
    requires Run(p, es).present && Run(p, es).slot.state == Error && LeftAlone(Run(p, es))
    ensures (exists fs :: NoRequests(fs) && Over(Run(Run(p, es), fs), true))
       <==> Run(p, es).slot.rt.inFlightFrames == Out(Run(p, es))
  {
    InitialInv(p);
    RunKeepsInv(p, es);
    RunKeepsRecovery(p, es);
    var q := Run(p, es);
    OutIsCounted(q);
    if q.slot.rt.inFlightFrames == Out(q) {
      var fs := CompleteFrom(q);
      assert NoRequests(fs) && Over(Run(q, fs), true);
    } else {
      forall fs | NoRequests(fs) ensures !Over(Run(q, fs), true) {
        StuckForever(q, fs);
      }
    }
  }
}
