/** Concrete runs of a camera with one buffer in which conservation fails: a hazardous start gives the driver a buffer
    that a sink still reads, and a stranding start loses the only buffer. */
module CameraCounterexamples {
  import opened Options
  import V = V4L2CameraSource
  import opened CameraProtocol
  import opened CameraSafety
  import opened CameraConservation
  import opened CameraTheorems
  import opened CameraRecovery
  import opened CameraAccounting
  import opened CameraCompletion

  /** The run leads from p to q without a hazardous start. */
  ghost predicate Reaches(p: Protocol, es: seq<Event>, q: Protocol) {
    Run(p, es) == q && HazardFree(p, es)
  }

  lemma {:induction false} ReachesOn(p: Protocol, es: seq<Event>, q: Protocol, fs: seq<Event>, r: Protocol)
    requires Reaches(p, es, q) && Reaches(q, fs, r)
    ensures Reaches(p, es + fs, r)
    decreases |es|
  {
    if es == [] {
      assert es + fs == fs;
    } else {
      assert (es + fs)[1..] == es[1..] + fs;
      ReachesOn(Step(p, es[0]), es[1..], q, fs, r);
    }
  }

  lemma ReachesInFour(p: Protocol, a: Event, b: Event, c: Event, d: Event, p1: Protocol, p2: Protocol, p3: Protocol,
                      p4: Protocol)
    requires Step(p, a) == p1 && Step(p1, b) == p2 && Step(p2, c) == p3 && Step(p3, d) == p4
    requires (a.Exec? ==> !Hazard(p)) && (b.Exec? ==> !Hazard(p1)) && (c.Exec? ==> !Hazard(p2))
             && (d.Exec? ==> !Hazard(p3))
    ensures Reaches(p, [a, b, c, d], p4)
  {
    assert [a, b, c, d][1..] == [b, c, d];
    assert [b, c, d][1..] == [c, d];
    assert [c, d][1..] == [d];
    RunSingle(p3, d);
    assert Run(p2, [c, d]) == p4;
    assert HazardFree(p3, [d]);
    assert HazardFree(p2, [c, d]);
    assert HazardFree(p1, [b, c, d]);
  }

  function OneBufferCamera(): (p: Protocol)
    ensures Initial(p)
  {
    At(Ready, V.Source(V.BufferAllocated, [true]), Runtime(0, 1, 0, 0, false, false, false, false, false, 0),
       multiset{}, false)
  }

  function At(state: CameraState, source: V.Source, rt: Runtime, live: multiset<Lease>, polling: bool): Protocol {
    Protocol(true, Slot(state, 1, source, rt), [], multiset{}, live, [], polling, None)
  }

  function StreamingRuntime(recovery: nat, lease: nat, inFlight: nat): Runtime {
    Runtime(recovery, lease, 0, inFlight, false, false, false, false, false, 0)
  }

  /** A command takes three steps: requested, pushed, executed. */
  lemma CommandRun(p: Protocol, e: Event, c: Command, reply: DriverReply, now: int)
    requires p.queue == [] && p.posting == multiset{} && !p.polling && p.present
    requires Step(p, e).posting == multiset{c} && Step(p, e).queue == [] && !Step(p, e).polling && Step(p, e).present
    requires !c.DeleteCamera?
    ensures var q := Step(p, e);
            Run(p, [e, Post(c), Exec(reply, now)]) == q.(posting := multiset{}, slot := ExecOn(q.slot, c, reply, now))
  {
    RunThree(p, e, Post(c), Exec(reply, now));
    var q := Step(p, e);
    var q1 := q.(queue := [c], posting := multiset{});
    PostedAlone(q, c);
    assert q1.queue[1..] == [];
  }

  lemma PostedAlone(p: Protocol, c: Command)
    requires p.posting == multiset{c} && p.queue == []
    ensures Step(p, Post(c)) == p.(queue := [c], posting := multiset{})
  {
    assert [] + [c] == [c];
  }

  const START_RUN: seq<Event> := [UserStart, Post(StartCamera), Exec(WILLING, 0)]
  const FRAME_RUN: seq<Event> := [Snapshot, Dequeue(0), MakeLease, EndPoll]
  const FAIL_RUN: seq<Event> := [UserRecover(false), Post(ProcessError(1)), Exec(WILLING, 0)]

  /** Start, hand one frame downstream, fail, process the failure, then a user start. */
  function HazardRun(): seq<Event> {
    START_RUN + (FRAME_RUN + (FAIL_RUN + START_RUN))
  }

  lemma StartPhase()
    ensures Run(OneBufferCamera(), START_RUN)
         == At(Streaming, V.Source(V.Streaming, [true]), StreamingRuntime(0, 2, 0), multiset{}, false)
  {
    CommandRun(OneBufferCamera(), UserStart, StartCamera, WILLING, 0);
  }

  const RUNNING: Protocol := At(Streaming, V.Source(V.Streaming, [true]), StreamingRuntime(0, 2, 0), multiset{}, false)

  /** The poll thread holds the only buffer, then a sink does. */
  const HOLDING: Protocol :=
    At(Streaming, V.Source(V.Streaming, [false]), StreamingRuntime(0, 2, 0), multiset{}, true).(holding := Some(0))

  const LEASED: Protocol :=
    At(Streaming, V.Source(V.Streaming, [false]), StreamingRuntime(0, 2, 1), multiset{Lease(0, 2)}, true)

  /** One frame goes from the driver to a sink. */
  lemma FramePhase()
    ensures Run(RUNNING, FRAME_RUN) == LEASED.(polling := false)
  {
    assert [true][0 := false] == [false];
    assert Step(RUNNING, Snapshot) == RUNNING.(polling := true);
    assert Step(RUNNING.(polling := true), Dequeue(0)) == HOLDING;
    assert Step(HOLDING, MakeLease) == LEASED;
    ReachesInFour(RUNNING, Snapshot, Dequeue(0), MakeLease, EndPoll, RUNNING.(polling := true), HOLDING, LEASED,
                  LEASED.(polling := false));
  }

  const FAILED_RUNTIME: Runtime := Runtime(1, 2, 1, 1, false, false, true, false, false, 0)

  lemma FailPhase()
    ensures Run(At(Streaming, V.Source(V.Streaming, [false]), StreamingRuntime(0, 2, 1), multiset{Lease(0, 2)}, false),
                FAIL_RUN)
         == At(Error, V.Source(V.BufferAllocated, [false]), FAILED_RUNTIME, multiset{Lease(0, 2)}, false)
  {
    var p := At(Streaming, V.Source(V.Streaming, [false]), StreamingRuntime(0, 2, 1), multiset{Lease(0, 2)}, false);
    CommandRun(p, UserRecover(false), ProcessError(1), WILLING, 0);
    assert V.Idle(1) == [false];
  }

  lemma RestartPhase()
    ensures Run(At(Error, V.Source(V.BufferAllocated, [false]), FAILED_RUNTIME, multiset{Lease(0, 2)}, false),
                START_RUN)
         == At(Streaming, V.Source(V.Streaming, [true]), StreamingRuntime(1, 3, 1), multiset{Lease(0, 2)}, false)
  {
    var p := At(Error, V.Source(V.BufferAllocated, [false]), FAILED_RUNTIME, multiset{Lease(0, 2)}, false);
    CommandRun(p, UserStart, StartCamera, WILLING, 0);
    assert [false][0 := true] == [true];
  }

  /** A run from a freshly added camera in which the driver owns a buffer that a live lease still reads. */
  lemma HazardIsReachable()
    ensures Run(OneBufferCamera(), HazardRun())
         == At(Streaming, V.Source(V.Streaming, [true]), StreamingRuntime(1, 3, 1), multiset{Lease(0, 2)}, false)
  {
    var p := OneBufferCamera();
    RunConcat(p, START_RUN, FRAME_RUN + (FAIL_RUN + START_RUN));
    StartPhase();
    var p1 := Run(p, START_RUN);
    RunConcat(p1, FRAME_RUN, FAIL_RUN + START_RUN);
    FramePhase();
    RunConcat(Run(p1, FRAME_RUN), FAIL_RUN, START_RUN);
    FailPhase();
    RestartPhase();
  }

  lemma RunThree(p: Protocol, a: Event, b: Event, c: Event)
    ensures Run(p, [a, b, c]) == Step(Step(Step(p, a), b), c)
  {
    assert [a, b, c][1..] == [b, c];
    assert [b, c][1..] == [c];
    assert Run(Step(Step(p, a), b), [c]) == Step(Step(Step(p, a), b), c);
  }

  /** The sink drops a frame of an older generation: it leaves the queues but stays counted. */
  lemma StaleReturn(p: Protocol, l: Lease)
    requires p.present && p.live == multiset{l} && p.returned == []
    requires 0 < l.generation < p.slot.rt.leaseGeneration
    ensures Run(p, [DropLease(l), Drain(true), EndPoll])
         == Step(p.(live := multiset{}), EndPoll)
  {
    RunThree(p, DropLease(l), Drain(true), EndPoll);
    var q1 := Step(p, DropLease(l));
    assert q1 == p.(live := multiset{}, returned := [l]);
    assert q1.returned[1..] == [];
    assert Step(q1, Drain(true)) == p.(live := multiset{});
  }

  /** The state the hazardous run ends in is that trap, as soon as the sink drops its frame. */
  lemma HazardLeavesExcess(p: Protocol, l: Lease)
    requires p == At(Streaming, V.Source(V.Streaming, [true]), StreamingRuntime(1, 3, 1), multiset{l}, false)
    requires l == Lease(0, 2)
    ensures var q := Run(p, [DropLease(l), Drain(true), EndPoll]);
            q.present && Excess(q) == 1
  {
    StaleReturn(p, l);
  }

  /** The camera of the hazardous run fails while the sink still holds its frame. */
  const HELD_UP: Protocol :=
    At(Error, V.Source(V.Streaming, [true]), StreamingRuntime(2, 3, 1), multiset{Lease(0, 2)}, false)
    .(posting := multiset{ProcessError(2)})

  lemma HeldUpIsReachable()
    ensures Run(OneBufferCamera(), HazardRun() + [UserRecover(false)]) == HELD_UP
  {
    HazardIsReachable();
    RunConcat(OneBufferCamera(), HazardRun(), [UserRecover(false)]);
    RunSingle(Run(OneBufferCamera(), HazardRun()), UserRecover(false));
  }

  lemma HeldUpCounts()
    ensures Excess(HELD_UP) == 0 && Out(HELD_UP) == 0 < HELD_UP.slot.rt.inFlightFrames && LeftAlone(HELD_UP)
  {
    assert OfGeneration(HELD_UP.live + multiset(HELD_UP.returned), 3) == multiset{};
  }

  /** Nothing is miscounted there, and still recovery cannot complete: the frame that is out is of an older generation,
      and its return will not be counted. */
  lemma HeldStaleFrameBlocksRecovery()
    ensures Run(OneBufferCamera(), HazardRun() + [UserRecover(false)]) == HELD_UP && Excess(HELD_UP) == 0
    ensures !exists fs :: NoRequests(fs) && Over(Run(HELD_UP, fs), true)
  {
    HeldUpIsReachable();
    HeldUpCounts();
    RecoveryCanCompleteIff(OneBufferCamera(), HazardRun() + [UserRecover(false)]);
  }

  // ---------------------------------------------------------------- a buffer is lost

  /** The camera starts, and a second start is requested. */
  const FIRST_FOUR: seq<Event> := START_RUN + [UserStart]
  /** That start is queued; a frame is dequeued and handed to a sink. */
  const NEXT_FOUR: seq<Event> := [Post(StartCamera), Snapshot, Dequeue(0), MakeLease]
  /** The sink refuses the frame: the camera fails, the frame comes back and is parked. */
  const REFUSAL: seq<Event> := [Fault(false), DropLease(Lease(0, 2)), Drain(true), EndPoll]
  /** The queued start resumes the camera, and the pending ProcessError has become stale. */
  const RESUMPTION: seq<Event> := [Post(ProcessError(1)), Exec(WILLING, 0), Exec(WILLING, 0), Snapshot]

  const REQUESTED: Protocol := RUNNING.(posting := multiset{StartCamera})

  /** A frame is out while a start waits in the queue. */
  const LENT: Protocol :=
    At(Streaming, V.Source(V.Streaming, [false]), StreamingRuntime(0, 2, 1), multiset{Lease(0, 2)}, true)
    .(queue := [StartCamera])

  const REFUSED: Protocol :=
    At(Error, V.Source(V.Streaming, [false]), StreamingRuntime(1, 2, 0), multiset{}, false)
    .(queue := [StartCamera], posting := multiset{ProcessError(1)})

  /** Streaming, without a buffer, without a frame out and with nothing left to do. */
  const STRANDED: Protocol := At(Streaming, V.Source(V.Streaming, [false]), StreamingRuntime(2, 2, 0), multiset{}, true)

  lemma RequestPhase()
    ensures Reaches(OneBufferCamera(), FIRST_FOUR, REQUESTED)
  {
    var p := OneBufferCamera();
    var p1 := p.(posting := multiset{StartCamera});
    var p2 := p.(queue := [StartCamera]);
    assert [true][..] == [true] && V.QueueFrom([true], 0, {}) == ([true], true);
    assert FIRST_FOUR == [UserStart, Post(StartCamera), Exec(WILLING, 0), UserStart];
    assert Step(p2, Exec(WILLING, 0)) == RUNNING;
    ReachesInFour(p, UserStart, Post(StartCamera), Exec(WILLING, 0), UserStart, p1, p2, RUNNING, REQUESTED);
  }

  lemma LendPhase()
    ensures Reaches(REQUESTED, NEXT_FOUR, LENT)
  {
    var p1 := RUNNING.(queue := [StartCamera]);
    var p2 := p1.(polling := true);
    var p3 := At(Streaming, V.Source(V.Streaming, [false]), StreamingRuntime(0, 2, 0), multiset{}, true)
              .(queue := [StartCamera], holding := Some(0));
    assert [true][0 := false] == [false];
    assert Step(p2, Dequeue(0)) == p3;
    ReachesInFour(REQUESTED, Post(StartCamera), Snapshot, Dequeue(0), MakeLease, p1, p2, p3, LENT);
  }

  lemma RefusalPhase()
    ensures Reaches(LENT, REFUSAL, REFUSED)
  {
    var failed := At(Error, V.Source(V.Streaming, [false]), StreamingRuntime(1, 2, 1), multiset{Lease(0, 2)}, true)
                  .(queue := [StartCamera], posting := multiset{ProcessError(1)});
    var dropped := failed.(live := multiset{}, returned := [Lease(0, 2)]);
    var drained := REFUSED.(polling := true);
    assert Step(LENT, Fault(false)) == failed;
    assert Step(failed, DropLease(Lease(0, 2))) == dropped;
    assert Step(dropped, Drain(true)) == drained;
    ReachesInFour(LENT, Fault(false), DropLease(Lease(0, 2)), Drain(true), EndPoll, failed, dropped, drained, REFUSED);
  }

  lemma ResumptionPhase()
    ensures Reaches(REFUSED, RESUMPTION, STRANDED) && Stranding(REFUSED)
  {
    var p1 := REFUSED.(queue := [StartCamera, ProcessError(1)], posting := multiset{});
    var p2 := STRANDED.(queue := [ProcessError(1)], polling := false);
    var p3 := STRANDED.(polling := false);
    assert Step(REFUSED, Post(ProcessError(1))) == p1;
    assert p1.queue[1..] == [ProcessError(1)];
    assert Step(p1, Exec(WILLING, 0)) == p2;
    ReachesInFour(REFUSED, Post(ProcessError(1)), Exec(WILLING, 0), Exec(WILLING, 0), Snapshot, p1, p2, p3, STRANDED);
    assert Holders(REFUSED, 0) == 0;
  }

  /** A run from a freshly added camera, without a hazardous start, after which the camera streams but has lost its
      only buffer. The start arrives behind the poll thread's drain of commands and before the refused frame is dealt
      with. */
  lemma LossIsReachable()
    ensures Reaches(OneBufferCamera(), FIRST_FOUR + (NEXT_FOUR + (REFUSAL + RESUMPTION)), STRANDED)
    ensures STRANDED.slot.state == Streaming && STRANDED.slot.source.st == V.Streaming && Holders(STRANDED, 0) == 0
    ensures STRANDED.queue == [] && STRANDED.posting == multiset{} && STRANDED.live == multiset{}
            && STRANDED.returned == []
  {
    RequestPhase();
    LendPhase();
    RefusalPhase();
    ResumptionPhase();
    ReachesOn(LENT, REFUSAL, REFUSED, RESUMPTION, STRANDED);
    ReachesOn(REQUESTED, NEXT_FOUR, LENT, REFUSAL + RESUMPTION, STRANDED);
    ReachesOn(OneBufferCamera(), FIRST_FOUR, REQUESTED, NEXT_FOUR + (REFUSAL + RESUMPTION), STRANDED);
  }
}
