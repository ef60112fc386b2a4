/** No buffer is lost: while the camera streams, each of its buffers is with the driver, with one holder of a frame or
    on its way back. This holds of every run in which no StartCamera resumes a failed camera that has parked a buffer,
    and an executed command can break it only by being such a start. */
module CameraConservation {
  import opened Options
  import V = V4L2CameraSource
  import opened CameraProtocol
  import opened CameraSafety

  /** While the camera streams, every buffer has exactly one holder. */
  ghost predicate Whole(p: Protocol) {
    p.present && p.slot.state == Streaming ==>
      forall i: nat | i < |p.slot.source.queued| :: Holders(p, i) == 1
  }

  /** A StartCamera that finds the device still streaming behind a slot that is not: it only resets the slot and
      queues no buffer. */
  predicate ResumingStart(s: Slot, c: Command) {
    && c == StartCamera && s.state != Streaming && s.state != Deleting && s.source.st == V.Streaming
    && !(s.state == Stopped && s.rt.inFlightFrames != 0)
  }

  /** Some buffer belongs to nobody: its frame came back while the slot was not streaming. */
  ghost predicate Parked(p: Protocol) {
    exists i: nat :: i < |p.slot.source.queued| && Holders(p, i) == 0
  }

  predicate Resumes(p: Protocol) {
    p.present && !p.polling && p.queue != [] && ResumingStart(p.slot, p.queue[0])
  }

  /** The next command resumes a camera that has parked a buffer. */
  ghost predicate Stranding(p: Protocol) {
    Resumes(p) && Parked(p)
  }

  ghost predicate NeverStrands(p: Protocol, es: seq<Event>)
    decreases |es|
  {
    es == [] || ((es[0].Exec? ==> !Stranding(p)) && NeverStrands(Step(p, es[0]), es[1..]))
  }

  /** A condition on slots and commands alone: no start of the run finds the device streaming behind its back. */
  ghost predicate NeverResumes(p: Protocol, es: seq<Event>)
    decreases |es|
  {
    es == [] || ((es[0].Exec? ==> !Resumes(p)) && NeverResumes(Step(p, es[0]), es[1..]))
  }

  lemma {:induction false} NoResumeNoStranding(p: Protocol, es: seq<Event>)
    requires NeverResumes(p, es)
    ensures NeverStrands(p, es)
    decreases |es|
  {
    if es != [] {
      NoResumeNoStranding(Step(p, es[0]), es[1..]);
    }
  }

  // ---------------------------------------------------------------- every step

  predicate AllQueued(s: V.Source) {
    forall i | 0 <= i < |s.queued| :: s.queued[i]
  }

  lemma StartedQueuesAll(s: V.Source, refused: set<int>, streamOn: bool)
    requires V.Start(s, refused, streamOn).1
    ensures AllQueued(V.Start(s, refused, streamOn).0)
  {
    V.QueueFromEffect(s.queued, 0, refused);
  }

  lemma AttemptQueuesAll(s: Slot, reply: DriverReply)
    requires AttemptRestart(s, reply).1
    ensures AllQueued(AttemptRestart(s, reply).0)
  {
    var source := if s.rt.requiresDeviceReopen then Rebuild(s, reply).0 else s.source;
    StartedQueuesAll(source, reply.refused, reply.streamOn);
  }

  /** A command leaves the slot streaming only by a fresh start of all buffers, or by touching no buffer. */
  lemma StreamsFreshOrAsBefore(s: Slot, c: Command, reply: DriverReply, now: int)
    requires SlotModes(s)
    ensures var t := ExecOn(s, c, reply, now);
            t.state == Streaming ==>
              || (t.rt.leaseGeneration == s.rt.leaseGeneration + 1 && AllQueued(t.source))
              || (t.rt.leaseGeneration == s.rt.leaseGeneration && t.source == s.source
                  && (s.state == Streaming || ResumingStart(s, c)))
  {
    if V.Start(s.source, reply.refused, reply.streamOn).1 {
      StartedQueuesAll(s.source, reply.refused, reply.streamOn);
    }
    if AttemptRestart(s, reply).1 {
      AttemptQueuesAll(s, reply);
    }
  }

  /** After a fresh start the driver holds every buffer and nobody else holds one of this generation. */
  lemma FreshIsWhole(p: Protocol, q: Protocol)
    requires Generations(p) && q.holding == None && AllQueued(q.slot.source)
    requires q.slot.rt.leaseGeneration == p.slot.rt.leaseGeneration + 1
    requires q.live == p.live && q.returned == p.returned
    ensures Whole(q)
  {
    forall i: nat | i < |q.slot.source.queued| ensures Holders(q, i) == 1 {
      var l := Lease(i, q.slot.rt.leaseGeneration);
      assert l !in p.live && l !in p.returned && l !in multiset(p.returned);
    }
  }

  lemma ExecKeepsWhole(p: Protocol, reply: DriverReply, now: int)
    requires Inv(p) && Whole(p) && !Stranding(p)
    ensures Whole(Step(p, Exec(reply, now)))
  {
    var q := Step(p, Exec(reply, now));
    if q.present && q.slot.state == Streaming && p.queue != [] && !p.polling {
      StreamsFreshOrAsBefore(p.slot, p.queue[0], reply, now);
      if q.slot.rt.leaseGeneration == p.slot.rt.leaseGeneration {
        CarryBuffers(p, q);
        ResumedIsWhole(p);
      } else {
        FreshIsWhole(p, q);
      }
    }
  }

  /** A streaming device without a parked buffer is whole, whatever the slot says. */
  lemma ResumedIsWhole(p: Protocol)
    requires Inv(p) && p.slot.source.st == V.Streaming
             && (!Parked(p) || (p.present && p.slot.state == Streaming && Whole(p)))
    ensures forall i: nat | i < |p.slot.source.queued| :: Holders(p, i) == 1
  {
    forall i: nat | i < |p.slot.source.queued| ensures Holders(p, i) == 1 {
      assert Holders(p, i) <= 1;
    }
  }

  /** A slot that streams after a return streamed before, and the returned buffer is the driver's again. */
  lemma DrainRequeues(s: Slot, item: Lease, qbufOk: bool)
    requires s.rt.leaseGeneration >= 1
    ensures var t := DrainOn(s, item, qbufOk).0;
            t.state == Streaming && s.source.st == V.Streaming ==>
              && s.state == Streaming && t.rt.leaseGeneration == s.rt.leaseGeneration
              && (if item.generation != s.rt.leaseGeneration then t.source == s.source
                  else item.index < |s.source.queued|
                       && t.source == s.source.(queued := s.source.queued[item.index := true]))
  {
  }

  lemma DrainKeepsWhole(p: Protocol, qbufOk: bool)
    requires Inv(p) && Whole(p)
    ensures Whole(Step(p, Drain(qbufOk)))
  {
    var q := Step(p, Drain(qbufOk));
    if p.returned != [] && q.present && q.slot.state == Streaming {
      DrainHasEffect(p.slot, p.returned[0], qbufOk);
      DrainRequeues(p.slot, p.returned[0], qbufOk);
      DrainedIsWhole(p, q);
    }
  }

  lemma DrainedIsWhole(p: Protocol, q: Protocol)
    requires p.returned != [] && q.returned == p.returned[1..] && q.live == p.live && q.holding == p.holding
    requires q.slot.rt.leaseGeneration == p.slot.rt.leaseGeneration
    requires forall i: nat | i < |p.slot.source.queued| :: Holders(p, i) == 1
    requires var item := p.returned[0];
             if item.generation != p.slot.rt.leaseGeneration then q.slot.source == p.slot.source
             else item.index < |p.slot.source.queued|
                  && q.slot.source.queued == p.slot.source.queued[item.index := true]
    ensures forall i: nat | i < |q.slot.source.queued| :: Holders(q, i) == 1
  {
    PopReturned(p);
    forall i: nat | i < |q.slot.source.queued| ensures Holders(q, i) == 1 {
      assert Holders(p, i) == 1;
    }
  }

  lemma DequeueKeepsWhole(p: Protocol, index: nat)
    requires Whole(p)
    ensures Whole(Step(p, Dequeue(index)))
  {
    var q := Step(p, Dequeue(index));
    if q != p {
      assert forall i: nat | i < |q.slot.source.queued| :: Holders(q, i) == Holders(p, i);
    }
  }

  lemma LeaseKeepsWhole(p: Protocol)
    requires Whole(p)
    ensures Whole(Step(p, MakeLease))
  {
    if p.holding.Some? && p.present && p.slot.state == Streaming {
      LeasedKeepsBuffers(p, Step(p, MakeLease));
    }
  }

  lemma DropKeepsWhole(p: Protocol, l: Lease)
    requires Whole(p)
    ensures Whole(Step(p, DropLease(l)))
  {
    if l in p.live {
      DroppedKeepsBuffers(p, Step(p, DropLease(l)), l);
    }
  }

  lemma FlagsKeepWhole(p: Protocol, e: Event)
    requires Modes(p) && Whole(p)
    requires UserRequest(e) || e.Post? || e.Check? || e.Snapshot? || e.Fault? || e.EndPoll?
    ensures Whole(Step(p, e))
  {
    FlagStep(p, e);
    CarryBuffers(p, Step(p, e));
  }

  /** No step of any thread loses a buffer, except a start that resumes a camera with a parked one. */
  lemma StepKeepsWhole(p: Protocol, e: Event)
    requires Inv(p) && Whole(p) && (e.Exec? ==> !Stranding(p))
    ensures Whole(Step(p, e))
  {
    match e
    case Exec(reply, now) => ExecKeepsWhole(p, reply, now);
    case Drain(qbufOk) => DrainKeepsWhole(p, qbufOk);
    case DropLease(l) => DropKeepsWhole(p, l);
    case Dequeue(index) => DequeueKeepsWhole(p, index);
    case MakeLease => LeaseKeepsWhole(p);
    case _ => FlagsKeepWhole(p, e);
  }

  // ---------------------------------------------------------------- every run

  lemma {:induction false} RunKeepsWhole(p: Protocol, es: seq<Event>)
    requires Inv(p) && Whole(p) && NeverStrands(p, es)
    ensures Whole(Run(p, es))
    decreases |es|
  {
    if es != [] {
      StepKeepsInv(p, es[0]);
      StepKeepsWhole(p, es[0]);
      RunKeepsWhole(Step(p, es[0]), es[1..]);
    }
  }

  /** No buffer is lost: in every run without a stranding start, hazardous or not, while the camera streams each of its
      buffers has exactly one holder. */
  lemma NoBufferIsLost(p: Protocol, es: seq<Event>)
    requires Initial(p) && NeverStrands(p, es)
    ensures var q := Run(p, es);
            q.present && q.slot.state == Streaming ==>
              && q.slot.source.st == V.Streaming
              && forall i: nat | i < |q.slot.source.queued| :: Holders(q, i) == 1
  {
    InitialInv(p);
    RunKeepsInv(p, es);
    RunKeepsWhole(p, es);
  }

  lemma StrandingLoses(q: Protocol)
    requires Inv(q) && Stranding(q)
    ensures !Whole(Step(q, Exec(WILLING, 0)))
  {
    var r := Step(q, Exec(WILLING, 0));
    CarryBuffers(q, r);
    var i: nat :| i < |q.slot.source.queued| && Holders(q, i) == 0;
    assert Holders(r, i) == 0 && r.slot.state == Streaming;
  }

  /** The hypothesis is exact: after a run without a stranding start, the next executed command loses no buffer,
      whatever the driver answers, if and only if it is not a stranding start. */
  lemma StrandingIsTheOnlyLoss(p: Protocol, es: seq<Event>)
    requires Initial(p) && NeverStrands(p, es)
    ensures var q := Run(p, es);
            (forall reply, now :: Whole(Step(q, Exec(reply, now)))) <==> !Stranding(q)
  {
    InitialInv(p);
    RunKeepsInv(p, es);
    RunKeepsWhole(p, es);
    var q := Run(p, es);
    if Stranding(q) {
      StrandingLoses(q);
    } else {
      forall reply, now ensures Whole(Step(q, Exec(reply, now))) {
        StepKeepsWhole(q, Exec(reply, now));
      }
    }
  }

  // ---------------------------------------------------------------- what is lost stays lost

  /** The device streams along the whole run without being started anew. */
  ghost predicate StreamsOn(p: Protocol, es: seq<Event>, generation: nat)
    decreases |es|
  {
    p.slot.source.st == V.Streaming && p.slot.rt.leaseGeneration == generation
    && (es == [] || StreamsOn(Step(p, es[0]), es[1..], generation))
  }

  ghost predicate StillNobodys(p: Protocol, q: Protocol, i: nat) {
    |q.slot.source.queued| == |p.slot.source.queued| && Holders(q, i) == 0
  }

  lemma ExecGivesNothing(p: Protocol, reply: DriverReply, now: int, i: nat)
    requires Inv(p) && Holders(p, i) == 0
    requires var q := Step(p, Exec(reply, now));
             q.slot.source.st == V.Streaming && q.slot.rt.leaseGeneration == p.slot.rt.leaseGeneration
    ensures StillNobodys(p, Step(p, Exec(reply, now)), i)
  {
    if p.queue != [] {
      ExecHasEffect(p.slot, p.queue[0], reply, now);
    }
    CarryBuffers(p, Step(p, Exec(reply, now)));
  }

  lemma DrainGivesNothing(p: Protocol, qbufOk: bool, i: nat)
    requires Holders(p, i) == 0
    ensures StillNobodys(p, Step(p, Drain(qbufOk)), i)
  {
    if p.returned != [] {
      PopReturned(p);
      DrainHasEffect(p.slot, p.returned[0], qbufOk);
      assert p.returned[0] in multiset(p.returned);
    }
  }

  lemma LeaseGivesNothing(p: Protocol, i: nat)
    requires Generations(p) && Holders(p, i) == 0
    ensures StillNobodys(p, Step(p, MakeLease), i)
  {
    var q := Step(p, MakeLease);
    if p.holding.Some? {
      if p.present && p.slot.state == Streaming {
        LeasedKeepsBuffers(p, q);
      } else {
        assert multiset(q.returned) == multiset(p.returned) + multiset{Lease(p.holding.value, 0)};
      }
    }
  }

  lemma FrameGivesNothing(p: Protocol, e: Event, i: nat)
    requires Holders(p, i) == 0 && (e.DropLease? || e.Dequeue?)
    ensures StillNobodys(p, Step(p, e), i)
  {
    if e.DropLease? && e.l in p.live {
      DroppedKeepsBuffers(p, Step(p, e), e.l);
    }
  }

  lemma FlagsGiveNothing(p: Protocol, e: Event, i: nat)
    requires Modes(p) && Holders(p, i) == 0
    requires UserRequest(e) || e.Post? || e.Check? || e.Snapshot? || e.Fault? || e.EndPoll?
    ensures StillNobodys(p, Step(p, e), i)
  {
    FlagStep(p, e);
    CarryBuffers(p, Step(p, e));
  }

  lemma StepGivesNothing(p: Protocol, e: Event, i: nat)
    requires Inv(p) && Holders(p, i) == 0
    requires Step(p, e).slot.source.st == V.Streaming && Step(p, e).slot.rt.leaseGeneration == p.slot.rt.leaseGeneration
    ensures StillNobodys(p, Step(p, e), i)
  {
    match e
    case Exec(reply, now) => ExecGivesNothing(p, reply, now, i);
    case Drain(qbufOk) => DrainGivesNothing(p, qbufOk, i);
    case MakeLease => LeaseGivesNothing(p, i);
    case DropLease(_) => FrameGivesNothing(p, e, i);
    case Dequeue(_) => FrameGivesNothing(p, e, i);
    case _ => FlagsGiveNothing(p, e, i);
  }

  /** A buffer without a holder has none as long as the device streams on: only a stop and a new start bring it back. */
  lemma {:induction false} LostUntilRestart(p: Protocol, es: seq<Event>, i: nat)
    requires Inv(p) && Holders(p, i) == 0 && i < |p.slot.source.queued| && StreamsOn(p, es, p.slot.rt.leaseGeneration)
    ensures Holders(Run(p, es), i) == 0
    decreases |es|
  {
    if es != [] {
      StepKeepsInv(p, es[0]);
      StepGivesNothing(p, es[0], i);
      LostUntilRestart(Step(p, es[0]), es[1..], i);
    }
  }
}
