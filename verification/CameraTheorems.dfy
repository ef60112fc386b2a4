/** Main results about buffers: what every run guarantees, what needs the absence of hazardous and stranding starts,
    and why those hypotheses are exactly right. */
module CameraTheorems {
  import opened Options
  import V = V4L2CameraSource
  import opened CameraProtocol
  import opened CameraSafety
  import opened CameraConservation

  /** Conservation. In every hazard-free run each buffer has at most one holder, inFlightFrames is exactly the number of
      frames out, every frame out is of the current generation, and no leased buffer belongs to the driver. If no start
      strands a buffer either, then while the camera streams each buffer has exactly one holder. */
  lemma LeasesAreConserved(p: Protocol, es: seq<Event>)
    requires Initial(p) && HazardFree(p, es)
    ensures var q := Run(p, es);
            && AtMostOneHolder(q)
            && (NeverStrands(p, es) && q.present && q.slot.state == Streaming ==>
                  forall i: nat | i < |q.slot.source.queued| :: Holders(q, i) == 1)
            && (q.present ==> q.slot.rt.inFlightFrames == |q.live| + NonZero(q.returned))
            && (forall l | l in q.live ::
                  l.generation == q.slot.rt.leaseGeneration && l.index < |q.slot.source.queued|
                  && !q.slot.source.queued[l.index] && q.live[l] == 1 && l !in q.returned)
            && (forall l | l in q.returned :: l.generation == 0 || l.generation == q.slot.rt.leaseGeneration)
  {
    InitialInv(p);
    RunKeepsInv(p, es);
    if NeverStrands(p, es) {
      NoBufferIsLost(p, es);
    }
    var q := Run(p, es);
    forall l | l in q.live
      ensures !q.slot.source.queued[l.index] && q.live[l] == 1 && l !in q.returned
    {
      assert l == Lease(l.index, q.slot.rt.leaseGeneration);
      assert Holders(q, l.index) <= 1;
      assert l in q.returned <==> l in multiset(q.returned);
    }
  }

  /** In every run, hazardous or not, a drained frame of the current generation is counted, and while the camera
      streams its QBUF targets an existing buffer the driver does not own: it fails only if the driver refuses. */
  lemma ReturnedFrameIsCountedAndIdle(p: Protocol, es: seq<Event>, qbufOk: bool)
    requires Initial(p)
    requires var q := Run(p, es); q.returned != [] && q.returned[0].generation == q.slot.rt.leaseGeneration
    ensures var q := Run(p, es);
            && q.slot.rt.inFlightFrames > 0
            && (q.slot.state == Streaming ==>
                  && q.slot.source.st == V.Streaming
                  && !Owned(q.slot.source, q.returned[0].index)
                  && V.Requeue(q.slot.source, q.returned[0].index, qbufOk).1 == qbufOk)
  {
    InitialInv(p);
    RunKeepsInv(p, es);
    var q := Run(p, es);
    PopReturned(q);
    assert NonZero(q.returned) >= 1;
    if q.slot.source.st == V.Streaming {
      assert Holders(q, q.returned[0].index) <= 1;
    }
  }

  /** In every run, hazardous or not: RestartCamera, and StartCamera on a stopped camera, give buffers to the driver
      or free them only when no frame of any generation is out. */
  lemma RestartTouchesOnlyUnborrowedBuffers(p: Protocol, es: seq<Event>, reply: DriverReply, now: int)
    requires Initial(p)
    requires var q := Run(p, es);
             q.queue != [] && (q.queue[0].RestartCamera? || (q.queue[0].StartCamera? && q.slot.state == Stopped))
    ensures var q := Run(p, es);
            var r := Step(q, Exec(reply, now));
            r.slot.source != q.slot.source ==> NothingOut(q) && q.slot.rt.inFlightFrames == 0
  {
    InitialInv(p);
    RunKeepsInv(p, es);
    var q := Run(p, es);
    if q.slot.rt.inFlightFrames == 0 {
      ZeroInFlightMeansNothingOut(q);
    }
  }

  /** Both hypotheses are exact: after a run without hazardous and stranding starts, the next executed command keeps
      every frame counted, no buffer used twice and no buffer lost, whatever the driver answers, if and only if it is
      neither. */
  lemma ConservationIsKeptIff(p: Protocol, es: seq<Event>)
    requires Initial(p) && HazardFree(p, es) && NeverStrands(p, es)
    ensures var q := Run(p, es);
            (forall reply, now :: Exact(Step(q, Exec(reply, now))) && Whole(Step(q, Exec(reply, now))))
            <==> !Hazard(q) && !Stranding(q)
  {
    HazardIsTheOnlyBreak(p, es);
    StrandingIsTheOnlyLoss(p, es);
  }

  /** The hypothesis of exact counting is exact: after a hazard-free run, executing the next command keeps counts and
      single holders exact whatever the driver answers if and only if that command is not a hazardous start. */
  lemma HazardIsTheOnlyBreak(p: Protocol, es: seq<Event>)
    requires Initial(p) && HazardFree(p, es)
    ensures var q := Run(p, es);
            (forall reply, now :: Exact(Step(q, Exec(reply, now)))) <==> !Hazard(q)
  {
    InitialInv(p);
    RunKeepsInv(p, es);
    var q := Run(p, es);
    if Hazard(q) {
      HazardBreaks(q);
    } else {
      forall reply, now ensures Exact(Step(q, Exec(reply, now))) {
        StepKeepsInv(q, Exec(reply, now));
      }
    }
  }

  /** A willing driver lets a hazardous start go through: the frames that were out become uncountable. */
  lemma HazardBreaks(q: Protocol)
    requires Inv(q) && Exact(q) && Hazard(q)
    ensures !Exact(Step(q, Exec(WILLING, 0)))
  {
    V.QueueFromEffect(q.slot.source.queued, 0, WILLING.refused);
    var r := Step(q, Exec(WILLING, 0));
    assert r.slot.rt.leaseGeneration == q.slot.rt.leaseGeneration + 1;
    if |q.live| > 0 {
      var l :| l in q.live;
      assert l in r.live;
    } else {
      SomeNonZero(q.returned);
      var l :| l in q.returned && l.generation != 0;
      assert l in r.returned;
    }
  }

  lemma {:induction false} SomeNonZero(q: seq<Lease>)
    requires NonZero(q) > 0
    ensures exists l :: l in q && l.generation != 0
    decreases |q|
  {
    if q[0].generation == 0 {
      SomeNonZero(q[1..]);
      var l :| l in q[1..] && l.generation != 0;
      assert l in q;
    }
  }

  // ---------------------------------------------------------------- a miscount lasts

  /** Frames counted as out although nobody has them. */
  function Excess(p: Protocol): int {
    p.slot.rt.inFlightFrames - |p.live| - NonZero(p.returned)
  }

  lemma DrainKeepsExcess(p: Protocol, qbufOk: bool)
    requires p.present && p.returned != []
    ensures Excess(Step(p, Drain(qbufOk))) >= Excess(p)
  {
    DrainHasEffect(p.slot, p.returned[0], qbufOk);
  }

  lemma ExecKeepsExcess(p: Protocol, reply: DriverReply, now: int)
    requires Inv(p) && p.present
    ensures Excess(Step(p, Exec(reply, now))) == Excess(p)
  {
    if p.queue != [] && !p.polling {
      ExecHasEffect(p.slot, p.queue[0], reply, now);
    }
  }

  lemma DropKeepsExcess(p: Protocol, l: Lease)
    requires Generations(p)
    ensures Excess(Step(p, DropLease(l))) == Excess(p)
  {
    NonZeroAppend(p.returned, l);
  }

  /** A counted lease is one more frame out and one more counted. */
  lemma CountedLeaseKeepsExcess(p: Protocol, l: Lease)
    ensures Excess(p.(slot := LeaseOn(p.slot), live := p.live + multiset{l}, holding := None)) == Excess(p)
  {
    assert |p.live + multiset{l}| == |p.live| + 1;
  }

  lemma LeaseKeepsExcess(p: Protocol)
    requires Generations(p)
    ensures Excess(Step(p, MakeLease)) == Excess(p)
  {
    if p.holding.Some? {
      if p.present && p.slot.state == Streaming {
        CountedLeaseKeepsExcess(p, Lease(p.holding.value, p.slot.rt.leaseGeneration));
      } else {
        NonZeroAppend(p.returned, Lease(p.holding.value, 0));
      }
    }
  }

  lemma FlagsKeepExcess(p: Protocol, e: Event)
    requires UserRequest(e) || e.Post? || e.Check? || e.Dequeue? || e.Snapshot? || e.Fault? || e.EndPoll?
    ensures Excess(Step(p, e)) == Excess(p)
  {
  }

  lemma StepKeepsExcess(p: Protocol, e: Event)
    requires Inv(p) && p.present
    ensures Excess(Step(p, e)) >= Excess(p)
  {
    match e
    case Exec(reply, now) => ExecKeepsExcess(p, reply, now);
    case Drain(qbufOk) => if p.returned != [] { DrainKeepsExcess(p, qbufOk); }
    case DropLease(l) => DropKeepsExcess(p, l);
    case MakeLease => LeaseKeepsExcess(p);
    case _ => FlagsKeepExcess(p, e);
  }

  /** A miscount is never repaired: once a stale frame has been counted and dropped, then for as long as the
      camera stays registered no RestartCamera and no StartCamera on a stopped camera changes the source again. */
  lemma {:induction false} ExcessIsForever(p: Protocol, es: seq<Event>, reply: DriverReply, now: int)
    requires Inv(p) && Excess(p) > 0
    ensures var q := Run(p, es);
            q.present ==>
              && Excess(q) >= Excess(p)
              && (q.queue != [] && (q.queue[0].RestartCamera? || (q.queue[0].StartCamera? && q.slot.state == Stopped))
                  ==> Step(q, Exec(reply, now)).slot.source == q.slot.source)
    decreases |es|
  {
    if es != [] {
      StepKeepsInv(p, es[0]);
      if p.present {
        StepKeepsExcess(p, es[0]);
        if Step(p, es[0]).present {
          ExcessIsForever(Step(p, es[0]), es[1..], reply, now);
        } else {
          GoneForGood(Step(p, es[0]), es[1..]);
        }
      } else {
        GoneForGood(p, es);
      }
    } else if p.present {
      RunKeepsInv(p, es);
    }
  }

  lemma {:induction false} GoneForGood(p: Protocol, es: seq<Event>)
    requires !p.present
    ensures !Run(p, es).present
    decreases |es|
  {
    if es != [] {
      GoneForGood(Step(p, es[0]), es[1..]);
    }
  }
}
