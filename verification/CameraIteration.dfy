/** What one iteration of the poll loop gets done: queued commands are executed, returned frames are drained, what is
    due is posted, and the frame or fault that poll reported is dealt with. */
module CameraIteration {
  import opened Options
  import V = V4L2CameraSource
  import opened CameraProtocol
  import opened CamManager

  /** Between two iterations: no snapshot, no frame in hand, no command half posted. */
  predicate AtRest(p: Protocol) {
    !p.polling && p.holding == None && p.posting == multiset{}
  }

  /** No restart and no deferred start could be posted now. */
  predicate NothingDue(p: Protocol, now: int) {
    var rt := p.slot.rt;
    p.present && rt.inFlightFrames == 0 ==>
      && !(p.slot.state == Stopped && rt.startPending && !rt.startQueued)
      && !(p.slot.state == Error && rt.restartPending && !rt.restartQueued && now >= rt.nextRestartTime)
  }

  lemma CommandsAreExecuted(p: Protocol, reply: nat -> DriverReply, now: int)
    requires AtRest(p)
    ensures var q := Run(p, CommandEvents(p, reply, now));
            AtRest(q) && q.queue == [] && q.returned == p.returned && q.live == p.live
  {
    DrainCommandsIsARun(p, seq(|p.queue|, i requires i >= 0 => reply(i)), now);
  }

  lemma DrainedRun(p: Protocol, oks: seq<bool>)
    requires |oks| == |p.returned|
    ensures var slot := if p.present then DrainAllOn(p.slot, p.returned, oks).0 else p.slot;
            Run(p, Drains(oks))
            == p.(slot := slot, returned := [], posting := p.posting + multiset(Refusals(p, oks)))
  {
    if p.present {
      DrainIsARun(p, oks);
    } else {
      DrainOfNobodyIsARun(p, oks);
    }
  }

  /** The slot after the whole return queue, and the commands of refused QBUFs behind the others. */
  lemma ReturnsAreDrained(p: Protocol, qbufOk: nat -> bool)
    requires p.posting == multiset{}
    ensures var oks := seq(|p.returned|, i requires i >= 0 => qbufOk(i));
            var slot := if p.present then DrainAllOn(p.slot, p.returned, oks).0 else p.slot;
            Run(p, ReturnEvents(p, qbufOk)) == p.(slot := slot, returned := [], queue := p.queue + Refusals(p, oks))
  {
    var oks := seq(|p.returned|, i requires i >= 0 => qbufOk(i));
    DrainedRun(p, oks);
    RunConcat(p, Drains(oks), Posts(Refusals(p, oks)));
    PostsAreARun(Run(p, Drains(oks)), Refusals(p, oks));
  }

  lemma CheckIsMade(p: Protocol, now: int)
    requires AtRest(p)
    ensures var q := Run(p, CheckEvents(p, now));
            && AtRest(q) && NothingDue(q, now) && q.returned == p.returned && q.live == p.live
            && q.present == p.present && q.queue == p.queue + if p.present then CheckOn(p.slot, now).1 else []
  {
    hide Run, Posts;
    StepThenPosts(p, Check(now), if p.present then CheckOn(p.slot, now).1 else []);
  }

  lemma {:induction false} RefusalsAreErrors(s: Slot, items: seq<Lease>, oks: seq<bool>)
    requires |items| == |oks|
    ensures forall c | c in DrainAllOn(s, items, oks).1 :: c.ProcessError?
    decreases |items|
  {
    if items != [] {
      RefusalsAreErrors(DrainOn(s, items[0], oks[0]).0, items[1..], oks[1..]);
    }
  }

  /** The first part of every iteration executes all commands that were queued, drains all frames that were returned and
      posts what is due: afterwards nothing is returned or due, and in the queue is nothing but ProcessErrors of refused
      QBUFs and, last, what the check has posted. */
  lemma PreparationServesAll(p: Protocol, reply: nat -> DriverReply, qbufOk: nat -> bool, now: int)
    requires AtRest(p)
    ensures var q := Run(p, PrepareEvents(p, reply, qbufOk, now));
            && AtRest(q) && q.returned == [] && q.live == p.live && NothingDue(q, now)
            && (q.queue != [] ==> forall c | c in q.queue[..|q.queue| - 1] :: c.ProcessError?)
  {
    var e1 := CommandEvents(p, reply, now);
    var p1 := Run(p, e1);
    CommandsAreExecuted(p, reply, now);
    var e2 := ReturnEvents(p1, qbufOk);
    var p2 := Run(p1, e2);
    ReturnsAreDrained(p1, qbufOk);
    var oks := seq(|p1.returned|, i requires i >= 0 => qbufOk(i));
    RefusalsAreErrors(p1.slot, p1.returned, oks);
    CheckIsMade(p2, now);
    RunThreeParts(p, e1, e2, CheckEvents(p2, now));
    var last := if p2.present then CheckOn(p2.slot, now).1 else [];
    assert p2.queue == [] + Refusals(p1, oks) == Refusals(p1, oks);
    assert Run(p2, CheckEvents(p2, now)).queue == Refusals(p1, oks) + last;
  }

  // ---------------------------------------------------------------- what poll reported

  lemma FaultIsReported(p: Protocol, hangUp: bool)
    requires p.present && p.polling && p.posting == multiset{} && p.slot.state != Error && p.slot.state != Deleting
    ensures var generation := p.slot.rt.recoveryGeneration + 1;
            Run(p, FaultEvents(p, hangUp))
            == p.(slot := p.slot.(state := Error, rt := p.slot.rt.(requiresDeviceReopen := hangUp,
                                                                    recoveryGeneration := generation)),
                  queue := p.queue + [ProcessError(generation)])
  {
    StepThenPosts(p, Fault(hangUp), [ProcessError(p.slot.rt.recoveryGeneration + 1)]);
  }

  /** A fault that poll reports fails the camera, with a rebuild wanted exactly if it is a hang-up. */
  lemma FaultIsServed(q: Protocol, hangUp: bool, qbufOk: nat -> bool)
    requires AtRest(q) && Streams(q)
    ensures var r := Run(q, SnapshotEvents(q, Failed(hangUp), qbufOk));
            && AtRest(r) && r.slot.state == Error && r.slot.rt.requiresDeviceReopen == hangUp
            && r.queue == q.queue + [ProcessError(q.slot.rt.recoveryGeneration + 1)]
            && r.slot.rt.recoveryGeneration == q.slot.rt.recoveryGeneration + 1
  {
    hide Run, FaultEvents, SnapshotEvents;
    TurnIsServed(q, Failed(hangUp), qbufOk);
    FaultIsReported(q.(polling := true), hangUp);
  }

  /** The state after DQBUF and the stamping of the lease. */
  function Leased(q: Protocol, index: nat): Protocol
    requires index < |q.slot.source.queued|
  {
    q.(slot := LeaseOn(q.slot.(source := V.Dequeue(q.slot.source, index))),
       live := q.live + multiset{Lease(index, q.slot.rt.leaseGeneration)})
  }

  /** The steps of one frame: taken, delivered, and drained behind unless the decoder has it. */
  lemma FrameIsServed(p: Protocol, index: nat, delivery: Delivery, qbufOk: nat -> bool)
    requires p.polling && p.holding == None && Streams(p)
    requires index < |p.slot.source.queued| && p.slot.source.queued[index]
    ensures var taken, l := Leased(p, index), Lease(index, p.slot.rt.leaseGeneration);
            var delivered := Run(taken, DeliveryEvents(taken, l, delivery));
            Run(p, ServeEvents(p, Readable(index, delivery), qbufOk))
            == if delivery.ToDecoder? then delivered else Run(delivered, ReturnEvents(delivered, qbufOk))
  {
    hide Run, Step, ReturnEvents, DeliveryEvents, LeaseOn, V.Dequeue;
    var e1 := [CameraProtocol.Event.Dequeue(index), MakeLease];
    var taken, l := Leased(p, index), Lease(index, p.slot.rt.leaseGeneration);
    TakeIsARun(p, index);
    assert Run(p, e1) == taken;
    var e2 := DeliveryEvents(taken, l, delivery);
    var e3 := if delivery.ToDecoder? then [] else ReturnEvents(Run(taken, e2), qbufOk);
    RunThreeParts(p, e1, e2, e3);
    RunNothing(Run(taken, e2));
  }

  lemma RunNothing(p: Protocol)
    ensures Run(p, []) == p
  {
  }

  lemma NoDrop(p: Protocol, l: Lease)
    ensures Run(p, DropEvents(l, true)) == p
  {
  }

  lemma TurnEnds(p: Protocol)
    requires p.holding == None
    ensures Step(p, EndPoll) == p.(polling := false)
  {
  }

  lemma NothingToDrain(p: Protocol, qbufOk: nat -> bool)
    requires p.returned == [] && p.posting == multiset{}
    ensures Run(p, ReturnEvents(p, qbufOk)) == p
  {
    ReturnsAreDrained(p, qbufOk);
    assert p.queue + [] == p.queue;
  }

  /** A frame that some sink keeps is out, counted once, and its buffer is no longer the driver's; nothing else
      changes. */
  lemma KeptFrameIsOut(q: Protocol, index: nat, qbufOk: nat -> bool)
    requires AtRest(q) && Streams(q) && q.returned == []
    requires index < |q.slot.source.queued| && q.slot.source.queued[index]
    ensures Run(q, SnapshotEvents(q, Readable(index, ToSinks(true)), qbufOk)) == Leased(q, index)
  {
    hide ServeEvents, ReturnEvents, SnapshotEvents, DropEvents, FaultEvents, Step, Run, LeaseOn, V.Dequeue;
    var p := q.(polling := true);
    TurnIsServed(q, Readable(index, ToSinks(true)), qbufOk);
    FrameIsServed(p, index, ToSinks(true), qbufOk);
    NoDrop(Leased(p, index), Lease(index, p.slot.rt.leaseGeneration));
    NothingToDrain(Leased(p, index), qbufOk);
    TurnEnds(Leased(p, index));
  }

  /** The slot when the driver does not take that buffer back. */
  function Refused(s: Slot, index: nat): Slot
    requires index < |s.source.queued|
  {
    s.(state := Error, source := V.Dequeue(s.source, index),
       rt := s.rt.(requiresDeviceReopen := true, recoveryGeneration := s.rt.recoveryGeneration + 1))
  }

  /** Draining the frame that was just taken. */
  lemma OneReturn(s: Slot, taken: Slot, index: nat, ok: bool)
    requires s.state == Streaming && s.source.st == V.Streaming && s.rt.leaseGeneration > 0
    requires index < |s.source.queued| && s.source.queued[index]
    requires taken == LeaseOn(s.(source := V.Dequeue(s.source, index)))
    ensures DrainAllOn(taken, [Lease(index, s.rt.leaseGeneration)], [ok])
         == if ok then (s, []) else (Refused(s, index), [ProcessError(s.rt.recoveryGeneration + 1)])
  {
    var l := Lease(index, s.rt.leaseGeneration);
    var (t, cs) := DrainOn(taken, l, ok);
    assert [l][1..] == [] && [ok][1..] == [];
    assert DrainAllOn(taken, [l], [ok]) == (t, cs + []) && cs + [] == cs;
    assert s.source.queued[index := false][index := true] == s.source.queued;
  }

  lemma DropTaken(q: Protocol, taken: Protocol, l: Lease)
    requires taken.live == q.live + multiset{l} && taken.returned == []
    ensures Run(taken, DropEvents(l, false)) == taken.(live := q.live, returned := [l])
  {
    RunSingle(taken, DropLease(l));
    assert q.live + multiset{l} - multiset{l} == q.live && [] + [l] == [l];
  }

  lemma DrainTaken(dropped: Protocol, s: Slot, index: nat, qbufOk: nat -> bool)
    requires s.state == Streaming && s.source.st == V.Streaming && s.rt.leaseGeneration > 0
    requires index < |s.source.queued| && s.source.queued[index]
    requires dropped.present && dropped.posting == multiset{}
    requires dropped.slot == LeaseOn(s.(source := V.Dequeue(s.source, index)))
    requires dropped.returned == [Lease(index, s.rt.leaseGeneration)]
    ensures Run(dropped, ReturnEvents(dropped, qbufOk))
         == if qbufOk(0) then dropped.(slot := s, returned := [])
            else dropped.(slot := Refused(s, index), returned := [],
                          queue := dropped.queue + [ProcessError(s.rt.recoveryGeneration + 1)])
  {
    ReturnsAreDrained(dropped, qbufOk);
    OneReturn(s, dropped.slot, index, qbufOk(0));
    assert seq(|dropped.returned|, i requires i >= 0 => qbufOk(i)) == [qbufOk(0)];
  }

  /** A frame that no sink keeps is back with the driver at the end of the iteration, uncounted, as if it had not been
      dequeued; unless the driver refuses it, which fails the camera and wants a rebuild. */
  lemma UnkeptFrameGoesBack(q: Protocol, index: nat, qbufOk: nat -> bool)
    requires AtRest(q) && Streams(q) && q.returned == [] && q.slot.rt.leaseGeneration > 0
    requires index < |q.slot.source.queued| && q.slot.source.queued[index]
    ensures Run(q, SnapshotEvents(q, Readable(index, ToSinks(false)), qbufOk))
         == if qbufOk(0) then q
            else q.(slot := Refused(q.slot, index), queue := q.queue + [ProcessError(q.slot.rt.recoveryGeneration + 1)])
  {
    hide ServeEvents, ReturnEvents, SnapshotEvents, DropEvents, FaultEvents, Step, Run, Refused, LeaseOn, V.Dequeue;
    var p, l := q.(polling := true), Lease(index, q.slot.rt.leaseGeneration);
    var taken := Leased(p, index);
    TurnIsServed(q, Readable(index, ToSinks(false)), qbufOk);
    FrameIsServed(p, index, ToSinks(false), qbufOk);
    DropTaken(q, taken, l);
    var dropped := taken.(live := q.live, returned := [l]);
    DrainTaken(dropped, q.slot, index, qbufOk);
    TurnEnds(Run(dropped, ReturnEvents(dropped, qbufOk)));
  }

  // ---------------------------------------------------------------- frames the decoder takes, and refused ones

  /** A frame the decoder takes is out; one that it displaces comes back in the next iteration. */
  lemma DecoderTakesFrame(q: Protocol, index: nat, displaced: Option<Lease>, qbufOk: nat -> bool)
    requires AtRest(q) && Streams(q) && (displaced.Some? ==> displaced.value in q.live)
    requires index < |q.slot.source.queued| && q.slot.source.queued[index]
    ensures var taken := Leased(q, index);
            Run(q, SnapshotEvents(q, Readable(index, ToDecoder(displaced)), qbufOk))
            == if displaced == None then taken
               else taken.(live := taken.live - multiset{displaced.value}, returned := q.returned + [displaced.value])
  {
    hide ServeEvents, SnapshotEvents, FaultEvents, Step, Run, LeaseOn, V.Dequeue;
    var p := q.(polling := true);
    TurnIsServed(q, Readable(index, ToDecoder(displaced)), qbufOk);
    FrameIsServed(p, index, ToDecoder(displaced), qbufOk);
    var taken := Leased(p, index);
    if displaced == None {
      RunNothing(taken);
      TurnEnds(taken);
    } else {
      DropOne(taken, displaced.value);
      TurnEnds(Run(taken, [DropLease(displaced.value)]));
    }
  }

  lemma DropOne(p: Protocol, l: Lease)
    requires l in p.live
    ensures Run(p, [DropLease(l)]) == p.(live := p.live - multiset{l}, returned := p.returned + [l])
  {
    hide Run;
    RunSingle(p, DropLease(l));
    assert Step(p, DropLease(l)) == p.(live := p.live - multiset{l}, returned := p.returned + [l]);
  }

  /** The slot that a refusal leaves behind, with as many frames counted as given. */
  function RefusedBy(s: Slot, index: nat, inFlight: nat): Slot
    requires index < |s.source.queued|
  {
    s.(state := Error, source := V.Dequeue(s.source, index),
       rt := s.rt.(requiresDeviceReopen := false, recoveryGeneration := s.rt.recoveryGeneration + 1,
                   inFlightFrames := inFlight))
  }

  /** The lease of a refused frame, drained behind the failure: uncounted, and its buffer stays with nobody. */
  lemma DrainRefused(p: Protocol, l: Lease, qbufOk: nat -> bool)
    requires p.present && p.posting == multiset{} && p.returned == [l] && p.slot.state == Error
    requires l.generation == p.slot.rt.leaseGeneration > 0 && p.slot.rt.inFlightFrames > 0
    ensures Run(p, ReturnEvents(p, qbufOk))
         == p.(slot := p.slot.(rt := p.slot.rt.(inFlightFrames := p.slot.rt.inFlightFrames - 1)), returned := [])
  {
    ReturnsAreDrained(p, qbufOk);
    var oks := seq(|p.returned|, i requires i >= 0 => qbufOk(i));
    assert [l][1..] == [] && oks[1..] == [];
    assert DrainAllOn(p.slot, [l], oks).1 == [] + [];
    assert p.queue + [] == p.queue;
  }

  /** A sink's refusal fails the camera, which is then to be restarted without a rebuild. */
  lemma RefusalFailsCamera(q: Protocol, index: nat, kept: bool, qbufOk: nat -> bool)
    requires AtRest(q) && Streams(q) && q.returned == [] && q.slot.rt.leaseGeneration > 0
    requires index < |q.slot.source.queued| && q.slot.source.queued[index]
    ensures var counted := q.slot.rt.inFlightFrames + if kept then 1 else 0;
            Run(q, SnapshotEvents(q, Readable(index, SinkRefuses(kept)), qbufOk))
            == q.(slot := RefusedBy(q.slot, index, counted),
                  queue := q.queue + [ProcessError(q.slot.rt.recoveryGeneration + 1)],
                  live := if kept then q.live + multiset{Lease(index, q.slot.rt.leaseGeneration)} else q.live)
  {
    hide ServeEvents, ReturnEvents, SnapshotEvents, FaultEvents, Step, Run;
    var p, l := q.(polling := true), Lease(index, q.slot.rt.leaseGeneration);
    var taken := Leased(p, index);
    TurnIsServed(q, Readable(index, SinkRefuses(kept)), qbufOk);
    FrameIsServed(p, index, SinkRefuses(kept), qbufOk);
    FaultIsReported(taken, false);
    var failed := Run(taken, FaultEvents(taken, false));
    RunConcat(taken, FaultEvents(taken, false), DropEvents(l, kept));
    RefusedAfterwards(q, failed, l, kept, qbufOk);
    var delivered := Run(failed, DropEvents(l, kept));
    TurnEnds(Run(delivered, ReturnEvents(delivered, qbufOk)));
  }

  lemma RefusedAfterwards(q: Protocol, failed: Protocol, l: Lease, kept: bool, qbufOk: nat -> bool)
    requires failed.present && failed.posting == multiset{} && failed.returned == [] && failed.slot.state == Error
    requires failed.live == q.live + multiset{l} && l.generation == failed.slot.rt.leaseGeneration > 0
    requires failed.slot.rt.inFlightFrames > 0
    ensures var delivered := Run(failed, DropEvents(l, kept));
            Run(delivered, ReturnEvents(delivered, qbufOk))
            == if kept then failed
               else failed.(slot := failed.slot.(rt := failed.slot.rt.(inFlightFrames :=
                                                   failed.slot.rt.inFlightFrames - 1)),
                            live := q.live)
  {
    hide ReturnEvents, Step, Run;
    if kept {
      RunNothing(failed);
      NothingToDrain(failed, qbufOk);
    } else {
      DropTaken(q, failed, l);
      DrainRefused(failed.(live := q.live, returned := [l]), l, qbufOk);
    }
  }

  /** So does the decoder's; the frame is back before the failure. */
  lemma DecoderRefusalFailsCamera(q: Protocol, index: nat, qbufOk: nat -> bool)
    requires AtRest(q) && Streams(q) && q.returned == [] && q.slot.rt.leaseGeneration > 0
    requires index < |q.slot.source.queued| && q.slot.source.queued[index]
    ensures Run(q, SnapshotEvents(q, Readable(index, DecoderRefuses), qbufOk))
         == q.(slot := RefusedBy(q.slot, index, q.slot.rt.inFlightFrames),
               queue := q.queue + [ProcessError(q.slot.rt.recoveryGeneration + 1)])
  {
    hide ServeEvents, ReturnEvents, SnapshotEvents, FaultEvents, Step, Run;
    var p, l := q.(polling := true), Lease(index, q.slot.rt.leaseGeneration);
    var taken := Leased(p, index);
    var dropped := taken.(live := q.live, returned := [l]);
    TurnIsServed(q, Readable(index, DecoderRefuses), qbufOk);
    FrameIsServed(p, index, DecoderRefuses, qbufOk);
    DropTaken(q, taken, l);
    FaultIsReported(dropped, false);
    RunConcat(taken, DropEvents(l, false), FaultEvents(dropped, false));
    var failed := Run(dropped, FaultEvents(dropped, false));
    DrainRefused(failed, l, qbufOk);
    TurnEnds(Run(failed, ReturnEvents(failed, qbufOk)));
  }
}
