/** Buffer safety of the lease protocol, over every run.
    `Inv` holds of every run. `Exact` (frames are counted exactly, no buffer is used twice) holds of every run in which
    no StartCamera executes on a failed camera that still has frames out; that hypothesis cannot be dropped. That no
    buffer is lost is the subject of CameraConservation. */
module CameraSafety {
  import opened Options
  import V = V4L2CameraSource
  import opened CameraProtocol

  // ---------------------------------------------------------------- where a buffer can be

  /** Returned leases that will be counted: those of a real generation. */
  function NonZero(q: seq<Lease>): nat
    decreases |q|
  {
    if q == [] then 0 else (if q[0].generation != 0 then 1 else 0) + NonZero(q[1..])
  }

  lemma {:induction false} NonZeroAppend(q: seq<Lease>, l: Lease)
    ensures NonZero(q + [l]) == NonZero(q) + (if l.generation != 0 then 1 else 0)
    decreases |q|
  {
    if q == [] {
      assert q + [l] == [l];
    } else {
      assert (q + [l])[1..] == q[1..] + [l];
      NonZeroAppend(q[1..], l);
    }
  }

  lemma {:induction false} NoneNonZero(q: seq<Lease>)
    requires NonZero(q) == 0
    ensures forall l | l in q :: l.generation == 0
    decreases |q|
  {
    if q != [] {
      NoneNonZero(q[1..]);
      assert q == [q[0]] + q[1..];
    }
  }

  predicate Owned(s: V.Source, i: nat) {
    i < |s.queued| && s.queued[i]
  }

  /** How many holders buffer i has: the driver, a live lease or an unprocessed return of the current
      generation, or the poll thread between DQBUF and lease creation. A buffer without a holder is parked. */
  function Holders(p: Protocol, i: nat): nat {
    var l := Lease(i, p.slot.rt.leaseGeneration);
    (if Owned(p.slot.source, i) then 1 else 0) + p.live[l] + multiset(p.returned)[l]
    + (if p.holding == Some(i) then 1 else 0)
  }

  ghost predicate AtMostOneHolder(p: Protocol) {
    forall i: nat :: Holders(p, i) <= 1
  }

  ghost predicate InRange(p: Protocol) {
    var g, n := p.slot.rt.leaseGeneration, |p.slot.source.queued|;
    && (forall l | l in p.live && l.generation == g :: l.index < n)
    && (forall l | l in p.returned && l.generation == g :: l.index < n)
    && (p.holding.Some? ==> p.holding.value < n)
  }

  // ---------------------------------------------------------------- invariants

  /** inFlightFrames never undercounts the frames that are out, over all generations. */
  ghost predicate NeverUndercounts(p: Protocol) {
    |p.live| + NonZero(p.returned) <= p.slot.rt.inFlightFrames
  }

  ghost predicate Generations(p: Protocol) {
    && p.slot.rt.leaseGeneration >= 1
    && (forall l | l in p.live :: 1 <= l.generation <= p.slot.rt.leaseGeneration)
    && (forall l | l in p.returned :: l.generation <= p.slot.rt.leaseGeneration)
  }

  /** The slot's state never claims more than the source delivers. */
  ghost predicate Modes(p: Protocol) {
    && SlotModes(p.slot)
    && (p.polling ==> p.slot.source.st == V.Streaming)
    && (p.holding.Some? ==> p.polling)
  }

  /** Holds of every run. */
  ghost predicate Inv(p: Protocol) {
    && NeverUndercounts(p) && Generations(p) && Modes(p)
    && (p.slot.source.st == V.Streaming ==> AtMostOneHolder(p) && InRange(p))
  }

  /** Every frame out is of the current generation, is counted exactly once, and shares its buffer with nobody. */
  ghost predicate Exact(p: Protocol) {
    && (p.present ==> p.slot.rt.inFlightFrames == |p.live| + NonZero(p.returned))
    && (forall l | l in p.live :: l.generation == p.slot.rt.leaseGeneration)
    && (forall l | l in p.returned :: l.generation == 0 || l.generation == p.slot.rt.leaseGeneration)
    && AtMostOneHolder(p) && InRange(p)
  }

  /** The one unguarded path: StartCamera is next, the camera failed with its buffers still allocated and
      stopped, and frames are still out. */
  ghost predicate Hazard(p: Protocol) {
    p.present && !p.polling && p.queue != [] && HazardousStart(p.slot, p.queue[0])
  }

  ghost predicate HazardFree(p: Protocol, es: seq<Event>)
    decreases |es|
  {
    es == [] || ((es[0].Exec? ==> !Hazard(p)) && HazardFree(Step(p, es[0]), es[1..]))
  }

  // ---------------------------------------------------------------- one slot operation at a time

  /** No frame of a real generation is out. */
  ghost predicate NothingOut(p: Protocol) {
    p.live == multiset{} && forall l | l in p.returned :: l.generation == 0
  }

  lemma ZeroInFlightMeansNothingOut(p: Protocol)
    requires NeverUndercounts(p) && p.slot.rt.inFlightFrames == 0
    ensures NothingOut(p)
  {
    NoneNonZero(p.returned);
  }

  /** StartCamera against a failed camera whose buffers are allocated and stopped while frames are out. */
  predicate HazardousStart(s: Slot, c: Command) {
    c == StartCamera && s.state == Error && s.source.st == V.BufferAllocated && s.rt.inFlightFrames > 0
  }

  /** What any executed command may do to the slot, as far as buffers are concerned. */
  predicate ExecEffect(s: Slot, c: Command, t: Slot) {
    && V.WellFormed(t.source) && (t.state == Streaming ==> t.source.st == V.Streaming)
    && (t.state == Created || t.state == Ready ==> t.state == s.state)
    && t.rt.inFlightFrames == s.rt.inFlightFrames
    && (t.rt.leaseGeneration == s.rt.leaseGeneration
        || (t.rt.leaseGeneration == s.rt.leaseGeneration + 1 && t.source.st == V.Streaming))
    && (t.rt.leaseGeneration == s.rt.leaseGeneration ==> t.source == s.source || t.source.st != V.Streaming)
    && (s.rt.inFlightFrames > 0 && !HazardousStart(s, c) ==>
          t.rt.leaseGeneration == s.rt.leaseGeneration && (t.source == s.source || t.source == V.Stop(s.source)))
  }

  ghost predicate SlotModes(s: Slot) {
    && V.WellFormed(s.source) && (s.state == Streaming ==> s.source.st == V.Streaming)
    && (s.state == Created || s.state == Ready ==> s.rt.inFlightFrames == 0)
  }

  /** A failed attempt leaves the source alone or stopped; a successful one leaves it streaming. */
  lemma RestartShape(s: Slot, reply: DriverReply)
    requires V.WellFormed(s.source)
    ensures var (t, ok) := AttemptRestart(s, reply);
            V.WellFormed(t) && (if ok then t.st == V.Streaming else t == s.source || t.st != V.Streaming)
  {
  }

  lemma ExecHasEffect(s: Slot, c: Command, reply: DriverReply, now: int)
    requires SlotModes(s)
    ensures ExecEffect(s, c, ExecOn(s, c, reply, now))
  {
    RestartShape(s, reply);
  }

  /** What draining one returned lease may do to the slot. */
  predicate DrainEffect(s: Slot, item: Lease, t: Slot) {
    && t.rt.leaseGeneration == s.rt.leaseGeneration
    && (t.state == s.state || (s.state == Streaming && t.state == Error))
    && t.rt.inFlightFrames == s.rt.inFlightFrames
         - (if item.generation != 0 && item.generation == s.rt.leaseGeneration && s.rt.inFlightFrames > 0 then 1 else 0)
    && (t.source == s.source
        || (item.generation == s.rt.leaseGeneration && s.source.st == V.Streaming && item.index < |s.source.queued|
            && t.source == s.source.(queued := s.source.queued[item.index := true])))
  }

  lemma DrainHasEffect(s: Slot, item: Lease, qbufOk: bool)
    ensures DrainEffect(s, item, DrainOn(s, item, qbufOk).0)
  {
  }

  /** Popping the return queue moves exactly one lease. */
  lemma PopReturned(p: Protocol)
    requires p.returned != []
    ensures multiset(p.returned) == multiset{p.returned[0]} + multiset(p.returned[1..])
    ensures forall l | l in p.returned[1..] :: l in p.returned
  {
    assert p.returned == [p.returned[0]] + p.returned[1..];
  }

  // ---------------------------------------------------------------- the buffer side of each step

  /** Steps that move no buffer keep every holder count. */
  lemma CarryBuffers(p: Protocol, q: Protocol)
    requires q.slot.source == p.slot.source && q.slot.rt.leaseGeneration == p.slot.rt.leaseGeneration
    requires q.live == p.live && q.returned == p.returned && q.holding == p.holding
    ensures forall i: nat :: Holders(q, i) == Holders(p, i)
    ensures AtMostOneHolder(p) ==> AtMostOneHolder(q)
    ensures InRange(p) ==> InRange(q)
  {
    assert forall i: nat :: Holders(q, i) == Holders(p, i);
  }

  /** STREAMOFF takes every buffer from the driver and gives none to anybody. */
  lemma StopKeepsBuffers(p: Protocol, q: Protocol)
    requires q.slot.source == V.Stop(p.slot.source) && q.slot.rt.leaseGeneration == p.slot.rt.leaseGeneration
    requires q.live == p.live && q.returned == p.returned && q.holding == p.holding
    ensures AtMostOneHolder(p) ==> AtMostOneHolder(q)
    ensures InRange(p) ==> InRange(q)
  {
    if AtMostOneHolder(p) {
      forall i: nat ensures Holders(q, i) <= 1 {
        assert Holders(p, i) <= 1;
      }
    }
  }

  /** A source that just started has no current-generation frame out, whatever was out before. */
  lemma FreshStart(p: Protocol, q: Protocol)
    requires Generations(p) && p.holding == None
    requires q.slot.rt.leaseGeneration == p.slot.rt.leaseGeneration + 1
    requires q.live == p.live && q.returned == p.returned && q.holding == None
    ensures AtMostOneHolder(q) && InRange(q)
  {
    forall i: nat ensures Holders(q, i) <= 1 {
      var l := Lease(i, q.slot.rt.leaseGeneration);
      assert l !in p.live && l !in p.returned && l !in multiset(p.returned);
    }
  }

  /** With nothing out, only the driver can hold a buffer. */
  lemma NothingOutIsSafe(q: Protocol)
    requires NothingOut(q) && q.holding == None && q.slot.rt.leaseGeneration >= 1
    ensures AtMostOneHolder(q) && InRange(q)
  {
    forall i: nat ensures Holders(q, i) <= 1 {
      var l := Lease(i, q.slot.rt.leaseGeneration);
      assert l !in q.returned && l !in multiset(q.returned);
    }
  }

  /** A returned lease gives its buffer to the driver or parks it. */
  lemma DrainKeepsBuffers(p: Protocol, q: Protocol)
    requires p.returned != [] && q.returned == p.returned[1..] && q.live == p.live && q.holding == p.holding
    requires DrainEffect(p.slot, p.returned[0], q.slot)
    requires AtMostOneHolder(p) && InRange(p)
    ensures AtMostOneHolder(q) && InRange(q)
  {
    PopReturned(p);
    forall i: nat ensures Holders(q, i) <= 1 {
      assert Holders(p, i) <= 1;
    }
  }

  // ---------------------------------------------------------------- every step

  lemma ExecKeepsInv(p: Protocol, reply: DriverReply, now: int)
    requires Inv(p)
    ensures Inv(Step(p, Exec(reply, now)))
    ensures Exact(p) && !Hazard(p) ==> Exact(Step(p, Exec(reply, now)))
  {
    var q := Step(p, Exec(reply, now));
    if p.queue != [] && !p.polling && p.present && !p.queue[0].DeleteCamera? {
      ExecHasEffect(p.slot, p.queue[0], reply, now);
      ExecutedKeepsInv(p, p.queue[0], q);
    } else {
      CarryBuffers(p, q);
    }
  }

  lemma ExecutedKeepsInv(p: Protocol, c: Command, q: Protocol)
    requires Inv(p) && !p.polling
    requires ExecEffect(p.slot, c, q.slot)
    requires q.live == p.live && q.returned == p.returned && q.holding == p.holding && !q.polling
             && q.present == p.present
    ensures Inv(q)
    ensures Exact(p) && !HazardousStart(p.slot, c) ==> Exact(q)
  {
    if q.slot.rt.leaseGeneration != p.slot.rt.leaseGeneration {
      FreshStart(p, q);
    } else if q.slot.source == p.slot.source {
      CarryBuffers(p, q);
    }
    if p.slot.rt.inFlightFrames == 0 {
      ZeroInFlightMeansNothingOut(p);
      NothingOutIsSafe(q);
    } else if q.slot.source == V.Stop(p.slot.source) && q.slot.rt.leaseGeneration == p.slot.rt.leaseGeneration {
      StopKeepsBuffers(p, q);
    }
  }

  lemma DrainKeepsInv(p: Protocol, qbufOk: bool)
    requires Inv(p)
    ensures Inv(Step(p, Drain(qbufOk)))
    ensures Exact(p) ==> Exact(Step(p, Drain(qbufOk)))
  {
    if p.returned != [] {
      var q := Step(p, Drain(qbufOk));
      DrainHasEffect(p.slot, p.returned[0], qbufOk);
      DrainedKeepsInv(p, q);
    }
  }

  lemma DrainedKeepsInv(p: Protocol, q: Protocol)
    requires Inv(p)
    requires p.returned != [] && q.returned == p.returned[1..] && q.live == p.live && q.holding == p.holding
    requires q.polling == p.polling && q.present == p.present
    requires if p.present then DrainEffect(p.slot, p.returned[0], q.slot) else q.slot == p.slot
    ensures Inv(q)
    ensures Exact(p) ==> Exact(q)
  {
    PopReturned(p);
    if AtMostOneHolder(p) && InRange(p) {
      if p.present {
        DrainKeepsBuffers(p, q);
      } else {
        forall i: nat ensures Holders(q, i) <= 1 {
          assert Holders(p, i) <= 1;
        }
      }
    }
  }

  lemma DropKeepsInv(p: Protocol, l: Lease)
    requires Inv(p)
    ensures Inv(Step(p, DropLease(l)))
    ensures Exact(p) ==> Exact(Step(p, DropLease(l)))
  {
    if l in p.live {
      NonZeroAppend(p.returned, l);
      DroppedKeepsBuffers(p, Step(p, DropLease(l)), l);
    }
  }

  /** A lease that turns into a return still holds its buffer. */
  lemma DroppedKeepsBuffers(p: Protocol, q: Protocol, l: Lease)
    requires q.slot == p.slot && q.holding == p.holding
    requires l in p.live && q.live == p.live - multiset{l} && q.returned == p.returned + [l]
    ensures forall i: nat :: Holders(q, i) == Holders(p, i)
    ensures AtMostOneHolder(p) ==> AtMostOneHolder(q)
    ensures InRange(p) ==> InRange(q)
  {
    assert multiset(q.returned) == multiset(p.returned) + multiset{l};
    assert forall i: nat :: Holders(q, i) == Holders(p, i);
  }

  lemma DequeueKeepsInv(p: Protocol, index: nat)
    requires Inv(p)
    ensures Inv(Step(p, Dequeue(index)))
    ensures Exact(p) ==> Exact(Step(p, Dequeue(index)))
  {
    var q := Step(p, Dequeue(index));
    if q != p {
      forall i: nat ensures Holders(q, i) <= 1 {
        assert Holders(p, i) <= 1;
      }
    }
  }

  lemma MakeLeaseKeepsInv(p: Protocol)
    requires Inv(p)
    ensures Inv(Step(p, MakeLease))
    ensures Exact(p) ==> Exact(Step(p, MakeLease))
  {
    if p.holding.Some? {
      var q := Step(p, MakeLease);
      if p.present && p.slot.state == Streaming {
        LeasedKeepsBuffers(p, q);
      } else {
        NonZeroAppend(p.returned, Lease(p.holding.value, 0));
        UnleasedKeepsBuffers(p, q);
      }
    }
  }

  /** The dequeued buffer passes from the poll thread to a lease of the current generation. */
  lemma LeasedKeepsBuffers(p: Protocol, q: Protocol)
    requires p.holding.Some? && q.holding == None && q.slot.source == p.slot.source
    requires q.slot.rt.leaseGeneration == p.slot.rt.leaseGeneration
    requires q.live == p.live + multiset{Lease(p.holding.value, p.slot.rt.leaseGeneration)} && q.returned == p.returned
    ensures forall i: nat :: Holders(q, i) == Holders(p, i)
    ensures AtMostOneHolder(p) ==> AtMostOneHolder(q)
    ensures InRange(p) ==> InRange(q)
  {
    assert forall i: nat :: Holders(q, i) == Holders(p, i);
  }

  /** The dequeued buffer is parked: a return of generation 0 holds nothing. */
  lemma UnleasedKeepsBuffers(p: Protocol, q: Protocol)
    requires p.holding.Some? && q.holding == None && q.slot == p.slot && p.slot.rt.leaseGeneration > 0
    requires q.live == p.live && q.returned == p.returned + [Lease(p.holding.value, 0)]
    ensures AtMostOneHolder(p) ==> AtMostOneHolder(q)
    ensures InRange(p) ==> InRange(q)
  {
    if AtMostOneHolder(p) {
      assert multiset(q.returned) == multiset(p.returned) + multiset{Lease(p.holding.value, 0)};
      forall i: nat ensures Holders(q, i) <= 1 {
        assert Holders(p, i) <= 1;
      }
    }
  }

  /** The slot changes only in its flags: no buffer, no counter, no generation of leases. */
  predicate FlagsOnly(s: Slot, t: Slot) {
    && t.source == s.source && t.rt.inFlightFrames == s.rt.inFlightFrames
    && t.rt.leaseGeneration == s.rt.leaseGeneration
    && (t.state == s.state || t.state == Error || t.state == Deleting)
  }

  lemma RequestsAndChecksKeepInv(p: Protocol, e: Event)
    requires Inv(p)
    requires UserRequest(e) || e.Post? || e.Check? || e.Snapshot? || e.Fault? || e.EndPoll?
    ensures Inv(Step(p, e))
    ensures Exact(p) ==> Exact(Step(p, e))
  {
    FlagStep(p, e);
    FlagsKeepInv(p, Step(p, e));
  }

  lemma FlagStep(p: Protocol, e: Event)
    requires Modes(p)
    requires UserRequest(e) || e.Post? || e.Check? || e.Snapshot? || e.Fault? || e.EndPoll?
    ensures var q := Step(p, e);
            && FlagsOnly(p.slot, q.slot) && q.live == p.live && q.returned == p.returned && q.holding == p.holding
            && (q.present ==> p.present) && Modes(q)
  {
    match e
    case UserStart => CommandStep(p, e);
    case UserStop => CommandStep(p, e);
    case UserDelete(_) => CommandStep(p, e);
    case Post(_) => CommandStep(p, e);
    case Snapshot => CommandStep(p, e);
    case EndPoll => CommandStep(p, e);
    case _ => FaultStep(p, e);
  }

  lemma CommandStep(p: Protocol, e: Event)
    requires Modes(p)
    requires e.UserStart? || e.UserStop? || e.UserDelete? || e.Post? || e.Snapshot? || e.EndPoll?
    ensures var q := Step(p, e);
            && FlagsOnly(p.slot, q.slot) && q.live == p.live && q.returned == p.returned && q.holding == p.holding
            && (q.present ==> p.present) && Modes(q)
  {
  }

  lemma FaultStep(p: Protocol, e: Event)
    requires Modes(p)
    requires e.UserRecover? || e.Check? || e.Fault?
    ensures var q := Step(p, e);
            && FlagsOnly(p.slot, q.slot) && q.live == p.live && q.returned == p.returned && q.holding == p.holding
            && (q.present ==> p.present) && Modes(q)
  {
  }

  lemma FlagsKeepInv(p: Protocol, q: Protocol)
    requires Inv(p) && FlagsOnly(p.slot, q.slot) && Modes(q) && (q.present ==> p.present)
    requires q.live == p.live && q.returned == p.returned && q.holding == p.holding
    ensures Inv(q)
    ensures Exact(p) ==> Exact(q)
  {
    CarryBuffers(p, q);
  }

  lemma StepKeepsInv(p: Protocol, e: Event)
    requires Inv(p)
    ensures Inv(Step(p, e))
    ensures Exact(p) && (e.Exec? ==> !Hazard(p)) ==> Exact(Step(p, e))
  {
    match e
    case Exec(reply, now) => ExecKeepsInv(p, reply, now);
    case Drain(qbufOk) => DrainKeepsInv(p, qbufOk);
    case DropLease(l) => DropKeepsInv(p, l);
    case Dequeue(index) => DequeueKeepsInv(p, index);
    case MakeLease => MakeLeaseKeepsInv(p);
    case _ => RequestsAndChecksKeepInv(p, e);
  }

  // ---------------------------------------------------------------- every run

  lemma InitialInv(p: Protocol)
    requires Initial(p)
    ensures Inv(p) && Exact(p)
  {
    NothingOutIsSafe(p);
  }

  lemma {:induction false} RunKeepsInv(p: Protocol, es: seq<Event>)
    requires Inv(p)
    ensures Inv(Run(p, es))
    ensures Exact(p) && HazardFree(p, es) ==> Exact(Run(p, es))
    decreases |es|
  {
    if es != [] {
      StepKeepsInv(p, es[0]);
      RunKeepsInv(Step(p, es[0]), es[1..]);
    }
  }
}
