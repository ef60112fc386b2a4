/** Counting frames by lease generation. A frame of the current generation is uncounted when it comes back; one of an
    older generation never is. And counting buffers: which of them nobody holds shows in the manager's own fields. */
module CameraAccounting {
  import opened Options
  import V = V4L2CameraSource
  import opened CameraProtocol
  import opened CameraSafety
  import opened CameraConservation

  // ---------------------------------------------------------------- frames that can still be uncounted

  ghost function OfGeneration(leases: multiset<Lease>, generation: nat): (r: multiset<Lease>)
    ensures forall l :: r[l] == if l.generation == generation then leases[l] else 0
    decreases |leases|
  {
    if leases == multiset{} then multiset{}
    else
      var l :| l in leases;
      (if l.generation == generation then multiset{l} else multiset{}) + OfGeneration(leases - multiset{l}, generation)
  }

  lemma SameLeases(a: multiset<Lease>, b: multiset<Lease>)
    requires forall l :: a[l] == b[l]
    ensures a == b
  {
  }

  lemma OneMore(a: multiset<Lease>, b: multiset<Lease>, l: Lease, counted: bool)
    requires forall x :: b[x] == a[x] + (if counted && x == l then 1 else 0)
    ensures |b| == |a| + (if counted then 1 else 0)
  {
    SameLeases(b, if counted then a + multiset{l} else a);
  }

  /** One lease more. */
  lemma OfGenerationPlus(leases: multiset<Lease>, more: multiset<Lease>, l: Lease, generation: nat)
    requires more == leases + multiset{l}
    ensures |OfGeneration(more, generation)|
         == |OfGeneration(leases, generation)| + (if l.generation == generation then 1 else 0)
  {
    OneMore(OfGeneration(leases, generation), OfGeneration(more, generation), l, l.generation == generation);
  }

  /** Frames out under the current lease generation, with their holders or on their way back. */
  ghost function Out(p: Protocol): nat {
    |OfGeneration(p.live + multiset(p.returned), p.slot.rt.leaseGeneration)|
  }

  /** Frames that are counted and can never be uncounted: nobody has them, or their generation is over. */
  ghost function Uncountable(p: Protocol): int {
    p.slot.rt.inFlightFrames - Out(p)
  }

  /** What is out depends on the leases and the generation alone. */
  lemma SameOut(p: Protocol, q: Protocol)
    requires q.live + multiset(q.returned) == p.live + multiset(p.returned)
    requires q.slot.rt.leaseGeneration == p.slot.rt.leaseGeneration
    ensures Out(q) == Out(p)
  {
  }

  lemma ReturnedPop(returned: seq<Lease>, generation: nat)
    requires returned != []
    ensures |OfGeneration(multiset(returned), generation)|
         == |OfGeneration(multiset(returned[1..]), generation)|
            + (if returned[0].generation == generation then 1 else 0)
  {
    assert returned == [returned[0]] + returned[1..];
    OfGenerationPlus(multiset(returned[1..]), multiset(returned), returned[0], generation);
  }

  lemma {:induction false} ReturnedOfGeneration(returned: seq<Lease>, generation: nat)
    requires generation > 0
    ensures |OfGeneration(multiset(returned), generation)| <= NonZero(returned)
    decreases |returned|
  {
    if returned == [] {
      assert OfGeneration(multiset(returned), generation) == multiset{};
    } else {
      ReturnedPop(returned, generation);
      ReturnedOfGeneration(returned[1..], generation);
    }
  }

  lemma {:induction false} AllReturnedOfGeneration(returned: seq<Lease>, generation: nat)
    requires generation > 0 && forall l | l in returned :: l.generation == 0 || l.generation == generation
    ensures |OfGeneration(multiset(returned), generation)| == NonZero(returned)
    decreases |returned|
  {
    if returned == [] {
      assert OfGeneration(multiset(returned), generation) == multiset{};
    } else {
      assert returned[0] in returned;
      ReturnedPop(returned, generation);
      AllReturnedOfGeneration(returned[1..], generation);
    }
  }

  lemma OutSplits(p: Protocol)
    ensures Out(p) == |OfGeneration(p.live, p.slot.rt.leaseGeneration)|
                      + |OfGeneration(multiset(p.returned), p.slot.rt.leaseGeneration)|
  {
    var g := p.slot.rt.leaseGeneration;
    assert OfGeneration(p.live + multiset(p.returned), g)
        == OfGeneration(p.live, g) + OfGeneration(multiset(p.returned), g);
  }

  lemma SubsetIsSmaller(a: multiset<Lease>, b: multiset<Lease>)
    requires a <= b
    ensures |a| <= |b|
  {
    assert b == a + (b - a);
  }

  /** No run undercounts, so nothing is uncounted twice. */
  lemma OutIsCounted(p: Protocol)
    requires Inv(p)
    ensures Out(p) <= p.slot.rt.inFlightFrames
  {
    OutSplits(p);
    ReturnedOfGeneration(p.returned, p.slot.rt.leaseGeneration);
    SubsetIsSmaller(OfGeneration(p.live, p.slot.rt.leaseGeneration), p.live);
  }

  lemma AllOfGeneration(leases: multiset<Lease>, generation: nat)
    requires forall l | l in leases :: l.generation == generation
    ensures OfGeneration(leases, generation) == leases
  {
    SameLeases(OfGeneration(leases, generation), leases);
  }

  /** Where counts are exact, everything counted is out under the current generation. */
  lemma ExactMeansOut(p: Protocol)
    requires Generations(p) && Exact(p) && p.present
    ensures Out(p) == p.slot.rt.inFlightFrames
  {
    OutSplits(p);
    AllReturnedOfGeneration(p.returned, p.slot.rt.leaseGeneration);
    AllOfGeneration(p.live, p.slot.rt.leaseGeneration);
  }

  // ---------------------------------------------------------------- while the camera does not stream

  lemma DownExecKeepsGeneration(s: Slot, c: Command, reply: DriverReply, now: int)
    requires ExecOn(s, c, reply, now).state != Streaming
    ensures ExecOn(s, c, reply, now).rt.leaseGeneration == s.rt.leaseGeneration
    ensures ExecOn(s, c, reply, now).rt.inFlightFrames == s.rt.inFlightFrames
  {
  }

  /** What is out without the first returned lease. */
  lemma OutAfterPop(p: Protocol)
    requires p.returned != []
    ensures Out(p) == |OfGeneration(p.live + multiset(p.returned[1..]), p.slot.rt.leaseGeneration)|
                      + (if p.returned[0].generation == p.slot.rt.leaseGeneration then 1 else 0)
  {
    PopReturned(p);
    OfGenerationPlus(p.live + multiset(p.returned[1..]), p.live + multiset(p.returned), p.returned[0],
                     p.slot.rt.leaseGeneration);
  }

  lemma DrainKeepsUncountable(p: Protocol, qbufOk: bool)
    requires Inv(p) && p.present
    ensures Uncountable(Step(p, Drain(qbufOk))) == Uncountable(p)
  {
    if p.returned != [] {
      OutIsCounted(p);
      OutAfterPop(p);
      DrainUncounts(p, Step(p, Drain(qbufOk)), qbufOk);
    }
  }

  /** A return of the current generation is out no more and counted no more; any other changes neither. */
  lemma DrainUncounts(p: Protocol, q: Protocol, qbufOk: bool)
    requires p.returned != [] && Out(p) <= p.slot.rt.inFlightFrames && p.slot.rt.leaseGeneration > 0
    requires q.slot == DrainOn(p.slot, p.returned[0], qbufOk).0 && q.live == p.live && q.returned == p.returned[1..]
    ensures Uncountable(q) == Uncountable(p)
  {
    DrainHasEffect(p.slot, p.returned[0], qbufOk);
    OutAfterPop(p);
  }

  lemma LeaseComesBack(live: multiset<Lease>, returned: seq<Lease>, l: Lease)
    requires l in live
    ensures live - multiset{l} + multiset(returned + [l]) == live + multiset(returned)
  {
  }

  lemma LeaseIsAdded(live: multiset<Lease>, returned: seq<Lease>, l: Lease)
    ensures live + multiset(returned + [l]) == live + multiset(returned) + multiset{l}
  {
  }

  lemma DropKeepsUncountable(p: Protocol, l: Lease)
    ensures Uncountable(Step(p, DropLease(l))) == Uncountable(p)
  {
    if l in p.live {
      LeaseComesBack(p.live, p.returned, l);
      SameOut(p, Step(p, DropLease(l)));
    }
  }

  lemma OtherGenerationIsNotOut(p: Protocol, q: Protocol, l: Lease)
    requires q.slot == p.slot && q.live == p.live && q.returned == p.returned + [l]
    requires l.generation != p.slot.rt.leaseGeneration
    ensures Out(q) == Out(p)
  {
    LeaseIsAdded(p.live, p.returned, l);
    OfGenerationPlus(p.live + multiset(p.returned), q.live + multiset(q.returned), l, p.slot.rt.leaseGeneration);
  }

  lemma ParkKeepsUncountable(p: Protocol)
    requires p.slot.rt.leaseGeneration > 0 && p.slot.state != Streaming
    ensures Uncountable(Step(p, MakeLease)) == Uncountable(p)
  {
    if p.holding.Some? {
      OtherGenerationIsNotOut(p, Step(p, MakeLease), Lease(p.holding.value, 0));
    }
  }

  lemma ExecKeepsUncountable(p: Protocol, reply: DriverReply, now: int)
    requires Step(p, Exec(reply, now)).slot.state != Streaming
    ensures Uncountable(Step(p, Exec(reply, now))) == Uncountable(p)
  {
    var q := Step(p, Exec(reply, now));
    if q.slot != p.slot {
      DownExecKeepsGeneration(p.slot, p.queue[0], reply, now);
    }
    SameOut(p, q);
  }

  /** As long as the camera does not stream, no step changes how many frames can never be uncounted. */
  lemma DownStepKeepsUncountable(p: Protocol, e: Event)
    requires Inv(p) && p.present && p.slot.state != Streaming && Step(p, e).slot.state != Streaming
    ensures Uncountable(Step(p, e)) == Uncountable(p)
  {
    match e
    case Exec(reply, now) => ExecKeepsUncountable(p, reply, now);
    case Drain(qbufOk) => DrainKeepsUncountable(p, qbufOk);
    case DropLease(l) => DropKeepsUncountable(p, l);
    case MakeLease => ParkKeepsUncountable(p);
    case Dequeue(_) => SameOut(p, Step(p, e));
    case _ =>
      FlagStep(p, e);
      SameOut(p, Step(p, e));
  }

  // ---------------------------------------------------------------- buffers nobody holds

  /** Set bits among the first n. */
  function Queued(bits: seq<bool>, n: nat): nat
    requires n <= |bits|
  {
    if n == 0 then 0 else Queued(bits, n - 1) + (if bits[n - 1] then 1 else 0)
  }

  /** Leases of one generation on the first n buffers. */
  function LeasesBelow(leases: multiset<Lease>, generation: nat, n: nat): nat {
    if n == 0 then 0 else LeasesBelow(leases, generation, n - 1) + leases[Lease(n - 1, generation)]
  }

  lemma {:induction false} LeasesBelowAgree(a: multiset<Lease>, b: multiset<Lease>, generation: nat, n: nat)
    requires forall i: nat | i < n :: a[Lease(i, generation)] == b[Lease(i, generation)]
    ensures LeasesBelow(a, generation, n) == LeasesBelow(b, generation, n)
    decreases n
  {
    if n > 0 {
      LeasesBelowAgree(a, b, generation, n - 1);
    }
  }

  /** If all leases are of that generation and on those buffers, counting by buffer counts them all. */
  lemma {:induction false} AllLeasesAreBelow(leases: multiset<Lease>, generation: nat, n: nat)
    requires forall l | l in leases :: l.generation == generation && l.index < n
    ensures LeasesBelow(leases, generation, n) == |leases|
    decreases n
  {
    if n == 0 {
      assert leases == multiset{};
    } else {
      var l := Lease(n - 1, generation);
      var rest := leases[l := 0];
      forall x | x in rest ensures x.generation == generation && x.index < n - 1 {
        assert x in leases && x != l;
      }
      AllLeasesAreBelow(rest, generation, n - 1);
      LeasesBelowAgree(rest, leases, generation, n - 1);
    }
  }

  /** With at most one holder each, some buffer has none exactly when there are fewer holders than buffers. */
  lemma {:induction false} FewerHoldersThanBuffers(bits: seq<bool>, leases: multiset<Lease>, generation: nat, n: nat)
    requires n <= |bits|
    requires forall i: nat | i < n :: (if bits[i] then 1 else 0) + leases[Lease(i, generation)] <= 1
    ensures Queued(bits, n) + LeasesBelow(leases, generation, n) <= n
    ensures Queued(bits, n) + LeasesBelow(leases, generation, n) < n
       <==> exists i: nat :: i < n && !bits[i] && leases[Lease(i, generation)] == 0
    decreases n
  {
    if n > 0 {
      FewerHoldersThanBuffers(bits, leases, generation, n - 1);
      var last := (if bits[n - 1] then 1 else 0) + leases[Lease(n - 1, generation)];
      assert last <= 1;
      if last == 0 {
        assert !bits[n - 1] && leases[Lease(n - 1, generation)] == 0;
      }
    }
  }

  /** Holder counts, seen through the leases of the current generation. */
  lemma HoldersByGeneration(p: Protocol, i: nat)
    requires p.holding == None
    ensures Holders(p, i)
         == (if Owned(p.slot.source, i) then 1 else 0)
            + OfGeneration(p.live + multiset(p.returned), p.slot.rt.leaseGeneration)
                [Lease(i, p.slot.rt.leaseGeneration)]
  {
  }

  lemma ParkedIsCountable(p: Protocol)
    requires AtMostOneHolder(p) && InRange(p) && p.holding == None
    ensures Parked(p) <==> Queued(p.slot.source.queued, |p.slot.source.queued|) + Out(p) < |p.slot.source.queued|
  {
    var bits, g, n := p.slot.source.queued, p.slot.rt.leaseGeneration, |p.slot.source.queued|;
    var leases := OfGeneration(p.live + multiset(p.returned), g);
    forall l | l in leases ensures l.generation == g && l.index < n {
      assert l in p.live || l in multiset(p.returned);
    }
    AllLeasesAreBelow(leases, g, n);
    forall i: nat | i < n ensures (if bits[i] then 1 else 0) + leases[Lease(i, g)] == Holders(p, i) <= 1 {
      HoldersByGeneration(p, i);
    }
    FewerHoldersThanBuffers(bits, leases, g, n);
  }

  /** The condition in the manager's own fields: fewer queued bits and counted frames than buffers. */
  predicate CountsFallShort(s: Slot) {
    Queued(s.source.queued, |s.source.queued|) + s.rt.inFlightFrames < |s.source.queued|
  }

  /** A caller can tell a stranding start before it executes: after any hazard-free run, when a command can execute,
      some buffer belongs to nobody if and only if queued bits and counted frames are fewer than the buffers. */
  lemma StrandingIsVisible(p: Protocol, es: seq<Event>)
    requires Initial(p) && HazardFree(p, es)
    requires Run(p, es).present && !Run(p, es).polling
    ensures Parked(Run(p, es)) <==> CountsFallShort(Run(p, es).slot)
    ensures Stranding(Run(p, es)) <==> Resumes(Run(p, es)) && CountsFallShort(Run(p, es).slot)
  {
    InitialInv(p);
    RunKeepsInv(p, es);
    var q := Run(p, es);
    ExactMeansOut(q);
    ParkedIsCountable(q);
  }
}
