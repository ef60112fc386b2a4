/** The buffer-lease and recovery protocol of one registered camera, as a transition system.
    One poll thread executes commands, drains returned frames and dequeues; any other thread may post
    commands, request recovery or drop a frame lease between any two of those steps. */
module CameraProtocol {
  import opened Options
  import V = V4L2CameraSource

  datatype CameraState = Created | Ready | Streaming | Stopped | Deleting | Error

  datatype Command =
    | StartCamera
    | StopCamera
    | DeleteCamera
    | ProcessError(generation: nat)
    | RestartCamera(generation: nat)

  /** A frame handed downstream: the buffer it borrows and the lease generation it was made in.
      Generation 0 marks a frame that was dequeued after the camera left Streaming. */
  datatype Lease = Lease(index: nat, generation: nat)

  datatype Runtime = Runtime(
    recoveryGeneration: nat, leaseGeneration: nat, restartAttempts: nat, inFlightFrames: nat,
    startPending: bool, startQueued: bool, restartPending: bool, restartQueued: bool,
    requiresDeviceReopen: bool, nextRestartTime: int)

  datatype Slot = Slot(state: CameraState, bufferCount: int, source: V.Source, rt: Runtime)

  /** Everything the device may answer while one command executes. */
  datatype DriverReply = DriverReply(openOk: bool, configureOk: bool, setup: V.SetupReply, refused: set<int>,
                                     streamOn: bool)

  /** The driver that refuses nothing. */
  const WILLING: DriverReply :=
    DriverReply(true, true, V.SetupReply(1, true, 1, 1, {}, false, 0, 0, {}), {}, true)

  /** 0, 1, 2, 5, 10 seconds, and ten from then on. */
  function RestartBackoff(attempt: nat): (seconds: int)
    ensures attempt <= 1 ==> seconds == 0
    ensures attempt == 2 ==> seconds == 1
    ensures attempt == 3 ==> seconds == 2
    ensures attempt == 4 ==> seconds == 5
    ensures attempt >= 5 ==> seconds == 10
  {
    var index := if attempt == 0 then 0 else if attempt - 1 < 4 then attempt - 1 else 4;
    [0, 1, 2, 5, 10][index]
  }

  // ---------------------------------------------------------------- steps on the slot

  /** The fields every successful (re)start sets. */
  function Resumed(s: Slot): Slot {
    s.(state := Streaming,
       rt := s.rt.(restartAttempts := 0, startPending := false, startQueued := false, restartPending := false,
                   restartQueued := false, requiresDeviceReopen := false))
  }

  function NextLeaseGeneration(s: Slot): Slot {
    s.(rt := s.rt.(leaseGeneration := s.rt.leaseGeneration + 1))
  }

  function NextRecoveryGeneration(s: Slot): Slot {
    s.(rt := s.rt.(recoveryGeneration := s.rt.recoveryGeneration + 1))
  }

  function ExecStart(s: Slot, reply: DriverReply, now: int): Slot {
    if s.state == Stopped && s.rt.inFlightFrames != 0 then
      s.(rt := s.rt.(startPending := true, startQueued := false))
    else if s.state == Streaming || s.source.st == V.Streaming then
      NextRecoveryGeneration(Resumed(s))
    else
      var (source, ok) := V.Start(s.source, reply.refused, reply.streamOn);
      if ok then NextLeaseGeneration(Resumed(s.(source := source)))
      else NextRecoveryGeneration(
          s.(state := Error, source := source,
             rt := s.rt.(startPending := false, startQueued := false, restartPending := true, restartQueued := false,
                         requiresDeviceReopen := false, restartAttempts := s.rt.restartAttempts + 1,
                         nextRestartTime := now + RestartBackoff(s.rt.restartAttempts + 1))))
  }

  function ExecStop(s: Slot): Slot {
    NextRecoveryGeneration(
      s.(state := Stopped, source := V.Stop(s.source),
         rt := s.rt.(startPending := false, startQueued := false, restartPending := false, restartQueued := false)))
  }

  function ExecProcessError(s: Slot, generation: nat, now: int): Slot {
    if s.state != Error || generation != s.rt.recoveryGeneration then s
    else s.(source := V.Stop(s.source),
            rt := s.rt.(restartPending := true, restartQueued := false, restartAttempts := s.rt.restartAttempts + 1,
                        nextRestartTime := now + RestartBackoff(s.rt.restartAttempts + 1)))
  }

  /** close, open, configure, set up buffers; stops at the first refused phase. */
  function Rebuild(s: Slot, reply: DriverReply): (V.Source, bool) {
    var (s1, ok1) := V.Open(V.Source(V.Closed, []), reply.openOk);
    if !ok1 then (s1, false)
    else
      var (s2, ok2) := V.Configure(s1, reply.configureOk);
      if !ok2 then (s2, false) else V.Setup(s2, s.bufferCount, reply.setup)
  }

  /** The source after one restart attempt, and whether it streams. */
  function AttemptRestart(s: Slot, reply: DriverReply): (V.Source, bool) {
    var (source, ready) := if s.rt.requiresDeviceReopen then Rebuild(s, reply) else (s.source, true);
    if ready then V.Start(source, reply.refused, reply.streamOn) else (source, false)
  }

  function ExecRestart(s: Slot, generation: nat, reply: DriverReply, now: int): Slot {
    if s.state != Error || !s.rt.restartPending || generation != s.rt.recoveryGeneration then s
    else if s.rt.inFlightFrames != 0 then s.(rt := s.rt.(restartQueued := false))
    else
      var (source, ok) := AttemptRestart(s, reply);
      if ok then NextLeaseGeneration(Resumed(s.(source := source)))
      else
        var attempts := s.rt.restartAttempts + 1;
        s.(source := source,
           rt := s.rt.(restartQueued := false, restartAttempts := attempts,
                       requiresDeviceReopen := s.rt.requiresDeviceReopen || attempts >= 3,
                       nextRestartTime := now + RestartBackoff(attempts)))
  }

  /** executeCommand for a camera that is still registered; DeleteCamera is handled by the caller. */
  function ExecOn(s: Slot, c: Command, reply: DriverReply, now: int): Slot {
    if s.state == Deleting then s
    else match c
      case StartCamera => ExecStart(s, reply, now)
      case StopCamera => ExecStop(s)
      case ProcessError(g) => ExecProcessError(s, g, now)
      case RestartCamera(g) => ExecRestart(s, g, reply, now)
      case DeleteCamera => s
  }

  /** Entering Error from outside the command queue: reportCameraFault, requestCameraRecovery, a refused QBUF. */
  function EnterError(s: Slot, reopen: bool): (Slot, seq<Command>) {
    var t := NextRecoveryGeneration(s.(state := Error, rt := s.rt.(requiresDeviceReopen := reopen)));
    (t, [ProcessError(t.rt.recoveryGeneration)])
  }

  function FaultOn(s: Slot, reopen: bool): (Slot, seq<Command>) {
    if s.state == Deleting || s.state == Error then (s, []) else EnterError(s, reopen)
  }

  function CheckOn(s: Slot, now: int): (Slot, seq<Command>) {
    if s.state == Stopped && s.rt.startPending then
      if s.rt.inFlightFrames == 0 && !s.rt.startQueued
      then (s.(rt := s.rt.(startQueued := true)), [StartCamera])
      else (s, [])
    else if s.state != Error || !s.rt.restartPending || s.rt.restartQueued then (s, [])
    else if s.rt.inFlightFrames != 0 || now < s.rt.nextRestartTime then (s, [])
    else (s.(rt := s.rt.(restartQueued := true)), [RestartCamera(s.rt.recoveryGeneration)])
  }

  /** One entry of the return queue. */
  function DrainOn(s: Slot, item: Lease, qbufOk: bool): (Slot, seq<Command>) {
    if item.generation == 0 || item.generation != s.rt.leaseGeneration then (s, [])
    else
      var t := s.(rt := s.rt.(inFlightFrames := if s.rt.inFlightFrames > 0 then s.rt.inFlightFrames - 1 else 0));
      if t.state != Streaming || t.source.st != V.Streaming then (t, [])
      else
        var (source, ok) := V.Requeue(t.source, item.index, qbufOk);
        if ok then (t.(source := source), []) else EnterError(t.(source := source), true)
  }

  /** The dequeued frame is counted; it becomes a lease of the current generation. */
  function LeaseOn(s: Slot): Slot {
    s.(rt := s.rt.(inFlightFrames := s.rt.inFlightFrames + 1))
  }

  // ---------------------------------------------------------------- the protocol

  /** `queue` is the command queue; `posting` holds commands whose poster has already released the slot lock
      but not yet pushed them. `polling` says the poll thread works on a snapshot that contains this camera;
      `holding` is a buffer it dequeued and has not yet turned into a lease. */
  datatype Protocol = Protocol(
    present: bool, slot: Slot, queue: seq<Command>, posting: multiset<Command>,
    live: multiset<Lease>, returned: seq<Lease>, polling: bool, holding: Option<nat>)

  datatype Event =
    | UserStart
    | UserStop
    | UserDelete(running: bool)
    | UserRecover(reopen: bool)
    | Post(c: Command)                             // a poster pushes onto the command queue
    | DropLease(l: Lease)                          // the last user of a frame lets go of it
    | Exec(reply: DriverReply, now: int)           // poll thread from here on
    | Check(now: int)
    | Drain(qbufOk: bool)
    | Snapshot
    | Dequeue(index: nat)
    | MakeLease
    | Fault(hangUp: bool)
    | EndPoll

  /** True of the steps only the poll thread and the device take. */
  predicate UserRequest(e: Event) {
    e.UserStart? || e.UserStop? || e.UserDelete? || e.UserRecover?
  }

  function Posting(p: Protocol, slot: Slot, cs: seq<Command>): Protocol {
    p.(slot := slot, posting := p.posting + multiset(cs))
  }

  /** Events that are not enabled leave the protocol as it is. */
  function Step(p: Protocol, e: Event): Protocol {
    match e
    case UserStart => if p.present && p.slot.state != Deleting then Posting(p, p.slot, [StartCamera]) else p
    case UserStop => if p.present && p.slot.state != Deleting then Posting(p, p.slot, [StopCamera]) else p
    case UserDelete(running) =>
      if !p.present then p
      else if running then Posting(p, p.slot.(state := Deleting), [DeleteCamera])
      else p.(present := false, slot := p.slot.(state := Deleting))
    case UserRecover(reopen) =>
      if p.present then var (slot, cs) := FaultOn(p.slot, reopen); Posting(p, slot, cs) else p
    case Post(c) => if c in p.posting then p.(queue := p.queue + [c], posting := p.posting - multiset{c}) else p
    case DropLease(l) => if l in p.live then p.(live := p.live - multiset{l}, returned := p.returned + [l]) else p
    case Exec(reply, now) =>
      if p.queue == [] || p.polling then p
      else
        var q := p.(queue := p.queue[1..]);
        if !p.present then q
        else if p.queue[0].DeleteCamera? then q.(present := false)
        else q.(slot := ExecOn(p.slot, p.queue[0], reply, now))
    case Check(now) =>
      if p.present && !p.polling then var (slot, cs) := CheckOn(p.slot, now); Posting(p, slot, cs) else p
    case Drain(qbufOk) =>
      if p.returned == [] then p
      else
        var q := p.(returned := p.returned[1..]);
        if !p.present then q
        else var (slot, cs) := DrainOn(p.slot, p.returned[0], qbufOk); Posting(q, slot, cs)
    case Snapshot =>
      p.(polling := p.polling || (p.present && p.slot.state == Streaming && p.slot.source.st == V.Streaming))
    case Dequeue(index) =>
      if p.polling && p.holding == None && index < |p.slot.source.queued| && p.slot.source.queued[index]
      then p.(slot := p.slot.(source := V.Dequeue(p.slot.source, index)), holding := Some(index))
      else p
    case MakeLease =>
      if p.holding == None then p
      else if p.present && p.slot.state == Streaming
      then p.(slot := LeaseOn(p.slot), live := p.live + multiset{Lease(p.holding.value, p.slot.rt.leaseGeneration)},
              holding := None)
      else p.(returned := p.returned + [Lease(p.holding.value, 0)], holding := None)
    case Fault(hangUp) =>
      if p.present && p.polling then var (slot, cs) := FaultOn(p.slot, hangUp); Posting(p, slot, cs) else p
    case EndPoll => if p.holding == None then p.(polling := false) else p
  }

  function Run(p: Protocol, es: seq<Event>): Protocol
    decreases |es|
  {
    if es == [] then p else Run(Step(p, es[0]), es[1..])
  }

  lemma {:induction false} RunConcat(p: Protocol, es: seq<Event>, fs: seq<Event>)
    ensures Run(p, es + fs) == Run(Run(p, es), fs)
    decreases |es|
  {
    if es == [] {
      assert es + fs == fs;
    } else {
      assert (es + fs)[1..] == es[1..] + fs;
      RunConcat(Step(p, es[0]), es[1..], fs);
    }
  }

  lemma RunFirst(p: Protocol, e: Event, es: seq<Event>)
    ensures Run(p, [e] + es) == Run(Step(p, e), es)
  {
    assert ([e] + es)[1..] == es;
  }

  lemma RunSingle(p: Protocol, e: Event)
    ensures Run(p, [e]) == Step(p, e)
  {
    assert [e][1..] == [];
  }

  /** addCamera has opened, configured and set up the device: every buffer belongs to the driver. */
  predicate Initial(p: Protocol) {
    && p.present && p.slot.state == Ready && p.slot.bufferCount > 0
    && p.slot.source.st == V.BufferAllocated && p.slot.source.queued != []
    && (forall i | 0 <= i < |p.slot.source.queued| :: p.slot.source.queued[i])
    && p.slot.rt == Runtime(0, 1, 0, 0, false, false, false, false, false, 0)
    && p.queue == [] && p.posting == multiset{} && p.live == multiset{} && p.returned == []
    && !p.polling && p.holding == None
  }
}
