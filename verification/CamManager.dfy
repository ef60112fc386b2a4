/** The camera manager with one registered camera: the bodies that run under the slot lock, updating the slot's
    fields, the source object and the two queues in place. Each is proved against its step of the protocol. */
module CamManager {
  import opened Options
  import V = V4L2CameraSource
  import opened CameraProtocol

  /** What addCamera checks before it touches the device. */
  datatype CameraRequest = CameraRequest(devicePath: string, width: int, height: int, bufferCount: int)

  predicate RequestOk(r: CameraRequest) {
    r.devicePath != "" && r.width > 0 && r.height > 0 && r.bufferCount > 0
  }

  class Manager {
    // CameraSlot
    var registered: bool
    var state: CameraState
    var bufferCount: int
    const source: V.CameraSource
    // CameraRuntimeStatus
    var recoveryGeneration: nat
    var leaseGeneration: nat
    var restartAttempts: nat
    var inFlightFrames: nat
    var startPending: bool
    var startQueued: bool
    var restartPending: bool
    var restartQueued: bool
    var requiresDeviceReopen: bool
    var nextRestartTime: int
    // the two queues of the poll thread
    var commandQueue: seq<Command>
    var returnQueue: seq<Lease>

    /** addCamera. `decoderOk` answers for the decode worker an MJPEG camera needs; reading back the configuration
        cannot fail on a device whose buffers are set up. */
    constructor (request: CameraRequest, openOk: bool, configureOk: bool, setup: V.SetupReply, mjpeg: bool,
                 decoderOk: bool)
      ensures bufferCount == request.bufferCount && commandQueue == [] && returnQueue == [] && fresh(source)
      ensures SlotView().rt == Runtime(0, 1, 0, 0, false, false, false, false, false, 0)
      ensures var (device, ready) := Rebuild(SlotView(), DriverReply(openOk, configureOk, setup, {}, false));
              && (registered <==> RequestOk(request) && ready && (mjpeg ==> decoderOk))
              && state == (if registered then Ready else if RequestOk(request) then Error else Created)
              && source.View() == (if RequestOk(request) then device else V.Source(V.Closed, []))
    {
      var camera := new V.CameraSource();
      source := camera;
      bufferCount := request.bufferCount;
      registered, state := false, Created;
      recoveryGeneration, leaseGeneration, restartAttempts, inFlightFrames := 0, 1, 0, 0;
      startPending, startQueued, restartPending, restartQueued := false, false, false, false;
      requiresDeviceReopen, nextRestartTime := false, 0;
      commandQueue, returnQueue := [], [];
      new;
      if request.devicePath == "" || request.width <= 0 || request.height <= 0 || request.bufferCount <= 0 {
        return;
      }
      state := Error;
      var ok := source.OpenDevice(openOk);
      if !ok {
        return;
      }
      ok := source.ConfigureDevice(configureOk);
      if !ok {
        return;
      }
      ok := source.SetupDmaImportBuffers(bufferCount, setup);
      if !ok {
        return;
      }
      if mjpeg && !decoderOk {
        return;
      }
      state := Ready;
      registered := true;
    }

    ghost function RuntimeView(): Runtime
      reads this
    {
      Runtime(recoveryGeneration, leaseGeneration, restartAttempts, inFlightFrames, startPending, startQueued,
              restartPending, restartQueued, requiresDeviceReopen, nextRestartTime)
    }

    ghost function SlotView(): Slot
      reads this, source
    {
      Slot(state, bufferCount, source.View(), RuntimeView())
    }

    // ---------------------------------------------------------------- requests from other threads

    method PostCommand(command: Command)
      modifies this`commandQueue
      ensures commandQueue == old(commandQueue) + [command]
    {
      commandQueue := commandQueue + [command];
    }

    method RequestStart() returns (ok: bool)
      modifies this`commandQueue
      ensures ok <==> registered && state != Deleting
      ensures commandQueue == old(commandQueue) + if ok then [StartCamera] else []
    {
      if !registered || state == Deleting {
        return false;
      }
      PostCommand(StartCamera);
      return true;
    }

    method RequestStop() returns (ok: bool)
      modifies this`commandQueue
      ensures ok <==> registered && state != Deleting
      ensures commandQueue == old(commandQueue) + if ok then [StopCamera] else []
    {
      if !registered || state == Deleting {
        return false;
      }
      PostCommand(StopCamera);
      return true;
    }

    method DelCamera(running: bool) returns (ok: bool)
      modifies this`registered, this`state, this`commandQueue
      ensures ok == old(registered)
      ensures registered == (old(registered) && running)
      ensures state == if ok then Deleting else old(state)
      ensures commandQueue == old(commandQueue) + if ok && running then [DeleteCamera] else []
    {
      if !registered {
        return false;
      }
      state := Deleting;
      if !running {
        registered := false;
        return true;
      }
      PostCommand(DeleteCamera);
      return true;
    }

    method RequestCameraRecovery(reopen: bool) returns (ok: bool)
      modifies this
      ensures ok <==> old(registered) && old(state) != Deleting && old(state) != Error
      ensures registered == old(registered) && returnQueue == old(returnQueue)
      ensures if old(registered)
              then SlotView() == FaultOn(old(SlotView()), reopen).0
                   && commandQueue == old(commandQueue) + FaultOn(old(SlotView()), reopen).1
              else SlotView() == old(SlotView()) && commandQueue == old(commandQueue)
    {
      if !registered || state == Deleting {
        return false;
      }
      if state == Error {
        return false;
      }
      state := Error;
      requiresDeviceReopen := reopen;
      recoveryGeneration := recoveryGeneration + 1;
      PostCommand(ProcessError(recoveryGeneration));
      return true;
    }

    /** Runs in the destructor of the last reference to a frame. */
    method PostReturnedFrame(l: Lease)
      modifies this`returnQueue
      ensures returnQueue == old(returnQueue) + [l]
    {
      returnQueue := returnQueue + [l];
    }

    // ---------------------------------------------------------------- the poll thread

    method ReportCameraFault(hangUp: bool)
      modifies this
      ensures registered == old(registered) && returnQueue == old(returnQueue)
      ensures if old(registered)
              then SlotView() == FaultOn(old(SlotView()), hangUp).0
                   && commandQueue == old(commandQueue) + FaultOn(old(SlotView()), hangUp).1
              else SlotView() == old(SlotView()) && commandQueue == old(commandQueue)
    {
      if !registered || state == Deleting || state == Error {
        return;
      }
      state := Error;
      requiresDeviceReopen := hangUp;
      recoveryGeneration := recoveryGeneration + 1;
      PostCommand(ProcessError(recoveryGeneration));
    }

    method CheckAndPostCameraRestartCommands(now: int)
      modifies this
      ensures registered == old(registered) && returnQueue == old(returnQueue)
      ensures if old(registered)
              then SlotView() == CheckOn(old(SlotView()), now).0
                   && commandQueue == old(commandQueue) + CheckOn(old(SlotView()), now).1
              else SlotView() == old(SlotView()) && commandQueue == old(commandQueue)
    {
      if !registered {
        return;
      }
      if state == Stopped && startPending {
        if inFlightFrames == 0 && !startQueued {
          startQueued := true;
          PostCommand(StartCamera);
        }
        return;
      }
      if state != Error || !restartPending || restartQueued {
        return;
      }
      if inFlightFrames != 0 {
        return;
      }
      if now < nextRestartTime {
        return;
      }
      restartQueued := true;
      PostCommand(RestartCamera(recoveryGeneration));
    }

    /** The dequeued frame is counted and stamped, unless the camera left Streaming in the meantime. */
    method StampLease() returns (stillActive: bool, generation: nat)
      modifies this`inFlightFrames
      ensures stillActive <==> registered && state == Streaming
      ensures generation == if stillActive then leaseGeneration else 0
      ensures SlotView() == if stillActive then LeaseOn(old(SlotView())) else old(SlotView())
    {
      stillActive, generation := registered && state == Streaming, 0;
      if stillActive {
        inFlightFrames := inFlightFrames + 1;
        generation := leaseGeneration;
      }
    }

    method ExecuteCommand(command: Command, reply: DriverReply, now: int)
      modifies this, source
      ensures commandQueue == old(commandQueue) && returnQueue == old(returnQueue)
      ensures registered == (old(registered) && !command.DeleteCamera?)
      ensures SlotView() == if registered then ExecOn(old(SlotView()), command, reply, now) else old(SlotView())
    {
      if !registered {
        return;
      }
      if command.DeleteCamera? {
        registered := false;
        return;
      }
      if state == Deleting {
        return;
      }
      match command
      case StartCamera => ExecuteStart(reply, now);
      case StopCamera => ExecuteStop();
      case ProcessError(g) => ExecuteProcessError(g, now);
      case RestartCamera(g) => ExecuteRestart(g, reply, now);
      case DeleteCamera =>
    }

    method ExecuteStart(reply: DriverReply, now: int)
      modifies this, source
      ensures SlotView() == ExecStart(old(SlotView()), reply, now)
      ensures commandQueue == old(commandQueue) && returnQueue == old(returnQueue) && registered == old(registered)
    {
      if state == Stopped && inFlightFrames != 0 {
        startPending := true;
        startQueued := false;
        return;
      }
      if state == Streaming || source.state == V.Streaming {
        MarkStreaming();
        recoveryGeneration := recoveryGeneration + 1;
        return;
      }
      var started := source.StartStreaming(reply.refused, reply.streamOn);
      if !started {
        MarkStartFailed(now);
        return;
      }
      MarkStreaming();
      leaseGeneration := leaseGeneration + 1;
    }

    /** A refused start becomes a failure of a new recovery generation that waits for its back-off. */
    method MarkStartFailed(now: int)
      modifies this
      ensures state == Error && bufferCount == old(bufferCount)
      ensures RuntimeView() == Runtime(old(recoveryGeneration) + 1, old(leaseGeneration), old(restartAttempts) + 1,
                                       old(inFlightFrames), false, false, true, false, false,
                                       now + RestartBackoff(old(restartAttempts) + 1))
      ensures commandQueue == old(commandQueue) && returnQueue == old(returnQueue) && registered == old(registered)
    {
      state := Error;
      startPending := false;
      startQueued := false;
      restartPending := true;
      restartQueued := false;
      requiresDeviceReopen := false;
      recoveryGeneration := recoveryGeneration + 1;
      restartAttempts := restartAttempts + 1;
      nextRestartTime := now + RestartBackoff(restartAttempts);
    }

    /** The assignments shared by the three paths that end in Streaming. */
    method MarkStreaming()
      modifies this
      ensures SlotView() == Resumed(old(SlotView()))
      ensures commandQueue == old(commandQueue) && returnQueue == old(returnQueue) && registered == old(registered)
    {
      state := Streaming;
      restartAttempts := 0;
      startPending := false;
      startQueued := false;
      restartPending := false;
      restartQueued := false;
      requiresDeviceReopen := false;
    }

    method ExecuteStop()
      modifies this, source
      ensures SlotView() == ExecStop(old(SlotView()))
      ensures commandQueue == old(commandQueue) && returnQueue == old(returnQueue) && registered == old(registered)
    {
      if source.state == V.Streaming {
        source.StopStreaming();
      }
      state := Stopped;
      startPending := false;
      startQueued := false;
      restartPending := false;
      restartQueued := false;
      recoveryGeneration := recoveryGeneration + 1;
    }

    method ExecuteProcessError(generation: nat, now: int)
      modifies this, source
      ensures SlotView() == ExecProcessError(old(SlotView()), generation, now)
      ensures commandQueue == old(commandQueue) && returnQueue == old(returnQueue) && registered == old(registered)
    {
      if state != Error || generation != recoveryGeneration {
        return;
      }
      if source.state == V.Streaming {
        source.StopStreaming();
      }
      restartPending := true;
      restartQueued := false;
      restartAttempts := restartAttempts + 1;
      nextRestartTime := now + RestartBackoff(restartAttempts);
    }

    method ExecuteRestart(generation: nat, reply: DriverReply, now: int)
      modifies this, source
      ensures SlotView() == ExecRestart(old(SlotView()), generation, reply, now)
      ensures commandQueue == old(commandQueue) && returnQueue == old(returnQueue) && registered == old(registered)
    {
      if state != Error || !restartPending || generation != recoveryGeneration {
        return;
      }
      restartQueued := false;
      if inFlightFrames != 0 {
        return;
      }
      RetryRestart(reply, now);
    }

    /** The attempt itself, once nothing is out. */
    method RetryRestart(reply: DriverReply, now: int)
      requires state == Error && restartPending && !restartQueued && inFlightFrames == 0
      modifies this, source
      ensures SlotView() == ExecRestart(old(SlotView()), old(recoveryGeneration), reply, now)
      ensures commandQueue == old(commandQueue) && returnQueue == old(returnQueue) && registered == old(registered)
    {
      var recovered := AttemptRecovery(reply);
      if !recovered {
        MarkRestartFailed(now);
        return;
      }
      MarkStreaming();
      leaseGeneration := leaseGeneration + 1;
    }

    /** The full rebuild if one is required, then STREAMON. */
    method AttemptRecovery(reply: DriverReply) returns (recovered: bool)
      modifies source
      ensures (source.View(), recovered) == AttemptRestart(old(SlotView()), reply)
    {
      recovered := true;
      if requiresDeviceReopen {
        source.CloseDevice();
        recovered := source.OpenDevice(reply.openOk);
        if recovered {
          recovered := source.ConfigureDevice(reply.configureOk);
        }
        if recovered {
          recovered := source.SetupDmaImportBuffers(bufferCount, reply.setup);
        }
      }
      if recovered {
        recovered := source.StartStreaming(reply.refused, reply.streamOn);
      }
    }

    /** A failed attempt keeps the recovery pending; the third one demands a rebuild. */
    method MarkRestartFailed(now: int)
      modifies this
      ensures SlotView() == old(SlotView()).(
        rt := old(RuntimeView()).(
          restartPending := true, restartAttempts := old(restartAttempts) + 1,
          requiresDeviceReopen := old(requiresDeviceReopen) || old(restartAttempts) + 1 >= 3,
          nextRestartTime := now + RestartBackoff(old(restartAttempts) + 1)))
      ensures commandQueue == old(commandQueue) && returnQueue == old(returnQueue) && registered == old(registered)
    {
      restartPending := true;
      restartAttempts := restartAttempts + 1;
      if !requiresDeviceReopen && restartAttempts >= 3 {
        requiresDeviceReopen := true;
      }
      nextRestartTime := now + RestartBackoff(restartAttempts);
    }

    /** Executes everything that was queued on entry, in order. */
    method DrainCommands(replies: seq<DriverReply>, now: int)
      requires |replies| == |commandQueue|
      modifies this, source
      ensures commandQueue == [] && returnQueue == old(returnQueue)
      ensures (registered, SlotView()) == ExecAllOn(old(registered), old(SlotView()), old(commandQueue), replies, now)
    {
      var pending := commandQueue;
      commandQueue := [];
      var i := 0;
      while i < |pending|
        invariant 0 <= i <= |pending| == |replies|
        invariant commandQueue == [] && returnQueue == old(returnQueue)
        invariant ExecAllOn(registered, SlotView(), pending[i..], replies[i..], now)
               == ExecAllOn(old(registered), old(SlotView()), pending, replies, now)
      {
        assert pending[i..][1..] == pending[i + 1..] && replies[i..][1..] == replies[i + 1..];
        ExecuteCommand(pending[i], replies[i], now);
        i := i + 1;
      }
    }

    /** Processes everything that was returned on entry; refused QBUFs post their ProcessError at the end. */
    method DrainReturnedFrames(qbufOk: seq<bool>)
      requires |qbufOk| == |returnQueue|
      modifies this, source
      ensures returnQueue == [] && registered == old(registered)
      ensures if registered
              then var (slot, cs) := DrainAllOn(old(SlotView()), old(returnQueue), qbufOk);
                   SlotView() == slot && commandQueue == old(commandQueue) + cs
              else SlotView() == old(SlotView()) && commandQueue == old(commandQueue)
    {
      var pending := returnQueue;
      returnQueue := [];
      var recoveryCommands: seq<Command> := [];
      var i := 0;
      while i < |pending|
        invariant 0 <= i <= |pending| == |qbufOk|
        invariant returnQueue == [] && registered == old(registered) && commandQueue == old(commandQueue)
        invariant !registered ==> SlotView() == old(SlotView()) && recoveryCommands == []
        invariant registered ==>
                    var rest := DrainAllOn(SlotView(), pending[i..], qbufOk[i..]);
                    var all := DrainAllOn(old(SlotView()), pending, qbufOk);
                    rest.0 == all.0 && recoveryCommands + rest.1 == all.1
      {
        if registered {
          DrainAllStep(SlotView(), pending, qbufOk, i, recoveryCommands);
          var commands := ReturnOne(pending[i], qbufOk[i]);
          recoveryCommands := recoveryCommands + commands;
        }
        i := i + 1;
      }
      commandQueue := commandQueue + recoveryCommands;
    }

    method ReturnOne(item: Lease, qbufOk: bool) returns (commands: seq<Command>)
      modifies this, source
      ensures (SlotView(), commands) == DrainOn(old(SlotView()), item, qbufOk)
      ensures commandQueue == old(commandQueue) && returnQueue == old(returnQueue) && registered == old(registered)
    {
      if item.generation == 0 {
        return [];
      }
      if item.generation != leaseGeneration {
        return [];
      }
      if inFlightFrames > 0 {
        inFlightFrames := inFlightFrames - 1;
      }
      if state != Streaming || source.state != V.Streaming {
        return [];
      }
      var queued := source.RequeueFrame(item.index, qbufOk);
      if !queued {
        state := Error;
        requiresDeviceReopen := true;
        recoveryGeneration := recoveryGeneration + 1;
        return [ProcessError(recoveryGeneration)];
      }
      return [];
    }

    // ---------------------------------------------------------------- one iteration of the poll loop

    /** The manager as a protocol state. Frames that are out are known only to their holders. */
    ghost function View(live: multiset<Lease>, polling: bool): Protocol
      reads this, source
    {
      Protocol(registered, SlotView(), commandQueue, multiset{}, live, returnQueue, polling, None)
    }

    /** drainCommands as a run. */
    method RunCommands(reply: nat -> DriverReply, now: int, ghost live: multiset<Lease>) returns (ghost es: seq<Event>)
      modifies this, source
      ensures es == CommandEvents(old(View(live, false)), reply, now)
      ensures View(live, false) == Run(old(View(live, false)), es)
    {
      var replies := seq(|commandQueue|, i requires i >= 0 => reply(i));
      DrainCommandsIsARun(View(live, false), replies, now);
      es := Execs(replies, now);
      DrainCommands(replies, now);
    }

    /** drainReturnedFrames as a run. */
    method RunReturns(qbufOk: nat -> bool, ghost live: multiset<Lease>, ghost polling: bool)
      returns (ghost es: seq<Event>)
      modifies this, source
      ensures es == ReturnEvents(old(View(live, polling)), qbufOk)
      ensures View(live, polling) == Run(old(View(live, polling)), es)
    {
      var oks := seq(|returnQueue|, i requires i >= 0 => qbufOk(i));
      ghost var before := View(live, polling);
      ghost var commands := Refusals(before, oks);
      ghost var drains := Drains(oks);
      if registered {
        DrainIsARun(before, oks);
      } else {
        DrainOfNobodyIsARun(before, oks);
      }
      es := drains + Posts(commands);
      RunConcat(before, drains, Posts(commands));
      PostsAreARun(Run(before, drains), commands);
      DrainReturnedFrames(oks);
    }

    /** checkAndPostCameraRestartCommands as a run. */
    method RunCheck(now: int, ghost live: multiset<Lease>) returns (ghost es: seq<Event>)
      modifies this
      ensures es == CheckEvents(old(View(live, false)), now)
      ensures View(live, false) == Run(old(View(live, false)), es)
    {
      ghost var commands := if registered then CheckOn(SlotView(), now).1 else [];
      es := [Check(now)] + Posts(commands);
      StepThenPosts(View(live, false), Check(now), commands);
      CheckAndPostCameraRestartCommands(now);
    }

    /** reportCameraFault for the camera in the snapshot, as a run. */
    method RunFault(hangUp: bool, ghost live: multiset<Lease>) returns (ghost es: seq<Event>)
      modifies this
      ensures es == FaultEvents(old(View(live, true)), hangUp)
      ensures View(live, true) == Run(old(View(live, true)), es)
    {
      ghost var commands := if registered then FaultOn(SlotView(), hangUp).1 else [];
      es := [Fault(hangUp)] + Posts(commands);
      StepThenPosts(View(live, true), Fault(hangUp), commands);
      ReportCameraFault(hangUp);
    }

    /** DQBUF of a buffer the driver owns, and the lease made for it. If the camera is no longer active the frame is not
        published and its lease, of generation 0, ends at once. */
    method TakeFrame(index: nat, ghost live: multiset<Lease>)
      returns (stillActive: bool, l: Lease, ghost es: seq<Event>)
      requires index < |source.queued| && source.queued[index] && source.state == V.Streaming
      modifies this`inFlightFrames, this`returnQueue, source`queued, source`owned
      ensures es == [CameraProtocol.Event.Dequeue(index), MakeLease]
      ensures stillActive == (registered && state == Streaming)
      ensures l == Lease(index, if stillActive then leaseGeneration else 0)
      ensures View(if stillActive then live + multiset{l} else live, true) == Run(old(View(live, true)), es)
    {
      es := [CameraProtocol.Event.Dequeue(index), MakeLease];
      TakeIsARun(View(live, true), index);
      var _ := source.DequeueFrame(index);
      var generation;
      stillActive, generation := StampLease();
      l := Lease(index, generation);
      if !stillActive {
        PostReturnedFrame(l);
      }
    }

    /** The packet's own reference ends. If no sink kept the frame, the lease is returned on the spot. */
    method LetGo(l: Lease, kept: bool, ghost live: multiset<Lease>)
      returns (ghost live': multiset<Lease>, ghost es: seq<Event>)
      requires l in live
      modifies this`returnQueue
      ensures es == (if kept then [] else [DropLease(l)]) && live' == (if kept then live else live - multiset{l})
      ensures View(live', true) == Run(old(View(live, true)), es)
    {
      if kept {
        return live, [];
      }
      es := [DropLease(l)];
      RunSingle(View(live, true), DropLease(l));
      PostReturnedFrame(l);
      live' := live - multiset{l};
    }

    /** What poll reported for the camera's descriptor. */
    method ServeCamera(wakeup: Wakeup, qbufOk: nat -> bool, ghost live: multiset<Lease>)
      returns (ghost live': multiset<Lease>, ghost es: seq<Event>)
      requires source.state == V.Streaming && (wakeup.Readable? ==> Displaces(wakeup.delivery, live))
      modifies this, source
      ensures es == ServeEvents(old(View(live, true)), wakeup, qbufOk)
      ensures View(live', true) == Run(old(View(live, true)), es)
    {
      live', es := live, [];
      match wakeup
      case Nothing =>
      case Failed(hangUp) => es := RunFault(hangUp, live);
      case Readable(index, delivery) =>
        if index < |source.queued| && source.queued[index] {
          live', es := ServeFrame(index, delivery, qbufOk, live);
        }
    }

    /** One frame from DQBUF to the drain behind it; a frame the decoder took is followed by no drain. */
    method ServeFrame(index: nat, delivery: Delivery, qbufOk: nat -> bool, ghost live: multiset<Lease>)
      returns (ghost live': multiset<Lease>, ghost es: seq<Event>)
      requires index < |source.queued| && source.queued[index] && source.state == V.Streaming
               && Displaces(delivery, live)
      modifies this, source
      ensures es == FrameEvents(old(View(live, true)), index, delivery, qbufOk)
      ensures View(live', true) == Run(old(View(live, true)), es)
    {
      ghost var start := View(live, true);
      var stillActive, l;
      ghost var e1, e2, e3;
      stillActive, l, e1 := TakeFrame(index, live);
      live', e2, e3 := live, [], [];
      if stillActive {
        live', e2 := Deliver(l, delivery, live + multiset{l});
      }
      if !stillActive || !delivery.ToDecoder? {
        e3 := RunReturns(qbufOk, live', true);
      }
      RunThreeParts(start, e1, e2, e3);
      es := e1 + e2 + e3;
    }

    /** A sink refuses the frame: the camera fails before the packet's own reference ends. */
    method FailAndLetGo(l: Lease, kept: bool, ghost live: multiset<Lease>)
      returns (ghost live': multiset<Lease>, ghost es: seq<Event>)
      requires l in live
      modifies this
      ensures es == DeliveryEvents(old(View(live, true)), l, SinkRefuses(kept))
      ensures live' == (if kept then live else live - multiset{l})
      ensures View(live', true) == Run(old(View(live, true)), es)
    {
      ghost var start := View(live, true);
      ghost var e1, e2;
      e1 := RunFault(false, live);
      live', e2 := LetGo(l, kept, live);
      RunConcat(start, e1, e2);
      es := e1 + e2;
    }

    /** The decoder refuses the frame: the packet is gone when the camera fails. */
    method LetGoAndFail(l: Lease, ghost live: multiset<Lease>)
      returns (ghost live': multiset<Lease>, ghost es: seq<Event>)
      requires l in live
      modifies this
      ensures es == DeliveryEvents(old(View(live, true)), l, DecoderRefuses)
      ensures live' == live - multiset{l}
      ensures View(live', true) == Run(old(View(live, true)), es)
    {
      ghost var start := View(live, true);
      ghost var e1, e2;
      live', e1 := LetGo(l, false, live);
      e2 := RunFault(false, live');
      RunConcat(start, e1, e2);
      es := e1 + e2;
    }

    /** The frame goes to the decoder or to the sinks; a refusal fails the camera. */
    method Deliver(l: Lease, delivery: Delivery, ghost live: multiset<Lease>)
      returns (ghost live': multiset<Lease>, ghost es: seq<Event>)
      requires l in live && Displaces(delivery, live)
      modifies this
      ensures es == DeliveryEvents(old(View(live, true)), l, delivery) && live' == live - LetGoBy(delivery, l)
      ensures View(live', true) == Run(old(View(live, true)), es)
    {
      live', es := live, [];
      match delivery
      case ToDecoder(displaced) =>
        if displaced.Some? {
          live', es := LetGo(displaced.value, false, live);
        }
      case DecoderRefuses => live', es := LetGoAndFail(l, live);
      case ToSinks(kept) => live', es := LetGo(l, kept, live);
      case SinkRefuses(kept) => live', es := FailAndLetGo(l, kept, live);
    }

    /** What pollOnce does first: commands, returned frames, restarts that have become due. */
    method Prepare(reply: nat -> DriverReply, qbufOk: nat -> bool, now: int, ghost live: multiset<Lease>)
      returns (ghost es: seq<Event>)
      modifies this, source
      ensures es == PrepareEvents(old(View(live, false)), reply, qbufOk, now)
      ensures View(live, false) == Run(old(View(live, false)), es)
    {
      ghost var start := View(live, false);
      ghost var e1 := RunCommands(reply, now, live);
      ghost var e2 := RunReturns(qbufOk, live, false);
      ghost var e3 := RunCheck(now, live);
      RunThreeParts(start, e1, e2, e3);
      es := e1 + e2 + e3;
    }

    /** The snapshot, the camera's turn, and the end of the round. */
    method ServeSnapshot(wakeup: Wakeup, qbufOk: nat -> bool, ghost live: multiset<Lease>)
      returns (ghost live': multiset<Lease>, ghost es: seq<Event>)
      requires registered && state == Streaming && source.state == V.Streaming
      requires wakeup.Readable? ==> Displaces(wakeup.delivery, live)
      modifies this, source
      ensures es == SnapshotEvents(old(View(live, false)), wakeup, qbufOk)
      ensures View(live', false) == Run(old(View(live, false)), es)
    {
      hide ServeEvents;
      ghost var start := View(live, false);
      ghost var e;
      live', e := ServeCamera(wakeup, qbufOk, live);
      TurnIsServed(start, wakeup, qbufOk);
      es := [Snapshot] + e + [EndPoll];
    }

    /** The wake-up descriptor was readable: commands and returned frames once more. */
    method ServeWakeup(reply: nat -> DriverReply, qbufOk: nat -> bool, now: int, ghost live: multiset<Lease>)
      returns (ghost es: seq<Event>)
      modifies this, source
      ensures es == WakeupEvents(old(View(live, false)), reply, qbufOk, now)
      ensures View(live, false) == Run(old(View(live, false)), es)
    {
      ghost var start := View(live, false);
      ghost var e1 := RunCommands(reply, now, live);
      ghost var e2 := RunReturns(qbufOk, live, false);
      RunConcat(start, e1, e2);
      es := e1 + e2;
    }

    /** The snapshot's turn, then commands and returned frames once more if the wake-up descriptor was readable. */
    method TakeTurn(reply: nat -> DriverReply, qbufOk: (nat, nat) -> bool, now: int, wakeup: Wakeup, woken: bool,
                    ghost live: multiset<Lease>)
      returns (ghost live': multiset<Lease>, ghost es: seq<Event>)
      requires registered && state == Streaming && source.state == V.Streaming
      requires wakeup.Readable? ==> Displaces(wakeup.delivery, live)
      modifies this, source
      ensures es == TurnEvents(old(View(live, false)), reply, qbufOk, now, wakeup, woken)
      ensures View(live', false) == Run(old(View(live, false)), es)
    {
      ghost var start := View(live, false);
      live', es := ServeSnapshot(wakeup, Round(qbufOk, 1), live);
      if woken {
        ghost var e2 := ServeWakeup(reply, Round(qbufOk, 2), now, live');
        RunConcat(start, es, e2);
        es := es + e2;
      }
    }

    /** pollOnce: one whole iteration is the run of poll-thread steps that IterationEvents lists, whatever the device
        answers; the oracles take the round within the iteration and the position in the queue. Other threads act
        between iterations here; the protocol lets them act between any two steps. */
    method PollOnce(reply: (nat, nat) -> DriverReply, qbufOk: (nat, nat) -> bool, now: int, wakeup: Wakeup, woken: bool,
                    ghost live: multiset<Lease>)
      returns (ghost live': multiset<Lease>, ghost es: seq<Event>)
      requires wakeup.Readable? ==> Displaces(wakeup.delivery, live)
      modifies this, source
      ensures Internal(es) && es == IterationEvents(old(View(live, false)), reply, qbufOk, now, wakeup, woken)
      ensures View(live', false) == Run(old(View(live, false)), es)
    {
      hide PrepareEvents, TurnEvents;
      ghost var start := View(live, false);
      live' := live;
      es := Prepare(Round(reply, 0), Round(qbufOk, 0), now, live);
      if !registered || state != Streaming || source.state != V.Streaming {
        return;
      }
      ghost var e2;
      live', e2 := TakeTurn(Round(reply, 1), qbufOk, now, wakeup, woken, live);
      RunConcat(start, es, e2);
      es := es + e2;
    }
  }

  /** What becomes of a dequeued frame. The decoder keeps an MJPEG frame it accepts and lets go of one it had not begun
      with; a frame it refuses is gone when the call returns. `kept` says whether some sink still holds the frame. */
  datatype Delivery =
    | ToDecoder(displaced: Option<Lease>)
    | DecoderRefuses
    | ToSinks(kept: bool)
    | SinkRefuses(kept: bool)

  /** A frame the decoder displaces was out. */
  ghost predicate Displaces(d: Delivery, live: multiset<Lease>) {
    d.ToDecoder? && d.displaced.Some? ==> d.displaced.value in live
  }

  function LetGoBy(d: Delivery, l: Lease): multiset<Lease> {
    match d
    case ToDecoder(displaced) => if displaced.Some? then multiset{displaced.value} else multiset{}
    case DecoderRefuses => multiset{l}
    case ToSinks(kept) => if kept then multiset{} else multiset{l}
    case SinkRefuses(kept) => if kept then multiset{} else multiset{l}
  }

  /** What poll reports for a camera: nothing, a fault or a failed DQBUF, or a frame. An index the driver does not own
      stands for EAGAIN. */
  datatype Wakeup = Nothing | Failed(hangUp: bool) | Readable(index: nat, delivery: Delivery)

  /** No request from outside among the steps. */
  predicate Internal(es: seq<Event>) {
    forall i | 0 <= i < |es| :: !UserRequest(es[i])
  }

  function Posts(cs: seq<Command>): (es: seq<Event>)
    ensures Internal(es)
    decreases |cs|
  {
    if cs == [] then [] else [Post(cs[0])] + Posts(cs[1..])
  }

  function Drains(qbufOk: seq<bool>): (es: seq<Event>)
    ensures Internal(es)
    decreases |qbufOk|
  {
    if qbufOk == [] then [] else [Drain(qbufOk[0])] + Drains(qbufOk[1..])
  }

  function Execs(replies: seq<DriverReply>, now: int): (es: seq<Event>)
    ensures Internal(es)
    decreases |replies|
  {
    if replies == [] then [] else [Exec(replies[0], now)] + Execs(replies[1..], now)
  }

  function ExecAllOn(registered: bool, s: Slot, cs: seq<Command>, replies: seq<DriverReply>, now: int): (bool, Slot)
    requires |cs| == |replies|
    decreases |cs|
  {
    if cs == [] then (registered, s)
    else if !registered || cs[0].DeleteCamera? then ExecAllOn(false, s, cs[1..], replies[1..], now)
    else ExecAllOn(true, ExecOn(s, cs[0], replies[0], now), cs[1..], replies[1..], now)
  }

  function DrainAllOn(s: Slot, items: seq<Lease>, qbufOk: seq<bool>): (Slot, seq<Command>)
    requires |items| == |qbufOk|
    decreases |items|
  {
    if items == [] then (s, [])
    else
      var (t, cs) := DrainOn(s, items[0], qbufOk[0]);
      var (u, ds) := DrainAllOn(t, items[1..], qbufOk[1..]);
      (u, cs + ds)
  }

  /** The first of the remaining entries, with the commands collected before it. */
  lemma DrainAllStep(s: Slot, items: seq<Lease>, qbufOk: seq<bool>, i: nat, collected: seq<Command>)
    requires i < |items| == |qbufOk|
    ensures var (t, cs) := DrainOn(s, items[i], qbufOk[i]);
            var rest, all := DrainAllOn(t, items[i + 1..], qbufOk[i + 1..]), DrainAllOn(s, items[i..], qbufOk[i..]);
            all.0 == rest.0 && collected + all.1 == (collected + cs) + rest.1
  {
    assert items[i..][1..] == items[i + 1..] && qbufOk[i..][1..] == qbufOk[i + 1..];
  }

  // ---------------------------------------------------------------- the steps of one iteration

  /** drainCommands. */
  function CommandEvents(p: Protocol, reply: nat -> DriverReply, now: int): (es: seq<Event>)
    ensures Internal(es)
  {
    Execs(seq(|p.queue|, i requires i >= 0 => reply(i)), now)
  }

  /** The commands that refused QBUFs give rise to. */
  function Refusals(p: Protocol, qbufOk: seq<bool>): seq<Command>
    requires |qbufOk| == |p.returned|
  {
    if p.present then DrainAllOn(p.slot, p.returned, qbufOk).1 else []
  }

  /** drainReturnedFrames. */
  function ReturnEvents(p: Protocol, qbufOk: nat -> bool): (es: seq<Event>)
    ensures Internal(es)
  {
    var oks := seq(|p.returned|, i requires i >= 0 => qbufOk(i));
    Drains(oks) + Posts(Refusals(p, oks))
  }

  /** checkAndPostCameraRestartCommands. */
  function CheckEvents(p: Protocol, now: int): (es: seq<Event>)
    ensures Internal(es)
  {
    [Check(now)] + Posts(if p.present then CheckOn(p.slot, now).1 else [])
  }

  /** reportCameraFault. */
  function FaultEvents(p: Protocol, hangUp: bool): (es: seq<Event>)
    ensures Internal(es)
  {
    [Fault(hangUp)] + Posts(if p.present then FaultOn(p.slot, hangUp).1 else [])
  }

  function PrepareEvents(p: Protocol, reply: nat -> DriverReply, qbufOk: nat -> bool, now: int): (es: seq<Event>)
    ensures Internal(es)
  {
    var e1 := CommandEvents(p, reply, now);
    var e2 := ReturnEvents(Run(p, e1), qbufOk);
    e1 + e2 + CheckEvents(Run(Run(p, e1), e2), now)
  }

  function WakeupEvents(p: Protocol, reply: nat -> DriverReply, qbufOk: nat -> bool, now: int): (es: seq<Event>)
    ensures Internal(es)
  {
    var e1 := CommandEvents(p, reply, now);
    e1 + ReturnEvents(Run(p, e1), qbufOk)
  }

  function DropEvents(l: Lease, kept: bool): (es: seq<Event>)
    ensures Internal(es)
  {
    if kept then [] else [DropLease(l)]
  }

  /** A sink refuses the frame before the packet's own reference ends, the decoder afterwards. */
  function DeliveryEvents(p: Protocol, l: Lease, delivery: Delivery): (es: seq<Event>)
    ensures Internal(es)
  {
    match delivery
    case ToDecoder(displaced) => if displaced.Some? then DropEvents(displaced.value, false) else []
    case DecoderRefuses => DropEvents(l, false) + FaultEvents(Run(p, DropEvents(l, false)), false)
    case ToSinks(kept) => DropEvents(l, kept)
    case SinkRefuses(kept) => FaultEvents(p, false) + DropEvents(l, kept)
  }

  function FrameEvents(p: Protocol, index: nat, delivery: Delivery, qbufOk: nat -> bool): (es: seq<Event>)
    ensures Internal(es)
  {
    var active := p.present && p.slot.state == Streaming;
    var e1 := [CameraProtocol.Event.Dequeue(index), MakeLease];
    var e2 := if active then DeliveryEvents(Run(p, e1), Lease(index, p.slot.rt.leaseGeneration), delivery) else [];
    var e3 := if active && delivery.ToDecoder? then [] else ReturnEvents(Run(Run(p, e1), e2), qbufOk);
    e1 + e2 + e3
  }

  function ServeEvents(p: Protocol, wakeup: Wakeup, qbufOk: nat -> bool): (es: seq<Event>)
    ensures Internal(es)
  {
    match wakeup
    case Nothing => []
    case Failed(hangUp) => FaultEvents(p, hangUp)
    case Readable(index, delivery) =>
      if index < |p.slot.source.queued| && p.slot.source.queued[index]
      then FrameEvents(p, index, delivery, qbufOk)
      else []
  }

  function SnapshotEvents(p: Protocol, wakeup: Wakeup, qbufOk: nat -> bool): (es: seq<Event>)
    ensures Internal(es)
  {
    [Snapshot] + ServeEvents(Step(p, Snapshot), wakeup, qbufOk) + [EndPoll]
  }

  predicate Streams(p: Protocol) {
    p.present && p.slot.state == Streaming && p.slot.source.st == V.Streaming
  }

  /** The oracle's answers in one round of the iteration. */
  function Round<T>(oracle: (nat, nat) -> T, k: nat): nat -> T {
    (i: nat) => oracle(k, i)
  }

  /** The snapshot's turn, and the commands and returns of a wake-up behind it. */
  function TurnEvents(p: Protocol, reply: nat -> DriverReply, qbufOk: (nat, nat) -> bool, now: int, wakeup: Wakeup,
                      woken: bool): (es: seq<Event>)
    ensures Internal(es)
  {
    var e1 := SnapshotEvents(p, wakeup, Round(qbufOk, 1));
    if woken then e1 + WakeupEvents(Run(p, e1), reply, Round(qbufOk, 2), now) else e1
  }

  /** The steps of a whole iteration. */
  function IterationEvents(p: Protocol, reply: (nat, nat) -> DriverReply, qbufOk: (nat, nat) -> bool, now: int,
                           wakeup: Wakeup, woken: bool): (es: seq<Event>)
    ensures Internal(es)
  {
    var e1 := PrepareEvents(p, Round(reply, 0), Round(qbufOk, 0), now);
    var q := Run(p, e1);
    if Streams(q) then e1 + TurnEvents(q, Round(reply, 1), qbufOk, now, wakeup, woken) else e1
  }

  // ---------------------------------------------------------------- a whole drain is a run of the protocol

  lemma DrainFirst(p: Protocol, qbufOk: bool)
    requires p.present && p.returned != []
    ensures var (slot, cs) := DrainOn(p.slot, p.returned[0], qbufOk);
            Step(p, Drain(qbufOk)) == p.(slot := slot, returned := p.returned[1..], posting := p.posting + multiset(cs))
  {
  }

  lemma PostingJoins(posting: multiset<Command>, cs: seq<Command>, ds: seq<Command>)
    ensures posting + multiset(cs + ds) == posting + multiset(cs) + multiset(ds)
  {
  }

  /** Draining the whole return queue is that many Drain steps. */
  lemma {:induction false} DrainIsARun(p: Protocol, qbufOk: seq<bool>)
    requires p.present && |qbufOk| == |p.returned|
    ensures var (slot, cs) := DrainAllOn(p.slot, p.returned, qbufOk);
            Run(p, Drains(qbufOk)) == p.(slot := slot, returned := [], posting := p.posting + multiset(cs))
    decreases |qbufOk|
  {
    if qbufOk != [] {
      var (t, cs) := DrainOn(p.slot, p.returned[0], qbufOk[0]);
      var (u, ds) := DrainAllOn(t, p.returned[1..], qbufOk[1..]);
      DrainFirst(p, qbufOk[0]);
      RunFirst(p, Drain(qbufOk[0]), Drains(qbufOk[1..]));
      DrainIsARun(p.(slot := t, returned := p.returned[1..], posting := p.posting + multiset(cs)), qbufOk[1..]);
      PostingJoins(p.posting, cs, ds);
    }
  }

  /** Returns of a camera that is gone are dropped. */
  lemma {:induction false} DrainOfNobodyIsARun(p: Protocol, qbufOk: seq<bool>)
    requires !p.present && |qbufOk| == |p.returned|
    ensures Run(p, Drains(qbufOk)) == p.(returned := [])
    decreases |qbufOk|
  {
    if qbufOk != [] {
      RunFirst(p, Drain(qbufOk[0]), Drains(qbufOk[1..]));
      DrainOfNobodyIsARun(Step(p, Drain(qbufOk[0])), qbufOk[1..]);
    }
  }

  /** The commands of a list, in any order. */
  function Bag(cs: seq<Command>): multiset<Command>
    decreases |cs|
  {
    if cs == [] then multiset{} else multiset{cs[0]} + Bag(cs[1..])
  }

  lemma {:induction false} BagIsMultiset(cs: seq<Command>)
    ensures Bag(cs) == multiset(cs)
    decreases |cs|
  {
    if cs != [] {
      BagIsMultiset(cs[1..]);
      assert cs == [cs[0]] + cs[1..];
    }
  }

  lemma PostFirst(p: Protocol, c: Command, rest: multiset<Command>)
    requires p.posting == multiset{c} + rest
    ensures Step(p, Post(c)) == p.(queue := p.queue + [c], posting := rest)
  {
    assert multiset{c} + rest - multiset{c} == rest;
  }

  lemma {:induction false} PostInOrder(p: Protocol, cs: seq<Command>)
    requires p.posting == Bag(cs)
    ensures Run(p, Posts(cs)) == p.(queue := p.queue + cs, posting := multiset{})
    decreases |cs|
  {
    if cs == [] {
      assert p.queue + cs == p.queue;
    } else {
      var c, rest := cs[0], cs[1..];
      var q := p.(queue := p.queue + [c], posting := Bag(rest));
      PostFirst(p, c, Bag(rest));
      assert Step(p, Post(c)) == q;
      RunFirst(p, Post(c), Posts(rest));
      assert Run(p, Posts(cs)) == Run(q, Posts(rest));
      PostInOrder(q, rest);
      QueueJoins(p.queue, c, cs);
    }
  }

  lemma QueueJoins(queue: seq<Command>, c: Command, cs: seq<Command>)
    requires cs != [] && c == cs[0]
    ensures queue + [c] + cs[1..] == queue + cs
  {
  }

  /** Commands being posted reach the queue in order. */
  lemma PostsAreARun(p: Protocol, cs: seq<Command>)
    requires p.posting == multiset(cs)
    ensures Run(p, Posts(cs)) == p.(queue := p.queue + cs, posting := multiset{})
  {
    BagIsMultiset(cs);
    PostInOrder(p, cs);
  }

  lemma StepThenPosts(p: Protocol, e: Event, cs: seq<Command>)
    requires p.posting == multiset{} && Step(p, e).posting == multiset(cs)
    ensures Run(p, [e] + Posts(cs)) == Step(p, e).(queue := Step(p, e).queue + cs, posting := multiset{})
  {
    RunFirst(p, e, Posts(cs));
    PostsAreARun(Step(p, e), cs);
  }

  lemma RunThreeParts(p: Protocol, es: seq<Event>, fs: seq<Event>, gs: seq<Event>)
    ensures Run(p, es + fs + gs) == Run(Run(Run(p, es), fs), gs)
  {
    RunConcat(p, es, fs);
    RunConcat(p, es + fs, gs);
  }

  lemma TakeIsARun(p: Protocol, index: nat)
    requires p.polling && p.holding == None && index < |p.slot.source.queued| && p.slot.source.queued[index]
    ensures var s := p.slot.(source := V.Dequeue(p.slot.source, index));
            Run(p, [CameraProtocol.Event.Dequeue(index), MakeLease])
            == if p.present && p.slot.state == Streaming
               then p.(slot := LeaseOn(s), live := p.live + multiset{Lease(index, p.slot.rt.leaseGeneration)})
               else p.(slot := s, returned := p.returned + [Lease(index, 0)])
  {
    RunFirst(p, CameraProtocol.Event.Dequeue(index), [MakeLease]);
    RunSingle(Step(p, CameraProtocol.Event.Dequeue(index)), MakeLease);
    assert [CameraProtocol.Event.Dequeue(index), MakeLease] == [CameraProtocol.Event.Dequeue(index)] + [MakeLease];
  }

  lemma RunAround(p: Protocol, e: Event, es: seq<Event>, f: Event)
    ensures Run(p, [e] + es + [f]) == Step(Run(Step(p, e), es), f)
  {
    RunConcat(p, [e], es);
    RunConcat(p, [e] + es, [f]);
    RunSingle(p, e);
    RunSingle(Run(Step(p, e), es), f);
  }

  /** The camera's turn, seen from outside. */
  lemma TurnIsServed(q: Protocol, wakeup: Wakeup, qbufOk: nat -> bool)
    requires Streams(q) && !q.polling && q.holding == None
    ensures var p := q.(polling := true);
            Run(q, SnapshotEvents(q, wakeup, qbufOk)) == Step(Run(p, ServeEvents(p, wakeup, qbufOk)), EndPoll)
  {
    hide ServeEvents;
    assert Step(q, Snapshot) == q.(polling := true);
    RunAround(q, Snapshot, ServeEvents(q.(polling := true), wakeup, qbufOk), EndPoll);
  }

  /** A camera that addCamera accepted starts the protocol: every buffer belongs to the driver. */
  lemma AddedCameraIsInitial(bufferCount: int, reply: DriverReply)
    ensures var rt := Runtime(0, 1, 0, 0, false, false, false, false, false, 0);
            var (source, ok) := Rebuild(Slot(Ready, bufferCount, V.Source(V.Closed, []), rt), reply);
            ok ==> Initial(Protocol(true, Slot(Ready, bufferCount, source, rt), [], multiset{}, multiset{}, [], false,
                                    None))
  {
    if bufferCount > 0 {
      V.RebuildNeedsOnlyTheDriver(V.Source(V.Closed, []), bufferCount, reply.openOk, reply.configureOk, reply.setup);
    }
  }

  /** Draining the whole command queue is that many Exec steps. */
  lemma {:induction false} DrainCommandsIsARun(p: Protocol, replies: seq<DriverReply>, now: int)
    requires !p.polling && |replies| == |p.queue|
    ensures var (present, slot) := ExecAllOn(p.present, p.slot, p.queue, replies, now);
            Run(p, Execs(replies, now)) == p.(slot := slot, present := present, queue := [])
    decreases |replies|
  {
    if replies != [] {
      RunFirst(p, Exec(replies[0], now), Execs(replies[1..], now));
      DrainCommandsIsARun(Step(p, Exec(replies[0], now)), replies[1..], now);
    }
  }
}
