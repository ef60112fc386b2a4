/** The V4L2 capture device of one camera: its typestate and the queued bit of every buffer.
    The kernel is an oracle; each call takes the driver's answers as a parameter. */
module V4L2CameraSource {

  datatype State = Closed | Opened | Configured | BufferAllocated | Streaming

  /** The source as a value: typestate and, per V4L2 buffer index, whether the driver owns it. */
  datatype Source = Source(st: State, queued: seq<bool>)

  /** The driver's answers to one setupDmaImportBuffers call.
      `obtained` and `mapped` say how many buffers were obtained before the first failure. */
  datatype SetupReply = SetupReply(
    sizeImage: nat, reqOk: bool, count: nat, obtained: nat, importRefused: set<int>,
    mmapReqOk: bool, mmapCount: nat, mapped: nat, mmapRefused: set<int>)

  /** Buffers exist exactly in the two states that can stream. */
  predicate WellFormed(s: Source) {
    (s.st == BufferAllocated || s.st == Streaming) <==> s.queued != []
  }

  function Idle(n: nat): (bits: seq<bool>)
    ensures |bits| == n && forall i | 0 <= i < n :: !bits[i]
  {
    seq(n, _ => false)
  }

  /** QBUF every idle buffer from index i on, in order, until the driver refuses one. */
  function QueueFrom(bits: seq<bool>, i: nat, refused: set<int>): (r: (seq<bool>, bool))
    requires i <= |bits|
    ensures |r.0| == |bits|
    ensures forall j | 0 <= j < |bits| && (j < i || bits[j]) :: r.0[j] == bits[j]
    decreases |bits| - i
  {
    if i == |bits| then (bits, true)
    else if bits[i] then QueueFrom(bits, i + 1, refused)
    else if i in refused then (bits, false)
    else QueueFrom(bits[i := true], i + 1, refused)
  }

  /** No index in [i, n) is both idle and refused. */
  predicate Unobstructed(bits: seq<bool>, i: nat, n: nat, refused: set<int>)
    requires n <= |bits|
  {
    forall k | i <= k < n :: bits[k] || k !in refused
  }

  /** QueueFrom stops at the first idle index the driver refuses: everything before it is queued,
      everything from it on is as it was. */
  lemma {:induction false} QueueFromEffect(bits: seq<bool>, i: nat, refused: set<int>)
    requires i <= |bits|
    ensures QueueFrom(bits, i, refused).1 <==> Unobstructed(bits, i, |bits|, refused)
    ensures forall j | i <= j < |bits| ::
              QueueFrom(bits, i, refused).0[j] <==> bits[j] || Unobstructed(bits, i, j + 1, refused)
    decreases |bits| - i
  {
    if i < |bits| {
      var next := if bits[i] then bits else bits[i := true];
      if bits[i] || i !in refused {
        QueueFromEffect(next, i + 1, refused);
        forall n | i < n <= |bits|
          ensures Unobstructed(bits, i, n, refused) <==> Unobstructed(next, i + 1, n, refused)
        {
          assert forall k | i + 1 <= k < n :: bits[k] == next[k];
        }
      } else {
        assert forall n | i < n <= |bits| :: !Unobstructed(bits, i, n, refused);
      }
    }
  }

  // Specification of the individual calls. A false second component is the `return false` path.

  function Open(s: Source, driverOk: bool): (Source, bool) {
    if s.st != Closed || !driverOk then (s, false) else (s.(st := Opened), true)
  }

  function Stop(s: Source): Source {
    if s.st == Streaming
    then Source(if s.queued == [] then Configured else BufferAllocated, Idle(|s.queued|))
    else s
  }

  function Configure(s: Source, driverOk: bool): (Source, bool) {
    if (s.st == Opened || s.st == Configured) && driverOk then (s.(st := Configured), true) else (s, false)
  }

  function SetupMmap(s: Source, reply: SetupReply): (Source, bool) {
    if !reply.mmapReqOk || reply.mmapCount == 0 || reply.mapped < reply.mmapCount then (s, false)
    else
      var (bits, ok) := QueueFrom(Idle(reply.mmapCount), 0, reply.mmapRefused);
      if ok then (Source(BufferAllocated, bits), true) else (s, false)
  }

  function Setup(s: Source, bufferCount: int, reply: SetupReply): (Source, bool) {
    if s.st != Configured || bufferCount <= 0 || reply.sizeImage == 0 || !reply.reqOk || reply.count == 0
    then (s, false)
    else if reply.obtained < reply.count then (s.(queued := []), false)
    else
      var (bits, ok) := QueueFrom(Idle(reply.count), 0, reply.importRefused);
      if ok then (Source(BufferAllocated, bits), true) else SetupMmap(s.(queued := []), reply)
  }

  function Start(s: Source, refused: set<int>, streamOn: bool): (Source, bool) {
    if s.st != BufferAllocated then (s, false)
    else
      var (bits, ok) := QueueFrom(s.queued, 0, refused);
      if ok && streamOn then (Source(Streaming, bits), true) else (s.(queued := bits), false)
  }

  function QueueOne(s: Source, index: int, driverOk: bool): (Source, bool) {
    if !(0 <= index < |s.queued|) || s.queued[index] || !driverOk then (s, false)
    else (s.(queued := s.queued[index := true]), true)
  }

  function Requeue(s: Source, index: int, driverOk: bool): (Source, bool) {
    if s.st != Streaming then (s, false) else QueueOne(s, index, driverOk)
  }

  /** DQBUF of an index the driver owns. */
  function Dequeue(s: Source, index: nat): Source
    requires index < |s.queued|
  {
    s.(queued := s.queued[index := false])
  }

  /** A full rebuild, whatever state the device was left in: it reports success exactly when buffers are asked for
      and the driver accepts every phase, and then every buffer is fresh and owned by the driver. No phase is ever
      rejected because an earlier one left the wrong typestate. */
  lemma RebuildNeedsOnlyTheDriver(s: Source, bufferCount: int, openOk: bool, configureOk: bool, reply: SetupReply)
    ensures var (afterOpen, okOpen) := Open(Source(Closed, []), openOk);
            var (afterConfigure, okConfigure) := Configure(afterOpen, configureOk);
            var (ready, okSetup) := Setup(afterConfigure, bufferCount, reply);
            && (okOpen <==> openOk)
            && (okOpen ==> (okConfigure <==> configureOk))
            && (okOpen && okConfigure ==>
                  && afterConfigure.st == Configured
                  && (okSetup <==> bufferCount > 0 && SetupAccepted(reply))
                  && (okSetup ==> ready.st == BufferAllocated && ready.queued != []
                                  && forall i | 0 <= i < |ready.queued| :: ready.queued[i]))
            && WellFormed(afterOpen) && WellFormed(afterConfigure) && WellFormed(ready)
  {
    if openOk && configureOk {
      QueueFromEffect(Idle(reply.count), 0, reply.importRefused);
      QueueFromEffect(Idle(reply.mmapCount), 0, reply.mmapRefused);
    }
  }

  /** Import succeeds, or the driver refuses imported memory and the MMAP export fallback succeeds. */
  predicate SetupAccepted(reply: SetupReply) {
    && reply.sizeImage > 0 && reply.reqOk && 0 < reply.count <= reply.obtained
    && ((forall j | 0 <= j < reply.count :: j !in reply.importRefused)
        || (reply.mmapReqOk && 0 < reply.mmapCount <= reply.mapped
            && forall j | 0 <= j < reply.mmapCount :: j !in reply.mmapRefused))
  }

  /** STREAMOFF takes every buffer from the driver: the next start has to hand over each of them again, and succeeds
      exactly when the driver takes them all and STREAMON. */
  lemma StartAfterStop(s: Source, refused: set<int>, streamOn: bool)
    requires WellFormed(s) && s.st == Streaming
    ensures Start(Stop(s), refused, streamOn).1 <==> streamOn && forall i | 0 <= i < |s.queued| :: i !in refused
  {
    QueueFromEffect(Stop(s).queued, 0, refused);
  }

  class CameraSource {
    var state: State
    var queued: seq<bool>
    ghost var owned: set<int>  // the buffers the driver holds; changes only where an ioctl says so

    constructor ()
      ensures View() == Source(Closed, []) && InStep()
    {
      state, queued, owned := Closed, [], {};
    }

    /** The queued bits say which buffers the driver holds. */
    ghost predicate InStep()
      reads this
    {
      forall i :: i in owned <==> 0 <= i < |queued| && queued[i]
    }

    ghost function View(): Source
      reads this
    {
      Source(state, queued)
    }

    method OpenDevice(driverOk: bool) returns (ok: bool)
      modifies this
      ensures (View(), ok) == Open(old(View()), driverOk)
      ensures ok <==> old(state) == Closed && driverOk
      ensures old(InStep()) ==> InStep()
    {
      if state != Closed || !driverOk {
        return false;
      }
      state := Opened;
      return true;
    }

    method CloseDevice()
      modifies this
      ensures View() == Source(Closed, [])
      ensures old(InStep()) ==> InStep()
    {
      StopStreaming();
      ReleaseBuffers();
      state := Closed;
    }

    method ConfigureDevice(driverOk: bool) returns (ok: bool)
      modifies this
      ensures (View(), ok) == Configure(old(View()), driverOk)
      ensures ok <==> old(state) in {Opened, Configured} && driverOk
      ensures old(InStep()) ==> InStep()
    {
      if state != Opened && state != Configured {
        return false;
      }
      if !driverOk {
        return false;
      }
      state := Configured;
      return true;
    }

    method SetupDmaImportBuffers(bufferCount: int, reply: SetupReply) returns (ok: bool)
      modifies this
      ensures (View(), ok) == Setup(old(View()), bufferCount, reply)
      ensures old(InStep()) ==> InStep()
    {
      if state != Configured || bufferCount <= 0 || reply.sizeImage == 0 || !reply.reqOk || reply.count == 0 {
        return false;
      }
      ReleaseBuffers();
      if reply.obtained < reply.count {
        return false;
      }
      queued := Idle(reply.count);
      var imported := QueueIdleBuffers(reply.importRefused);
      if !imported {
        ReleaseBuffers();
        ok := SetupMmapExportBuffers(reply);
        return;
      }
      state := BufferAllocated;
      return true;
    }

    method SetupMmapExportBuffers(reply: SetupReply) returns (ok: bool)
      requires state == Configured && queued == []
      modifies this
      ensures (View(), ok) == SetupMmap(old(View()), reply)
      ensures old(InStep()) ==> InStep()
    {
      if !reply.mmapReqOk || reply.mmapCount == 0 || reply.mapped < reply.mmapCount {
        return false;
      }
      queued := Idle(reply.mmapCount);
      ok := QueueIdleBuffers(reply.mmapRefused);
      if !ok {
        ReleaseBuffers();
        return;
      }
      state := BufferAllocated;
    }

    /** The common `for each buffer: queue it unless it is queued` loop. */
    method QueueIdleBuffers(refused: set<int>) returns (ok: bool)
      modifies this`queued, this`owned
      ensures (queued, ok) == QueueFrom(old(queued), 0, refused)
      ensures old(InStep()) ==> InStep()
    {
      var i := 0;
      while i < |queued|
        invariant 0 <= i <= |queued| == |old(queued)|
        invariant QueueFrom(old(queued), 0, refused) == QueueFrom(queued, i, refused)
        invariant old(InStep()) ==> InStep()
      {
        if !queued[i] {
          var accepted := QueueBuffer(i, i !in refused);
          if !accepted {
            return false;
          }
        }
        i := i + 1;
      }
      return true;
    }

    method StartStreaming(refused: set<int>, streamOn: bool) returns (ok: bool)
      modifies this
      ensures (View(), ok) == Start(old(View()), refused, streamOn)
      ensures old(InStep()) ==> InStep()
    {
      if state != BufferAllocated {
        return false;
      }
      ok := QueueIdleBuffers(refused);
      if !ok {
        return false;
      }
      if !streamOn {
        return false;
      }
      state := Streaming;
    }

    method StopStreaming()
      modifies this
      ensures View() == Stop(old(View()))
      ensures old(InStep()) ==> InStep()
    {
      if state == Streaming {
        owned := {};
        var i := 0;
        while i < |queued|
          invariant 0 <= i <= |queued| == |old(queued)|
          invariant forall j | 0 <= j < i :: !queued[j]
          invariant state == old(state) && owned == {}
        {
          queued := queued[i := false];
          i := i + 1;
        }
        assert queued == Idle(|queued|);
        state := if queued == [] then Configured else BufferAllocated;
      }
    }

    /** Some(i): the driver handed out buffer i. None: EAGAIN, an ioctl error or a bad index. */
    method DequeueFrame(index: nat) returns (ok: bool)
      modifies this`queued, this`owned
      ensures ok <==> old(state) == Streaming && index < |old(queued)|
      ensures View() == if ok then Dequeue(old(View()), index) else old(View())
      ensures owned == old(owned) - if ok then {index as int} else {}
      ensures old(InStep()) ==> InStep()
    {
      if state != Streaming || index >= |queued| {
        return false;
      }
      queued, owned := queued[index := false], owned - {index};
      return true;
    }

    method RequeueFrame(index: int, driverOk: bool) returns (ok: bool)
      modifies this`queued, this`owned
      ensures (View(), ok) == Requeue(old(View()), index, driverOk)
      ensures ok ==> old(state) == Streaming
      ensures old(InStep()) ==> InStep()
    {
      if state != Streaming {
        return false;
      }
      ok := QueueBuffer(index, driverOk);
    }

    method QueueBuffer(index: int, driverOk: bool) returns (ok: bool)
      modifies this`queued, this`owned
      ensures (View(), ok) == QueueOne(old(View()), index, driverOk)
      ensures ok <==> 0 <= index < |old(queued)| && !old(queued)[index] && driverOk
      ensures owned == old(owned) + if ok then {index} else {}
      ensures old(InStep()) ==> InStep()
    {
      if index < 0 || index >= |queued| {
        return false;
      }
      if queued[index] || !driverOk {
        return false;
      }
      queued, owned := queued[index := true], owned + {index};
      return true;
    }

    method ReleaseBuffers()
      modifies this`queued, this`owned
      ensures queued == []
      ensures old(InStep()) ==> InStep()
    {
      queued, owned := [], {};
    }
  }
}
