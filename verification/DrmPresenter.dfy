/** Decoded frames on their way to the screen: the pool lends a buffer, the presenter keeps the lease of the frame on
    screen and of the frame waiting for its flip, and gives a lease back only when its frame has left the screen. */
module DrmPresenter {
  import opened Options
  import P = DmaBufferPool
  import D = DrmDisplay

  /** `frontPacket` and `pendingPacket` name the pool slots whose leases the presenter holds, `inHand` the slot of the
      frame being produced. `layout` is the frame description all pool buffers share, `fds` their descriptors. */
  datatype World = World(
    pool: P.Pool, fds: seq<int>, layout: D.Buf, display: D.Display, hasFront: bool,
    frontPacket: Option<nat>, pendingPacket: Option<nat>, inHand: Option<nat>)

  datatype Event =
    | Acquire                       // the pool lends a buffer for the next frame
    | Drop                          // that frame is not shown: its lease ends
    | Flip                          // a page-flip event is handled
    | HandOver                      // the presenter notices the flip and lets go of the old front frame
    | Submit(reply: D.SubmitReply)  // the frame in hand is submitted

  function Released(pool: P.Pool, packet: Option<nat>): P.Pool {
    if packet.Some? then P.Release(pool, packet.value).0 else pool
  }

  function FrameBuf(w: World, slot: nat): D.Buf
    requires slot < |w.fds|
  {
    w.layout.(dmaFd := w.fds[slot])
  }

  ghost predicate Enabled(w: World, e: Event) {
    match e
    case Acquire => w.inHand == None
    case Drop => w.inHand.Some?
    case Flip => true
    case HandOver => w.display.pending < 0 && w.pendingPacket.Some?
    case Submit(_) => w.inHand.Some? && w.display.pending < 0 && w.pendingPacket == None
  }

  /** Events that are not enabled change nothing. */
  ghost function Step(w: World, e: Event): World
    requires Inv(w)
  {
    if !Enabled(w, e) then w
    else match e
      case Acquire =>
        var (pool, slot) := P.Acquire(w.pool);
        w.(pool := pool, inHand := if slot >= 0 then Some(slot) else None)
      case Drop => w.(pool := Released(w.pool, w.inHand), inHand := None)
      case Flip => w.(display := D.Flip(w.display))
      case HandOver =>
        w.(pool := Released(w.pool, w.frontPacket), frontPacket := w.pendingPacket, pendingPacket := None)
      case Submit(reply) =>
        var (display, ok) := D.Submit(w.display, FrameBuf(w, w.inHand.value), reply);
        if !ok then w.(display := display, pool := Released(w.pool, w.inHand), inHand := None)
        else if !w.hasFront then w.(display := display, hasFront := true, frontPacket := w.inHand, inHand := None)
        else w.(display := display, pendingPacket := w.inHand, inHand := None)
  }

  // ---------------------------------------------------------------- invariant

  predicate Holds(w: World, slot: nat) {
    w.frontPacket == Some(slot) || w.pendingPacket == Some(slot) || w.inHand == Some(slot)
  }

  /** The static part: distinct descriptors, one per pool slot, and a frame description the display accepts. */
  ghost predicate Shape(w: World) {
    && P.PoolOk(w.pool) && |w.fds| == |w.pool.inUse|
    && (forall i | 0 <= i < |w.fds| :: w.fds[i] >= 0)
    && (forall i, j | 0 <= i < j < |w.fds| :: w.fds[i] != w.fds[j])
    && D.ValidBuf(w.layout) && w.layout.w > 0 && w.layout.h > 0
    && D.Inv(w.display) && D.UnusedAreEmpty(w.display.fbs)
  }

  /** What is lent out is exactly what is held, and nothing is held twice. */
  ghost predicate Leases(w: World) {
    && |w.fds| == |w.pool.inUse|
    && (forall i: nat | i < |w.fds| :: w.pool.inUse[i] <==> Holds(w, i))
    && (w.frontPacket.Some? ==> w.frontPacket.value < |w.fds|)
    && (w.pendingPacket.Some? ==> w.pendingPacket.value < |w.fds|)
    && (w.inHand.Some? ==> w.inHand.value < |w.fds|)
    && (w.frontPacket.Some? ==> w.frontPacket != w.pendingPacket && w.frontPacket != w.inHand)
    && (w.pendingPacket.Some? ==> w.pendingPacket != w.inHand)
  }

  /** The slot whose buffer the screen scans out: after a flip and before the hand-over that is still the pending
      packet. */
  function OnScreen(w: World): Option<nat> {
    if w.display.pending < 0 && w.pendingPacket.Some? then w.pendingPacket else w.frontPacket
  }

  ghost predicate Screen(w: World) {
    && |w.display.fbs| == D.FB_COUNT && -1 <= w.display.front < D.FB_COUNT && -1 <= w.display.pending < D.FB_COUNT
    && (w.hasFront <==> w.display.front >= 0) && (w.hasFront <==> w.frontPacket.Some?)
    && (w.pendingPacket.Some? ==> w.hasFront)
    && (w.display.pending >= 0 ==>
          w.pendingPacket.Some? && w.pendingPacket.value < |w.fds|
          && w.display.fbs[w.display.pending].dmaFd == w.fds[w.pendingPacket.value])
    && (w.display.front >= 0 ==>
          OnScreen(w).Some? && OnScreen(w).value < |w.fds|
          && w.display.fbs[w.display.front].dmaFd == w.fds[OnScreen(w).value])
  }

  ghost predicate Inv(w: World) {
    Shape(w) && Leases(w) && Screen(w)
  }

  lemma ReleaseHeld(w: World, packet: Option<nat>)
    requires Shape(w) && Leases(w)
    requires packet.Some? ==> Holds(w, packet.value)
    ensures P.PoolOk(Released(w.pool, packet))
    ensures Released(w.pool, packet).inUse == if packet.Some? then w.pool.inUse[packet.value := false] else w.pool.inUse
  {
    if packet.Some? {
      P.ReturningIsExact(w.pool, packet.value);
    }
  }

  lemma SubmitKeepsInv(w: World, reply: D.SubmitReply)
    requires Inv(w) && Enabled(w, Submit(reply))
    ensures Inv(Step(w, Submit(reply)))
  {
    var b := FrameBuf(w, w.inHand.value);
    D.SubmitIsSafe(w.display, b, reply);
    D.UnusedStayEmpty(w.display, b, reply);
    ReleaseHeld(w, w.inHand);
  }

  lemma AcquireKeepsInv(w: World)
    requires Inv(w) && w.inHand == None
    ensures Inv(Step(w, Acquire))
  {
    P.LendingIsExact(w.pool);
  }

  lemma HandOverKeepsInv(w: World)
    requires Inv(w) && Enabled(w, HandOver)
    ensures Inv(Step(w, HandOver))
  {
    ReleaseHeld(w, w.frontPacket);
  }

  lemma FlipKeepsInv(w: World)
    requires Inv(w)
    ensures Inv(Step(w, Flip))
  {
    D.FlipIsSafe(w.display);
    D.UnusedStayEmpty(w.display, w.layout, D.SubmitReply(false, false, false, false));
  }

  lemma StepKeepsInv(w: World, e: Event)
    requires Inv(w)
    ensures Inv(Step(w, e))
  {
    if Enabled(w, e) {
      match e
      case Acquire => AcquireKeepsInv(w);
      case Drop => ReleaseHeld(w, w.inHand);
      case Flip => FlipKeepsInv(w);
      case HandOver => HandOverKeepsInv(w);
      case Submit(reply) => SubmitKeepsInv(w, reply);
    }
  }

  ghost function Run(w: World, es: seq<Event>): (v: World)
    requires Inv(w)
    ensures Inv(v)
    decreases |es|
  {
    if es == [] then w
    else
      StepKeepsInv(w, es[0]);
      Run(Step(w, es[0]), es[1..])
  }

  /** A fresh pool and an initialised display. */
  ghost predicate Initial(w: World) {
    && Shape(w) && (forall i | 0 <= i < |w.pool.inUse| :: !w.pool.inUse[i])
    && w.display == D.Display([D.EMPTY_FB, D.EMPTY_FB, D.EMPTY_FB], -1, -1, false)
    && !w.hasFront && w.frontPacket == None && w.pendingPacket == None && w.inHand == None
  }

  /** Main result: at every point of every run the buffer being scanned out and the buffer waiting for its flip are
      lent out, so the pool never hands either of them out again; with at least three buffers the pool always has one
      for the next frame; and no lease leaks: what is lent out is what the presenter still holds. */
  lemma ScreenBuffersAreNeverReused(w: World, es: seq<Event>)
    requires Initial(w)
    ensures var v := Run(w, es);
            var slot := P.Acquire(v.pool).1;
            && (v.display.front >= 0 ==>
                  exists i :: 0 <= i < |v.fds| && v.pool.inUse[i] && v.fds[i] == v.display.fbs[v.display.front].dmaFd)
            && (v.display.pending >= 0 ==>
                  exists i :: 0 <= i < |v.fds| && v.pool.inUse[i] && v.fds[i] == v.display.fbs[v.display.pending].dmaFd)
            && (slot >= 0 ==>
                  && slot < |v.fds|
                  && (v.display.front >= 0 ==> v.fds[slot] != v.display.fbs[v.display.front].dmaFd)
                  && (v.display.pending >= 0 ==> v.fds[slot] != v.display.fbs[v.display.pending].dmaFd))
            && (v.inHand == None && |v.fds| >= 3 ==> slot >= 0)
            && (forall i: nat | i < |v.fds| :: v.pool.inUse[i] <==> Holds(v, i))
  {
    var v := Run(w, es);
    P.LendingIsExact(v.pool);
    var slot := P.Acquire(v.pool).1;
    if v.display.front >= 0 {
      var i := OnScreen(v).value;
      assert Holds(v, i) && v.pool.inUse[i];
    }
    if v.display.pending >= 0 {
      var i := v.pendingPacket.value;
      assert Holds(v, i) && v.pool.inUse[i];
    }
    if v.inHand == None && |v.fds| >= 3 {
      assert Holds(v, 0) && Holds(v, 1) ==> !Holds(v, 2);
    }
  }

  // ---------------------------------------------------------------- one decoded frame as a run

  function Flips(n: nat): seq<Event> {
    seq(n, _ => Flip)
  }

  /** consumeDrmEvents: `flips` events are there at once; if a flip is still outstanding, `lateFlips` more arrive while
      waiting; then the packet is handed over. */
  ghost function CatchUp(w: World, flips: nat, lateFlips: nat): seq<Event>
    requires Inv(w)
  {
    var first := Flips(flips);
    var all := if Run(w, first).display.pending >= 0 then first + Flips(lateFlips) else first;
    if Enabled(Run(w, all), HandOver) then all + [HandOver] else all
  }

  /** present, with the display initialised or not. */
  ghost function Presentation(w: World, ready: bool, flips: nat, lateFlips: nat, reply: D.SubmitReply): seq<Event>
    requires Inv(w)
  {
    if !ready then [Drop]
    else
      var caught := CatchUp(w, flips, lateFlips);
      caught + [if Run(w, caught).display.pending >= 0 then Drop else Submit(reply)]
  }

  /** How presenting a frame ends. A skipped frame counts as dropped although the call succeeds. */
  datatype Verdict = Displayed | Skipped | Refused

  ghost function Judge(w: World, slot: nat, ready: bool, flips: nat, lateFlips: nat, reply: D.SubmitReply): Verdict
    requires Inv(w) && slot < |w.fds|
  {
    if !ready then Refused
    else
      var v := Run(w, CatchUp(w, flips, lateFlips));
      if v.display.pending >= 0 then Skipped
      else if D.Submit(v.display, FrameBuf(w, slot), reply).1 then Displayed
      else Refused
  }

  /** copyAndPresent. */
  ghost function OneFrame(w: World, rgaOk: bool, ready: bool, flips: nat, lateFlips: nat, reply: D.SubmitReply)
    : seq<Event>
    requires Inv(w)
  {
    var v := Run(w, [Acquire]);
    if v.inHand == None then [Acquire]
    else if !rgaOk then [Acquire] + [Drop]
    else [Acquire] + Presentation(v, ready, flips, lateFlips, reply)
  }

  /** Whether copyAndPresent reports success: a buffer was free, the copy worked and the presenter took the frame. */
  ghost predicate FrameAccepted(w: World, rgaOk: bool, ready: bool, flips: nat, lateFlips: nat, reply: D.SubmitReply)
    requires Inv(w)
  {
    var v := Run(w, [Acquire]);
    v.inHand.Some? && rgaOk && Judge(v, v.inHand.value, ready, flips, lateFlips, reply) != Refused
  }

  // ---------------------------------------------------------------- what becomes of a frame

  /** Flip events end an outstanding flip and touch nothing that the presenter holds. */
  lemma {:induction false} FlipsEndFlip(w: World, n: nat)
    requires Inv(w)
    ensures var v := Run(w, Flips(n));
            && v == w.(display := v.display) && v.display.pending == (if n == 0 then w.display.pending else -1)
    decreases n
  {
    if n > 0 {
      StepKeepsInv(w, Flip);
      D.FlipIsSafe(w.display);
      assert Flips(n)[1..] == Flips(n - 1);
      FlipsEndFlip(Step(w, Flip), n - 1);
    }
  }

  /** A flip is still outstanding when no event came at once and none while waiting. */
  predicate StillFlipping(w: World, flips: nat, lateFlips: nat) {
    w.display.pending >= 0 && flips == 0 && lateFlips == 0
  }

  lemma CaughtUp(w: World, flips: nat, lateFlips: nat)
    requires Inv(w)
    ensures var v := Run(w, CatchUp(w, flips, lateFlips));
            && v.inHand == w.inHand && v.fds == w.fds && v.layout == w.layout
            && (v.display.pending >= 0 <==> StillFlipping(w, flips, lateFlips))
            && (v.display.pending < 0 ==> v.pendingPacket == None)
  {
    var first := Flips(flips);
    FlipsEndFlip(w, flips);
    var v := Run(w, first);
    var all := first;
    if v.display.pending >= 0 {
      FlipsEndFlip(v, lateFlips);
      RunConcat(w, first, Flips(lateFlips));
      all := first + Flips(lateFlips);
    }
    if Enabled(Run(w, all), HandOver) {
      RunAppend(w, all, HandOver);
    }
  }

  /** The presenter keeps the lease of the frame in this slot. */
  predicate Kept(w: World, slot: nat) {
    w.frontPacket == Some(slot) || w.pendingPacket == Some(slot)
  }

  /** The verdict is the frame's fate: displayed means that it ends as front or pending packet; otherwise its buffer is
      back in the pool. It is skipped exactly if a flip stays outstanding. */
  lemma VerdictIsFate(w: World, slot: nat, ready: bool, flips: nat, lateFlips: nat, reply: D.SubmitReply)
    requires Inv(w) && w.inHand == Some(slot) && slot < |w.fds|
    ensures var v := Run(w, Presentation(w, ready, flips, lateFlips, reply));
            var verdict := Judge(w, slot, ready, flips, lateFlips, reply);
            && v.inHand == None && |v.fds| == |w.fds| == |v.pool.inUse|
            && (verdict == Displayed <==> Kept(v, slot)) && (v.pool.inUse[slot] <==> Kept(v, slot))
            && (verdict == Skipped <==> ready && StillFlipping(w, flips, lateFlips))
  {
    if ready {
      ShownOrNot(w, slot, flips, lateFlips, reply);
    } else {
      RunAppend(w, [], Drop);
      assert [] + [Drop] == [Drop];
      LastStep(w, slot, Drop);
    }
  }

  lemma ShownOrNot(w: World, slot: nat, flips: nat, lateFlips: nat, reply: D.SubmitReply)
    requires Inv(w) && w.inHand == Some(slot) && slot < |w.fds|
    ensures var v := Run(w, Presentation(w, true, flips, lateFlips, reply));
            var verdict := Judge(w, slot, true, flips, lateFlips, reply);
            && v.inHand == None && |v.fds| == |w.fds| == |v.pool.inUse|
            && (verdict == Displayed <==> Kept(v, slot)) && (v.pool.inUse[slot] <==> Kept(v, slot))
            && (verdict == Skipped <==> StillFlipping(w, flips, lateFlips))
  {
    var caught := CatchUp(w, flips, lateFlips);
    CaughtUp(w, flips, lateFlips);
    var v := Run(w, caught);
    var last := if v.display.pending >= 0 then Drop else Submit(reply);
    RunAppend(w, caught, last);
    LastStep(v, slot, last);
  }

  lemma LastStep(v: World, slot: nat, e: Event)
    requires Inv(v) && v.inHand == Some(slot) && slot < |v.fds| && (e.Drop? || (e.Submit? && Enabled(v, e)))
    ensures var u := Step(v, e);
            && u.inHand == None && u.fds == v.fds && |u.pool.inUse| == |u.fds|
            && (u.pool.inUse[slot] <==> Kept(u, slot))
            && (Kept(u, slot) <==> e.Submit? && D.Submit(v.display, FrameBuf(v, slot), e.reply).1)
  {
    StepKeepsInv(v, e);
    assert Holds(Step(v, e), slot) <==> Kept(Step(v, e), slot);
  }

  class Pipeline {
    const pool: P.BufferPool
    const display: D.DrmContext
    const fds: seq<int>
    const layout: D.Buf
    var initialized: bool
    var hasFrontFrame: bool
    var frontPacket: Option<nat>
    var pendingPacket: Option<nat>
    var displayedFrames: nat
    var droppedFrames: nat
    ghost var inHand: Option<nat>

    ghost predicate Separate()
    {
      pool.inUse as object != display.fbs as object
    }

    ghost function View(): World
      reads this, pool, pool.inUse, display, display.fbs
    {
      World(pool.View(), fds, layout, display.View(), hasFrontFrame, frontPacket, pendingPacket, inHand)
    }

    constructor (pool: P.BufferPool, display: D.DrmContext, fds: seq<int>, layout: D.Buf)
      ensures this.pool == pool && this.display == display && this.fds == fds && this.layout == layout
      ensures View() == World(pool.View(), fds, layout, display.View(), false, None, None, None)
    {
      this.pool, this.display, this.fds, this.layout := pool, display, fds, layout;
      initialized, hasFrontFrame, frontPacket, pendingPacket, inHand := false, false, None, None, None;
      displayedFrames, droppedFrames := 0, 0;
    }

    /** The FrameLease destructor of a packet the presenter lets go of. */
    method ReleasePacket(packet: Option<nat>)
      modifies pool`state, pool.inUse
      ensures pool.View() == Released(old(pool.View()), packet)
    {
      if packet.Some? {
        var _ := pool.ReleaseFrame(packet.value);
      }
    }

    method HandleFlip()
      requires Separate() && Inv(View())
      modifies display, display.fbs
      ensures Inv(View()) && View() == Step(old(View()), Flip)
    {
      StepKeepsInv(View(), Flip);
      display.PageFlipHandler();
    }

    /** Every page-flip event the kernel reports is handled. */
    method HandleEvents(flips: nat)
      requires Separate() && Inv(View())
      modifies display, display.fbs
      ensures Inv(View()) && View() == Run(old(View()), Flips(flips))
    {
      var i := 0;
      while i < flips
        invariant 0 <= i <= flips && Inv(View()) && View() == Run(old(View()), Flips(i))
      {
        RunAppend(old(View()), Flips(i), Flip);
        HandleFlip();
        assert Flips(i + 1) == Flips(i) + [Flip];
        i := i + 1;
      }
    }

    /** The flip has happened: the old front frame's lease ends, the pending one takes its place. */
    method HandPacketOver()
      requires Separate() && Inv(View()) && Enabled(View(), HandOver)
      modifies this`frontPacket, this`pendingPacket, pool`state, pool.inUse
      ensures Inv(View()) && View() == Step(old(View()), HandOver)
    {
      StepKeepsInv(View(), HandOver);
      var previous := frontPacket;
      frontPacket := pendingPacket;
      pendingPacket := None;
      ReleasePacket(previous);
    }

    method ConsumeDrmEvents(flips: nat, lateFlips: nat)
      requires Separate() && Inv(View())
      modifies this`frontPacket, this`pendingPacket, pool`state, pool.inUse, display, display.fbs
      ensures Inv(View()) && View() == Run(old(View()), CatchUp(old(View()), flips, lateFlips)) && inHand == old(inHand)
      ensures display.pendingIdx < 0 ==> pendingPacket == None
    {
      ghost var all := Flips(flips);
      HandleEvents(flips);
      if display.pendingIdx >= 0 {
        HandleEvents(lateFlips);
        RunConcat(old(View()), all, Flips(lateFlips));
        all := all + Flips(lateFlips);
      }
      if display.pendingIdx < 0 && pendingPacket.Some? {
        RunAppend(old(View()), all, HandOver);
        HandPacketOver();
      }
    }

    /** The packet in hand is not shown; its lease ends here. */
    method DropFrame(slot: nat)
      requires Separate() && Inv(View()) && inHand == Some(slot)
      modifies this`inHand, pool`state, pool.inUse
      ensures Inv(View()) && View() == Step(old(View()), Drop)
    {
      StepKeepsInv(View(), Drop);
      inHand := None;
      ReleasePacket(Some(slot));
    }

    /** Hand the frame to the display and keep its lease while it is shown or waiting. */
    method SubmitFrame(slot: nat, reply: D.SubmitReply) returns (ok: bool)
      requires Separate() && Inv(View()) && inHand == Some(slot) && Enabled(View(), Submit(reply))
      modifies this`inHand, this`hasFrontFrame, this`frontPacket, this`pendingPacket
      modifies pool`state, pool.inUse, display, display.fbs
      ensures Inv(View()) && View() == Step(old(View()), Submit(reply))
      ensures ok == D.Submit(old(View()).display, FrameBuf(old(View()), slot), reply).1
    {
      StepKeepsInv(View(), Submit(reply));
      ok := display.DisplaySubmit(layout.(dmaFd := fds[slot]), reply);
      inHand := None;
      if !ok {
        ReleasePacket(Some(slot));
        return;
      }
      if !hasFrontFrame {
        frontPacket := Some(slot);
        hasFrontFrame := true;
      } else {
        pendingPacket := Some(slot);
      }
    }

    /** Initialise the display on first use, then catch up and submit. */
    method Present(slot: nat, initOk: bool, flips: nat, lateFlips: nat, reply: D.SubmitReply) returns (ok: bool)
      requires Separate() && Inv(View()) && inHand == Some(slot)
      modifies this, pool`state, pool.inUse, display, display.fbs
      ensures Inv(View()) && initialized == (old(initialized) || initOk)
      ensures View() == Run(old(View()), Presentation(old(View()), old(initialized) || initOk, flips, lateFlips, reply))
      ensures var verdict := Judge(old(View()), slot, old(initialized) || initOk, flips, lateFlips, reply);
              && (ok <==> verdict != Refused)
              && displayedFrames == old(displayedFrames) + (if verdict == Displayed then 1 else 0)
              && droppedFrames == old(droppedFrames) + (if verdict == Displayed then 0 else 1)
      ensures displayedFrames == old(displayedFrames) + (if Kept(View(), slot) then 1 else 0)
      ensures droppedFrames == old(droppedFrames) + (if Kept(View(), slot) then 0 else 1)
      ensures ok <==> Kept(View(), slot)
                      || ((old(initialized) || initOk) && StillFlipping(old(View()), flips, lateFlips))
    {
      VerdictIsFate(View(), slot, initialized || initOk, flips, lateFlips, reply);
      var verdict := InitializeAndShow(slot, initOk, flips, lateFlips, reply);
      CountFrame(verdict);
      ok := verdict != Refused;
    }

    method InitializeAndShow(slot: nat, initOk: bool, flips: nat, lateFlips: nat, reply: D.SubmitReply)
      returns (verdict: Verdict)
      requires Separate() && Inv(View()) && inHand == Some(slot)
      modifies this`initialized, this`inHand, this`hasFrontFrame, this`frontPacket, this`pendingPacket
      modifies pool`state, pool.inUse, display, display.fbs
      ensures Inv(View()) && initialized == (old(initialized) || initOk)
      ensures View() == Run(old(View()), Presentation(old(View()), initialized, flips, lateFlips, reply))
      ensures verdict == Judge(old(View()), slot, initialized, flips, lateFlips, reply)
    {
      ghost var start := View();
      if !initialized {
        initialized := initOk;
      }
      assert View() == start;
      verdict := ShowFrame(slot, initialized, flips, lateFlips, reply);
    }

    method CountFrame(verdict: Verdict)
      modifies this`displayedFrames, this`droppedFrames
      ensures displayedFrames == old(displayedFrames) + (if verdict == Displayed then 1 else 0)
      ensures droppedFrames == old(droppedFrames) + (if verdict == Displayed then 0 else 1)
      ensures View() == old(View())
    {
      if verdict == Displayed {
        displayedFrames := displayedFrames + 1;
      } else {
        droppedFrames := droppedFrames + 1;
      }
    }

    /** A frame for a display that is not ready is dropped. */
    method ShowFrame(slot: nat, ready: bool, flips: nat, lateFlips: nat, reply: D.SubmitReply)
      returns (verdict: Verdict)
      requires Separate() && Inv(View()) && inHand == Some(slot)
      modifies this`inHand, this`hasFrontFrame, this`frontPacket, this`pendingPacket
      modifies pool`state, pool.inUse, display, display.fbs
      ensures Inv(View())
      ensures View() == Run(old(View()), Presentation(old(View()), ready, flips, lateFlips, reply))
      ensures verdict == Judge(old(View()), slot, ready, flips, lateFlips, reply)
    {
      if !ready {
        RunAppend(View(), [], Drop);
        assert [] + [Drop] == [Drop];
        DropFrame(slot);
        return Refused;
      }
      verdict := SubmitOrDrop(slot, flips, lateFlips, reply);
    }

    /** Catch up with flips; submit unless one is still outstanding. */
    method SubmitOrDrop(slot: nat, flips: nat, lateFlips: nat, reply: D.SubmitReply) returns (verdict: Verdict)
      requires Separate() && Inv(View()) && inHand == Some(slot)
      modifies this`inHand, this`hasFrontFrame, this`frontPacket, this`pendingPacket
      modifies pool`state, pool.inUse, display, display.fbs
      ensures Inv(View())
      ensures View() == Run(old(View()), Presentation(old(View()), true, flips, lateFlips, reply))
      ensures verdict == Judge(old(View()), slot, true, flips, lateFlips, reply)
    {
      ghost var start := View();
      ghost var caught := CatchUp(start, flips, lateFlips);
      ConsumeDrmEvents(flips, lateFlips);
      if display.pendingIdx >= 0 {
        RunAppend(start, caught, Drop);
        DropFrame(slot);
        return Skipped;
      }
      RunAppend(start, caught, Submit(reply));
      var ok := SubmitFrame(slot, reply);
      return if ok then Displayed else Refused;
    }

    /** Lend a buffer, fill it, present it. */
    method CopyAndPresent(rgaOk: bool, initOk: bool, flips: nat, lateFlips: nat, reply: D.SubmitReply)
      returns (ok: bool)
      requires Separate() && Inv(View()) && inHand == None
      modifies this, pool`state, pool.inUse, display, display.fbs
      ensures Inv(View())
      ensures var ready := old(initialized) || initOk;
              View() == Run(old(View()), OneFrame(old(View()), rgaOk, ready, flips, lateFlips, reply))
      ensures ok <==> FrameAccepted(old(View()), rgaOk, old(initialized) || initOk, flips, lateFlips, reply)
    {
      ghost var start := View();
      StepKeepsInv(start, Acquire);
      RunAppend(start, [], Acquire);
      assert [] + [Acquire] == [Acquire];
      var slot := pool.AcquireFrame();
      inHand := if slot >= 0 then Some(slot as nat) else None;
      assert View() == Step(start, Acquire);
      if slot < 0 {
        return false;
      }
      if !rgaOk {
        RunAppend(start, [Acquire], Drop);
        DropFrame(slot);
        return false;
      }
      RunConcat(start, [Acquire], Presentation(View(), initialized || initOk, flips, lateFlips, reply));
      ok := Present(slot, initOk, flips, lateFlips, reply);
    }
  }

  lemma {:induction false} RunConcat(w: World, es: seq<Event>, fs: seq<Event>)
    requires Inv(w)
    ensures Run(w, es + fs) == Run(Run(w, es), fs)
    decreases |es|
  {
    if es == [] {
      assert es + fs == fs;
    } else {
      StepKeepsInv(w, es[0]);
      assert (es + fs)[1..] == es[1..] + fs;
      RunConcat(Step(w, es[0]), es[1..], fs);
    }
  }

  lemma RunAppend(w: World, es: seq<Event>, e: Event)
    requires Inv(w)
    ensures Run(w, es + [e]) == Step(Run(w, es), e)
  {
    RunConcat(w, es, [e]);
    StepKeepsInv(Run(w, es), e);
    assert [e][1..] == [];
  }
}
