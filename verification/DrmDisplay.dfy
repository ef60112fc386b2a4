/** The three-slot framebuffer cache and page-flip state machine of the DRM display. The kernel calls are oracles. */
module DrmDisplay {

  datatype FbState = FREE | QUEUED | FRONT

  /** One frame handed in for display. */
  datatype Buf = Buf(dmaFd: int, w: int, h: int, fmt: nat, pitches: seq<nat>, offsets: seq<nat>)

  /** One cache entry. */
  datatype Fb = Fb(used: bool, dmaFd: int, width: int, height: int, format: nat,
                   pitches: seq<nat>, offsets: seq<nat>, state: FbState)

  /** -1 stands for "none" in both indices. */
  datatype Display = Display(fbs: seq<Fb>, front: int, pending: int, modesetDone: bool)

  /** What the kernel answers during one submit. */
  datatype SubmitReply = SubmitReply(primeOk: bool, addFbOk: bool, requestOk: bool, commitOk: bool)

  const FB_COUNT := 3

  const EMPTY_FB: Fb := Fb(false, 0, 0, 0, 0, [0, 0, 0, 0], [0, 0, 0, 0], FREE)

  function Fourcc(a: char, b: char, c: char, d: char): nat {
    a as nat + 0x100 * (b as nat) + 0x1_0000 * (c as nat) + 0x100_0000 * (d as nat)
  }

  function PlaneCount(fmt: nat): (n: nat)
    ensures 1 <= n <= 2
  {
    if fmt == Fourcc('N', 'V', '1', '2') || fmt == Fourcc('N', 'V', '1', '6') || fmt == Fourcc('N', 'V', '2', '4')
       || fmt == Fourcc('N', 'V', '1', '5') || fmt == Fourcc('N', 'V', '2', '0') || fmt == Fourcc('N', 'V', '3', '0')
    then 2 else 1
  }

  function DefaultPitch(fmt: nat, width: nat, plane: nat): nat {
    if fmt in [Fourcc('X', 'R', '2', '4'), Fourcc('A', 'R', '2', '4'), Fourcc('X', 'B', '2', '4'),
               Fourcc('A', 'B', '2', '4')]
    then width * 4
    else if fmt in [Fourcc('R', 'G', '2', '4'), Fourcc('B', 'G', '2', '4')] then width * 3
    else if fmt in [Fourcc('R', 'G', '1', '6'), Fourcc('B', 'G', '1', '6'), Fourcc('Y', 'U', 'Y', 'V'),
                    Fourcc('U', 'Y', 'V', 'Y')]
    then width * 2
    else if PlaneCount(fmt) == 2 then width
    else if plane == 0 then width * 4 else width
  }

  predicate ValidBuf(b: Buf) {
    |b.pitches| == 4 && |b.offsets| == 4
  }

  /** normalizeBuf: absent pitches of the planes in use get their default. */
  function Normalize(b: Buf): (n: Buf)
    requires ValidBuf(b) && b.w > 0
    ensures ValidBuf(n) && n.dmaFd == b.dmaFd
  {
    b.(pitches := seq(4, i requires 0 <= i < 4 =>
         if i < PlaneCount(b.fmt) && b.pitches[i] == 0 then DefaultPitch(b.fmt, b.w, i) else b.pitches[i]))
  }

  predicate ValidFb(fb: Fb) {
    |fb.pitches| == 4 && |fb.offsets| == 4
  }

  /** fbMatchesBuf: the cache key is fd, size, format and the layout of the planes in use. */
  predicate Matches(fb: Fb, b: Buf)
    requires ValidFb(fb) && ValidBuf(b)
  {
    && fb.used && fb.dmaFd == b.dmaFd && fb.width == b.w && fb.height == b.h && fb.format == b.fmt
    && forall i | 0 <= i < PlaneCount(b.fmt) :: fb.pitches[i] == b.pitches[i] && fb.offsets[i] == b.offsets[i]
  }

  ghost predicate ValidSlots(fbs: seq<Fb>) {
    |fbs| == FB_COUNT && forall i | 0 <= i < FB_COUNT :: ValidFb(fbs[i])
  }

  function FindCached(fbs: seq<Fb>, b: Buf, i: nat): (k: int)
    requires i <= |fbs| && ValidBuf(b) && forall j | 0 <= j < |fbs| :: ValidFb(fbs[j])
    ensures -1 <= k < |fbs| && (k >= 0 ==> Matches(fbs[k], b))
    ensures k == -1 ==> forall j | i <= j < |fbs| :: !Matches(fbs[j], b)
    decreases |fbs| - i
  {
    if i == |fbs| then -1 else if Matches(fbs[i], b) then i else FindCached(fbs, b, i + 1)
  }

  function FindUnused(fbs: seq<Fb>, i: nat): (k: int)
    requires i <= |fbs|
    ensures -1 <= k < |fbs| && (k >= 0 ==> k >= i && !fbs[k].used)
    ensures k == -1 ==> forall j | i <= j < |fbs| :: fbs[j].used
    decreases |fbs| - i
  {
    if i == |fbs| then -1 else if !fbs[i].used then i else FindUnused(fbs, i + 1)
  }

  function FindFreeState(fbs: seq<Fb>, i: nat): (k: int)
    requires i <= |fbs|
    ensures -1 <= k < |fbs| && (k >= 0 ==> k >= i && fbs[k].state == FREE)
    ensures k == -1 ==> forall j | i <= j < |fbs| :: fbs[j].state != FREE
    decreases |fbs| - i
  {
    if i == |fbs| then -1 else if fbs[i].state == FREE then i else FindFreeState(fbs, i + 1)
  }

  /** findFreeFbSlot: an unused slot if there is one, else one whose framebuffer is not on screen or queued. */
  function FindFreeSlot(fbs: seq<Fb>): int {
    var unused := FindUnused(fbs, 0);
    if unused >= 0 then unused else FindFreeState(fbs, 0)
  }

  function FromBuf(b: Buf): (fb: Fb)
    requires ValidBuf(b)
    ensures ValidFb(fb)
  {
    Fb(true, b.dmaFd, b.w, b.h, b.fmt,
       seq(4, i requires 0 <= i < 4 => if i < PlaneCount(b.fmt) then b.pitches[i] else 0),
       seq(4, i requires 0 <= i < 4 => if i < PlaneCount(b.fmt) then b.offsets[i] else 0), FREE)
  }

  /** importBufAsFb: the slot it filled, or -1. */
  function Import(fbs: seq<Fb>, b: Buf, reply: SubmitReply): (seq<Fb>, int)
    requires ValidBuf(b)
  {
    var slot := FindFreeSlot(fbs);
    if slot < 0 then (fbs, -1)
    else if !reply.primeOk || !reply.addFbOk then (fbs[slot := EMPTY_FB], -1)
    else (fbs[slot := FromBuf(b)], slot)
  }

  /** drmDisplaySubmit once a plane has been selected. */
  function Submit(d: Display, b: Buf, reply: SubmitReply): (Display, bool)
    requires ValidBuf(b) && ValidSlots(d.fbs)
  {
    if b.dmaFd < 0 || b.w <= 0 || b.h <= 0 then (d, false)
    else if d.pending >= 0 then (d, false)
    else
      var n := Normalize(b);
      var cached := FindCached(d.fbs, n, 0);
      var (fbs, slot) := if cached >= 0 then (d.fbs, cached) else Import(d.fbs, n, reply);
      if slot < 0 then (d.(fbs := fbs), false)
      else if !d.modesetDone then
        if reply.commitOk
        then (Display(fbs[slot := fbs[slot].(state := FRONT)], slot, d.pending, true), true)
        else (d.(fbs := fbs), false)
      else if reply.requestOk && reply.commitOk
      then (d.(fbs := fbs[slot := fbs[slot].(state := QUEUED)], pending := slot), true)
      else (d.(fbs := fbs), false)
  }

  /** pageFlipHandler. */
  function Flip(d: Display): Display
    requires d.pending < |d.fbs| && d.front < |d.fbs|
  {
    if d.pending < 0 then d
    else
      var fbs := if d.front >= 0 && d.front != d.pending
                 then d.fbs[d.front := d.fbs[d.front].(state := FREE)]
                 else d.fbs;
      Display(fbs[d.pending := fbs[d.pending].(state := FRONT)], d.pending, -1, d.modesetDone)
  }

  // ---------------------------------------------------------------- what every run keeps

  predicate SameKey(a: Fb, b: Fb)
    requires ValidFb(a) && ValidFb(b)
  {
    a.used && b.used && Matches(a, Buf(b.dmaFd, b.width, b.height, b.format, b.pitches, b.offsets))
  }

  ghost predicate Inv(d: Display) {
    && ValidSlots(d.fbs) && -1 <= d.front < FB_COUNT && -1 <= d.pending < FB_COUNT
    && (d.modesetDone <==> d.front >= 0) && (d.pending >= 0 ==> d.front >= 0)
    && (d.front >= 0 ==> d.fbs[d.front].used) && (d.pending >= 0 ==> d.fbs[d.pending].used)
    && (forall i | 0 <= i < FB_COUNT ::
          d.fbs[i].state == (if i == d.pending then QUEUED else if i == d.front then FRONT else FREE))
    && (forall i, j | 0 <= i < j < FB_COUNT :: !SameKey(d.fbs[i], d.fbs[j]))
  }

  /** A slot is always there when no flip is outstanding, and it is neither on screen nor queued. */
  lemma FreeSlotExists(d: Display)
    requires Inv(d) && d.pending < 0
    ensures 0 <= FindFreeSlot(d.fbs) < FB_COUNT && FindFreeSlot(d.fbs) != d.front
  {
    assert d.fbs[0].state == FREE || d.fbs[1].state == FREE;
  }

  lemma ImportKeepsKeysApart(fbs: seq<Fb>, b: Buf, slot: nat, entry: Fb)
    requires ValidSlots(fbs) && ValidBuf(b) && slot < FB_COUNT && (entry == EMPTY_FB || entry == FromBuf(b))
    requires forall i, j | 0 <= i < j < FB_COUNT :: !SameKey(fbs[i], fbs[j])
    requires forall i | 0 <= i < FB_COUNT :: !Matches(fbs[i], b)
    ensures var r := fbs[slot := entry];
            ValidSlots(r) && forall i, j | 0 <= i < j < FB_COUNT :: !SameKey(r[i], r[j])
  {
    var r := fbs[slot := entry];
    forall i, j | 0 <= i < j < FB_COUNT ensures !SameKey(r[i], r[j]) {
      if i == slot {
        assert !Matches(fbs[j], b);
      } else if j == slot {
        assert !Matches(fbs[i], b);
      } else {
        assert !SameKey(fbs[i], fbs[j]);
      }
    }
  }

  /** States are not part of the key. */
  lemma StateIsNotKey(fbs: seq<Fb>, slot: nat, state: FbState)
    requires ValidSlots(fbs) && slot < FB_COUNT
    requires forall i, j | 0 <= i < j < FB_COUNT :: !SameKey(fbs[i], fbs[j])
    ensures var r := fbs[slot := fbs[slot].(state := state)];
            ValidSlots(r) && forall i, j | 0 <= i < j < FB_COUNT :: !SameKey(r[i], r[j])
  {
    var r := fbs[slot := fbs[slot].(state := state)];
    forall i, j | 0 <= i < j < FB_COUNT ensures !SameKey(r[i], r[j]) {
      assert !SameKey(fbs[i], fbs[j]);
    }
  }

  /** The framebuffer in slot i is still the same one; only its state may have changed. */
  predicate SameFb(a: Fb, b: Fb) {
    a == b.(state := a.state)
  }

  /** getOrCreateFb: a slot holding the frame that is neither evicted from screen nor queued. */
  lemma FrameFindsASlot(d: Display, n: Buf, reply: SubmitReply)
    requires Inv(d) && d.pending < 0 && ValidBuf(n)
    ensures var cached := FindCached(d.fbs, n, 0);
            var (fbs, slot) := if cached >= 0 then (d.fbs, cached) else Import(d.fbs, n, reply);
            && Inv(d.(fbs := fbs)) && -1 <= slot < FB_COUNT
            && (d.front >= 0 ==> fbs[d.front] == d.fbs[d.front])
            && (slot >= 0 ==> Matches(fbs[slot], n))
            && (slot < 0 <==> cached < 0 && !(reply.primeOk && reply.addFbOk))
  {
    var cached := FindCached(d.fbs, n, 0);
    if cached < 0 {
      FreeSlotExists(d);
      var slot := FindFreeSlot(d.fbs);
      ImportKeepsKeysApart(d.fbs, n, slot, EMPTY_FB);
      ImportKeepsKeysApart(d.fbs, n, slot, FromBuf(n));
    }
  }

  /** A submit keeps the invariant, never touches the framebuffer on screen, and when it succeeds the slot now on
      screen or queued holds exactly the submitted frame. It is refused while a flip is outstanding. */
  lemma SubmitIsSafe(d: Display, b: Buf, reply: SubmitReply)
    requires Inv(d) && ValidBuf(b)
    ensures var (e, ok) := Submit(d, b, reply);
            && Inv(e)
            && (d.front >= 0 ==> e.front == d.front && SameFb(e.fbs[d.front], d.fbs[d.front]))
            && (d.pending >= 0 ==> e == d && !ok)
            && (!ok ==> e.front == d.front && e.pending == d.pending)
            && (ok ==> b.w > 0 && b.dmaFd >= 0
                       && Matches(e.fbs[if d.front < 0 then e.front else e.pending], Normalize(b)))
            && (ok ==> if d.front < 0 then e.front >= 0 && e.pending == d.pending else e.pending >= 0)
  {
    if b.dmaFd >= 0 && b.w > 0 && b.h > 0 && d.pending < 0 {
      var n := Normalize(b);
      FrameFindsASlot(d, n, reply);
      var cached := FindCached(d.fbs, n, 0);
      var (fbs, slot) := if cached >= 0 then (d.fbs, cached) else Import(d.fbs, n, reply);
      if slot >= 0 {
        StateIsNotKey(fbs, slot, FRONT);
        StateIsNotKey(fbs, slot, QUEUED);
      }
    }
  }

  // ---------------------------------------------------------------- what is shown, format by format

  /** NV12, NV16, NV24, NV15, NV20 and NV30 by the numbers the kernel knows them by. */
  const TWO_PLANE_FORMATS: set<nat> :=
    {0x3231564e, 0x3631564e, 0x3432564e, 0x3531564e, 0x3032564e, 0x3033564e}

  /** XR24, AR24, XB24 and AB24. */
  const FOUR_BYTE_FORMATS: set<nat> := {0x34325258, 0x34325241, 0x34324258, 0x34324241}

  /** RG24 and BG24. */
  const THREE_BYTE_FORMATS: set<nat> := {0x34324752, 0x34324742}

  /** RG16, BG16, YUYV and UYVY. */
  const TWO_BYTE_FORMATS: set<nat> := {0x36314752, 0x36314742, 0x56595559, 0x59565955}

  lemma PlanesByNumber(fmt: nat)
    ensures PlaneCount(fmt) == if fmt in TWO_PLANE_FORMATS then 2 else 1
  {
  }

  lemma PitchByNumber(fmt: nat, width: nat)
    ensures DefaultPitch(fmt, width, 0)
         == if fmt in TWO_PLANE_FORMATS then width
            else if fmt in THREE_BYTE_FORMATS then width * 3
            else if fmt in TWO_BYTE_FORMATS then width * 2
            else width * 4
    ensures fmt in TWO_PLANE_FORMATS ==> DefaultPitch(fmt, width, 1) == width
  {
    PlanesByNumber(fmt);
  }

  /** The pitch a frame of this format has if it does not say. */
  function PitchOf(b: Buf, given: nat): nat
    requires b.w > 0
  {
    if given != 0 then given
    else if b.fmt in TWO_PLANE_FORMATS then b.w
    else if b.fmt in THREE_BYTE_FORMATS then b.w * 3
    else if b.fmt in TWO_BYTE_FORMATS then b.w * 2
    else b.w * 4
  }

  /** The framebuffer shows the frame: buffer, size, format, and pitch and offset of each plane the format has. */
  predicate Shows(fb: Fb, b: Buf)
    requires ValidFb(fb) && ValidBuf(b) && b.w > 0
  {
    && fb.used && fb.dmaFd == b.dmaFd && fb.width == b.w && fb.height == b.h && fb.format == b.fmt
    && fb.pitches[0] == PitchOf(b, b.pitches[0]) && fb.offsets[0] == b.offsets[0]
    && (b.fmt in TWO_PLANE_FORMATS ==>
          fb.pitches[1] == PitchOf(b, b.pitches[1]) && fb.offsets[1] == b.offsets[1])
  }

  lemma MatchMeansShows(fb: Fb, b: Buf)
    requires ValidFb(fb) && ValidBuf(b) && b.w > 0
    ensures Matches(fb, Normalize(b)) <==> Shows(fb, b)
  {
    PlanesByNumber(b.fmt);
    PitchByNumber(b.fmt, b.w);
  }

  /** Some slot caches the frame. */
  predicate Cached(d: Display, b: Buf)
    requires ValidBuf(b) && b.w > 0 && |d.fbs| == FB_COUNT && forall i | 0 <= i < FB_COUNT :: ValidFb(d.fbs[i])
  {
    exists i :: 0 <= i < FB_COUNT && Shows(d.fbs[i], b)
  }

  lemma CachedMeansFound(d: Display, b: Buf)
    requires ValidSlots(d.fbs) && ValidBuf(b) && b.w > 0
    ensures FindCached(d.fbs, Normalize(b), 0) >= 0 <==> Cached(d, b)
  {
    forall i | 0 <= i < FB_COUNT ensures Matches(d.fbs[i], Normalize(b)) <==> Shows(d.fbs[i], b) {
      MatchMeansShows(d.fbs[i], b);
    }
  }

  /** A submit succeeds exactly for a valid frame, with no flip outstanding, that is cached or that the kernel imports,
      and whose commit the kernel takes. Then the slot that goes on screen or is queued for it shows that frame, with
      every pitch and offset of its format. */
  lemma SubmittedFrameIsShown(d: Display, b: Buf, reply: SubmitReply)
    requires Inv(d) && ValidBuf(b)
    ensures var (e, ok) := Submit(d, b, reply);
            && (ok <==> b.dmaFd >= 0 && b.w > 0 && b.h > 0 && d.pending < 0
                        && (Cached(d, b) || (reply.primeOk && reply.addFbOk)) && reply.commitOk
                        && (d.front >= 0 ==> reply.requestOk))
            && (ok ==> if d.front < 0 then 0 <= e.front < FB_COUNT && Shows(e.fbs[e.front], b)
                       else 0 <= e.pending < FB_COUNT && Shows(e.fbs[e.pending], b))
  {
    SubmitIsSafe(d, b, reply);
    if b.dmaFd >= 0 && b.w > 0 && b.h > 0 && d.pending < 0 {
      FrameFindsASlot(d, Normalize(b), reply);
      CachedMeansFound(d, b);
      var (e, ok) := Submit(d, b, reply);
      if ok {
        MatchMeansShows(e.fbs[if d.front < 0 then e.front else e.pending], b);
      }
    }
  }

  /** A framebuffer is given up only when all slots are in use: while one is unused, or when the frame is cached, every
      live framebuffer stays. */
  lemma FramebuffersStay(d: Display, b: Buf, reply: SubmitReply, i: nat)
    requires Inv(d) && ValidBuf(b) && i < FB_COUNT && d.fbs[i].used
    requires (exists j :: 0 <= j < FB_COUNT && !d.fbs[j].used) || (b.w > 0 && Cached(d, b))
    ensures SameFb(Submit(d, b, reply).0.fbs[i], d.fbs[i])
  {
    if b.w > 0 {
      CachedMeansFound(d, b);
    }
  }

  /** No framebuffer is cached that the kernel did not make: after a submit, a slot in use holds what it held before, or
      the submitted frame if the kernel has imported it. */
  lemma FramebuffersAreTheKernels(d: Display, b: Buf, reply: SubmitReply, i: nat)
    requires Inv(d) && ValidBuf(b) && i < FB_COUNT && Submit(d, b, reply).0.fbs[i].used
    ensures SameFb(Submit(d, b, reply).0.fbs[i], d.fbs[i])
            || (reply.primeOk && reply.addFbOk && b.w > 0 && Shows(Submit(d, b, reply).0.fbs[i], b))
  {
    hide Normalize, PlaneCount, DefaultPitch, Shows, Matches;
    if b.w > 0 {
      ImportedShows(b, FREE);
      ImportedShows(b, QUEUED);
      ImportedShows(b, FRONT);
    }
  }

  lemma ImportedShows(b: Buf, state: FbState)
    requires ValidBuf(b) && b.w > 0
    ensures Shows(FromBuf(Normalize(b)).(state := state), b)
  {
    PlanesByNumber(b.fmt);
    PitchByNumber(b.fmt, b.w);
  }

  /** A flip puts the queued framebuffer on screen and frees the old one; a stray event changes nothing. */
  lemma FlipIsSafe(d: Display)
    requires Inv(d)
    ensures var e := Flip(d);
            && Inv(e) && e.pending == -1
            && (forall i | 0 <= i < FB_COUNT :: SameFb(e.fbs[i], d.fbs[i]))
            && e.front == (if d.pending >= 0 then d.pending else d.front)
            && (d.pending < 0 ==> e == d)
  {
    if d.pending >= 0 {
      if d.front >= 0 {
        StateIsNotKey(d.fbs, d.front, FREE);
      }
      var fbs := if d.front >= 0 && d.front != d.pending
                 then d.fbs[d.front := d.fbs[d.front].(state := FREE)]
                 else d.fbs;
      StateIsNotKey(fbs, d.pending, FRONT);
    }
  }

  datatype Event = Submitted(b: Buf, reply: SubmitReply) | Flipped

  function Step(d: Display, e: Event): Display
    requires Inv(d)
  {
    match e
    case Submitted(b, reply) => if ValidBuf(b) then Submit(d, b, reply).0 else d
    case Flipped => Flip(d)
  }

  lemma StepKeepsInv(d: Display, e: Event)
    requires Inv(d)
    ensures Inv(Step(d, e))
  {
    match e
    case Submitted(b, reply) => if ValidBuf(b) { SubmitIsSafe(d, b, reply); }
    case Flipped => FlipIsSafe(d);
  }

  /** Any sequence of submits and flips with any kernel answers. */
  ghost function Run(d: Display, es: seq<Event>): (e: Display)
    requires Inv(d)
    ensures Inv(e)
    decreases |es|
  {
    if es == [] then d
    else
      StepKeepsInv(d, es[0]);
      Run(Step(d, es[0]), es[1..])
  }

  /** After one setup, whatever was submitted and flipped: front and pending are the only slots not FREE and hold live
      framebuffers, no two slots cache the same frame, and without an outstanding flip the next frame finds a slot
      that is not on screen. */
  lemma EveryRunIsSafe(es: seq<Event>)
    ensures var e := Run(Display([EMPTY_FB, EMPTY_FB, EMPTY_FB], -1, -1, false), es);
            && |e.fbs| == FB_COUNT
            && (forall i | 0 <= i < FB_COUNT :: e.fbs[i].state == FREE <==> i != e.front && i != e.pending)
            && (forall i | 0 <= i < FB_COUNT && e.fbs[i].state != FREE :: e.fbs[i].used)
            && (forall i | 0 <= i < FB_COUNT :: ValidFb(e.fbs[i]))
            && (forall i, j | 0 <= i < j < FB_COUNT :: !SameKey(e.fbs[i], e.fbs[j]))
            && (e.pending < 0 ==> 0 <= FindFreeSlot(e.fbs) < FB_COUNT && FindFreeSlot(e.fbs) != e.front)
  {
    var e := Run(Display([EMPTY_FB, EMPTY_FB, EMPTY_FB], -1, -1, false), es);
    if e.pending < 0 {
      FreeSlotExists(e);
    }
  }

  // ---------------------------------------------------------------- the context object

  class DrmContext {
    const fbs: array<Fb>
    var frontIdx: int
    var pendingIdx: int
    var modesetDone: bool

    /** drmInit and one successful drmDisplaySetupConfig. */
    constructor ()
      ensures fresh(fbs) && View() == Display([EMPTY_FB, EMPTY_FB, EMPTY_FB], -1, -1, false)
    {
      fbs := new Fb[FB_COUNT](_ => EMPTY_FB);
      frontIdx, pendingIdx, modesetDone := -1, -1, false;
      new;
      assert fbs[..] == [EMPTY_FB, EMPTY_FB, EMPTY_FB];
    }

    ghost function View(): Display
      reads this, fbs
    {
      Display(fbs[..], frontIdx, pendingIdx, modesetDone)
    }

    method FindCachedFb(b: Buf) returns (index: int)
      requires ValidSlots(fbs[..]) && ValidBuf(b)
      ensures index == FindCached(fbs[..], b, 0)
    {
      var i := 0;
      while i < FB_COUNT
        invariant 0 <= i <= FB_COUNT
        invariant FindCached(fbs[..], b, i) == FindCached(fbs[..], b, 0)
      {
        if Matches(fbs[i], b) {
          return i;
        }
        i := i + 1;
      }
      return -1;
    }

    method FindFreeFbSlot() returns (index: int)
      requires ValidSlots(fbs[..])
      ensures index == FindFreeSlot(fbs[..])
    {
      var i := 0;
      while i < FB_COUNT
        invariant 0 <= i <= FB_COUNT
        invariant FindUnused(fbs[..], i) == FindUnused(fbs[..], 0)
      {
        if !fbs[i].used {
          return i;
        }
        i := i + 1;
      }
      i := 0;
      while i < FB_COUNT
        invariant 0 <= i <= FB_COUNT
        invariant FindFreeState(fbs[..], i) == FindFreeState(fbs[..], 0)
      {
        if fbs[i].state == FREE {
          return i;
        }
        i := i + 1;
      }
      return -1;
    }

    /** An unused slot is already empty: it was never filled or was emptied here. */
    method ReleaseFbSlot(index: int)
      requires ValidSlots(fbs[..])
      modifies fbs
      ensures fbs[..] == if 0 <= index < FB_COUNT && old(fbs[index].used)
                         then old(fbs[..])[index := EMPTY_FB]
                         else old(fbs[..])
    {
      if index < 0 || index >= FB_COUNT {
        return;
      }
      if !fbs[index].used {
        return;
      }
      fbs[index] := EMPTY_FB;
    }

    method ImportBufAsFb(b: Buf, reply: SubmitReply) returns (slot: int)
      requires ValidSlots(fbs[..]) && ValidBuf(b) && UnusedAreEmpty(fbs[..])
      modifies fbs
      ensures (fbs[..], slot) == Import(old(fbs[..]), b, reply)
    {
      slot := FindFreeFbSlot();
      if slot < 0 {
        return;
      }
      ReleaseFbSlot(slot);
      assert fbs[..] == old(fbs[..])[slot := EMPTY_FB];
      if !reply.primeOk {
        return -1;
      }
      fbs[slot] := FromBuf(b);
      assert fbs[..] == old(fbs[..])[slot := FromBuf(b)];
      if !reply.addFbOk {
        ReleaseFbSlot(slot);
        assert fbs[..] == old(fbs[..])[slot := EMPTY_FB];
        return -1;
      }
    }

    method PageFlipHandler()
      requires ValidSlots(fbs[..]) && pendingIdx < FB_COUNT && frontIdx < FB_COUNT
      modifies this, fbs
      ensures View() == Flip(old(View()))
    {
      if pendingIdx < 0 {
        return;
      }
      if frontIdx >= 0 && frontIdx != pendingIdx {
        fbs[frontIdx] := fbs[frontIdx].(state := FREE);
      }
      frontIdx := pendingIdx;
      fbs[frontIdx] := fbs[frontIdx].(state := FRONT);
      pendingIdx := -1;
    }

    method DisplaySubmit(b: Buf, reply: SubmitReply) returns (ok: bool)
      requires ValidSlots(fbs[..]) && ValidBuf(b) && UnusedAreEmpty(fbs[..])
      modifies this, fbs
      ensures (View(), ok) == Submit(old(View()), b, reply)
    {
      if b.dmaFd < 0 || b.w <= 0 || b.h <= 0 {
        return false;
      }
      if pendingIdx >= 0 {
        return false;
      }
      var normalized := Normalize(b);
      var index := FindCachedFb(normalized);
      if index < 0 {
        index := ImportBufAsFb(normalized, reply);
      }
      if index < 0 {
        return false;
      }
      if !modesetDone {
        if !reply.commitOk {
          return false;
        }
        modesetDone := true;
        frontIdx := index;
        ghost var before := fbs[..];
        fbs[index] := fbs[index].(state := FRONT);
        assert fbs[..] == before[index := before[index].(state := FRONT)];
        return true;
      }
      if !reply.requestOk {
        return false;
      }
      if !reply.commitOk {
        return false;
      }
      pendingIdx := index;
      ghost var before := fbs[..];
      fbs[index] := fbs[index].(state := QUEUED);
      assert fbs[..] == before[index := before[index].(state := QUEUED)];
      return true;
    }
  }

  predicate UnusedAreEmpty(fbs: seq<Fb>) {
    forall i | 0 <= i < |fbs| :: !fbs[i].used ==> fbs[i] == EMPTY_FB
  }

  /** Neither a submit nor a flip ever leaves rubbish in an unused slot. */
  lemma UnusedStayEmpty(d: Display, b: Buf, reply: SubmitReply)
    requires Inv(d) && ValidBuf(b) && UnusedAreEmpty(d.fbs)
    ensures UnusedAreEmpty(Submit(d, b, reply).0.fbs) && UnusedAreEmpty(Flip(d).fbs)
  {
  }
}
