/** The pool of DMA buffers that decoded frames are copied into. */
module DmaBufferPool {

  datatype PoolState = Uninitialized | Ready | Busy | Error

  /** Which slots are lent out, and the pool's summary state. Slot i always lends the same DMA buffer. */
  datatype Pool = Pool(inUse: seq<bool>, state: PoolState)

  /** First free slot from i on, or the number of slots. */
  function FirstFree(inUse: seq<bool>, i: nat): (k: nat)
    requires i <= |inUse|
    ensures i <= k <= |inUse| && (k < |inUse| ==> !inUse[k])
    ensures forall j | i <= j < k :: inUse[j]
    decreases |inUse| - i
  {
    if i == |inUse| || !inUse[i] then i else FirstFree(inUse, i + 1)
  }

  function Settled(inUse: seq<bool>): PoolState {
    if inUse == [] then Uninitialized else if FirstFree(inUse, 0) == |inUse| then Busy else Ready
  }

  /** acquireFrame: the slot lent, or -1 for null. */
  function Acquire(p: Pool): (Pool, int) {
    if p.state == Uninitialized || p.state == Error then (p, -1)
    else
      var k := FirstFree(p.inUse, 0);
      if k == |p.inUse| then (p.(state := Busy), -1)
      else
        var inUse := p.inUse[k := true];
        (Pool(inUse, Settled(inUse)), k as int)
  }

  /** releaseFrame of a frame of slot `slot`; a null or foreign frame is any other number. */
  function Release(p: Pool, slot: int): (Pool, bool) {
    if !(0 <= slot < |p.inUse|) || !p.inUse[slot] then (p, false)
    else
      var inUse := p.inUse[slot := false];
      (Pool(inUse, Settled(inUse)), true)
  }

  /** An initialised pool whose summary state matches its slots. */
  predicate PoolOk(p: Pool) {
    p.inUse != [] && p.state == Settled(p.inUse)
  }

  /** Both operations keep the summary state right; a pool refuses exactly when everything is lent out; lending and
      returning change one slot, and returning what was just lent undoes it. */
  lemma LendingIsExact(p: Pool)
    requires PoolOk(p)
    ensures var (q, k) := Acquire(p);
            && PoolOk(q)
            && (k == -1 <==> forall i | 0 <= i < |p.inUse| :: p.inUse[i])
            && (k == -1 ==> q == p)
            && (k != -1 ==>
                  && 0 <= k < |p.inUse| && !p.inUse[k] && q.inUse == p.inUse[k := true]
                  && Release(q, k) == (p, true))
  {
    var (q, k) := Acquire(p);
    if k != -1 {
      assert q.inUse[k := false] == p.inUse;
    }
  }

  lemma ReturningIsExact(p: Pool, slot: int)
    requires PoolOk(p)
    ensures var (q, ok) := Release(p, slot);
            && PoolOk(q)
            && (ok <==> 0 <= slot < |p.inUse| && p.inUse[slot])
            && (if ok then q.inUse == p.inUse[slot := false] && q.state == Ready else q == p)
  {
    if 0 <= slot < |p.inUse| && p.inUse[slot] {
      var q := Release(p, slot).0;
      assert !q.inUse[slot];
    }
  }

  class BufferPool {
    const inUse: array<bool>
    var state: PoolState

    ghost function View(): Pool
      reads this, inUse
    {
      Pool(inUse[..], state)
    }

    /** init: `obtained` says how many buffers the heap gave out. */
    constructor (count: int, bufferSize: nat, obtained: nat)
      ensures fresh(inUse)
      ensures if count > 0 && bufferSize > 0 && obtained >= count
              then PoolOk(View()) && inUse.Length == count && forall i | 0 <= i < count :: !inUse[i]
              else View() == Pool([], Error)
    {
      var ok := count > 0 && bufferSize > 0 && obtained >= count;
      inUse := new bool[if ok then count else 0](_ => false);
      state := if ok then Ready else Error;
      new;
      assert ok ==> FirstFree(inUse[..], 0) == 0;
    }

    method AcquireFrame() returns (slot: int)
      modifies this`state, inUse
      ensures (View(), slot) == Acquire(old(View()))
    {
      if state == Uninitialized {
        return -1;
      }
      if state == Error {
        return -1;
      }
      var i := 0;
      while i < inUse.Length
        invariant 0 <= i <= inUse.Length && inUse[..] == old(inUse[..]) && state == old(state)
        invariant FirstFree(inUse[..], i) == FirstFree(inUse[..], 0)
      {
        if !inUse[i] {
          ghost var before := inUse[..];
          inUse[i] := true;
          assert inUse[..] == before[i := true];
          UpdateStateAfterSlotChange();
          return i;
        }
        i := i + 1;
      }
      state := Busy;
      return -1;
    }

    method ReleaseFrame(slot: int) returns (ok: bool)
      modifies this`state, inUse
      ensures (View(), ok) == Release(old(View()), slot)
    {
      if slot < 0 || slot >= inUse.Length {
        return false;
      }
      if !inUse[slot] {
        return false;
      }
      ghost var before := inUse[..];
      inUse[slot] := false;
      assert inUse[..] == before[slot := false];
      UpdateStateAfterSlotChange();
      return true;
    }

    method UpdateStateAfterSlotChange()
      modifies this`state
      ensures state == Settled(inUse[..])
    {
      if inUse.Length == 0 {
        state := Uninitialized;
        return;
      }
      var free := FreeCount();
      state := if free == 0 then Busy else Ready;
    }

    method FreeCount() returns (count: nat)
      ensures count == 0 <==> FirstFree(inUse[..], 0) == inUse.Length
    {
      count := 0;
      var i := 0;
      while i < inUse.Length
        invariant 0 <= i <= inUse.Length
        invariant count == 0 <==> forall j | 0 <= j < i :: inUse[j]
      {
        if !inUse[i] {
          count := count + 1;
        }
        i := i + 1;
      }
      assert inUse[..][..] == inUse[..];
    }
  }
}
