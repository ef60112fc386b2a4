/** The integer clock of audio capture: microsecond timestamps that never drift from the sample count. */
module AudioClock {
  import opened Division

  /** frames * 10^6 / rate, rounded down: the length of a stretch of PCM in microseconds. */
  function FramesToUs(frames: nat, rate: nat): nat
    requires rate > 0
  {
    frames * 1000000 / rate
  }

  /** Rounding two stretches separately loses at most one microsecond. */
  lemma FramesToUsAdds(a: nat, b: nat, rate: nat)
    requires rate > 0
    ensures FramesToUs(a, rate) + FramesToUs(b, rate) <= FramesToUs(a + b, rate)
         <= FramesToUs(a, rate) + FramesToUs(b, rate) + 1
  {
    var x, y := a * 1000000, b * 1000000;
    DivCarries(x, y, rate);
    DivCarries(y, x % rate, rate);
    var z := x % rate + y % rate;
    if z < rate {
      DivUnique(z, rate, 0, z);
    } else {
      DivUnique(z, rate, 1, z - rate);
    }
    assert (a + b) * 1000000 == x + y;
  }

  lemma FramesToUsMonotone(a: nat, b: nat, rate: nat)
    requires rate > 0 && a <= b
    ensures FramesToUs(a, rate) <= FramesToUs(b, rate)
  {
    DivMonotone(a * 1000000, b * 1000000, rate);
  }

  // ---------------------------------------------------------------- the clock

  datatype Clock = Clock(nextTimestampUs: nat, timestampRemainder: nat)

  /** advance_timestamp. */
  function Advance(c: Clock, frames: nat, rate: nat): Clock
    requires rate > 0
  {
    var numerator := frames * 1000000 + c.timestampRemainder;
    Clock(c.nextTimestampUs + numerator / rate, numerator % rate)
  }

  /** The clock `total` frames after it was anchored. */
  predicate OnTime(c: Clock, anchor: nat, total: nat, rate: nat)
    requires rate > 0
  {
    c.nextTimestampUs == anchor + FramesToUs(total, rate) && c.timestampRemainder == total * 1000000 % rate
  }

  lemma AdvanceStaysOnTime(c: Clock, anchor: nat, total: nat, frames: nat, rate: nat)
    requires rate > 0 && OnTime(c, anchor, total, rate)
    ensures OnTime(Advance(c, frames, rate), anchor, total + frames, rate)
  {
    DivCarries(total * 1000000, frames * 1000000, rate);
    assert (total + frames) * 1000000 == total * 1000000 + frames * 1000000;
  }

  function AdvanceAll(c: Clock, blocks: seq<nat>, rate: nat): Clock
    requires rate > 0
    decreases |blocks|
  {
    if blocks == [] then c else AdvanceAll(Advance(c, blocks[0], rate), blocks[1..], rate)
  }

  function Sum(blocks: seq<nat>): nat
    decreases |blocks|
  {
    if blocks == [] then 0 else blocks[0] + Sum(blocks[1..])
  }

  lemma {:induction false} AdvanceAllStaysOnTime(c: Clock, blocks: seq<nat>, rate: nat, anchor: nat, total: nat)
    requires rate > 0 && OnTime(c, anchor, total, rate)
    ensures OnTime(AdvanceAll(c, blocks, rate), anchor, total + Sum(blocks), rate)
    decreases |blocks|
  {
    if blocks != [] {
      AdvanceStaysOnTime(c, anchor, total, blocks[0], rate);
      AdvanceAllStaysOnTime(Advance(c, blocks[0], rate), blocks[1..], rate, anchor, total + blocks[0]);
    }
  }

  /** No drift: however the stream was cut into blocks, the clock equals the exact time rounded down once. */
  lemma ClockNeverDrifts(anchor: nat, blocks: seq<nat>, rate: nat)
    requires rate > 0
    ensures AdvanceAll(Clock(anchor, 0), blocks, rate).nextTimestampUs == anchor + FramesToUs(Sum(blocks), rate)
  {
    DivUnique(0, rate, 0, 0);
    AdvanceAllStaysOnTime(Clock(anchor, 0), blocks, rate, anchor, 0);
  }

  /** The clock part of the capture thread. */
  class CaptureClock {
    const sampleRate: nat
    var nextTimestampUs: nat
    var timestampRemainder: nat
    var clockInitialized: bool
    ghost var anchor: nat
    ghost var total: nat

    ghost predicate Valid()
      reads this
    {
      sampleRate > 0
      && (clockInitialized ==> OnTime(Clock(nextTimestampUs, timestampRemainder), anchor, total, sampleRate))
    }

    constructor (sampleRate: nat)
      requires sampleRate > 0
      ensures Valid() && !clockInitialized && this.sampleRate == sampleRate
    {
      this.sampleRate := sampleRate;
      nextTimestampUs, timestampRemainder, clockInitialized := 0, 0, false;
      anchor, total := 0, 0;
    }

    /** An overrun or a recovered read error: the next block anchors the clock again. */
    method Recovered()
      requires Valid()
      modifies this`clockInitialized
      ensures Valid() && !clockInitialized
    {
      clockInitialized := false;
    }

    /** A block of `frames` frames was read at `nowUs`; the result is the timestamp of its first frame. */
    method BlockRead(frames: nat, nowUs: nat) returns (timestampUs: nat)
      requires Valid() && frames > 0
      modifies this
      ensures Valid() && clockInitialized
      ensures if old(clockInitialized) then anchor == old(anchor) && total == old(total) + frames
              else total == frames
                   && anchor == (if nowUs > FramesToUs(frames, sampleRate) then nowUs - FramesToUs(frames, sampleRate)
                                 else 0)
      ensures timestampUs == anchor + FramesToUs(total - frames, sampleRate)
    {
      if !clockInitialized {
        var blockDurationUs := frames * 1000000 / sampleRate;
        nextTimestampUs := if nowUs > blockDurationUs then nowUs - blockDurationUs else 0;
        timestampRemainder := 0;
        clockInitialized := true;
        anchor, total := nextTimestampUs, 0;
        DivUnique(0, sampleRate, 0, 0);
      }
      timestampUs := nextTimestampUs;
      AdvanceStaysOnTime(Clock(nextTimestampUs, timestampRemainder), anchor, total, frames, sampleRate);
      var numerator := frames * 1000000 + timestampRemainder;
      nextTimestampUs := nextTimestampUs + numerator / sampleRate;
      timestampRemainder := numerator % sampleRate;
      total := total + frames;
    }
  }
}
