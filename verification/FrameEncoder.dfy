/** The fixed-size re-blocking in front of the AAC and Opus codecs: PCM arrives in blocks of any length and is handed
    to the codec in frames of exactly `size` samples. A sample is one PCM frame (all channels together). */
module FrameEncoder {
  import opened AudioClock
  import opened Division

  datatype Codec = Aac | Opus

  /** The codec's answer to one frame: accepted or not, how many bytes it put out, the subscriber's verdict. */
  datatype Reply = Reply(encoded: bool, outputBytes: nat, callbackOk: bool)

  /** A frame the codec has accepted, with the timestamp its packet carries. */
  datatype Unit = Unit(timestampUs: nat, samples: seq<int>)

  /** Encoder state; `units` is everything the codec has accepted so far. */
  datatype Chunker = Chunker(codec: Codec, size: nat, cache: seq<int>, cachedTimestampUs: nat, units: seq<Unit>)

  function First(replies: seq<Reply>): Reply {
    if replies == [] then Reply(true, 1, true) else replies[0]
  }

  function Rest(replies: seq<Reply>): seq<Reply> {
    if replies == [] then [] else replies[1..]
  }

  /** emit_access_unit / encode_cached_frame. A refused frame stays cached; an accepted one is released even if the
      codec puts out nothing yet (AAC) or the subscriber fails. */
  function Emit(c: Chunker, reply: Reply): (Chunker, bool) {
    if !reply.encoded then (c, false)
    else
      var d := c.(cache := [], units := c.units + [Unit(c.cachedTimestampUs, c.cache)]);
      (d, (c.codec == Aac && reply.outputBytes == 0) || reply.callbackOk)
  }

  /** The first `copy` frames of what is left of the input go into the cache. */
  function Fill(c: Chunker, input: seq<int>, consumed: nat, timestampUs: nat, rate: nat): (Chunker, nat)
    requires rate > 0 && |c.cache| <= c.size && consumed <= |input|
  {
    var room, left := c.size - |c.cache|, |input| - consumed;
    var copy := if left < room then left else room;
    var ts := if c.cache == [] then timestampUs + FramesToUs(consumed, rate) else c.cachedTimestampUs;
    (c.(cache := c.cache + input[consumed..consumed + copy], cachedTimestampUs := ts), consumed + copy)
  }

  /** One iteration of the push loop: fill, and emit when full. */
  function Iterate(c: Chunker, input: seq<int>, consumed: nat, timestampUs: nat, rate: nat, reply: Reply)
    : (r: (Chunker, bool, nat))
    requires c.size > 0 && rate > 0 && |c.cache| <= c.size && consumed < |input|
    ensures r.0.size == c.size && r.0.codec == c.codec && |r.0.cache| <= c.size && consumed <= r.2 <= |input|
    ensures r.1 ==> |r.0.cache| < c.size && (r.2 > consumed || |r.0.cache| < |c.cache|)
  {
    var (d, consumed') := Fill(c, input, consumed, timestampUs, rate);
    if |d.cache| == d.size then
      var (e, ok) := Emit(d, reply);
      (e, ok, consumed')
    else (d, true, consumed')
  }

  /** Whether that iteration called the codec, and so used up one reply. */
  predicate Emits(c: Chunker, input: seq<int>, consumed: nat) {
    |c.cache| + |input| - consumed >= c.size
  }

  /** The push loop from `consumed` on; false is a negative return. */
  function Push(c: Chunker, input: seq<int>, consumed: nat, timestampUs: nat, rate: nat, replies: seq<Reply>)
    : (r: (Chunker, bool))
    requires c.size > 0 && rate > 0 && |c.cache| <= c.size && consumed <= |input|
    ensures r.0.size == c.size && |r.0.cache| <= c.size && r.0.codec == c.codec
    decreases |input| - consumed, |c.cache|
  {
    if consumed == |input| then (c, true)
    else
      var (d, ok, consumed') := Iterate(c, input, consumed, timestampUs, rate, First(replies));
      if !ok then (d, false)
      else Push(d, input, consumed', timestampUs, rate, if Emits(c, input, consumed) then Rest(replies) else replies)
  }

  function Reset(c: Chunker): Chunker {
    c.(cache := [], cachedTimestampUs := 0)
  }

  // ---------------------------------------------------------------- re-blocking

  function Samples(units: seq<Unit>): seq<int>
    decreases |units|
  {
    if units == [] then [] else units[0].samples + Samples(units[1..])
  }

  lemma {:induction false} SamplesAppend(units: seq<Unit>, u: Unit)
    ensures Samples(units + [u]) == Samples(units) + u.samples
    decreases |units|
  {
    if units == [] {
      assert units + [u] == [u];
      assert Samples([u]) == u.samples + Samples([]);
    } else {
      assert (units + [u])[1..] == units[1..] + [u];
      SamplesAppend(units[1..], u);
    }
  }

  /** Everything received so far, in order: what the codec accepted, then what is cached. */
  function Stream(c: Chunker): seq<int> {
    Samples(c.units) + c.cache
  }

  predicate FullUnits(c: Chunker) {
    forall i | 0 <= i < |c.units| :: |c.units[i].samples| == c.size
  }

  lemma IterateKeepsStream(c: Chunker, input: seq<int>, consumed: nat, timestampUs: nat, rate: nat, reply: Reply)
    requires c.size > 0 && rate > 0 && |c.cache| <= c.size && consumed < |input|
    requires FullUnits(c)
    ensures var (d, ok, consumed') := Iterate(c, input, consumed, timestampUs, rate, reply);
            && FullUnits(d) && c.units <= d.units
            && Stream(d) == Stream(c) + input[consumed..consumed']
            && (!ok ==> d.cache == [] || |d.cache| == d.size)
  {
    var (d, consumed') := Fill(c, input, consumed, timestampUs, rate);
    assert Stream(d) == Stream(c) + input[consumed..consumed'];
    if |d.cache| == d.size {
      SamplesAppend(d.units, Unit(d.cachedTimestampUs, d.cache));
    }
  }

  /** The stream of d is that of c followed by input[from..to]. */
  predicate Absorbed(c: Chunker, d: Chunker, input: seq<int>, from: nat, to: nat)
    requires from <= to <= |input|
  {
    Stream(d) == Stream(c) + input[from..to]
  }

  lemma AbsorbedTwice(c: Chunker, d: Chunker, e: Chunker, input: seq<int>, from: nat, mid: nat, to: nat)
    requires from <= mid <= to <= |input|
    requires Absorbed(c, d, input, from, mid) && Absorbed(d, e, input, mid, to)
    ensures Absorbed(c, e, input, from, to)
  {
    assert input[from..to] == input[from..mid] + input[mid..to];
  }

  /** Every accepted unit is full and stays; after a success the cache is short of a frame, after a failure it is
      empty or holds the refused frame. */
  lemma {:induction false} PushShape(c: Chunker, input: seq<int>, consumed: nat, timestampUs: nat, rate: nat,
                                     replies: seq<Reply>)
    requires c.size > 0 && rate > 0 && |c.cache| <= c.size && consumed <= |input|
    requires FullUnits(c)
    ensures var (d, ok) := Push(c, input, consumed, timestampUs, rate, replies);
            && FullUnits(d) && c.units <= d.units
            && (ok && (consumed < |input| || |c.cache| < c.size) ==> |d.cache| < d.size)
            && (!ok ==> d.cache == [] || |d.cache| == d.size)
    decreases |input| - consumed, |c.cache|
  {
    if consumed < |input| {
      IterateKeepsStream(c, input, consumed, timestampUs, rate, First(replies));
      var (d, ok, consumed') := Iterate(c, input, consumed, timestampUs, rate, First(replies));
      if ok {
        PushShape(d, input, consumed', timestampUs, rate, if Emits(c, input, consumed) then Rest(replies) else replies);
      }
    }
  }

  /** Nothing is invented, reordered or lost: a push that succeeds extends the stream by exactly the input, one that
      fails by a prefix of it (the rest of the block is dropped, never kept out of order). The function's
      termination also covers a push that starts with a full cache left by a refused frame. */
  lemma {:induction false} PushIsReblocking(c: Chunker, input: seq<int>, consumed: nat, timestampUs: nat, rate: nat,
                                            replies: seq<Reply>)
    returns (end: nat)
    requires c.size > 0 && rate > 0 && |c.cache| <= c.size && consumed <= |input|
    requires FullUnits(c)
    ensures consumed <= end <= |input|
            && Absorbed(c, Push(c, input, consumed, timestampUs, rate, replies).0, input, consumed, end)
    ensures Push(c, input, consumed, timestampUs, rate, replies).1 ==> end == |input|
    decreases |input| - consumed, |c.cache|
  {
    if consumed == |input| {
      return |input|;
    }
    IterateKeepsStream(c, input, consumed, timestampUs, rate, First(replies));
    var (d, ok, consumed') := Iterate(c, input, consumed, timestampUs, rate, First(replies));
    if !ok {
      return consumed';
    }
    var more := if Emits(c, input, consumed) then Rest(replies) else replies;
    end := PushIsReblocking(d, input, consumed', timestampUs, rate, more);
    AbsorbedTwice(c, d, Push(d, input, consumed', timestampUs, rate, more).0, input, consumed, consumed', end);
  }

  /** The call with this answer succeeds: the codec takes the frame, and its packet reaches the subscriber unless it
      is an AAC codec that has put out nothing yet. */
  predicate Succeeds(codec: Codec, reply: Reply) {
    reply.encoded && (reply.callbackOk || (codec == Aac && reply.outputBytes == 0))
  }

  /** How many frames the cache and the rest of the input fill. */
  function FramesFilled(cached: nat, left: nat, size: nat): nat
    requires size > 0
  {
    if left == 0 then 0 else (cached + left) / size
  }

  /** Filling the first frame leaves one fewer to fill. */
  lemma FirstFrameFilled(cached: nat, left: nat, size: nat)
    requires left > 0 && cached <= size && size > 0
    ensures if cached + left < size then FramesFilled(cached, left, size) == 0
            else FramesFilled(cached, left, size) == 1 + FramesFilled(0, left - (size - cached), size)
  {
    var total := cached + left;
    if total < size {
      DivUnique(total, size, 0, total);
    } else {
      var q, m := (total - size) / size, (total - size) % size;
      DivUnique(total, size, q + 1, m);
      DivUnique(0, size, 0, 0);
    }
  }

  /** The first n calls succeed; those behind the given answers do. */
  predicate AllSucceed(codec: Codec, replies: seq<Reply>, n: nat) {
    forall i | 0 <= i < |replies| && i < n :: Succeeds(codec, replies[i])
  }

  lemma FirstSucceeds(codec: Codec, replies: seq<Reply>, n: nat)
    requires n > 0
    ensures AllSucceed(codec, replies, n)
       <==> Succeeds(codec, First(replies)) && AllSucceed(codec, Rest(replies), n - 1)
  {
    assert forall i | 0 <= i < |Rest(replies)| :: Rest(replies)[i] == replies[i + 1];
    if AllSucceed(codec, Rest(replies), n - 1) && Succeeds(codec, First(replies)) {
      forall i | 0 <= i < |replies| && i < n ensures Succeeds(codec, replies[i]) {
        if i > 0 {
          assert replies[i] == Rest(replies)[i - 1];
        }
      }
    }
  }

  lemma IterateCalls(c: Chunker, input: seq<int>, consumed: nat, timestampUs: nat, rate: nat, reply: Reply)
    requires c.size > 0 && rate > 0 && |c.cache| <= c.size && consumed < |input|
    ensures var (d, ok, consumed') := Iterate(c, input, consumed, timestampUs, rate, reply);
            && d.codec == c.codec && d.size == c.size
            && |d.units| == |c.units| + (if Emits(c, input, consumed) && reply.encoded then 1 else 0)
            && (if Emits(c, input, consumed)
                then (ok <==> Succeeds(c.codec, reply))
                     && (ok ==> d.cache == [] && consumed' - consumed == c.size - |c.cache|)
                else ok && consumed' == |input|)
  {
  }

  /** How many frames the codec takes in up to n calls: those before the first call that fails, and the one of that call
      if only its subscriber failed. */
  function FramesTaken(codec: Codec, replies: seq<Reply>, n: nat): nat
    decreases n
  {
    if n == 0 || !First(replies).encoded then 0
    else 1 + if Succeeds(codec, First(replies)) then FramesTaken(codec, Rest(replies), n - 1) else 0
  }

  /** Every frame the codec takes is accepted once and is out of the cache, also when its subscriber fails. */
  lemma {:induction false} PushAccepts(c: Chunker, input: seq<int>, consumed: nat, timestampUs: nat, rate: nat,
                                       replies: seq<Reply>)
    requires c.size > 0 && rate > 0 && |c.cache| <= c.size && consumed <= |input|
    ensures |Push(c, input, consumed, timestampUs, rate, replies).0.units|
         == |c.units| + FramesTaken(c.codec, replies, FramesFilled(|c.cache|, |input| - consumed, c.size))
    decreases |input| - consumed, |c.cache|
  {
    if consumed < |input| {
      var (d, ok, consumed') := Iterate(c, input, consumed, timestampUs, rate, First(replies));
      IterateCalls(c, input, consumed, timestampUs, rate, First(replies));
      FirstFrameFilled(|c.cache|, |input| - consumed, c.size);
      if ok && Emits(c, input, consumed) {
        PushAccepts(d, input, consumed', timestampUs, rate, Rest(replies));
      }
    }
  }

  /** A push succeeds if and only if every codec call that it comes to succeeds; it comes to one for each frame that the
      cache and the input fill. Calls behind the given answers succeed. */
  lemma {:induction false} PushSucceedsIff(c: Chunker, input: seq<int>, consumed: nat, timestampUs: nat, rate: nat,
                                           replies: seq<Reply>)
    requires c.size > 0 && rate > 0 && |c.cache| <= c.size && consumed <= |input|
    ensures Push(c, input, consumed, timestampUs, rate, replies).1
       <==> AllSucceed(c.codec, replies, FramesFilled(|c.cache|, |input| - consumed, c.size))
    decreases |input| - consumed, |c.cache|
  {
    if consumed < |input| {
      var frames := FramesFilled(|c.cache|, |input| - consumed, c.size);
      var (d, ok, consumed') := Iterate(c, input, consumed, timestampUs, rate, First(replies));
      IterateCalls(c, input, consumed, timestampUs, rate, First(replies));
      FirstFrameFilled(|c.cache|, |input| - consumed, c.size);
      if Emits(c, input, consumed) {
        FirstSucceeds(c.codec, replies, frames);
        if ok {
          PushSucceedsIff(d, input, consumed', timestampUs, rate, Rest(replies));
        }
      }
    }
  }

  /** One block of PCM with its timestamp and the codec's answers while it is pushed. */
  datatype Input = Input(samples: seq<int>, timestampUs: nat, replies: seq<Reply>)

  /** The blocks pushed one after another, up to the first failure. */
  function PushAll(c: Chunker, blocks: seq<Input>, rate: nat): (r: (Chunker, bool))
    requires c.size > 0 && rate > 0 && |c.cache| <= c.size
    ensures r.0.size == c.size && |r.0.cache| <= c.size
    decreases |blocks|
  {
    if blocks == [] then (c, true)
    else
      var (d, ok) := Push(c, blocks[0].samples, 0, blocks[0].timestampUs, rate, blocks[0].replies);
      if ok then PushAll(d, blocks[1..], rate) else (d, false)
  }

  function Concat(blocks: seq<Input>): seq<int>
    decreases |blocks|
  {
    if blocks == [] then [] else blocks[0].samples + Concat(blocks[1..])
  }

  /** The stream cut independently of any blocking: full frames, then the remainder. */
  function Cut(stream: seq<int>, size: nat): (seq<seq<int>>, seq<int>)
    requires size > 0
    decreases |stream|
  {
    if |stream| < size then ([], stream)
    else
      var (frames, rest) := Cut(stream[size..], size);
      ([stream[..size]] + frames, rest)
  }

  lemma {:induction false} FullUnitsAreTheCut(units: seq<Unit>, cache: seq<int>, size: nat)
    requires size > 0 && |cache| < size
    requires forall i | 0 <= i < |units| :: |units[i].samples| == size
    ensures var (frames, rest) := Cut(Samples(units) + cache, size);
            rest == cache && |frames| == |units| && forall i | 0 <= i < |units| :: frames[i] == units[i].samples
    decreases |units|
  {
    var stream := Samples(units) + cache;
    if units == [] {
      assert stream == cache;
    } else {
      assert stream == units[0].samples + (Samples(units[1..]) + cache);
      assert stream[..size] == units[0].samples && stream[size..] == Samples(units[1..]) + cache;
      FullUnitsAreTheCut(units[1..], cache, size);
    }
  }

  lemma PushStream(c: Chunker, block: Input, rate: nat)
    requires c.size > 0 && rate > 0 && |c.cache| < c.size && FullUnits(c)
    ensures var (d, ok) := Push(c, block.samples, 0, block.timestampUs, rate, block.replies);
            ok ==> FullUnits(d) && |d.cache| < d.size && Stream(d) == Stream(c) + block.samples
  {
    PushShape(c, block.samples, 0, block.timestampUs, rate, block.replies);
    var end := PushIsReblocking(c, block.samples, 0, block.timestampUs, rate, block.replies);
    assert block.samples[0..|block.samples|] == block.samples;
  }

  lemma {:induction false} PushAllStream(c: Chunker, blocks: seq<Input>, rate: nat)
    requires c.size > 0 && rate > 0 && |c.cache| < c.size && FullUnits(c)
    ensures var (d, ok) := PushAll(c, blocks, rate);
            ok ==> FullUnits(d) && |d.cache| < d.size && Stream(d) == Stream(c) + Concat(blocks)
    decreases |blocks|
  {
    if blocks == [] {
      assert Stream(c) + [] == Stream(c);
    } else {
      PushStream(c, blocks[0], rate);
      var (d, ok) := Push(c, blocks[0].samples, 0, blocks[0].timestampUs, rate, blocks[0].replies);
      if ok {
        PushAllStream(d, blocks[1..], rate);
        assert (Stream(c) + blocks[0].samples) + Concat(blocks[1..]) == Stream(c) + Concat(blocks);
      }
    }
  }

  /** What the codec receives does not depend on how the input was blocked: it is the cut of the concatenated input. */
  lemma UnitsIgnoreBlocking(codec: Codec, size: nat, blocks: seq<Input>, rate: nat)
    requires size > 0 && rate > 0
    ensures var (d, ok) := PushAll(Chunker(codec, size, [], 0, []), blocks, rate);
            ok ==>
              var (frames, rest) := Cut(Concat(blocks), size);
              d.cache == rest && |d.units| == |frames|
              && forall i | 0 <= i < |frames| :: d.units[i].samples == frames[i]
  {
    var c := Chunker(codec, size, [], 0, []);
    PushAllStream(c, blocks, rate);
    var (d, ok) := PushAll(c, blocks, rate);
    if ok {
      assert Stream(c) + Concat(blocks) == Concat(blocks);
      FullUnitsAreTheCut(d.units, d.cache, size);
    }
  }

  // ---------------------------------------------------------------- the encoder object

  class Encoder {
    const codec: Codec
    const size: nat
    const sampleRate: nat
    const pcmCache: array<int>
    var cachedFrames: nat
    var cachedTimestampUs: nat
    ghost var units: seq<Unit>

    ghost predicate Valid()
      reads this
    {
      size > 0 && sampleRate > 0 && pcmCache.Length == size && cachedFrames <= size
    }

    ghost function View(): Chunker
      requires Valid()
      reads this, pcmCache
    {
      Chunker(codec, size, pcmCache[..cachedFrames], cachedTimestampUs, units)
    }

    /** `earlier` is what this node's previous encoders accepted. */
    constructor (codec: Codec, size: nat, sampleRate: nat, ghost earlier: seq<Unit>)
      requires size > 0 && sampleRate > 0
      ensures Valid() && fresh(pcmCache) && View() == Chunker(codec, size, [], 0, earlier)
      ensures this.sampleRate == sampleRate
    {
      this.codec, this.size, this.sampleRate := codec, size, sampleRate;
      pcmCache := new int[size];
      cachedFrames, cachedTimestampUs, units := 0, 0, earlier;
    }

    method EncodeCachedFrame(reply: Reply) returns (ok: bool)
      requires Valid() && cachedFrames == size
      modifies this
      ensures Valid() && (View(), ok) == Emit(old(View()), reply)
    {
      if !reply.encoded {
        return false;
      }
      units := units + [Unit(cachedTimestampUs, pcmCache[..])];
      assert pcmCache[..cachedFrames] == pcmCache[..];
      match codec
      case Aac =>
        cachedFrames := 0;
        if reply.outputBytes == 0 {
          return true;
        }
        return reply.callbackOk;
      case Opus =>
        var callbackResult := reply.callbackOk;
        cachedFrames := 0;
        return callbackResult;
    }

    method PushPcm(input: seq<int>, timestampUs: nat, replies: seq<Reply>) returns (ok: bool)
      requires Valid()
      modifies this, pcmCache
      ensures Valid() && (View(), ok) == Push(old(View()), input, 0, timestampUs, sampleRate, replies)
    {
      var consumed := 0;
      var more := replies;
      while consumed < |input|
        invariant 0 <= consumed <= |input| && Valid()
        invariant Push(View(), input, consumed, timestampUs, sampleRate, more)
               == Push(old(View()), input, 0, timestampUs, sampleRate, replies)
        decreases |input| - consumed, cachedFrames
      {
        ghost var before, start := View(), consumed;
        consumed := FillCache(input, consumed, timestampUs);
        assert Emits(before, input, start) <==> cachedFrames == size;
        if cachedFrames == size {
          var emitted := EncodeCachedFrame(First(more));
          if !emitted {
            return false;
          }
          more := Rest(more);
        }
      }
      return true;
    }

    /** Stamp an empty cache, then copy as much of the input as fits. */
    method FillCache(input: seq<int>, consumed: nat, timestampUs: nat) returns (consumed': nat)
      requires Valid() && consumed < |input|
      modifies this, pcmCache
      ensures Valid() && (View(), consumed') == Fill(old(View()), input, consumed, timestampUs, sampleRate)
    {
      var writable, remaining := size - cachedFrames, |input| - consumed;
      var copy := if remaining < writable then remaining else writable;
      if cachedFrames == 0 {
        cachedTimestampUs := timestampUs + FramesToUs(consumed, sampleRate);
      }
      CopyIn(input, consumed, copy);
      consumed' := consumed + copy;
    }

    /** The memcpy of the loop. */
    method CopyIn(input: seq<int>, from: nat, copy: nat)
      requires Valid() && from + copy <= |input| && cachedFrames + copy <= size
      modifies this`cachedFrames, pcmCache
      ensures Valid() && cachedFrames == old(cachedFrames) + copy
      ensures View() == old(View()).(cache := old(View()).cache + input[from..from + copy])
    {
      var i := 0;
      while i < copy
        invariant 0 <= i <= copy && cachedFrames == old(cachedFrames)
        invariant pcmCache[..cachedFrames + i] == old(pcmCache[..cachedFrames]) + input[from..from + i]
      {
        pcmCache[cachedFrames + i] := input[from + i];
        assert input[from..from + i + 1] == input[from..from + i] + [input[from + i]];
        assert pcmCache[..cachedFrames + i + 1] == pcmCache[..cachedFrames + i] + [pcmCache[cachedFrames + i]];
        i := i + 1;
      }
      cachedFrames := cachedFrames + copy;
    }

    /** The unfinished frame is discarded before the codec is told to reset; the answer is the codec's. */
    method ResetState(codecOk: bool) returns (ok: bool)
      requires Valid()
      modifies this
      ensures Valid() && View() == Reset(old(View())) && ok == codecOk
    {
      cachedFrames := 0;
      cachedTimestampUs := 0;
      return codecOk;
    }
  }
}
