/** The audio path end to end: capture clock, lossy raw pool, drop-oldest queue, gap detection and re-blocking.
    A sample is identified with its position in the captured stream since the clock was anchored. What is proved here
    holds of every run of one capture epoch; when frames are free of gaps is the subject of AudioContiguity. */
module AudioTimeline {
  import opened Division
  import opened AudioClock
  import opened FrameEncoder
  import opened EncoderNode

  /** `mark` is the end of the last block the worker took from the queue. */
  datatype Timeline = Timeline(anchor: nat, total: nat, clock: Clock, format: PcmFormat, node: Node, mark: nat)

  datatype Event =
    | Captured(frames: nat, copied: bool)  // a block was read; the raw pool had room for it or not
    | Worked(reply: WorkReply)             // the worker processes the block at the head of the queue

  function Span(a: nat, b: nat): seq<int>
    requires a <= b
  {
    seq(b - a, i => a + i)
  }

  function Step(p: Timeline, e: Event): (q: Timeline)
    requires p.format.sampleRate > 0
    ensures q.format == p.format && q.anchor == p.anchor
  {
    match e
    case Captured(frames, copied) =>
      if frames == 0 then p
      else
        var b := Block(Span(p.total, p.total + frames), p.clock.nextTimestampUs, p.format);
        p.(total := p.total + frames, clock := Advance(p.clock, frames, p.format.sampleRate),
           node := if copied && p.node.capacity >= 1 then Enqueue(p.node, b) else p.node)
    case Worked(reply) =>
      if p.node.queue == [] || !NodeOk(p.node) then p
      else p.(node := Work(p.node, reply), mark := End(p.node.queue[0].samples))
  }

  function Run(p: Timeline, es: seq<Event>): (q: Timeline)
    requires p.format.sampleRate > 0
    ensures q.format == p.format && q.anchor == p.anchor
    decreases |es|
  {
    if es == [] then p else Run(Step(p, es[0]), es[1..])
  }

  /** One past the last position of a run. */
  function End(s: seq<int>): nat {
    if s == [] || s[|s| - 1] < 0 then 0 else s[|s| - 1] + 1
  }

  predicate IsRun(s: seq<int>) {
    forall i | 0 <= i < |s| :: s[i] == s[0] + i && s[i] >= 0
  }

  predicate Rising(s: seq<int>) {
    (forall i | 0 <= i < |s| :: s[i] >= 0) && forall i, j | 0 <= i < j < |s| :: s[i] < s[j]
  }

  // ---------------------------------------------------------------- what holds of the codec's input

  /** At most one microsecond below the exact time of position `first`, never above it. */
  predicate Timed(timestampUs: nat, first: nat, anchor: nat, rate: nat)
    requires rate > 0
  {
    timestampUs <= anchor + FramesToUs(first, rate) <= timestampUs + 1
  }

  predicate UnitsGood(units: seq<Unit>, size: nat, anchor: nat, rate: nat)
    requires rate > 0
  {
    && (forall i | 0 <= i < |units| ::
          |units[i].samples| == size && size > 0 && Rising(units[i].samples)
          && Timed(units[i].timestampUs, units[i].samples[0], anchor, rate))
    && (forall i, j | 0 <= i < j < |units| :: End(units[i].samples) <= units[j].samples[0])
  }

  predicate Below(units: seq<Unit>, position: int) {
    forall i | 0 <= i < |units| :: End(units[i].samples) <= position
  }

  predicate CacheGood(c: Chunker, anchor: nat, rate: nat)
    requires rate > 0
  {
    && c.size > 0 && |c.cache| <= c.size && Rising(c.cache) && UnitsGood(c.units, c.size, anchor, rate)
    && (c.cache != [] ==> Below(c.units, c.cache[0]) && Timed(c.cachedTimestampUs, c.cache[0], anchor, rate))
  }

  /** The push loop at `consumed`: whatever is cached lies before the rest of the input. */
  predicate Feeding(c: Chunker, input: seq<int>, consumed: nat, timestampUs: nat, anchor: nat, rate: nat)
    requires rate > 0
  {
    && CacheGood(c, anchor, rate) && IsRun(input) && 0 < |input| && consumed <= |input|
    && timestampUs == anchor + FramesToUs(input[0], rate)
    && Below(c.units, input[0] + consumed)
    && End(c.cache) <= input[0] + consumed
  }

  /** Appending later positions. */
  lemma RisingJoin(s: seq<int>, t: seq<int>)
    requires Rising(s) && Rising(t) && (s != [] && t != [] ==> End(s) <= t[0])
    ensures Rising(s + t)
    ensures s + t != [] ==> (s + t)[0] == (if s != [] then s[0] else t[0])
                            && End(s + t) == (if t != [] then End(t) else End(s))
  {
    var u := s + t;
    forall i, j | 0 <= i < j < |u| ensures u[i] < u[j] {
      if i < |s| <= j {
        assert s[i] < End(s) <= t[0] <= t[j - |s|];
      }
    }
  }

  lemma FillKeepsOrder(c: Chunker, input: seq<int>, consumed: nat, timestampUs: nat, anchor: nat, rate: nat)
    requires rate > 0 && consumed < |input| && Feeding(c, input, consumed, timestampUs, anchor, rate)
    ensures var (d, consumed') := Fill(c, input, consumed, timestampUs, rate);
            && CacheGood(d, anchor, rate) && d.cache != [] && d.units == c.units && Below(d.units, d.cache[0])
            && consumed <= consumed' <= |input| && End(d.cache) <= input[0] + consumed'
            && (|d.cache| < d.size ==> End(d.cache) == input[0] + consumed' && consumed' == |input|)
  {
    FramesToUsAdds(input[0], consumed, rate);
    var (d, consumed') := Fill(c, input, consumed, timestampUs, rate);
    PartRises(input, consumed, consumed');
    RisingJoin(c.cache, input[consumed..consumed']);
  }

  /** A stretch of a run. */
  lemma PartRises(input: seq<int>, from: nat, to: nat)
    requires IsRun(input) && from <= to <= |input|
    ensures var part := input[from..to];
            Rising(part) && (part != [] ==> part[0] == input[0] + from && End(part) == input[0] + to)
  {
    var part := input[from..to];
    forall i | 0 <= i < |part| ensures part[i] == input[0] + from + i && part[i] >= 0 {
      assert part[i] == input[from + i];
    }
  }

  /** Accepting a full cache appends one unit that lies behind all earlier ones. */
  lemma EmitKeepsOrder(d: Chunker, anchor: nat, rate: nat, reply: Reply)
    requires rate > 0 && CacheGood(d, anchor, rate) && |d.cache| == d.size
    ensures var (e, ok) := Emit(d, reply);
            && CacheGood(e, anchor, rate)
            && (forall position: int | End(d.cache) <= position :: Below(e.units, position))
            && ((e == d && !ok) || e.cache == [])
  {
    assert d.cache[0] < End(d.cache);
  }

  lemma IterateKeepsOrder(c: Chunker, input: seq<int>, consumed: nat, timestampUs: nat, anchor: nat, rate: nat,
                          reply: Reply)
    requires rate > 0 && consumed < |input| && Feeding(c, input, consumed, timestampUs, anchor, rate)
    ensures var (d, ok, consumed') := Iterate(c, input, consumed, timestampUs, rate, reply);
            && CacheGood(d, anchor, rate) && Below(d.units, End(input)) && End(d.cache) <= End(input)
            && (ok ==> Feeding(d, input, consumed', timestampUs, anchor, rate))
            && (!ok ==> d.cache == [] || |d.cache| == d.size)
  {
    FillKeepsOrder(c, input, consumed, timestampUs, anchor, rate);
    var (d, consumed') := Fill(c, input, consumed, timestampUs, rate);
    assert End(input) == input[0] + |input|;
    if |d.cache| == d.size {
      EmitKeepsOrder(d, anchor, rate, reply);
      assert Below(Emit(d, reply).0.units, input[0] + consumed');
      assert Below(Emit(d, reply).0.units, End(input));
    }
  }

  lemma {:induction false} PushKeepsOrder(c: Chunker, input: seq<int>, consumed: nat, timestampUs: nat, anchor: nat,
                                          rate: nat, replies: seq<Reply>)
    requires rate > 0 && Feeding(c, input, consumed, timestampUs, anchor, rate)
    ensures var (d, ok) := Push(c, input, consumed, timestampUs, rate, replies);
            && CacheGood(d, anchor, rate) && Below(d.units, End(input)) && End(d.cache) <= End(input)
            && (ok && consumed < |input| ==> |d.cache| < d.size && (d.cache != [] ==> End(d.cache) == End(input)))
            && (!ok ==> d.cache == [] || |d.cache| == d.size)
    decreases |input| - consumed, |c.cache|
  {
    if consumed < |input| {
      IterateKeepsOrder(c, input, consumed, timestampUs, anchor, rate, First(replies));
      var (d, ok, consumed') := Iterate(c, input, consumed, timestampUs, rate, First(replies));
      if ok {
        var more := if Emits(c, input, consumed) then Rest(replies) else replies;
        PushKeepsOrder(d, input, consumed', timestampUs, anchor, rate, more);
      }
    }
  }

  // ---------------------------------------------------------------- the queue between clock and worker

  predicate BlockGood(b: Block, anchor: nat, format: PcmFormat)
    requires format.sampleRate > 0
  {
    && b.samples != [] && IsRun(b.samples) && b.format == format
    && b.timestampUs == anchor + FramesToUs(b.samples[0], format.sampleRate)
  }

  ghost predicate QueueGood(queue: seq<Block>, anchor: nat, format: PcmFormat)
    requires format.sampleRate > 0
  {
    forall i | 0 <= i < |queue| :: BlockGood(queue[i], anchor, format)
  }

  /** From the last processed position through the queue to the clock, blocks follow one another. */
  predicate Ordered(mark: int, queue: seq<Block>, total: int)
    requires forall i | 0 <= i < |queue| :: queue[i].samples != []
  {
    && mark <= total
    && (forall i | 0 <= i < |queue| :: mark <= queue[i].samples[0] && End(queue[i].samples) <= total)
    && (forall i, j | 0 <= i < j < |queue| :: End(queue[i].samples) <= queue[j].samples[0])
  }

  // ---------------------------------------------------------------- the encoder node

  ghost predicate NodeGood(n: Node, mark: nat, anchor: nat, format: PcmFormat)
    requires format.sampleRate > 0
  {
    && NodeOk(n) && n.format == format && QueueGood(n.queue, anchor, format)
    && n.encoder.size == FrameSize(n.config, format) && n.encoder.codec == n.config.codec
    && CacheGood(n.encoder, anchor, format.sampleRate)
    && Below(n.encoder.units, mark) && End(n.encoder.cache) <= mark
    && (!n.ready ==> n.encoder.cache == [])
    && (n.ready && !n.haveExpected ==> n.encoder.cache == [] || |n.encoder.cache| == n.encoder.size)
    && (n.ready && n.haveExpected ==>
          && (n.encoder.cache == [] || End(n.encoder.cache) == mark) && |n.encoder.cache| < n.encoder.size
          && Timed(n.expectedTimestampUs, mark, anchor, format.sampleRate))
  }

  /** Whatever is cached when a block is about to be pushed lies before that block. */
  lemma PreparedFeeds(n: Node, b: Block, reply: WorkReply, mark: nat, anchor: nat, format: PcmFormat)
    requires format.sampleRate > 0 && NodeGood(n, mark, anchor, format) && BlockGood(b, anchor, format)
    requires mark <= b.samples[0]
    ensures var (m, go) := Prepare(n, b, reply);
            && NodeGood(m, mark, anchor, format) && m.queue == n.queue && (go <==> m.ready)
            && (go ==> Feeding(m.encoder, b.samples, 0, b.timestampUs, anchor, format.sampleRate))
  {
  }

  /** The timestamp expected after a block. */
  lemma ExpectationIsTimed(b: Block, anchor: nat, format: PcmFormat)
    requires format.sampleRate > 0 && BlockGood(b, anchor, format)
    ensures Timed(b.timestampUs + FramesToUs(|b.samples|, format.sampleRate), End(b.samples), anchor, format.sampleRate)
  {
    FramesToUsAdds(b.samples[0], |b.samples|, format.sampleRate);
    assert End(b.samples) == b.samples[0] + |b.samples|;
  }

  lemma PushedIsGood(n: Node, b: Block, replies: seq<Reply>, mark: nat, anchor: nat, format: PcmFormat)
    requires format.sampleRate > 0 && NodeGood(n, mark, anchor, format) && BlockGood(b, anchor, format) && n.ready
    requires Feeding(n.encoder, b.samples, 0, b.timestampUs, anchor, format.sampleRate)
    ensures NodeGood(PushBlock(n, b, replies), End(b.samples), anchor, format)
    ensures PushBlock(n, b, replies).queue == n.queue
  {
    PushKeepsOrder(n.encoder, b.samples, 0, b.timestampUs, anchor, format.sampleRate, replies);
    ExpectationIsTimed(b, anchor, format);
  }

  lemma WorkIsGood(n: Node, reply: WorkReply, mark: nat, anchor: nat, format: PcmFormat)
    requires format.sampleRate > 0 && NodeGood(n, mark, anchor, format) && n.queue != []
    requires mark <= n.queue[0].samples[0]
    ensures NodeGood(Work(n, reply), End(n.queue[0].samples), anchor, format)
    ensures Work(n, reply).queue == n.queue[1..]
  {
    var b := n.queue[0];
    var popped := n.(queue := n.queue[1..]);
    assert BlockGood(b, anchor, format);
    PreparedFeeds(popped, b, reply, mark, anchor, format);
    var (m, go) := Prepare(popped, b, reply);
    assert mark <= End(b.samples);
    if go {
      PushedIsGood(m, b, reply.encode, mark, anchor, format);
    }
  }

  // ---------------------------------------------------------------- every run of one capture epoch

  ghost predicate PipelineGood(p: Timeline) {
    && p.format.sampleRate > 0 && OnTime(p.clock, p.anchor, p.total, p.format.sampleRate)
    && NodeGood(p.node, p.mark, p.anchor, p.format)
    && Ordered(p.mark, p.node.queue, p.total)
  }

  /** Just anchored, nothing captured, a started node. */
  predicate Fresh(p: Timeline) {
    && FormatAccepted(p.node.config, p.format) && p.total == 0 && p.mark == 0 && p.clock == Clock(p.anchor, 0)
    && p.node.capacity >= 1
    && p.node == Node(p.node.config, [], p.node.capacity, 0, p.format, true, false, 0,
                      Chunker(p.node.config.codec, FrameSize(p.node.config, p.format), [], 0, []))
  }

  lemma FreshIsGood(p: Timeline)
    requires Fresh(p)
    ensures PipelineGood(p)
  {
    AcceptedFramesAreNotEmpty(p.node.config, p.format);
    DivUnique(0, p.format.sampleRate, 0, 0);
  }

  lemma HeadDropped(mark: int, queue: seq<Block>, total: int)
    requires forall i | 0 <= i < |queue| :: queue[i].samples != []
    requires queue != [] && Ordered(mark, queue, total)
    ensures Ordered(mark, queue[1..], total)
  {
    assert forall i | 0 <= i < |queue[1..]| :: queue[1..][i] == queue[i + 1];
  }

  lemma BlockAppended(mark: int, queue: seq<Block>, total: int, b: Block)
    requires forall i | 0 <= i < |queue| :: queue[i].samples != []
    requires b.samples != [] && total <= b.samples[0] < End(b.samples) && Ordered(mark, queue, total)
    ensures Ordered(mark, queue + [b], End(b.samples))
  {
  }

  lemma EnqueueIsGood(p: Timeline, b: Block)
    requires PipelineGood(p) && BlockGood(b, p.anchor, p.format) && b.samples[0] == p.total
    ensures NodeGood(Enqueue(p.node, b), p.mark, p.anchor, p.format)
    ensures Ordered(p.mark, Enqueue(p.node, b).queue, End(b.samples))
  {
    assert End(b.samples) == b.samples[0] + |b.samples|;
    if |p.node.queue| == p.node.capacity {
      HeadDropped(p.mark, p.node.queue, p.total);
      BlockAppended(p.mark, p.node.queue[1..], p.total, b);
    } else {
      BlockAppended(p.mark, p.node.queue, p.total, b);
    }
  }

  /** The block the clock has just produced. */
  function Produced(p: Timeline, frames: nat): Block {
    Block(Span(p.total, p.total + frames), p.clock.nextTimestampUs, p.format)
  }

  lemma ProducedIsGood(p: Timeline, frames: nat)
    requires PipelineGood(p) && frames > 0
    ensures BlockGood(Produced(p, frames), p.anchor, p.format)
    ensures Produced(p, frames).samples[0] == p.total && End(Produced(p, frames).samples) == p.total + frames
  {
  }

  lemma CaptureIsGood(p: Timeline, frames: nat, copied: bool)
    requires PipelineGood(p) && frames > 0
    ensures PipelineGood(Step(p, Captured(frames, copied)))
  {
    AdvanceStaysOnTime(p.clock, p.anchor, p.total, frames, p.format.sampleRate);
    if copied {
      ProducedIsGood(p, frames);
      EnqueueIsGood(p, Produced(p, frames));
    }
  }

  lemma WorkedIsGood(p: Timeline, reply: WorkReply)
    requires PipelineGood(p) && p.node.queue != []
    ensures PipelineGood(Step(p, Worked(reply)))
    ensures Step(p, Worked(reply)).node == Work(p.node, reply)
    ensures Step(p, Worked(reply)).mark == End(p.node.queue[0].samples)
  {
    WorkIsGood(p.node, reply, p.mark, p.anchor, p.format);
  }

  lemma StepIsGood(p: Timeline, e: Event)
    requires PipelineGood(p)
    ensures PipelineGood(Step(p, e))
  {
    match e
    case Captured(frames, copied) =>
      if frames > 0 {
        CaptureIsGood(p, frames, copied);
      } else {
        assert Step(p, e) == p;
      }
    case Worked(reply) =>
      if p.node.queue != [] {
        WorkedIsGood(p, reply);
      } else {
        assert Step(p, e) == p;
      }
  }

  lemma WorkKeepsConfig(n: Node, reply: WorkReply)
    requires NodeOk(n) && n.queue != []
    ensures Work(n, reply).config == n.config
  {
    PreparedIsReady(n.(queue := n.queue[1..]), n.queue[0], reply);
  }

  lemma ConfigIsKept(p: Timeline, e: Event)
    requires p.format.sampleRate > 0
    ensures Step(p, e).node.config == p.node.config
  {
    if e.Worked? && p.node.queue != [] && NodeOk(p.node) {
      WorkKeepsConfig(p.node, e.reply);
    }
  }

  lemma {:induction false} RunIsGood(p: Timeline, es: seq<Event>)
    requires PipelineGood(p)
    ensures PipelineGood(Run(p, es))
    ensures Run(p, es).node.config == p.node.config
    decreases |es|
  {
    if es != [] {
      StepIsGood(p, es[0]);
      ConfigIsKept(p, es[0]);
      RunIsGood(Step(p, es[0]), es[1..]);
    }
  }

  /** In every run of one capture epoch, whatever the pool and the queue lose and whichever codec calls fail: every
      frame the codec accepts has exactly the frame size and consists of captured samples in order, later frames lie
      behind earlier ones, and each timestamp is the exact capture time of its first sample rounded down, or one
      microsecond less. */
  lemma FramesAreOrderedAndTimed(p: Timeline, es: seq<Event>)
    requires Fresh(p)
    ensures var q := Run(p, es);
            var units, size := q.node.encoder.units, FrameSize(p.node.config, p.format);
            && (forall i | 0 <= i < |units| ::
                  && |units[i].samples| == size > 0 && Rising(units[i].samples) && End(units[i].samples) <= q.total
                  && Timed(units[i].timestampUs, units[i].samples[0], p.anchor, p.format.sampleRate))
            && (forall i, j | 0 <= i < j < |units| :: End(units[i].samples) <= units[j].samples[0])
  {
    FreshIsGood(p);
    RunIsGood(p, es);
  }
}
