/** What one accepted frame is: of one format, as long as the codec's frame lasts, and, as long as nothing is lost and
    the codec accepts everything, one piece of an even cut of the captured stream. */
module AudioFrames {
  import opened Division
  import opened AudioClock
  import opened FrameEncoder
  import opened EncoderNode
  import AT = AudioTimeline
  import AC = AudioContiguity

  // ---------------------------------------------------------------- how long a frame lasts

  /** An accepted Opus frame lasts exactly the configured time; an AAC frame has 1024 samples. */
  lemma FrameLasts(config: Config, format: PcmFormat)
    requires FormatAccepted(config, format)
    ensures if config.codec == Opus
            then FrameSize(config, format) * 1000000 == format.sampleRate * config.frameDurationUs
            else FrameSize(config, format) == 1024
  {
  }

  lemma Scaled(i: nat, size: nat, rate: nat, duration: nat)
    requires size * 1000000 == rate * duration
    ensures (i * size) * 1000000 == rate * (i * duration)
  {
    assert (i * size) * 1000000 == i * (size * 1000000);
    assert i * (rate * duration) == rate * (i * duration);
  }

  /** So the first sample of frame i is i frame lengths away from the start, without any rounding. */
  lemma OpusFramesStartOnTime(config: Config, format: PcmFormat, i: nat)
    requires FormatAccepted(config, format) && config.codec == Opus
    ensures FramesToUs(i * FrameSize(config, format), format.sampleRate) == i * config.frameDurationUs
  {
    FrameLasts(config, format);
    var size, rate, duration := FrameSize(config, format), format.sampleRate, config.frameDurationUs;
    Scaled(i, size, rate, duration);
    DivUnique((i * size) * 1000000, rate, i * duration, 0);
  }

  // ---------------------------------------------------------------- the even cut

  /** Every codec call of the run succeeds. */
  predicate AlwaysAccepting(es: seq<AT.Event>, codec: Codec) {
    forall i | 0 <= i < |es| && es[i].Worked? :: Accepting(codec, es[i].reply.encode)
  }

  predicate Accepting(codec: Codec, replies: seq<Reply>) {
    AllSucceed(codec, replies, |replies|)
  }

  /** Nothing is missing anywhere, and what the encoder received is the stream up to the mark. */
  ghost predicate Even(p: AT.Timeline) {
    && AC.Unbroken(p) && p.node.ready && FullUnits(p.node.encoder) && |p.node.encoder.cache| < p.node.encoder.size
    && Stream(p.node.encoder) == AT.Span(0, p.mark)
  }

  lemma SpansJoin(a: nat, b: nat, c: nat)
    requires a <= b <= c
    ensures AT.Span(a, b) + AT.Span(b, c) == AT.Span(a, c)
  {
  }

  lemma RunIsSpan(s: seq<int>)
    requires AT.IsRun(s) && s != []
    ensures s[0] >= 0 && AT.End(s) == s[0] + |s| && s == AT.Span(s[0], AT.End(s))
  {
  }

  /** A block that continues the last one is pushed as it is. */
  lemma ContinuationIsPushed(p: AT.Timeline, reply: WorkReply)
    requires Even(p) && p.node.queue != []
    ensures var popped := p.node.(queue := p.node.queue[1..]);
            Work(p.node, reply) == PushBlock(popped, p.node.queue[0], reply.encode)
  {
    assert AT.BlockGood(p.node.queue[0], p.anchor, p.format);
  }

  lemma EvenWork(p: AT.Timeline, reply: WorkReply)
    requires Even(p) && p.node.queue != [] && Accepting(p.node.config.codec, reply.encode)
    ensures var n := Work(p.node, reply);
            && n.ready && FullUnits(n.encoder) && |n.encoder.cache| < n.encoder.size
            && Stream(n.encoder) == AT.Span(0, AT.End(p.node.queue[0].samples))
  {
    var b, rate := p.node.queue[0], p.format.sampleRate;
    assert AT.BlockGood(b, p.anchor, p.format);
    ContinuationIsPushed(p, reply);
    PushSucceedsIff(p.node.encoder, b.samples, 0, b.timestampUs, rate, reply.encode);
    PushStream(p.node.encoder, Input(b.samples, b.timestampUs, reply.encode), rate);
    RunIsSpan(b.samples);
    SpansJoin(0, p.mark, AT.End(b.samples));
  }

  lemma StepIsEven(p: AT.Timeline, e: AT.Event)
    requires Even(p)
    requires e.Captured? && e.frames > 0 ==> e.copied && |p.node.queue| < p.node.capacity
    requires e.Worked? ==> Accepting(p.node.config.codec, e.reply.encode)
    ensures Even(AT.Step(p, e))
  {
    AC.StepKeepsUnbroken(p, e);
    if e.Worked? && p.node.queue != [] {
      EvenWork(p, e.reply);
    }
  }

  lemma {:induction false} RunIsEven(p: AT.Timeline, es: seq<AT.Event>)
    requires Even(p) && AC.Lossless(p, es) && AlwaysAccepting(es, p.node.config.codec)
    ensures Even(AT.Run(p, es))
    decreases |es|
  {
    if es != [] {
      StepIsEven(p, es[0]);
      AT.ConfigIsKept(p, es[0]);
      assert forall i | 0 <= i < |es[1..]| :: es[1..][i] == es[i + 1];
      RunIsEven(AT.Step(p, es[0]), es[1..]);
    }
  }

  lemma SpanParts(a: nat, b: nat, size: nat)
    requires a + size <= b
    ensures AT.Span(a, b)[..size] == AT.Span(a, a + size) && AT.Span(a, b)[size..] == AT.Span(a + size, b)
  {
  }

  lemma FirstFrameOfSpan(units: seq<Unit>, cache: seq<int>, size: nat, a: nat, b: nat)
    requires units != [] && a <= b && Samples(units) + cache == AT.Span(a, b) && |units[0].samples| == size
    ensures a + size <= b && units[0].samples == AT.Span(a, a + size)
    ensures Samples(units[1..]) + cache == AT.Span(a + size, b)
  {
    var stream, first := Samples(units) + cache, units[0].samples;
    assert stream == first + (Samples(units[1..]) + cache);
    assert |stream| == b - a;
    SpanParts(a, b, size);
    assert stream[..size] == first && stream[size..] == Samples(units[1..]) + cache;
  }

  lemma OneFrameOn(a: nat, size: nat, i: nat)
    requires i > 0
    ensures (a + size) + (i - 1) * size == a + i * size
  {
  }

  /** Full frames over a stretch of the stream begin at even distances. */
  lemma {:induction false} FramesOfSpan(units: seq<Unit>, cache: seq<int>, size: nat, a: nat, b: nat)
    requires a <= b && Samples(units) + cache == AT.Span(a, b)
    requires forall i | 0 <= i < |units| :: |units[i].samples| == size
    ensures b == a + |units| * size + |cache|
    ensures forall i | 0 <= i < |units| :: units[i].samples == AT.Span(a + i * size, a + i * size + size)
    decreases |units|
  {
    if units == [] {
      assert |Samples(units) + cache| == |cache|;
    } else {
      FirstFrameOfSpan(units, cache, size, a, b);
      FramesOfSpan(units[1..], cache, size, a + size, b);
      OneFrameOn(a, size, |units|);
      forall i | 0 <= i < |units| ensures units[i].samples == AT.Span(a + i * size, a + i * size + size) {
        if i > 0 {
          assert units[i] == units[1..][i - 1];
          OneFrameOn(a, size, i);
        }
      }
    }
  }

  lemma FreshIsEven(p: AT.Timeline)
    requires AT.Fresh(p)
    ensures Even(p)
  {
    AT.FreshIsGood(p);
    assert Stream(p.node.encoder) == AT.Span(0, 0);
  }

  /** The frames and the cache of an even node are the cut of what was processed. */
  lemma EvenFrames(p: AT.Timeline)
    requires Even(p)
    ensures var units, size := p.node.encoder.units, p.node.encoder.size;
            && |units| * size <= p.mark < |units| * size + size
            && forall i | 0 <= i < |units| :: units[i].samples == AT.Span(i * size, i * size + size)
  {
    FramesOfSpan(p.node.encoder.units, p.node.encoder.cache, p.node.encoder.size, 0, p.mark);
  }

  /** Timestamps of Opus frames that begin at even distances. */
  lemma EvenTimestamps(units: seq<Unit>, config: Config, format: PcmFormat, anchor: nat)
    requires FormatAccepted(config, format) && config.codec == Opus
    requires var size := FrameSize(config, format);
             forall i | 0 <= i < |units| ::
               |units[i].samples| == size > 0 && units[i].samples[0] == i * size
               && AT.Timed(units[i].timestampUs, i * size, anchor, format.sampleRate)
    ensures forall i | 0 <= i < |units| :: WithinOne(units[i].timestampUs, anchor + i * config.frameDurationUs)
  {
    forall i | 0 <= i < |units| ensures WithinOne(units[i].timestampUs, anchor + i * config.frameDurationUs) {
      OpusFramesStartOnTime(config, format, i);
    }
  }

  /** At most one microsecond early. */
  predicate WithinOne(timestampUs: nat, exact: int) {
    timestampUs <= exact <= timestampUs + 1
  }

  lemma TimestampsStep(units: seq<Unit>, anchor: nat, duration: nat)
    requires forall i | 0 <= i < |units| :: WithinOne(units[i].timestampUs, anchor + i * duration)
    ensures forall i | 0 < i < |units| :: -1 <= units[i].timestampUs - units[i - 1].timestampUs - duration <= 1
  {
    forall i | 0 < i < |units| ensures -1 <= units[i].timestampUs - units[i - 1].timestampUs - duration <= 1 {
      assert (i - 1) * duration + duration == i * duration;
      assert WithinOne(units[i - 1].timestampUs, anchor + (i - 1) * duration);
    }
  }

  /** Along a run that loses nothing, with a codec that accepts everything, the accepted frames are the even cut of all
      that was processed: frame i is the samples from i * size on. */
  lemma LosslessFramesAreEven(p: AT.Timeline, es: seq<AT.Event>)
    requires AT.Fresh(p) && AC.Lossless(p, es) && AlwaysAccepting(es, p.node.config.codec)
    ensures var units, size := AT.Run(p, es).node.encoder.units, FrameSize(p.node.config, p.format);
            && |units| * size <= AT.Run(p, es).mark < |units| * size + size
            && forall i | 0 <= i < |units| :: units[i].samples == AT.Span(i * size, i * size + size)
  {
    FreshIsEven(p);
    RunIsEven(p, es);
    AT.FreshIsGood(p);
    AT.RunIsGood(p, es);
    EvenFrames(AT.Run(p, es));
  }

  /** If the codec is Opus, frame i then carries the anchor plus i frame durations, or a microsecond less, so successive
      timestamps differ by the configured duration up to a microsecond. */
  lemma OpusFramesAreEvenlyTimed(p: AT.Timeline, es: seq<AT.Event>)
    requires AT.Fresh(p) && AC.Lossless(p, es)
    requires AlwaysAccepting(es, p.node.config.codec) && p.node.config.codec == Opus
    ensures var units, duration := AT.Run(p, es).node.encoder.units, p.node.config.frameDurationUs;
            && (forall i | 0 <= i < |units| :: WithinOne(units[i].timestampUs, p.anchor + i * duration))
            && (forall i | 0 < i < |units| :: -1 <= units[i].timestampUs - units[i - 1].timestampUs - duration <= 1)
  {
    LosslessFramesAreEven(p, es);
    AT.FramesAreOrderedAndTimed(p, es);
    var units, size := AT.Run(p, es).node.encoder.units, FrameSize(p.node.config, p.format);
    forall i | 0 <= i < |units|
      ensures |units[i].samples| == size > 0 && units[i].samples[0] == i * size
    {
      assert units[i].samples == AT.Span(i * size, i * size + size);
    }
    EvenTimestamps(units, p.node.config, p.format, p.anchor);
    TimestampsStep(units, p.anchor, p.node.config.frameDurationUs);
  }

  // ---------------------------------------------------------------- one format to a frame

  /** What happens to the node, with blocks of any formats. */
  datatype NodeEvent = Queued(b: Block) | Turned(reply: WorkReply)

  function NodeStep(n: Node, e: NodeEvent): (m: Node)
    requires NodeOk(n)
    ensures NodeOk(m)
  {
    match e
    case Queued(b) => Enqueue(n, b)
    case Turned(reply) =>
      if n.queue == [] then n
      else
        WorkIsOk(n, reply);
        Work(n, reply)
  }

  lemma WorkIsOk(n: Node, reply: WorkReply)
    requires NodeOk(n) && n.queue != []
    ensures NodeOk(Work(n, reply))
  {
    PreparedIsReady(n.(queue := n.queue[1..]), n.queue[0], reply);
  }

  function NodeRun(n: Node, es: seq<NodeEvent>): (m: Node)
    requires NodeOk(n)
    ensures NodeOk(m)
    decreases |es|
  {
    if es == [] then n else NodeRun(NodeStep(n, es[0]), es[1..])
  }

  /** Every sample was recorded in one format, which its block carries. */
  ghost predicate Labelled(b: Block, formatOf: int -> PcmFormat) {
    forall s | s in b.samples :: formatOf(s) == b.format
  }

  ghost predicate AllOf(samples: seq<int>, formatOf: int -> PcmFormat, format: PcmFormat) {
    forall s | s in samples :: formatOf(s) == format
  }

  /** A frame of one accepted format, as long as frames of that format are. */
  ghost predicate OfOneFormat(u: Unit, config: Config, formatOf: int -> PcmFormat) {
    exists format :: FormatAccepted(config, format) && AllOf(u.samples, formatOf, format)
                     && |u.samples| == FrameSize(config, format)
  }

  ghost predicate UnitsOfOneFormat(units: seq<Unit>, config: Config, formatOf: int -> PcmFormat) {
    forall u | u in units :: OfOneFormat(u, config, formatOf)
  }

  ghost predicate Sorted(n: Node, formatOf: int -> PcmFormat) {
    && (forall b | b in n.queue :: Labelled(b, formatOf)) && UnitsOfOneFormat(n.encoder.units, n.config, formatOf)
    && (n.ready ==> FormatAccepted(n.config, n.format) && n.encoder.size == FrameSize(n.config, n.format)
                    && AllOf(n.encoder.cache, formatOf, n.format))
  }

  lemma IterateKeepsFormat(c: Chunker, input: seq<int>, consumed: nat, timestampUs: nat, rate: nat, reply: Reply,
                           config: Config, format: PcmFormat, formatOf: int -> PcmFormat)
    requires c.size > 0 && rate > 0 && |c.cache| <= c.size && consumed < |input|
    requires FormatAccepted(config, format) && c.size == FrameSize(config, format)
    requires AllOf(input, formatOf, format) && AllOf(c.cache, formatOf, format)
    requires UnitsOfOneFormat(c.units, config, formatOf)
    ensures var d := Iterate(c, input, consumed, timestampUs, rate, reply).0;
            AllOf(d.cache, formatOf, format) && UnitsOfOneFormat(d.units, config, formatOf)
  {
    var (d, consumed') := Fill(c, input, consumed, timestampUs, rate);
    assert forall s | s in input[consumed..consumed'] :: s in input;
    assert AllOf(d.cache, formatOf, format);
    if |d.cache| == d.size {
      assert OfOneFormat(Unit(d.cachedTimestampUs, d.cache), config, formatOf);
    }
  }

  lemma {:induction false} PushKeepsFormat(c: Chunker, input: seq<int>, consumed: nat, timestampUs: nat, rate: nat,
                                           replies: seq<Reply>, config: Config, format: PcmFormat,
                                           formatOf: int -> PcmFormat)
    requires c.size > 0 && rate > 0 && |c.cache| <= c.size && consumed <= |input|
    requires FormatAccepted(config, format) && c.size == FrameSize(config, format)
    requires AllOf(input, formatOf, format) && AllOf(c.cache, formatOf, format)
    requires UnitsOfOneFormat(c.units, config, formatOf)
    ensures var d := Push(c, input, consumed, timestampUs, rate, replies).0;
            AllOf(d.cache, formatOf, format) && UnitsOfOneFormat(d.units, config, formatOf)
    decreases |input| - consumed, |c.cache|
  {
    if consumed < |input| {
      IterateKeepsFormat(c, input, consumed, timestampUs, rate, First(replies), config, format, formatOf);
      var (d, ok, consumed') := Iterate(c, input, consumed, timestampUs, rate, First(replies));
      if ok {
        PushKeepsFormat(d, input, consumed', timestampUs, rate,
                        if Emits(c, input, consumed) then Rest(replies) else replies, config, format, formatOf);
      }
    }
  }

  /** Whatever is still cached when a block is about to be pushed is of the block's format. */
  lemma PreparedIsSorted(n: Node, b: Block, reply: WorkReply, formatOf: int -> PcmFormat)
    requires NodeOk(n) && Sorted(n, formatOf)
    ensures var (m, go) := Prepare(n, b, reply);
            && Sorted(m, formatOf) && m.queue == n.queue && m.config == n.config
            && (go ==> m.ready && m.format == b.format)
  {
  }

  lemma TurnIsSorted(n: Node, reply: WorkReply, formatOf: int -> PcmFormat)
    requires NodeOk(n) && Sorted(n, formatOf) && n.queue != []
    ensures Sorted(Work(n, reply), formatOf) && Work(n, reply).config == n.config
  {
    var b, popped := n.queue[0], n.(queue := n.queue[1..]);
    PreparedIsReady(popped, b, reply);
    PreparedIsSorted(popped, b, reply, formatOf);
    var (m, go) := Prepare(popped, b, reply);
    assert b in n.queue;
    if go && b.samples != [] {
      PushKeepsFormat(m.encoder, b.samples, 0, b.timestampUs, m.format.sampleRate, reply.encode, m.config, m.format,
                      formatOf);
    }
  }

  /** After a turn with a block that the node was ready for, the node knows when the next block is to begin if and
      only if the block was not empty and every codec call succeeded, and then it is where the block ends. */
  lemma TurnExpectsNext(n: Node, reply: WorkReply)
    requires NodeOk(n) && n.queue != []
    requires Prepare(n.(queue := n.queue[1..]), n.queue[0], reply).1
    ensures var b, m, after := n.queue[0], Prepare(n.(queue := n.queue[1..]), n.queue[0], reply).0, Work(n, reply);
            && m.ready && m.format.sampleRate > 0 && m.encoder.size > 0
            && (after.haveExpected <==>
                  b.samples != []
                  && AllSucceed(m.encoder.codec, reply.encode,
                                FramesFilled(|m.encoder.cache|, |b.samples|, m.encoder.size)))
            && (after.haveExpected ==>
                  after.expectedTimestampUs == b.timestampUs + FramesToUs(|b.samples|, m.format.sampleRate))
  {
    var b, popped := n.queue[0], n.(queue := n.queue[1..]);
    PreparedIsReady(popped, b, reply);
    var m := Prepare(popped, b, reply).0;
    PushSucceedsIff(m.encoder, b.samples, 0, b.timestampUs, m.format.sampleRate, reply.encode);
  }

  /** The node as its start leaves it. */
  predicate Started(n: Node) {
    && n.capacity >= 1 && n.queue == [] && n.encoder.units == [] && n.encoder.cache == []
    && (n.ready ==> FormatAccepted(n.config, n.format) && n.encoder.size == FrameSize(n.config, n.format))
  }

  lemma StartedIsOk(n: Node)
    requires Started(n)
    ensures NodeOk(n)
  {
    if n.ready {
      AcceptedFramesAreNotEmpty(n.config, n.format);
    }
  }

  lemma {:induction false} RunIsSorted(n: Node, es: seq<NodeEvent>, formatOf: int -> PcmFormat)
    requires NodeOk(n) && Sorted(n, formatOf)
    requires forall e | e in es && e.Queued? :: Labelled(e.b, formatOf)
    ensures Sorted(NodeRun(n, es), formatOf) && NodeRun(n, es).config == n.config
    decreases |es|
  {
    if es != [] {
      assert es[0] in es && forall e | e in es[1..] :: e in es;
      if es[0].Turned? && n.queue != [] {
        TurnIsSorted(n, es[0].reply, formatOf);
      }
      RunIsSorted(NodeStep(n, es[0]), es[1..], formatOf);
    }
  }

  /** However the formats of the blocks change, whatever is dropped and whatever the codec answers: every frame the
      codec accepts holds samples of one format only, is as long as frames of that format are, and the format is one
      the codec takes. */
  lemma FramesHaveOneFormat(n: Node, es: seq<NodeEvent>, formatOf: int -> PcmFormat)
    requires Started(n)
    requires forall e | e in es && e.Queued? :: Labelled(e.b, formatOf)
    ensures NodeOk(n) && UnitsOfOneFormat(NodeRun(n, es).encoder.units, n.config, formatOf)
  {
    StartedIsOk(n);
    RunIsSorted(n, es, formatOf);
  }
}
