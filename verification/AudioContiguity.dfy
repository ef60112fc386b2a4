/** When a frame spans a gap: exactly when a block behind a gap of at most a millisecond, as the detector sees it, is
    pushed onto a frame under construction. Blocks longer than that rule it out. */
module AudioContiguity {
  import opened AudioClock
  import opened FrameEncoder
  import opened EncoderNode
  import opened AudioTimeline

  // ---------------------------------------------------------------- the frame under construction

  predicate RunsOnly(c: Chunker) {
    IsRun(c.cache) && forall i | 0 <= i < |c.units| :: IsRun(c.units[i].samples)
  }

  /** The first frame that a push onto the unfilled cache of c builds: accepted by the codec, or still cached. */
  function FrameBuilt(c: Chunker, d: Chunker): seq<int> {
    if |d.units| > |c.units| then d.units[|c.units|].samples else d.cache
  }

  /** It is what was cached, then as much of the input as it takes. */
  lemma FrameIsCacheThenInput(c: Chunker, input: seq<int>, timestampUs: nat, rate: nat, replies: seq<Reply>)
    requires c.size > 0 && rate > 0 && |c.cache| < c.size && input != [] && FullUnits(c)
    ensures var room := c.size - |c.cache|;
            var k := if |input| < room then |input| else room;
            FrameBuilt(c, Push(c, input, 0, timestampUs, rate, replies).0) == c.cache + input[..k]
  {
    var (d, ok, consumed) := Iterate(c, input, 0, timestampUs, rate, First(replies));
    var (filled, _) := Fill(c, input, 0, timestampUs, rate);
    assert input[0..consumed] == input[..consumed];
    assert filled.cache == c.cache + input[..consumed];
    IterateKeepsStream(c, input, 0, timestampUs, rate, First(replies));
    if ok {
      var more := if Emits(c, input, 0) then Rest(replies) else replies;
      PushShape(d, input, consumed, timestampUs, rate, more);
    }
  }

  /** A push keeps frames free of gaps if the input continues the cache, or if nothing that could be continued is
      cached. */
  lemma {:induction false} PushKeepsRuns(c: Chunker, input: seq<int>, consumed: nat, timestampUs: nat, rate: nat,
                                         replies: seq<Reply>)
    requires c.size > 0 && rate > 0 && |c.cache| <= c.size && consumed <= |input|
    requires RunsOnly(c) && IsRun(input)
    requires c.cache == [] || |c.cache| == c.size || (input != [] && End(c.cache) == input[0] + consumed)
    ensures RunsOnly(Push(c, input, consumed, timestampUs, rate, replies).0)
    decreases |input| - consumed, |c.cache|
  {
    if consumed < |input| {
      FillKeepsRuns(c, input, consumed, timestampUs, rate);
      var (d, ok, consumed') := Iterate(c, input, consumed, timestampUs, rate, First(replies));
      if ok {
        var more := if Emits(c, input, consumed) then Rest(replies) else replies;
        PushKeepsRuns(d, input, consumed', timestampUs, rate, more);
      }
    }
  }

  lemma FillKeepsRuns(c: Chunker, input: seq<int>, consumed: nat, timestampUs: nat, rate: nat)
    requires c.size > 0 && rate > 0 && |c.cache| <= c.size && consumed < |input|
    requires RunsOnly(c) && IsRun(input)
    requires c.cache == [] || |c.cache| == c.size || End(c.cache) == input[0] + consumed
    ensures var (d, consumed') := Fill(c, input, consumed, timestampUs, rate);
            RunsOnly(d) && (|d.cache| < d.size ==> End(d.cache) == input[0] + consumed')
  {
  }

  // ---------------------------------------------------------------- joining

  /** Two positions next to each other in a frame. */
  predicate Bridges(frame: seq<int>, a: int, b: int) {
    exists i :: 0 <= i < |frame| - 1 && frame[i] == a && frame[i + 1] == b
  }

  /** The next block can only be told from a continuation by its timestamp: a frame is under construction and the node
      knows when it should go on. */
  predicate Continues(p: Timeline) {
    && p.node.queue != [] && p.node.queue[0].samples != []
    && p.node.ready && p.node.haveExpected && p.node.encoder.cache != []
  }

  /** Then the block joins the frame across a gap: it does not continue it, and the detector does not fire. */
  predicate Joins(p: Timeline, e: Event) {
    && e.Worked? && Continues(p) && p.node.queue[0].samples[0] != p.mark
    && !Discontinuous(p.node.expectedTimestampUs, p.node.queue[0].timestampUs)
  }

  lemma GoodUnitsAreFull(n: Node, mark: nat, anchor: nat, format: PcmFormat)
    requires format.sampleRate > 0 && NodeGood(n, mark, anchor, format)
    ensures FullUnits(n.encoder)
  {
  }

  /** A detected gap discards the frame under construction; an undetected one leaves the node as it is. */
  lemma PreparedFrame(n: Node, b: Block, reply: WorkReply)
    requires NodeOk(n) && n.ready && n.haveExpected && b.format == n.format && FullUnits(n.encoder)
    requires n.encoder.size == FrameSize(n.config, n.format) && |n.encoder.cache| < n.encoder.size
    ensures var (m, go) := Prepare(n, b, reply);
            && (go ==> m.ready && m.format == n.format && m.encoder.size > 0 && |m.encoder.cache| < m.encoder.size
                       && FullUnits(m.encoder))
            && m.encoder.units == n.encoder.units
            && (if Discontinuous(n.expectedTimestampUs, b.timestampUs) then m.encoder.cache == [] else m == n && go)
  {
    PreparedIsReady(n, b, reply);
  }

  /** The push of a prepared block. */
  lemma PushBuilds(m: Node, b: Block, replies: seq<Reply>)
    requires m.ready && m.format.sampleRate > 0 && b.samples != [] && FullUnits(m.encoder)
    requires m.encoder.size > 0 && |m.encoder.cache| < m.encoder.size
    ensures var c, frame := m.encoder, FrameBuilt(m.encoder, PushBlock(m, b, replies).encoder);
            |c.cache| < |frame| <= |c.cache| + |b.samples| && frame == c.cache + b.samples[..|frame| - |c.cache|]
  {
    FrameIsCacheThenInput(m.encoder, b.samples, b.timestampUs, m.format.sampleRate, replies);
  }

  /** What processing the block at the head makes of the frame under construction. */
  predicate Builds(n: Node, frame: seq<int>)
    requires n.queue != []
  {
    var b, c := n.queue[0], n.encoder;
    if Discontinuous(n.expectedTimestampUs, b.timestampUs)
    then |frame| <= |b.samples| && frame == b.samples[..|frame|]
    else |c.cache| < |frame| <= |c.cache| + |b.samples| && frame == c.cache + b.samples[..|frame| - |c.cache|]
  }

  lemma NodeBuilds(n: Node, reply: WorkReply)
    requires NodeOk(n) && n.ready && n.haveExpected && n.encoder.size == FrameSize(n.config, n.format)
    requires n.queue != [] && n.queue[0].format == n.format && n.queue[0].samples != []
    requires FullUnits(n.encoder) && |n.encoder.cache| < n.encoder.size
    ensures Builds(n, FrameBuilt(n.encoder, Work(n, reply).encoder))
  {
    var b, popped := n.queue[0], n.(queue := n.queue[1..]);
    PreparedFrame(popped, b, reply);
    var (m, go) := Prepare(popped, b, reply);
    if go {
      PushBuilds(m, b, reply.encode);
    } else {
      assert Work(n, reply).encoder == m.encoder;
    }
  }

  /** What one worker turn makes of the frame under construction. */
  lemma WorkBuilds(p: Timeline, reply: WorkReply)
    requires PipelineGood(p) && Continues(p)
    ensures Builds(p.node, FrameBuilt(p.node.encoder, Work(p.node, reply).encoder))
  {
    assert BlockGood(p.node.queue[0], p.anchor, p.format);
    GoodUnitsAreFull(p.node, p.mark, p.anchor, p.format);
    NodeBuilds(p.node, reply);
  }

  /** A frame built from what was cached up to `mark` and from the block reaches across from one to the other only if
      the detector let it. */
  lemma BuiltFrameBridges(n: Node, frame: seq<int>, mark: int)
    requires n.queue != [] && n.queue[0].samples != [] && IsRun(n.queue[0].samples) && n.encoder.cache != []
    requires n.encoder.cache[|n.encoder.cache| - 1] == mark - 1 && mark <= n.queue[0].samples[0] && Builds(n, frame)
    ensures Bridges(frame, mark - 1, n.queue[0].samples[0])
       <==> !Discontinuous(n.expectedTimestampUs, n.queue[0].timestampUs)
  {
    var b, c := n.queue[0], n.encoder;
    if Discontinuous(n.expectedTimestampUs, b.timestampUs) {
      assert forall i | 0 <= i < |frame| :: frame[i] == b.samples[i];
    } else {
      assert frame[|c.cache| - 1] == mark - 1 && frame[|c.cache|] == b.samples[0];
    }
  }

  lemma CacheEndsAtMark(p: Timeline)
    requires PipelineGood(p) && Continues(p)
    ensures End(p.node.encoder.cache) == p.mark <= p.node.queue[0].samples[0]
    ensures p.node.encoder.cache[|p.node.encoder.cache| - 1] == p.mark - 1 && IsRun(p.node.queue[0].samples)
  {
    assert BlockGood(p.node.queue[0], p.anchor, p.format);
  }

  /** In every reachable state, whatever was lost before and whatever the codec answers: the block a worker turn
      processes ends up next to the last sample of the frame under construction although it does not continue it, if
      and only if it does not continue it and its timestamp is at most a millisecond off. */
  lemma SplicesExactlyUnnoticedGaps(p: Timeline, es: seq<Event>, reply: WorkReply)
    requires Fresh(p) && Continues(Run(p, es))
    ensures var q := Run(p, es);
            var b, frame := q.node.queue[0], FrameBuilt(q.node.encoder, Step(q, Worked(reply)).node.encoder);
            && End(q.node.encoder.cache) == q.mark <= b.samples[0]
            && (b.samples[0] != q.mark && Bridges(frame, q.mark - 1, b.samples[0])
                <==> b.samples[0] != q.mark && !Discontinuous(q.node.expectedTimestampUs, b.timestampUs))
  {
    FreshIsGood(p);
    RunIsGood(p, es);
    var q := Run(p, es);
    WorkBuilds(q, reply);
    CacheEndsAtMark(q);
    BuiltFrameBridges(q.node, FrameBuilt(q.node.encoder, Work(q.node, reply).encoder), q.mark);
  }

  // ---------------------------------------------------------------- runs

  ghost predicate JoinFree(p: Timeline, es: seq<Event>)
    requires p.format.sampleRate > 0
    decreases |es|
  {
    es == [] || (!Joins(p, es[0]) && JoinFree(Step(p, es[0]), es[1..]))
  }

  /** At every point of the run, whatever is cached or was accepted is free of gaps. */
  ghost predicate AlwaysRuns(p: Timeline, es: seq<Event>)
    requires p.format.sampleRate > 0
    decreases |es|
  {
    RunsOnly(p.node.encoder) && (es == [] || AlwaysRuns(Step(p, es[0]), es[1..]))
  }

  lemma UnjoinedFeeds(p: Timeline, reply: WorkReply)
    requires PipelineGood(p) && RunsOnly(p.node.encoder) && p.node.queue != [] && !Joins(p, Worked(reply))
    ensures var b := p.node.queue[0];
            var (m, go) := Prepare(p.node.(queue := p.node.queue[1..]), b, reply);
            RunsOnly(m.encoder) && (go ==>
              m.encoder.cache == [] || |m.encoder.cache| == m.encoder.size || End(m.encoder.cache) == b.samples[0])
  {
    assert BlockGood(p.node.queue[0], p.anchor, p.format);
  }

  lemma StepKeepsRuns(p: Timeline, e: Event)
    requires PipelineGood(p) && RunsOnly(p.node.encoder) && !Joins(p, e)
    ensures RunsOnly(Step(p, e).node.encoder)
  {
    if e.Worked? && p.node.queue != [] {
      var b, popped := p.node.queue[0], p.node.(queue := p.node.queue[1..]);
      assert BlockGood(b, p.anchor, p.format);
      UnjoinedFeeds(p, e.reply);
      PreparedFeeds(popped, b, e.reply, p.mark, p.anchor, p.format);
      var (m, go) := Prepare(popped, b, e.reply);
      if go {
        PushKeepsRuns(m.encoder, b.samples, 0, b.timestampUs, m.format.sampleRate, e.reply.encode);
      }
    }
  }

  lemma JoinIsNoRun(p: Timeline, e: Event)
    requires PipelineGood(p) && Joins(p, e)
    ensures !RunsOnly(Step(p, e).node.encoder)
  {
    WorkBuilds(p, e.reply);
    CacheEndsAtMark(p);
    var frame := FrameBuilt(p.node.encoder, Work(p.node, e.reply).encoder);
    BuiltFrameBridges(p.node, frame, p.mark);
    assert !IsRun(frame);
  }

  /** The condition over a whole run: every frame is free of gaps at every point, accepted or under construction, if and
      only if no block was joined to a frame across an unnoticed gap. */
  lemma {:induction false} RunsIffNothingIsJoined(p: Timeline, es: seq<Event>)
    requires PipelineGood(p) && RunsOnly(p.node.encoder)
    ensures AlwaysRuns(p, es) <==> JoinFree(p, es)
    decreases |es|
  {
    if es != [] {
      StepIsGood(p, es[0]);
      if Joins(p, es[0]) {
        JoinIsNoRun(p, es[0]);
      } else {
        StepKeepsRuns(p, es[0]);
        RunsIffNothingIsJoined(Step(p, es[0]), es[1..]);
      }
    }
  }

  lemma {:induction false} AlwaysRunsEnds(p: Timeline, es: seq<Event>)
    requires p.format.sampleRate > 0 && AlwaysRuns(p, es)
    ensures RunsOnly(Run(p, es).node.encoder)
    decreases |es|
  {
    if es != [] {
      AlwaysRunsEnds(Step(p, es[0]), es[1..]);
    }
  }

  /** A stretch of consecutive captured samples of the given length. */
  predicate IsSpan(s: seq<int>, size: nat) {
    |s| == size > 0 && s[0] >= 0 && s == Span(s[0], s[0] + size)
  }

  lemma RunIsSpan(s: seq<int>, size: nat)
    requires |s| == size > 0 && IsRun(s)
    ensures IsSpan(s, size) && End(s) == s[0] + size
  {
  }

  /** In a run without a joined block, whatever is lost and whichever codec calls fail, every frame the codec accepts is
      a stretch of consecutive captured samples of exactly the frame size, and later frames lie behind earlier ones. */
  lemma UnjoinedFramesAreSpans(p: Timeline, es: seq<Event>)
    requires Fresh(p) && JoinFree(p, es)
    ensures var units := Run(p, es).node.encoder.units;
            var size := FrameSize(p.node.config, p.format);
            && (forall i | 0 <= i < |units| :: IsSpan(units[i].samples, size))
            && (forall i, j | 0 <= i < j < |units| :: units[i].samples[0] + size <= units[j].samples[0])
  {
    FreshIsGood(p);
    RunsIffNothingIsJoined(p, es);
    AlwaysRunsEnds(p, es);
    FramesAreOrderedAndTimed(p, es);
    var units := Run(p, es).node.encoder.units;
    forall i | 0 <= i < |units|
      ensures IsSpan(units[i].samples, FrameSize(p.node.config, p.format))
              && End(units[i].samples) == units[i].samples[0] + FrameSize(p.node.config, p.format)
    {
      RunIsSpan(units[i].samples, FrameSize(p.node.config, p.format));
    }
  }

  // ---------------------------------------------------------------- blocks longer than a millisecond

  predicate LongEvent(e: Event, rate: nat)
    requires rate > 0
  {
    e.Captured? && e.frames > 0 ==> FramesToUs(e.frames, rate) > 1000
  }

  /** Every captured block lasts more than a millisecond. */
  predicate LongBlocks(es: seq<Event>, rate: nat)
    requires rate > 0
  {
    forall i | 0 <= i < |es| :: LongEvent(es[i], rate)
  }

  predicate Long(b: Block, rate: nat)
    requires rate > 0
  {
    FramesToUs(|b.samples|, rate) > 1000
  }

  /** Nothing is missing between two positions, or more than a millisecond is. */
  predicate Gap(a: int, b: int, rate: nat)
    requires rate > 0
  {
    0 <= a <= b && (a == b || FramesToUs(b - a, rate) > 1000)
  }

  /** From the last processed position through the queue to the clock, every gap is empty or noticeable. */
  predicate Chain(mark: int, queue: seq<Block>, total: int, rate: nat)
    requires rate > 0
    requires forall i | 0 <= i < |queue| :: queue[i].samples != []
    decreases |queue|
  {
    if queue == [] then Gap(mark, total, rate)
    else Gap(mark, queue[0].samples[0], rate) && Chain(End(queue[0].samples), queue[1..], total, rate)
  }

  lemma GapsAdd(a: int, b: int, c: int, rate: nat)
    requires rate > 0 && Gap(a, b, rate) && Gap(b, c, rate)
    ensures Gap(a, c, rate)
  {
    FramesToUsMonotone(c - b, c - a, rate);
    FramesToUsMonotone(b - a, c - a, rate);
  }

  ghost predicate LongQueue(queue: seq<Block>, anchor: nat, format: PcmFormat)
    requires format.sampleRate > 0
  {
    QueueGood(queue, anchor, format) && forall i | 0 <= i < |queue| :: Long(queue[i], format.sampleRate)
  }

  /** Losing what the clock has just produced. */
  lemma {:induction false} ChainLoses(mark: int, queue: seq<Block>, total: nat, frames: nat, anchor: nat,
                                      format: PcmFormat)
    requires format.sampleRate > 0 && QueueGood(queue, anchor, format)
    requires Chain(mark, queue, total, format.sampleRate) && FramesToUs(frames, format.sampleRate) > 1000
    ensures Chain(mark, queue, total + frames, format.sampleRate)
    decreases |queue|
  {
    if queue == [] {
      GapsAdd(mark, total, total + frames, format.sampleRate);
    } else {
      ChainLoses(End(queue[0].samples), queue[1..], total, frames, anchor, format);
    }
  }

  /** Queueing what the clock has just produced. */
  lemma {:induction false} ChainGrows(mark: int, queue: seq<Block>, total: nat, b: Block, anchor: nat,
                                      format: PcmFormat)
    requires format.sampleRate > 0 && QueueGood(queue, anchor, format) && BlockGood(b, anchor, format)
    requires Chain(mark, queue, total, format.sampleRate) && b.samples[0] == total
    ensures QueueGood(queue + [b], anchor, format)
    ensures Chain(mark, queue + [b], End(b.samples), format.sampleRate)
    decreases |queue|
  {
    if queue == [] {
      assert queue + [b] == [b];
      assert [b][1..] == [];
      assert Chain(End(b.samples), [], End(b.samples), format.sampleRate);
    } else {
      ChainGrows(End(queue[0].samples), queue[1..], total, b, anchor, format);
      assert (queue + [b])[1..] == queue[1..] + [b];
    }
  }

  /** Dropping the oldest queued block. */
  lemma ChainDropsHead(mark: int, queue: seq<Block>, total: nat, anchor: nat, format: PcmFormat)
    requires format.sampleRate > 0 && LongQueue(queue, anchor, format) && queue != []
    requires Chain(mark, queue, total, format.sampleRate)
    ensures Chain(mark, queue[1..], total, format.sampleRate)
  {
    var first, end := queue[0].samples[0], End(queue[0].samples);
    assert BlockGood(queue[0], anchor, format) && Long(queue[0], format.sampleRate);
    assert end - first == |queue[0].samples|;
    GapsAdd(mark, first, end, format.sampleRate);
    var next := if queue[1..] == [] then total as int else queue[1].samples[0];
    GapsAdd(mark, end, next, format.sampleRate);
  }

  /** The gap detector is exact: it fires if and only if the next block does not continue the last one. */
  lemma DetectorIsExact(expected: nat, mark: nat, b: Block, anchor: nat, format: PcmFormat)
    requires format.sampleRate > 0 && BlockGood(b, anchor, format)
    requires Timed(expected, mark, anchor, format.sampleRate) && Gap(mark, b.samples[0], format.sampleRate)
    ensures Discontinuous(expected, b.timestampUs) <==> b.samples[0] != mark
  {
    FramesToUsAdds(mark, b.samples[0] - mark, format.sampleRate);
  }

  ghost predicate LongGood(p: Timeline) {
    && PipelineGood(p) && LongQueue(p.node.queue, p.anchor, p.format)
    && Chain(p.mark, p.node.queue, p.total, p.format.sampleRate)
  }

  lemma LongNeverJoins(p: Timeline, e: Event)
    requires LongGood(p)
    ensures !Joins(p, e)
  {
    if Continues(p) {
      DetectorIsExact(p.node.expectedTimestampUs, p.mark, p.node.queue[0], p.anchor, p.format);
    }
  }

  lemma EnqueueKeepsLong(p: Timeline, b: Block)
    requires LongGood(p) && BlockGood(b, p.anchor, p.format) && Long(b, p.format.sampleRate) && b.samples[0] == p.total
    ensures LongQueue(Enqueue(p.node, b).queue, p.anchor, p.format)
    ensures Chain(p.mark, Enqueue(p.node, b).queue, End(b.samples), p.format.sampleRate)
  {
    if |p.node.queue| == p.node.capacity {
      ChainDropsHead(p.mark, p.node.queue, p.total, p.anchor, p.format);
      ChainGrows(p.mark, p.node.queue[1..], p.total, b, p.anchor, p.format);
    } else {
      ChainGrows(p.mark, p.node.queue, p.total, b, p.anchor, p.format);
    }
  }

  lemma LossKeepsLong(p: Timeline, frames: nat)
    requires LongGood(p) && frames > 0 && FramesToUs(frames, p.format.sampleRate) > 1000
    ensures LongGood(Step(p, Captured(frames, false)))
  {
    CaptureIsGood(p, frames, false);
    ChainLoses(p.mark, p.node.queue, p.total, frames, p.anchor, p.format);
  }

  lemma CopyKeepsLong(p: Timeline, frames: nat)
    requires LongGood(p) && frames > 0 && FramesToUs(frames, p.format.sampleRate) > 1000
    ensures LongGood(Step(p, Captured(frames, true)))
  {
    CaptureIsGood(p, frames, true);
    ProducedIsGood(p, frames);
    var b := Produced(p, frames);
    assert |b.samples| == frames;
    EnqueueKeepsLong(p, b);
    assert Step(p, Captured(frames, true)) ==
           p.(total := p.total + frames, clock := Advance(p.clock, frames, p.format.sampleRate),
              node := Enqueue(p.node, b));
  }

  lemma StepKeepsLong(p: Timeline, e: Event)
    requires LongGood(p) && LongEvent(e, p.format.sampleRate)
    ensures LongGood(Step(p, e))
  {
    match e
    case Captured(frames, copied) =>
      if frames > 0 {
        if copied {
          CopyKeepsLong(p, frames);
        } else {
          LossKeepsLong(p, frames);
        }
      } else {
        assert Step(p, e) == p;
      }
    case Worked(reply) =>
      if p.node.queue != [] {
        WorkedIsGood(p, reply);
        WorkIsGood(p.node, reply, p.mark, p.anchor, p.format);
      } else {
        assert Step(p, e) == p;
      }
  }

  lemma {:induction false} LongRuns(p: Timeline, es: seq<Event>)
    requires LongGood(p) && LongBlocks(es, p.format.sampleRate)
    ensures JoinFree(p, es) && LongGood(Run(p, es))
    decreases |es|
  {
    if es != [] {
      assert LongEvent(es[0], p.format.sampleRate);
      LongNeverJoins(p, es[0]);
      StepKeepsLong(p, es[0]);
      LongRuns(Step(p, es[0]), es[1..]);
    }
  }

  lemma FreshIsLong(p: Timeline)
    requires Fresh(p)
    ensures LongGood(p)
  {
    FreshIsGood(p);
  }

  /** Main result: within one capture epoch whose blocks last more than a millisecond, whatever the pool and the queue
      lose and whichever codec calls fail, every frame the codec accepts is a stretch of consecutive captured samples of
      exactly the frame size, later frames lie behind earlier ones, and each timestamp is the exact capture time of its
      first sample rounded down, or one microsecond less. */
  lemma NoFrameSpansAGap(p: Timeline, es: seq<Event>)
    requires Fresh(p) && LongBlocks(es, p.format.sampleRate)
    ensures var units := Run(p, es).node.encoder.units;
            var size := FrameSize(p.node.config, p.format);
            && (forall i | 0 <= i < |units| ::
                  && IsSpan(units[i].samples, size)
                  && Timed(units[i].timestampUs, units[i].samples[0], p.anchor, p.format.sampleRate))
            && (forall i, j | 0 <= i < j < |units| :: units[i].samples[0] + size <= units[j].samples[0])
  {
    FreshIsLong(p);
    LongRuns(p, es);
    UnjoinedFramesAreSpans(p, es);
    FramesAreOrderedAndTimed(p, es);
  }

  /** At every point of every run, whatever the lengths of the blocks: a block that continues the last one processed
      never makes the detector fire. If all blocks last longer than a millisecond, any other block always does. */
  lemma ResetsExactlyAtGaps(p: Timeline, es: seq<Event>)
    requires Fresh(p)
    ensures var q := Run(p, es);
            q.node.queue != [] && q.node.ready && q.node.haveExpected ==>
              && q.node.queue[0].samples != []
              && (q.node.queue[0].samples[0] == q.mark ==>
                    !Discontinuous(q.node.expectedTimestampUs, q.node.queue[0].timestampUs))
              && (LongBlocks(es, p.format.sampleRate) && q.node.queue[0].samples[0] != q.mark ==>
                    Discontinuous(q.node.expectedTimestampUs, q.node.queue[0].timestampUs))
  {
    FreshIsLong(p);
    RunIsGood(p, es);
    var q := Run(p, es);
    if q.node.queue != [] && q.node.ready && q.node.haveExpected {
      assert BlockGood(q.node.queue[0], q.anchor, q.format);
      if LongBlocks(es, p.format.sampleRate) {
        LongRuns(p, es);
        DetectorIsExact(q.node.expectedTimestampUs, q.mark, q.node.queue[0], p.anchor, p.format);
      }
    }
  }

  // ---------------------------------------------------------------- gap-free input

  /** Nothing is lost: the raw pool takes every block and the queue always has room. */
  ghost predicate Lossless(p: Timeline, es: seq<Event>)
    requires p.format.sampleRate > 0
    decreases |es|
  {
    es == []
    || ((es[0].Captured? && es[0].frames > 0 ==> es[0].copied && |p.node.queue| < p.node.capacity)
        && Lossless(Step(p, es[0]), es[1..]))
  }

  /** From the last processed position through the queue to the clock, nothing is missing. */
  predicate Contiguous(mark: int, queue: seq<Block>, total: int)
    requires forall i | 0 <= i < |queue| :: queue[i].samples != []
    decreases |queue|
  {
    if queue == [] then mark == total
    else mark == queue[0].samples[0] && Contiguous(End(queue[0].samples), queue[1..], total)
  }

  lemma {:induction false} ContiguousGrows(mark: int, queue: seq<Block>, total: int, b: Block)
    requires forall i | 0 <= i < |queue| :: queue[i].samples != []
    requires b.samples != [] && b.samples[0] == total && Contiguous(mark, queue, total)
    ensures Contiguous(mark, queue + [b], End(b.samples))
    decreases |queue|
  {
    if queue == [] {
      assert queue + [b] == [b] && [b][1..] == [];
    } else {
      ContiguousGrows(End(queue[0].samples), queue[1..], total, b);
      assert (queue + [b])[1..] == queue[1..] + [b];
    }
  }

  ghost predicate Unbroken(p: Timeline) {
    PipelineGood(p) && Contiguous(p.mark, p.node.queue, p.total)
  }

  lemma StepKeepsUnbroken(p: Timeline, e: Event)
    requires Unbroken(p)
    requires e.Captured? && e.frames > 0 ==> e.copied && |p.node.queue| < p.node.capacity
    ensures Unbroken(Step(p, e))
  {
    StepIsGood(p, e);
    match e
    case Captured(frames, _) =>
      if frames > 0 {
        ProducedIsGood(p, frames);
        ContiguousGrows(p.mark, p.node.queue, p.total, Produced(p, frames));
      }
    case Worked(reply) =>
      if p.node.queue != [] {
        WorkIsGood(p.node, reply, p.mark, p.anchor, p.format);
      }
  }

  lemma {:induction false} LosslessRuns(p: Timeline, es: seq<Event>)
    requires Unbroken(p) && Lossless(p, es)
    ensures Unbroken(Run(p, es))
    decreases |es|
  {
    if es != [] {
      StepKeepsUnbroken(p, es[0]);
      LosslessRuns(Step(p, es[0]), es[1..]);
    }
  }

  /** Gap-free input never triggers a reset, however short its blocks: along a run that loses nothing the detector never
      fires, and every accepted frame is a stretch of consecutive samples. */
  lemma GapFreeInputNeverResets(p: Timeline, es: seq<Event>)
    requires Fresh(p) && Lossless(p, es)
    ensures var q := Run(p, es);
            q.node.queue != [] && q.node.ready && q.node.haveExpected ==>
              !Discontinuous(q.node.expectedTimestampUs, q.node.queue[0].timestampUs)
    ensures var units := Run(p, es).node.encoder.units;
            forall i | 0 <= i < |units| :: IsSpan(units[i].samples, FrameSize(p.node.config, p.format))
  {
    FreshIsGood(p);
    LosslessRuns(p, es);
    ResetsExactlyAtGaps(p, es);
    LosslessNeverJoins(p, es);
    UnjoinedFramesAreSpans(p, es);
  }

  lemma {:induction false} LosslessNeverJoins(p: Timeline, es: seq<Event>)
    requires Unbroken(p) && Lossless(p, es)
    ensures JoinFree(p, es)
    decreases |es|
  {
    if es != [] {
      StepKeepsUnbroken(p, es[0]);
      LosslessNeverJoins(Step(p, es[0]), es[1..]);
    }
  }

  // ---------------------------------------------------------------- accepted frames across a gap

  /** 48 kHz stereo into AAC, with a queue of one block. */
  const EXAMPLE_FORMAT := PcmFormat(48000, 2, true)

  const EXAMPLE: Timeline :=
    Timeline(0, 0, Clock(0, 0), EXAMPLE_FORMAT,
             Node(Config(Aac, 0), [], 1, 0, EXAMPLE_FORMAT, true, false, 0,
                  Chunker(Aac, AAC_FRAME_SAMPLES, [], 0, [])),
             0)

  /** A codec that accepts everything. */
  const SMOOTH: Event := Worked(WorkReply(true, true, []))

  /** The raw pool has no room for 40 of 1064 samples. */
  const POOL_LOSS: seq<Event> := [Captured(1000, true), SMOOTH, Captured(40, false), Captured(24, true), SMOOTH]

  /** The same 40 samples are evicted from the queue. */
  const EVICTION: seq<Event> := [Captured(1000, true), SMOOTH, Captured(40, true), Captured(24, true), SMOOTH]

  /** The first 1000 samples are cached; the next is expected 20833 us after the anchor. */
  const CACHED: Timeline :=
    EXAMPLE.(total := 1000, mark := 1000, clock := Advance(Clock(0, 0), 1000, 48000),
             node := EXAMPLE.node.(haveExpected := true, expectedTimestampUs := 20833,
                                   encoder := Chunker(Aac, AAC_FRAME_SAMPLES, Span(0, 1000), 0, [])))

  function Behind(b: Block): Timeline {
    CACHED.(total := 1064, clock := Advance(Advance(CACHED.clock, 40, 48000), 24, 48000),
            node := CACHED.node.(queue := [b]))
  }

  /** The block behind the loss. */
  const LAST_BLOCK: Block := Block(Span(1040, 1064), 21666, EXAMPLE_FORMAT)

  lemma ClockReadings()
    ensures Advance(Clock(0, 0), 1000, 48000) == Clock(20833, 16000)
    ensures Advance(Clock(20833, 16000), 40, 48000) == Clock(21666, 32000)
  {
  }

  /** A push that does not fill the frame. */
  lemma PushIntoRoom(c: Chunker, input: seq<int>, timestampUs: nat, rate: nat)
    requires c.size > 0 && rate > 0 && input != [] && c.cache == [] && |input| < c.size
    ensures Push(c, input, 0, timestampUs, rate, [])
         == (c.(cache := input, cachedTimestampUs := timestampUs + FramesToUs(0, rate)), true)
  {
    var (d, consumed) := Fill(c, input, 0, timestampUs, rate);
    assert consumed == |input| && input[0..|input|] == input;
    assert [] + input == input;
    assert Push(d, input, consumed, timestampUs, rate, []) == (d, true);
  }

  /** A push that fills the frame exactly, with a codec that accepts it. */
  lemma PushFills(c: Chunker, input: seq<int>, timestampUs: nat, rate: nat)
    requires c.size > 0 && rate > 0 && input != [] && c.cache != [] && |c.cache| + |input| == c.size
    ensures Push(c, input, 0, timestampUs, rate, [])
         == (c.(cache := [], units := c.units + [Unit(c.cachedTimestampUs, c.cache + input)]), true)
  {
    var (d, consumed) := Fill(c, input, 0, timestampUs, rate);
    assert consumed == |input| && input[0..|input|] == input;
    var e := Emit(d, First([])).0;
    assert Push(e, input, consumed, timestampUs, rate, []) == (e, true);
  }

  lemma FirstBlockIsCached()
    ensures Step(Step(EXAMPLE, Captured(1000, true)), SMOOTH) == CACHED
  {
    ClockReadings();
    var b := Block(Span(0, 1000), 0, EXAMPLE_FORMAT);
    assert Step(EXAMPLE, Captured(1000, true)).node == EXAMPLE.node.(queue := [b]);
    PushIntoRoom(EXAMPLE.node.encoder, b.samples, 0, 48000);
    assert End(b.samples) == 1000;
  }

  lemma LastBlockIsJoined()
    ensures Step(Behind(LAST_BLOCK), SMOOTH).node.encoder.units == [Unit(0, Span(0, 1000) + Span(1040, 1064))]
  {
    PushFills(CACHED.node.encoder, LAST_BLOCK.samples, 21666, 48000);
  }

  lemma RunFive(p: Timeline, es: seq<Event>)
    requires p.format.sampleRate > 0 && |es| == 5
    ensures Run(p, es) == Step(Step(Step(Step(Step(p, es[0]), es[1]), es[2]), es[3]), es[4])
  {
    var p1 := Step(p, es[0]);
    var p2 := Step(p1, es[1]);
    var p3 := Step(p2, es[2]);
    var p4 := Step(p3, es[3]);
    RunFrom(p, es, 0);
    RunFrom(p1, es, 1);
    RunFrom(p2, es, 2);
    RunFrom(p3, es, 3);
    RunFrom(p4, es, 4);
    assert es[5..] == [] && es[0..] == es;
  }

  lemma RunFrom(p: Timeline, es: seq<Event>, i: nat)
    requires p.format.sampleRate > 0 && i < |es|
    ensures Run(p, es[i..]) == Run(Step(p, es[i]), es[i + 1..])
  {
    assert es[i..][1..] == es[i + 1..];
  }

  lemma PoolLossLeads()
    ensures Step(Step(CACHED, Captured(40, false)), Captured(24, true)) == Behind(LAST_BLOCK)
  {
    ClockReadings();
    assert [] + [LAST_BLOCK] == [LAST_BLOCK];
  }

  lemma EvictionLeads()
    ensures Step(Step(CACHED, Captured(40, true)), Captured(24, true))
         == Behind(LAST_BLOCK).(node := Behind(LAST_BLOCK).node.(droppedInputFrames := 1))
  {
    ClockReadings();
    var evicted := Block(Span(1000, 1040), 20833, EXAMPLE_FORMAT);
    assert Step(CACHED, Captured(40, true)).node.queue == [] + [evicted];
    assert [evicted][1..] + [LAST_BLOCK] == [LAST_BLOCK];
  }

  /** Two concrete runs after which the codec has accepted a frame that joins both sides of a gap of 40 samples: once
      lost to the raw pool, once evicted from the queue. */
  lemma SplicedFramesAreAccepted()
    ensures Fresh(EXAMPLE)
    ensures Run(EXAMPLE, POOL_LOSS).node.encoder.units == [Unit(0, Span(0, 1000) + Span(1040, 1064))]
    ensures Run(EXAMPLE, EVICTION).node.encoder.units == [Unit(0, Span(0, 1000) + Span(1040, 1064))]
    ensures !IsRun(Span(0, 1000) + Span(1040, 1064))
  {
    RunFive(EXAMPLE, POOL_LOSS);
    RunFive(EXAMPLE, EVICTION);
    FirstBlockIsCached();
    PoolLossLeads();
    EvictionLeads();
    LastBlockIsJoined();
    PushFills(CACHED.node.encoder, LAST_BLOCK.samples, 21666, 48000);
    var frame := Span(0, 1000) + Span(1040, 1064);
    assert frame[0] == 0 && frame[1000] == 1040;
  }
}
