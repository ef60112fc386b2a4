/** The encoder node of the audio pipeline: a bounded queue that drops its oldest block, a gap detector on timestamps,
    and an encoder that is reset or rebuilt whenever the next block does not continue the last one. */
module EncoderNode {
  import opened AudioClock
  import opened FrameEncoder

  datatype PcmFormat = PcmFormat(sampleRate: nat, channels: nat, s16: bool)

  datatype Block = Block(samples: seq<int>, timestampUs: nat, format: PcmFormat)

  datatype Config = Config(codec: Codec, frameDurationUs: nat)

  const AAC_FRAME_SAMPLES := 1024

  /** The format of a node that has not started. */
  const NO_FORMAT := PcmFormat(0, 0, false)

  /** What the codec libraries answer while one block is processed. */
  datatype WorkReply = WorkReply(resetOk: bool, initOk: bool, encode: seq<Reply>)

  datatype Node = Node(
    config: Config, queue: seq<Block>, capacity: nat, droppedInputFrames: nat, format: PcmFormat,
    ready: bool, haveExpected: bool, expectedTimestampUs: nat, encoder: Chunker)

  function FrameSize(config: Config, format: PcmFormat): nat {
    match config.codec
    case Aac => AAC_FRAME_SAMPLES
    case Opus => format.sampleRate * config.frameDurationUs / 1000000
  }

  /** The checks audio_encoder_init and the two create functions make before they touch a codec library. */
  predicate FormatAccepted(config: Config, format: PcmFormat) {
    && format.sampleRate != 0 && format.channels != 0 && format.s16 && format.channels <= 2
    && (config.codec == Opus ==>
          && format.sampleRate in {8000, 12000, 16000, 24000, 48000}
          && config.frameDurationUs in {2500, 5000, 10000, 20000, 40000, 60000}
          && format.sampleRate * config.frameDurationUs % 1000000 == 0)
  }

  /** The formats that are taken, by rate, channels and, for Opus, frame duration: the check that an Opus frame is a
      whole number of samples refuses none of them. */
  lemma FormatAcceptedIff(config: Config, format: PcmFormat)
    ensures FormatAccepted(config, format)
       <==> && format.s16 && (format.channels == 1 || format.channels == 2) && format.sampleRate > 0
            && (config.codec == Opus ==>
                  && format.sampleRate / 1000 in {8, 12, 16, 24, 48} && format.sampleRate % 1000 == 0
                  && config.frameDurationUs / 500 in {5, 10, 20, 40, 80, 120} && config.frameDurationUs % 500 == 0)
  {
    if config.codec == Opus && format.sampleRate % 1000 == 0 && config.frameDurationUs % 500 == 0 {
      var kHz, halfMs := format.sampleRate / 1000, config.frameDurationUs / 500;
      assert format.sampleRate == 1000 * kHz && config.frameDurationUs == 500 * halfMs;
      if kHz in {8, 12, 16, 24, 48} && halfMs in {5, 10, 20, 40, 80, 120} {
        WholeSamples(kHz, halfMs);
      }
    }
  }

  lemma WholeSamples(kHz: nat, halfMs: nat)
    requires kHz in {8, 12, 16, 24, 48} && halfMs in {5, 10, 20, 40, 80, 120}
    ensures (1000 * kHz) * (500 * halfMs) % 1000000 == 0
  {
    assert (1000 * kHz) * (500 * halfMs) == 1000000 * (kHz / 2 * halfMs);
  }

  lemma AcceptedFramesAreNotEmpty(config: Config, format: PcmFormat)
    requires FormatAccepted(config, format)
    ensures FrameSize(config, format) > 0
  {
    if config.codec == Opus {
      var r, d := format.sampleRate, config.frameDurationUs;
      assert r >= 8000 && d >= 2500;
      assert r * d >= 8000 * 2500;
    }
  }

  predicate NodeOk(n: Node) {
    && n.capacity >= 1 && |n.queue| <= n.capacity
    && (n.ready ==> n.format.sampleRate > 0 && n.encoder.size > 0 && |n.encoder.cache| <= n.encoder.size)
  }

  /** isTimestampDiscontinuous: more than one millisecond off in either direction. */
  predicate Discontinuous(expected: nat, actual: nat) {
    (if expected > actual then expected - actual else actual - expected) > 1000
  }

  function Enqueue(n: Node, b: Block): Node
    requires n.capacity >= 1
  {
    if |n.queue| == n.capacity
    then n.(queue := n.queue[1..] + [b], droppedInputFrames := n.droppedInputFrames + 1)
    else n.(queue := n.queue + [b])
  }

  /** Close the encoder and create one for `format`. */
  function Recreate(n: Node, format: PcmFormat, initOk: bool): Node {
    if initOk && FormatAccepted(n.config, format)
    then n.(ready := true, haveExpected := false,
            encoder := Chunker(n.config.codec, FrameSize(n.config, format), [], 0, n.encoder.units))
    else n.(ready := false, encoder := Reset(n.encoder))
  }

  /** What the worker does before it pushes block b; the flag says whether it gets that far. */
  function Prepare(n: Node, b: Block, reply: WorkReply): (Node, bool) {
    if !n.ready || b.format != n.format then
      var m := Recreate(n, b.format, reply.initOk);
      if m.ready then (m.(format := b.format), true) else (m, false)
    else if n.haveExpected && Discontinuous(n.expectedTimestampUs, b.timestampUs) then
      if reply.resetOk then (n.(haveExpected := false, encoder := Reset(n.encoder)), true)
      else
        var m := Recreate(n.(encoder := Reset(n.encoder)), n.format, reply.initOk);
        (m, m.ready)
    else (n, true)
  }

  /** audio_encoder_push_pcm and the bookkeeping after it. */
  function PushBlock(n: Node, b: Block, replies: seq<Reply>): Node
    requires n.ready && n.format.sampleRate > 0 && n.encoder.size > 0 && |n.encoder.cache| <= n.encoder.size
  {
    if b.samples == [] then n.(haveExpected := false)
    else
      var (e, ok) := Push(n.encoder, b.samples, 0, b.timestampUs, n.format.sampleRate, replies);
      if ok then n.(encoder := e, haveExpected := true,
                    expectedTimestampUs := b.timestampUs + FramesToUs(|b.samples|, n.format.sampleRate))
      else n.(encoder := e, haveExpected := false)
  }

  lemma PreparedIsReady(n: Node, b: Block, reply: WorkReply)
    requires NodeOk(n)
    ensures NodeOk(Prepare(n, b, reply).0)
    ensures Prepare(n, b, reply).1 ==> Prepare(n, b, reply).0.ready
  {
    if FormatAccepted(n.config, b.format) {
      AcceptedFramesAreNotEmpty(n.config, b.format);
    }
    if FormatAccepted(n.config, n.format) {
      AcceptedFramesAreNotEmpty(n.config, n.format);
    }
  }

  /** One turn of the worker loop. */
  function Work(n: Node, reply: WorkReply): Node
    requires NodeOk(n) && n.queue != []
  {
    var b := n.queue[0];
    var (m, go) := Prepare(n.(queue := n.queue[1..]), b, reply);
    PreparedIsReady(n.(queue := n.queue[1..]), b, reply);
    if go then PushBlock(m, b, reply.encode) else m
  }

  class EncoderWorker {
    const config: Config
    const capacity: nat
    var queue: seq<Block>
    var droppedInputFrames: nat
    var format: PcmFormat
    var encoderReady: bool
    var haveExpectedTimestamp: bool
    var expectedTimestampUs: nat
    var encoder: Encoder?
    ghost var closed: Chunker  // the encoder last closed, when there is none

    ghost predicate Valid()
      reads this, encoder, if encoder != null then {encoder.pcmCache} else {}
    {
      && capacity >= 1 && |queue| <= capacity
      && (encoderReady <==> encoder != null)
      && (encoder != null ==>
            encoder.Valid() && encoder.sampleRate == format.sampleRate && encoder.codec == config.codec)
    }

    ghost function View(): Node
      requires Valid()
      reads this, encoder, if encoder != null then {encoder.pcmCache} else {}
    {
      Node(config, queue, capacity, droppedInputFrames, format, encoderReady, haveExpectedTimestamp,
           expectedTimestampUs, if encoder != null then encoder.View() else closed)
    }

    ghost function Footprint(): set<object>
      reads this, encoder
    {
      {this} + (if encoder != null then {encoder, encoder.pcmCache} else {})
    }

    /** start: the encoder for `format` exists and nothing is queued, or the start is refused. */
    constructor (config: Config, queueCapacity: nat, format: PcmFormat, maximumInputFrames: nat, initOk: bool)
      ensures Valid() && fresh(Footprint())
      ensures encoderReady <==> maximumInputFrames != 0 && initOk && FormatAccepted(config, format)
      ensures var capacity := if queueCapacity > 1 then queueCapacity else 1;
              View() == if encoderReady
                        then Node(config, [], capacity, 0, format, true, false, 0,
                                  Chunker(config.codec, FrameSize(config, format), [], 0, []))
                        else Node(config, [], capacity, 0, NO_FORMAT, false, false, 0,
                                  Chunker(config.codec, 0, [], 0, []))
    {
      this.config, this.format := config, NO_FORMAT;
      capacity := if queueCapacity > 1 then queueCapacity else 1;
      queue, droppedInputFrames := [], 0;
      encoderReady, haveExpectedTimestamp, expectedTimestampUs := false, false, 0;
      encoder := null;
      closed := Chunker(config.codec, 0, [], 0, []);
      new;
      if format.sampleRate == 0 || format.channels == 0 || maximumInputFrames == 0 {
        return;
      }
      if !initOk || !FormatAccepted(config, format) {
        return;
      }
      AcceptedFramesAreNotEmpty(config, format);
      encoder := new Encoder(config.codec, FrameSize(config, format), format.sampleRate, []);
      encoderReady := true;
      this.format := format;
    }

    method EnqueueBlock(b: Block)
      requires Valid()
      modifies this`queue, this`droppedInputFrames
      ensures Valid() && View() == Enqueue(old(View()), b)
    {
      if |queue| == capacity {
        queue := queue[1..];
        droppedInputFrames := droppedInputFrames + 1;
      }
      queue := queue + [b];
    }

    /** audio_encoder_close followed by audio_encoder_init. */
    method RecreateEncoder(newFormat: PcmFormat, initOk: bool) returns (ok: bool)
      requires Valid()
      modifies this
      ensures capacity >= 1 && |queue| <= capacity && queue == old(queue)
              && droppedInputFrames == old(droppedInputFrames)
      ensures format == old(format) && expectedTimestampUs == old(expectedTimestampUs)
      ensures ok <==> initOk && FormatAccepted(config, newFormat)
      ensures encoderReady == ok && (encoderReady <==> encoder != null)
      ensures haveExpectedTimestamp == (old(haveExpectedTimestamp) && !ok)
      ensures encoder != null ==> fresh(encoder) && fresh(encoder.pcmCache) && encoder.Valid()
                                  && encoder.sampleRate == newFormat.sampleRate && encoder.codec == config.codec
      ensures (if encoder != null then encoder.View() else closed) == Recreate(old(View()), newFormat, initOk).encoder
    {
      closed := Reset(View().encoder);
      encoder := null;
      encoderReady := false;
      if !initOk || !FormatAccepted(config, newFormat) {
        return false;
      }
      AcceptedFramesAreNotEmpty(config, newFormat);
      encoder := new Encoder(config.codec, FrameSize(config, newFormat), newFormat.sampleRate, closed.units);
      encoderReady := true;
      haveExpectedTimestamp := false;
      return true;
    }

    method PrepareFor(b: Block, reply: WorkReply) returns (go: bool)
      requires Valid()
      modifies this, encoder
      ensures Valid() && (View(), go) == Prepare(old(View()), b, reply)
      ensures fresh(Footprint() - old(Footprint()))
    {
      if !encoderReady || b.format != format {
        go := RecreateEncoder(b.format, reply.initOk);
        if !go {
          return;
        }
        format := b.format;
      } else if haveExpectedTimestamp && Discontinuous(expectedTimestampUs, b.timestampUs) {
        var wasReset := encoder.ResetState(reply.resetOk);
        if wasReset {
          haveExpectedTimestamp := false;
          return true;
        }
        go := RecreateEncoder(format, reply.initOk);
      } else {
        go := true;
      }
    }

    /** One turn of workerMain, with a block waiting. */
    method WorkOnce(reply: WorkReply)
      requires Valid() && queue != [] && NodeOk(View())
      modifies Footprint()
      ensures Valid() && fresh(Footprint() - old(Footprint()))
      ensures View() == Work(old(View()), reply)
    {
      var frame := queue[0];
      queue := queue[1..];
      PreparedIsReady(View(), frame, reply);
      var go := PrepareFor(frame, reply);
      if !go {
        return;
      }
      PushFrame(frame, reply.encode);
    }

    method PushFrame(frame: Block, replies: seq<Reply>)
      requires Valid() && encoder != null
      modifies this, encoder, encoder.pcmCache
      ensures Valid() && encoder == old(encoder) && View() == PushBlock(old(View()), frame, replies)
    {
      if frame.samples == [] {
        haveExpectedTimestamp := false;
        return;
      }
      var pushed := encoder.PushPcm(frame.samples, frame.timestampUs, replies);
      if !pushed {
        haveExpectedTimestamp := false;
        return;
      }
      expectedTimestampUs := frame.timestampUs + FramesToUs(|frame.samples|, format.sampleRate);
      haveExpectedTimestamp := true;
    }
  }
}
