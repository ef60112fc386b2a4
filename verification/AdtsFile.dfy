/** The diagnostic session writer: every AAC packet goes into a packet file and, behind a seven-byte ADTS header
    (section 6.2 of ISO/IEC 13818-7), into an ADTS file. */
module AdtsFile {
  import opened Bytes
  import PF = PacketFile

  /** A captured packet with the metadata it was delivered with. */
  datatype EncodedRecord = EncodedRecord(codec: PF.Codec, record: PF.Record, sampleRate: nat, channels: nat)

  const RATES: seq<nat> := [96000, 88200, 64000, 48000, 44100, 32000, 24000, 22050, 16000, 12000, 11025, 8000, 7350]

  const MAXIMUM_FRAME_BYTES := 0x1fff

  /** aacSampleRateIndex: -1 if the rate has no index. */
  function RateIndex(rate: nat, i: nat): (k: int)
    requires i <= |RATES|
    ensures -1 <= k < |RATES| && (k >= 0 ==> RATES[k] == rate)
    decreases |RATES| - i
  {
    if i == |RATES| then -1 else if RATES[i] == rate then i else RateIndex(rate, i + 1)
  }

  /** The sampling index and the channel configuration of a header. */
  function FrameIndex(bytes: seq<Byte>): nat
    requires |bytes| >= 7
  {
    var b2: int := bytes[2];
    b2 / 4 % 16
  }

  function FrameConfiguration(bytes: seq<Byte>): nat
    requires |bytes| >= 7
  {
    var b2: int, b3: int := bytes[2], bytes[3];
    b2 % 2 * 4 + b3 / 64
  }

  predicate HeaderPossible(payloadBytes: nat, rate: nat, channels: nat) {
    RateIndex(rate, 0) >= 0 && 1 <= channels <= 7 && payloadBytes + 7 <= MAXIMUM_FRAME_BYTES
  }

  /** The seven header bytes; shifts and masks written as arithmetic. */
  function Header(payloadBytes: nat, rate: nat, channels: nat): (h: seq<Byte>)
    requires HeaderPossible(payloadBytes, rate, channels)
    ensures |h| == 7
  {
    var index, frameLength := RateIndex(rate, 0), payloadBytes + 7;
    [0xff, 0xf1, 64 + index * 4 + channels / 4, channels % 4 * 64 + frameLength / 2048, frameLength / 8 % 256,
     frameLength % 8 * 32 + 0x1f, 0xfc]
  }

  /** What a decoder takes from a frame. */
  datatype Frame = Frame(sampleRate: nat, configuration: nat, payload: seq<Byte>)

  /** How many channels a channel configuration stands for: seven means eight. */
  function DecodedChannels(f: Frame): nat {
    if f.configuration == 7 then 8 else f.configuration
  }

  function FrameLength(bytes: seq<Byte>): nat
    requires |bytes| >= 7
  {
    var b3: int, b4: int, b5: int := bytes[3], bytes[4], bytes[5];
    b3 % 4 * 2048 + b4 * 8 + b5 / 32
  }

  /** A stream parser that knows only the standard: syncword, no CRC, the 13-bit frame length. */
  function Parse(bytes: seq<Byte>): seq<Frame>
    decreases |bytes|
  {
    if |bytes| < 7 || bytes[0] != 0xff || bytes[1] / 16 != 15 || bytes[1] % 2 != 1 then []
    else
      var n, index := FrameLength(bytes), FrameIndex(bytes);
      if n < 7 || n > |bytes| || index >= |RATES| then []
      else [Frame(RATES[index], FrameConfiguration(bytes), bytes[7..n])] + Parse(bytes[n..])
  }

  predicate Framable(r: EncodedRecord) {
    HeaderPossible(|r.record.payload|, r.sampleRate, r.channels)
  }

  /** What a record must be like for both files. */
  predicate Acceptable(r: EncodedRecord, codec: PF.Codec) {
    r.codec == codec && 0 < |r.record.payload| && Framable(r)
  }

  /** How many bytes of one record the disk takes, for each file. */
  datatype Disk = Disk(packetBytes: nat, adtsBytes: nat)

  /** The packet file takes the record. */
  predicate Taken(r: EncodedRecord, codec: PF.Codec, disk: Disk) {
    r.codec == codec && 0 < |r.record.payload| < TWO_TO_32 && disk.packetBytes >= PF.Extent(r.record)
  }

  /** Both files take it. */
  predicate Stored(r: EncodedRecord, codec: PF.Codec, disk: Disk) {
    Taken(r, codec, disk) && Framable(r) && disk.adtsBytes >= |r.record.payload| + 7
  }

  /** The first record that one of the files refuses, or the number of records. */
  function FirstRefused(records: seq<EncodedRecord>, codec: PF.Codec, disks: seq<Disk>): (k: nat)
    requires |disks| == |records|
    ensures k <= |records| && (k < |records| ==> !Stored(records[k], codec, disks[k]))
    ensures forall i | 0 <= i < k :: Stored(records[i], codec, disks[i])
    decreases |records|
  {
    if records == [] || !Stored(records[0], codec, disks[0]) then 0
    else 1 + FirstRefused(records[1..], codec, disks[1..])
  }

  /** How many records the packet file holds at the end. */
  function Held(records: seq<EncodedRecord>, codec: PF.Codec, disks: seq<Disk>): (n: nat)
    requires |disks| == |records|
    ensures n <= |records|
  {
    var k := FirstRefused(records, codec, disks);
    if k < |records| && Taken(records[k], codec, disks[k]) then k + 1 else k
  }

  function FrameBytes(r: EncodedRecord): seq<Byte>
    requires Framable(r)
  {
    Header(|r.record.payload|, r.sampleRate, r.channels) + r.record.payload
  }

  function Stream(records: seq<EncodedRecord>): seq<Byte>
    requires forall i | 0 <= i < |records| :: Framable(records[i])
    decreases |records|
  {
    if records == [] then [] else FrameBytes(records[0]) + Stream(records[1..])
  }

  /** The 13 bits of the length spread over three bytes. */
  lemma LengthBits(n: nat)
    requires n <= MAXIMUM_FRAME_BYTES
    ensures n / 2048 < 4 && n / 2048 * 2048 + n / 8 % 256 * 8 + n % 8 == n
  {
    assert n / 8 == 256 * (n / 2048) + n / 8 % 256;
    assert n == 8 * (n / 8) + n % 8;
  }

  /** The length in the low two bits of the fourth byte, the fifth byte and the high three bits of the sixth. */
  lemma LengthField(n: nat, channels: nat)
    requires n <= MAXIMUM_FRAME_BYTES && channels <= 7
    ensures var b3, b5 := channels % 4 * 64 + n / 2048, n % 8 * 32 + 0x1f;
            b3 < 256 && b5 < 256 && b3 % 4 * 2048 + n / 8 % 256 * 8 + b5 / 32 == n
  {
    LengthBits(n);
    var c, high, low := channels % 4, n / 2048, n % 8;
    assert (c * 64 + high) % 4 == high;
    assert (low * 32 + 0x1f) / 32 == low;
  }

  /** Sampling index and channel field around the byte boundary. */
  lemma ChannelField(index: nat, channels: nat, high: nat)
    requires index < 13 && channels <= 7 && high < 4
    ensures (64 + index * 4 + channels / 4) / 4 % 16 == index
    ensures (64 + index * 4 + channels / 4) % 2 * 4 + (channels % 4 * 64 + high) / 64 == channels
  {
    assert (64 + index * 4 + channels / 4) / 4 == 16 + index;
    assert (64 + index * 4 + channels / 4) % 2 == channels / 4;
    assert (channels % 4 * 64 + high) / 64 == channels % 4;
  }

  /** The fields of seven bytes laid out for a given index, channel field and length. */
  lemma LaidOutFields(h: seq<Byte>, index: nat, channels: nat, n: nat)
    requires |h| == 7 && index < 13 && channels <= 7 && n <= MAXIMUM_FRAME_BYTES
    requires h[2] == 64 + index * 4 + channels / 4 && h[3] == channels % 4 * 64 + n / 2048
    requires h[4] == n / 8 % 256 && h[5] == n % 8 * 32 + 0x1f
    ensures FrameLength(h) == n && FrameIndex(h) == index && FrameConfiguration(h) == channels
  {
    LengthBits(n);
    LengthField(n, channels);
    ChannelField(index, channels, n / 2048);
  }

  lemma HeaderFields(payloadBytes: nat, rate: nat, channels: nat)
    requires HeaderPossible(payloadBytes, rate, channels)
    ensures var h := Header(payloadBytes, rate, channels);
            && FrameLength(h) == payloadBytes + 7 && FrameIndex(h) == RateIndex(rate, 0)
            && FrameConfiguration(h) == channels
  {
    LaidOutFields(Header(payloadBytes, rate, channels), RateIndex(rate, 0), channels, payloadBytes + 7);
  }

  /** The seven bytes as one number, most significant first. */
  function BigEndian(bytes: seq<Byte>): nat
    decreases |bytes|
  {
    if bytes == [] then 0 else BigEndian(bytes[..|bytes| - 1]) * 0x100 + bytes[|bytes| - 1]
  }

  lemma SevenBytes(h: seq<Byte>)
    requires |h| == 7
    ensures BigEndian(h)
         == Power(6) * h[0] + Power(5) * h[1] + Power(4) * h[2] + Power(3) * h[3] + Power(2) * h[4] + Power(1) * h[5]
            + h[6]
  {
    var b0: int, b1: int, b2: int, b3: int, b4: int, b5: int := h[0], h[1], h[2], h[3], h[4], h[5];
    assert h[..7] == h && h[..0] == [];
    forall k | 0 < k <= 7 ensures BigEndian(h[..k]) == BigEndian(h[..k - 1]) * 0x100 + h[k - 1] {
      assert h[..k][..k - 1] == h[..k - 1];
    }
    assert BigEndian(h[..1]) == b0;
    assert BigEndian(h[..2]) == b0 * 0x100 + b1;
    assert BigEndian(h[..3]) == b0 * 0x1_0000 + b1 * 0x100 + b2;
    assert BigEndian(h[..4]) == b0 * 0x100_0000 + b1 * 0x1_0000 + b2 * 0x100 + b3;
    assert BigEndian(h[..5]) == b0 * 0x1_0000_0000 + b1 * 0x100_0000 + b2 * 0x1_0000 + b3 * 0x100 + b4;
  }

  /** 256 to the power of k, as a literal. */
  function Power(k: nat): int {
    match k
    case 1 => 0x100
    case 2 => 0x1_0000
    case 3 => 0x100_0000
    case 4 => 0x1_0000_0000
    case 5 => 0x100_0000_0000
    case 6 => 0x1_0000_0000_0000
    case _ => 1
  }

  /** The whole header as the standard lays out its 56 bits: syncword 0xfff, MPEG-4, layer 0, no CRC, profile 1 (AAC-
      LC), sampling index, private bit 0, channel configuration, four more bits 0, the 13-bit frame length, buffer
      fullness 0x7ff and one raw data block. */
  lemma HeaderIsTheStandards(payloadBytes: nat, rate: nat, channels: nat)
    requires HeaderPossible(payloadBytes, rate, channels)
    ensures BigEndian(Header(payloadBytes, rate, channels))
         == 0xfff * 0x1000_0000_0000 + 0x100_0000_0000 + 0x40_0000_0000 + RateIndex(rate, 0) * 0x4_0000_0000
            + channels * 0x4000_0000 + (payloadBytes + 7) * 0x2000 + 0x7ff * 4
  {
    var n, h := payloadBytes + 7, Header(payloadBytes, rate, channels);
    SevenBytes(h);
    LengthBits(n);
    HeaderSum(RateIndex(rate, 0), channels / 4, channels % 4, n / 2048, n / 8 % 256, n % 8);
  }

  lemma HeaderSum(index: int, c1: int, c0: int, n2: int, n1: int, n0: int)
    ensures Power(6) * 0xff + Power(5) * 0xf1 + Power(4) * (64 + index * 4 + c1) + Power(3) * (c0 * 64 + n2)
            + Power(2) * n1 + Power(1) * (n0 * 32 + 0x1f) + 0xfc
         == 0xfff * 0x1000_0000_0000 + 0x100_0000_0000 + 0x40_0000_0000 + index * 0x4_0000_0000
            + (c1 * 4 + c0) * 0x4000_0000 + (n2 * 2048 + n1 * 8 + n0) * 0x2000 + 0x7ff * 4
  {
  }

  /** The index of each rate the standard numbers; no other rate has one. */
  lemma RateIndices(rate: nat)
    ensures RateIndex(rate, 0)
         == if rate == 96000 then 0 else if rate == 88200 then 1 else if rate == 64000 then 2
            else if rate == 48000 then 3 else if rate == 44100 then 4 else if rate == 32000 then 5
            else if rate == 24000 then 6
            else if rate == 22050 then 7 else if rate == 16000 then 8 else if rate == 12000 then 9
            else if rate == 11025 then 10 else if rate == 8000 then 11 else if rate == 7350 then 12 else -1
  {
    RateIndexFrom(rate, 0);
  }

  /** The rates the standard numbers. */
  const NUMBERED_RATES: set<nat> :=
    {96000, 88200, 64000, 48000, 44100, 32000, 24000, 22050, 16000, 12000, 11025, 8000, 7350}

  /** A header exists exactly for a numbered rate, one to seven channels and a payload of at most 8184 bytes. */
  lemma HeaderPossibleIff(payloadBytes: nat, rate: nat, channels: nat)
    ensures HeaderPossible(payloadBytes, rate, channels)
       <==> rate in NUMBERED_RATES && 1 <= channels <= 7 && payloadBytes <= 8184
  {
    RateIndices(rate);
  }

  /** The search from i on finds the first entry that equals the rate. */
  lemma {:induction false} RateIndexFrom(rate: nat, i: nat)
    requires i <= |RATES|
    ensures RateIndex(rate, i) == -1 ==> forall k | i <= k < |RATES| :: RATES[k] != rate
    ensures RateIndex(rate, i) >= 0 ==> RateIndex(rate, i) >= i && RATES[RateIndex(rate, i)] == rate
    decreases |RATES| - i
  {
    if i < |RATES| {
      RateIndexFrom(rate, i + 1);
    }
  }

  /** What a parser sees at the beginning of a frame. */
  lemma FrameHead(r: EncodedRecord, bytes: seq<Byte>)
    requires Framable(r) && |bytes| >= 7
    requires forall i | 0 <= i < 7 :: bytes[i] == Header(|r.record.payload|, r.sampleRate, r.channels)[i]
    ensures bytes[0] == 0xff && bytes[1] == 0xf1
    ensures FrameLength(bytes) == |r.record.payload| + 7 && FrameConfiguration(bytes) == r.channels
    ensures FrameIndex(bytes) == RateIndex(r.sampleRate, 0)
  {
    HeaderFields(|r.record.payload|, r.sampleRate, r.channels);
  }

  lemma OneFrame(r: EncodedRecord, rest: seq<Byte>)
    requires Framable(r)
    ensures Parse(FrameBytes(r) + rest) == [Frame(r.sampleRate, r.channels, r.record.payload)] + Parse(rest)
  {
    var bytes, n := FrameBytes(r) + rest, |r.record.payload| + 7;
    FrameHead(r, bytes);
    assert bytes[7..n] == r.record.payload && bytes[n..] == rest;
  }

  /** Parsing the concatenated frames by their length fields recovers rate, channel field and payload of every packet;
      the field means that many channels exactly up to six. */
  lemma {:induction false} StreamRoundTrip(records: seq<EncodedRecord>)
    requires forall i | 0 <= i < |records| :: Framable(records[i])
    ensures var frames := Parse(Stream(records));
            |frames| == |records|
            && forall i | 0 <= i < |records| ::
                 && frames[i] == Frame(records[i].sampleRate, records[i].channels, records[i].record.payload)
                 && (DecodedChannels(frames[i]) == records[i].channels <==> records[i].channels <= 6)
    decreases |records|
  {
    if records != [] {
      var r := records[0];
      StreamRoundTrip(records[1..]);
      OneFrame(r, Stream(records[1..]));
      var rest := Parse(Stream(records[1..]));
      assert Parse(Stream(records)) == [Frame(r.sampleRate, r.channels, r.record.payload)] + rest;
    }
  }

  lemma {:induction false} StreamAppend(records: seq<EncodedRecord>, r: EncodedRecord)
    requires forall i | 0 <= i < |records| :: Framable(records[i])
    requires Framable(r)
    ensures Stream(records + [r]) == Stream(records) + FrameBytes(r)
    decreases |records|
  {
    if records == [] {
      assert records + [r] == [r];
      assert Stream([r][1..]) == [];
    } else {
      assert (records + [r])[1..] == records[1..] + [r];
      StreamAppend(records[1..], r);
    }
  }

  function Plain(records: seq<EncodedRecord>): (rs: seq<PF.Record>)
    ensures |rs| == |records| && forall i | 0 <= i < |records| :: rs[i] == records[i].record
  {
    seq(|records|, i requires 0 <= i < |records| => records[i].record)
  }

  /** The ADTS half of the loop body: the header, then the payload if the header was written. */
  method PutFrame(adts: seq<Byte>, r: EncodedRecord, taken: nat) returns (ok: bool, adts': seq<Byte>)
    requires Framable(r)
    ensures ok <==> taken >= |FrameBytes(r)|
    ensures adts' == adts + FrameBytes(r)[..PF.Min(taken, |FrameBytes(r)|)]
  {
    var header, payload := Header(|r.record.payload|, r.sampleRate, r.channels), r.record.payload;
    assert FrameBytes(r) == header + payload;
    adts' := adts + header[..PF.Min(taken, 7)];
    if taken < 7 {
      assert header[..taken] == FrameBytes(r)[..taken];
      return false, adts';
    }
    var left := PF.Min(taken - 7, |payload|);
    assert header[..7] + payload[..left] == FrameBytes(r)[..PF.Min(taken, |FrameBytes(r)|)];
    assert adts + header[..7] + payload[..left] == adts + (header[..7] + payload[..left]);
    return left == |payload|, adts' + payload[..left];
  }

  /** What a record leaves behind in the ADTS file. */
  function AdtsPiece(r: EncodedRecord, codec: PF.Codec, disk: Disk): seq<Byte> {
    if Taken(r, codec, disk) && Framable(r) then FrameBytes(r)[..PF.Min(disk.adtsBytes, |FrameBytes(r)|)] else []
  }

  /** What a record the packet file does not take leaves behind there. */
  function TornPiece(r: EncodedRecord, codec: PF.Codec, padding: PF.Padding, disk: Disk): seq<Byte> {
    if r.codec == codec && 0 < |r.record.payload| < TWO_TO_32 && !Taken(r, codec, disk)
    then PF.RecordBytes(r.record, padding)[..disk.packetBytes]
    else []
  }

  /** The loop body of writeEncodedFiles: the packet file first, then the ADTS frame. */
  method StoreRecord(packets: PF.Writer, adts: seq<Byte>, r: EncodedRecord, padding: PF.Padding, disk: Disk)
    returns (ok: bool, adts': seq<Byte>)
    requires packets.Valid() && packets.isOpen && packets.torn == [] && r.record.timestampUs < TWO_TO_64
    modifies packets
    ensures packets.Valid() && packets.isOpen && packets.info == old(packets.info)
    ensures ok <==> Stored(r, packets.info.codec, disk)
    ensures packets.records == old(packets.records) + if Taken(r, packets.info.codec, disk) then [r.record] else []
    ensures packets.torn == TornPiece(r, packets.info.codec, padding, disk)
    ensures adts' == adts + AdtsPiece(r, packets.info.codec, disk)
  {
    adts' := adts;
    assert adts + [] == adts;
    if |r.record.payload| == 0 {
      return false, adts;
    }
    ok := packets.Write(r.codec, r.record, padding, disk.packetBytes);
    if !ok || !Framable(r) {
      return false, adts;
    }
    ok, adts' := PutFrame(adts, r, disk.adtsBytes);
  }

  lemma StoredPiece(r: EncodedRecord, codec: PF.Codec, disk: Disk)
    requires Stored(r, codec, disk)
    ensures AdtsPiece(r, codec, disk) == FrameBytes(r)
  {
  }

  lemma PlainAppend(records: seq<EncodedRecord>, i: nat)
    requires i < |records|
    ensures records[..i + 1] == records[..i] + [records[i]]
    ensures Plain(records[..i + 1]) == Plain(records[..i]) + [records[i].record]
  {
  }

  /** The first refused record is where the loop stops. */
  lemma {:induction false} FirstRefusedAt(records: seq<EncodedRecord>, codec: PF.Codec, disks: seq<Disk>, k: nat)
    requires |disks| == |records| && k <= |records|
    requires forall i | 0 <= i < k :: Stored(records[i], codec, disks[i])
    requires k < |records| ==> !Stored(records[k], codec, disks[k])
    ensures FirstRefused(records, codec, disks) == k
    decreases k
  {
    if k > 0 {
      FirstRefusedAt(records[1..], codec, disks[1..], k - 1);
    }
  }

  /** Everything in the ADTS file after the loop. */
  function AdtsBytes(records: seq<EncodedRecord>, codec: PF.Codec, disks: seq<Disk>): seq<Byte>
    requires |disks| == |records|
  {
    var k := FirstRefused(records, codec, disks);
    Stream(records[..k]) + (if k < |records| then AdtsPiece(records[k], codec, disks[k]) else [])
  }

  /** The first k records are in both files. */
  ghost predicate Progress(records: seq<EncodedRecord>, codec: PF.Codec, disks: seq<Disk>, k: nat,
                           held: seq<PF.Record>, adts: seq<Byte>)
    requires |disks| == |records|
  {
    && k <= |records| && (forall i | 0 <= i < k :: Stored(records[i], codec, disks[i]))
    && held == Plain(records[..k]) && adts == Stream(records[..k])
  }

  function TakenPiece(r: EncodedRecord, codec: PF.Codec, disk: Disk): seq<PF.Record> {
    if Taken(r, codec, disk) then [r.record] else []
  }

  lemma ProgressGoesOn(records: seq<EncodedRecord>, codec: PF.Codec, disks: seq<Disk>, k: nat,
                       held: seq<PF.Record>, adts: seq<Byte>)
    requires |disks| == |records| && k < |records| && Progress(records, codec, disks, k, held, adts)
    requires Stored(records[k], codec, disks[k])
    ensures Progress(records, codec, disks, k + 1, held + TakenPiece(records[k], codec, disks[k]),
                     adts + AdtsPiece(records[k], codec, disks[k]))
  {
    PlainAppend(records, k);
    StoredPiece(records[k], codec, disks[k]);
    StreamAppend(records[..k], records[k]);
  }

  /** The loop stops at a refused record: both files end with what that record left behind. */
  lemma ProgressStops(records: seq<EncodedRecord>, codec: PF.Codec, disks: seq<Disk>, k: nat,
                      held: seq<PF.Record>, adts: seq<Byte>)
    requires |disks| == |records| && k < |records| && Progress(records, codec, disks, k, held, adts)
    requires !Stored(records[k], codec, disks[k])
    ensures FirstRefused(records, codec, disks) == k
    ensures AdtsBytes(records, codec, disks) == adts + AdtsPiece(records[k], codec, disks[k])
    ensures Plain(records[..Held(records, codec, disks)]) == held + TakenPiece(records[k], codec, disks[k])
  {
    FirstRefusedAt(records, codec, disks, k);
    PlainAppend(records, k);
  }

  lemma ProgressCompletes(records: seq<EncodedRecord>, codec: PF.Codec, disks: seq<Disk>, held: seq<PF.Record>,
                          adts: seq<Byte>)
    requires |disks| == |records| && Progress(records, codec, disks, |records|, held, adts)
    ensures FirstRefused(records, codec, disks) == |records| && AdtsBytes(records, codec, disks) == adts
    ensures Plain(records[..Held(records, codec, disks)]) == held
  {
    FirstRefusedAt(records, codec, disks, |records|);
    assert Stream(records[..|records|]) + [] == adts;
  }

  /** The record loop: records go into both files until the first one that either of them refuses. */
  method StoreAll(packets: PF.Writer, records: seq<EncodedRecord>, paddings: seq<PF.Padding>, disks: seq<Disk>)
    returns (written: nat, adts: seq<Byte>)
    requires packets.Valid() && packets.isOpen && packets.records == [] && packets.torn == []
    requires |paddings| == |records| == |disks|
    requires forall i | 0 <= i < |records| :: records[i].record.timestampUs < TWO_TO_64
    modifies packets
    ensures packets.Valid() && packets.isOpen && packets.info == old(packets.info)
    ensures written == FirstRefused(records, packets.info.codec, disks)
    ensures packets.records == Plain(records[..Held(records, packets.info.codec, disks)])
    ensures packets.torn == if written < |records|
                            then TornPiece(records[written], packets.info.codec, paddings[written], disks[written])
                            else []
    ensures adts == AdtsBytes(records, packets.info.codec, disks)
  {
    written, adts := 0, [];
    ghost var codec := packets.info.codec;
    while written < |records|
      invariant packets.Valid() && packets.isOpen && packets.info == old(packets.info) && packets.torn == []
      invariant 0 <= written <= |records| && Progress(records, codec, disks, written, packets.records, adts)
    {
      ghost var held, before := packets.records, adts;
      var ok;
      ok, adts := StoreRecord(packets, adts, records[written], paddings[written], disks[written]);
      if !ok {
        ProgressStops(records, codec, disks, written, held, before);
        return;
      }
      ProgressGoesOn(records, codec, disks, written, held, before);
      written := written + 1;
    }
    ProgressCompletes(records, codec, disks, packets.records, adts);
  }

  /** What the file system answers while a session is written. */
  datatype FileReply = FileReply(packetCreated: bool, headerBytes: nat, adtsCreated: bool, adtsClosed: bool)

  /** Both files exist and the packet file has its header. */
  predicate BothOpened(info: PF.Info, reply: FileReply) {
    && info.codec == PF.Aac && PF.Usable(info)
    && reply.packetCreated && reply.headerBytes >= PF.HEADER_V2_BYTES && reply.adtsCreated
  }

  /** writeEncodedFiles. Read back, the two files hold the same number of packets if and only if no record is refused,
      or the first refused one is not taken by the packet file, or it is too large for its reader. */
  method WriteEncodedFiles(info: PF.Info, records: seq<EncodedRecord>, paddings: seq<PF.Padding>, disks: seq<Disk>,
                           reply: FileReply)
    returns (ok: bool, written: nat, packets: PF.Writer, adts: seq<Byte>)
    requires |paddings| == |records| == |disks|
    requires forall i | 0 <= i < |records| :: records[i].record.timestampUs < TWO_TO_64
    ensures fresh(packets) && packets.Valid()
    ensures ok <==> BothOpened(info, reply) && reply.adtsClosed && FirstRefused(records, info.codec, disks) == |records|
    ensures written == if BothOpened(info, reply) then FirstRefused(records, info.codec, disks) else 0
    ensures BothOpened(info, reply) ==>
              && packets.isOpen && packets.info == info && adts == AdtsBytes(records, info.codec, disks)
              && packets.records == Plain(records[..Held(records, info.codec, disks)])
              && |Parse(adts)| == FirstRefused(records, info.codec, disks)
              && (|PF.ReadAll(packets.file, PF.HEADER_V2_BYTES).0| == |Parse(adts)|
                  <==> EqualNumbers(records, info.codec, disks))
  {
    written, adts := 0, [];
    packets := new PF.Writer();
    if info.codec != PF.Aac || info.sampleRate == 0 {
      return false, written, packets, adts;
    }
    ok := packets.Open(info, reply.packetCreated, reply.headerBytes);
    if !ok || !reply.adtsCreated {
      return false, written, packets, adts;
    }
    written, adts := StoreAll(packets, records, paddings, disks);
    ok := written == |records|;
    ok := reply.adtsClosed && ok;
    SessionReadsBack(packets.file, packets.info, packets.paddings, records, paddings, disks, packets.torn);
  }

  // ---------------------------------------------------------------- reading both files back

  /** The condition on records, codec and disk alone. */
  predicate EqualNumbers(records: seq<EncodedRecord>, codec: PF.Codec, disks: seq<Disk>)
    requires |disks| == |records|
  {
    var k := FirstRefused(records, codec, disks);
    k == |records| || !Taken(records[k], codec, disks[k]) || |records[k].record.payload| > PF.MAXIMUM_PACKET_BYTES
  }

  /** A frame cut short is not parsed. */
  lemma TornFrameIsNotParsed(r: EncodedRecord, k: nat)
    requires Framable(r) && k < |FrameBytes(r)|
    ensures Parse(FrameBytes(r)[..k]) == []
  {
    if k >= 7 {
      FrameHead(r, FrameBytes(r)[..k]);
    }
  }

  lemma {:induction false} StreamThenTail(records: seq<EncodedRecord>, tail: seq<Byte>)
    requires forall i | 0 <= i < |records| :: Framable(records[i])
    ensures |Parse(Stream(records) + tail)| == |records| + |Parse(tail)|
    decreases |records|
  {
    if records == [] {
      assert [] + tail == tail;
    } else {
      StreamThenTail(records[1..], tail);
      OneFrame(records[0], Stream(records[1..]) + tail);
      assert FrameBytes(records[0]) + (Stream(records[1..]) + tail) == Stream(records) + tail;
    }
  }

  /** The ADTS file holds exactly the stored records. */
  lemma AdtsReadsBack(records: seq<EncodedRecord>, codec: PF.Codec, disks: seq<Disk>)
    requires |disks| == |records|
    ensures |Parse(AdtsBytes(records, codec, disks))| == FirstRefused(records, codec, disks)
  {
    var k := FirstRefused(records, codec, disks);
    var tail := if k < |records| then AdtsPiece(records[k], codec, disks[k]) else [];
    StreamThenTail(records[..k], tail);
    if tail != [] {
      TornFrameIsNotParsed(records[k], PF.Min(disks[k].adtsBytes, |FrameBytes(records[k])|));
    }
  }

  lemma DropHeader(file: seq<Byte>, header: seq<Byte>, body: seq<Byte>, torn: seq<Byte>)
    requires file == header + body + torn
    ensures file[|header|..] == body + torn
  {
  }

  /** Nothing more is read from where the torn bytes begin. */
  ghost predicate ReadsNothing(file: seq<Byte>, torn: seq<Byte>) {
    forall at | 0 <= at <= |file| && file[at..] == torn :: PF.ReadAll(file, at).0 == []
  }

  lemma TornPacketsReadBack(file: seq<Byte>, header: seq<Byte>, held: seq<PF.Record>, paddings: seq<PF.Padding>,
                            torn: seq<Byte>)
    requires |held| == |paddings| && file == header + PF.Body(held, paddings) + torn
    requires forall i | 0 <= i < |held| :: PF.Readable(held[i])
    requires ReadsNothing(file, torn)
    ensures |PF.ReadAll(file, |header|).0| == |held|
  {
    DropHeader(file, header, PF.Body(held, paddings), torn);
    PF.ReadOn(file, |header|, held, paddings, torn);
  }

  lemma WholePacketsReadBack(file: seq<Byte>, header: seq<Byte>, held: seq<PF.Record>, paddings: seq<PF.Padding>,
                             k: nat)
    requires |held| == |paddings| == k + 1 && file == header + PF.Body(held, paddings)
    requires PF.Writable(held[k]) && forall i | 0 <= i < k :: PF.Readable(held[i])
    ensures |PF.ReadAll(file, |header|).0| == if PF.Readable(held[k]) then k + 1 else k
  {
    assert file[|header|..] == PF.Body(held, paddings);
    assert forall i | 0 <= i < |held| :: PF.Writable(held[i]);
    PF.BodyRoundTrip(file, |header|, held, paddings);
    LastOrNot(held, k);
  }

  /** The packet file reads back as the stored records, and one more if it holds a readable one. */
  lemma PacketsReadBack(file: seq<Byte>, header: seq<Byte>, held: seq<PF.Record>, paddings: seq<PF.Padding>, k: nat,
                        torn: seq<Byte>)
    requires |held| == |paddings| && file == header + PF.Body(held, paddings) + torn
    requires k <= |held| <= k + 1 && forall i | 0 <= i < k :: PF.Readable(held[i])
    requires |held| == k + 1 ==> PF.Writable(held[k]) && torn == []
    requires |held| == k ==> torn == [] || exists r, padding :: TornFrom(torn, r, padding)
    ensures |PF.ReadAll(file, |header|).0| == if |held| == k + 1 && PF.Readable(held[k]) then k + 1 else k
  {
    if |held| == k {
      forall at | 0 <= at <= |file| && file[at..] == torn ensures PF.ReadAll(file, at).0 == [] {
        NothingFurther(file, at, torn);
      }
      TornPacketsReadBack(file, header, held, paddings, torn);
    } else {
      assert header + PF.Body(held, paddings) + [] == header + PF.Body(held, paddings);
      WholePacketsReadBack(file, header, held, paddings, k);
    }
  }

  /** The beginning of a record the disk did not take completely. */
  predicate TornFrom(torn: seq<Byte>, r: PF.Record, padding: PF.Padding) {
    PF.Writable(r) && |torn| < PF.Extent(r) && torn == PF.RecordBytes(r, padding)[..|torn|]
  }

  lemma NothingFurther(file: seq<Byte>, at: nat, torn: seq<Byte>)
    requires at <= |file| && file[at..] == torn
    requires torn == [] || exists r, padding :: TornFrom(torn, r, padding)
    ensures PF.ReadAll(file, at).0 == []
  {
    if torn == [] {
      assert |file[at..]| == 0;
    } else {
      var r, padding :| TornFrom(torn, r, padding);
      PF.TornRecordIsNotRead(file, at, r, padding, |torn|);
    }
  }

  lemma {:induction false} LastOrNot(held: seq<PF.Record>, k: nat)
    requires |held| == k + 1 && forall i | 0 <= i < k :: PF.Readable(held[i])
    ensures |PF.ReadablePrefix(held)| == if PF.Readable(held[k]) then k + 1 else k
    decreases k
  {
    if k > 0 {
      LastOrNot(held[1..], k - 1);
    }
  }

  /** All records before the first refused one are readable; one more may have been taken. */
  lemma HeldRecords(records: seq<EncodedRecord>, codec: PF.Codec, disks: seq<Disk>)
    requires |disks| == |records|
    requires forall i | 0 <= i < |records| :: records[i].record.timestampUs < TWO_TO_64
    ensures var k, n := FirstRefused(records, codec, disks), Held(records, codec, disks);
            && k <= n <= k + 1 && |Plain(records[..n])| == n
            && (forall i | 0 <= i < k :: PF.Readable(Plain(records[..n])[i]))
            && (n == k + 1 ==> Plain(records[..n])[k] == records[k].record && PF.Writable(records[k].record))
  {
    var k, n := FirstRefused(records, codec, disks), Held(records, codec, disks);
    forall i | 0 <= i < k ensures PF.Readable(Plain(records[..n])[i]) {
      assert Stored(records[i], codec, disks[i]);
    }
  }

  lemma SessionReadsBack(file: seq<Byte>, info: PF.Info, used: seq<PF.Padding>, records: seq<EncodedRecord>,
                         paddings: seq<PF.Padding>, disks: seq<Disk>, torn: seq<Byte>)
    requires |paddings| == |records| == |disks| && |used| == Held(records, info.codec, disks)
    requires forall i | 0 <= i < |records| :: records[i].record.timestampUs < TWO_TO_64
    requires file == PF.HeaderV2(info) + PF.Body(Plain(records[..Held(records, info.codec, disks)]), used) + torn
    requires var k := FirstRefused(records, info.codec, disks);
             torn == if k < |records| then TornPiece(records[k], info.codec, paddings[k], disks[k]) else []
    ensures |Parse(AdtsBytes(records, info.codec, disks))| == FirstRefused(records, info.codec, disks)
    ensures |PF.ReadAll(file, PF.HEADER_V2_BYTES).0| == FirstRefused(records, info.codec, disks)
       <==> EqualNumbers(records, info.codec, disks)
  {
    var k, n := FirstRefused(records, info.codec, disks), Held(records, info.codec, disks);
    AdtsReadsBack(records, info.codec, disks);
    HeldRecords(records, info.codec, disks);
    if torn != [] {
      TornPieceIsTorn(records[k], info.codec, paddings[k], disks[k]);
    }
    PacketsReadBack(file, PF.HeaderV2(info), Plain(records[..n]), used, k, torn);
  }

  lemma TornPieceIsTorn(r: EncodedRecord, codec: PF.Codec, padding: PF.Padding, disk: Disk)
    requires TornPiece(r, codec, padding, disk) != [] && r.record.timestampUs < TWO_TO_64
    ensures TornFrom(TornPiece(r, codec, padding, disk), r.record, padding) && !Taken(r, codec, disk)
  {
  }

  /** An ordinary packet of 300 bytes. */
  const ORDINARY: EncodedRecord := EncodedRecord(PF.Aac, PF.Record(0, seq(300, _ => 0)), 48000, 2)

  /** The disk takes the whole packet record and then three bytes of the ADTS frame: the files differ by one packet. */
  lemma FullDiskDivides()
    ensures var disks := [Disk(PF.Extent(ORDINARY.record), 3)];
            && Framable(ORDINARY)
            && FirstRefused([ORDINARY], PF.Aac, disks) == 0 && Held([ORDINARY], PF.Aac, disks) == 1
            && !EqualNumbers([ORDINARY], PF.Aac, disks)
  {
    assert RATES[3] == 48000;
    assert RateIndex(48000, 0) == 3;
  }

  /** A payload of 8185 bytes, one more than an ADTS header can describe. */
  const OVERLONG: EncodedRecord := EncodedRecord(PF.Aac, PF.Record(0, seq(8185, _ => 0)), 48000, 2)

  /** A limit of the header function alone: the encoder never puts out such a packet. */
  lemma OverlongPacketDivides()
    ensures var disks := [Disk(PF.Extent(OVERLONG.record), |OVERLONG.record.payload| + 7)];
            && FirstRefused([OVERLONG], PF.Aac, disks) == 0 && Held([OVERLONG], PF.Aac, disks) == 1
            && !EqualNumbers([OVERLONG], PF.Aac, disks)
  {
    assert !Framable(OVERLONG);
  }

  /** After a complete session both files give back the captured payloads. */
  lemma BothFilesAgree(info: PF.Info, records: seq<EncodedRecord>, paddings: seq<PF.Padding>)
    requires PF.InfoFits(info) && PF.Usable(info) && info.codec == PF.Aac && |paddings| == |records|
    requires forall i | 0 <= i < |records| ::
               Acceptable(records[i], info.codec) && records[i].record.timestampUs < TWO_TO_64
    ensures forall i | 0 <= i < |records| :: Framable(records[i])
    ensures var file := PF.HeaderV2(info) + PF.Body(Plain(records), paddings);
            var read, frames := PF.ReadAll(file, PF.HEADER_V2_BYTES).0, Parse(Stream(records));
            && |read| == |frames| == |records|
            && forall i | 0 <= i < |records| :: read[i] == records[i].record && frames[i].payload == read[i].payload
  {
    PF.FileRoundTrip(info, Plain(records), paddings);
    StreamRoundTrip(records);
  }
}
