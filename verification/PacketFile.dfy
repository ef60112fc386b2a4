/** The packet file: a header describing the stream, then one record per compressed packet. Integers are stored as a
    little-endian 64-bit machine lays its structs out: a record header is a 64-bit timestamp, a 32-bit size and four
    bytes of padding of unspecified content. */
module PacketFile {
  import opened Options
  import opened Bytes

  datatype Codec = Unknown | Opus | G711A | G711U | Aac

  function CodecId(c: Codec): nat {
    match c
    case Unknown => 0
    case Opus => 1
    case G711A => 2
    case G711U => 3
    case Aac => 4
  }

  function CodecOf(id: nat): Codec {
    if id == 1 then Opus else if id == 2 then G711A else if id == 3 then G711U else if id == 4 then Aac else Unknown
  }

  const S16_LE := 1
  const MAXIMUM_PACKET_BYTES := 1024 * 1024
  const HEADER_V1_BYTES := 32
  const HEADER_V2_BYTES := 36
  const RECORD_HEADER_BYTES := 16
  const MAGIC_V1: seq<Byte> := [0x4d, 0x43, 0x52, 0x4f, 0x50, 0x55, 0x53, 0x31]  // MCROPUS1
  const MAGIC_V2: seq<Byte> := [0x4d, 0x43, 0x52, 0x41, 0x55, 0x44, 0x30, 0x32]  // MCRAUD02

  datatype Info = Info(codec: Codec, sampleRate: nat, channels: nat, sampleFormat: nat, frameSamples: nat,
                       frameDurationUs: nat)

  datatype Record = Record(timestampUs: nat, payload: seq<Byte>)

  datatype ReadResult = Packet(record: Record) | EndOfFile | Corrupt | IoError

  /** Field widths of the C structs. */
  predicate InfoFits(i: Info) {
    i.sampleRate < TWO_TO_32 && i.channels < TWO_TO_16 && i.sampleFormat < TWO_TO_32
    && i.frameSamples < TWO_TO_32 && i.frameDurationUs < TWO_TO_32
  }

  predicate SupportedCodec(c: Codec) {
    c == Opus || c == Aac
  }

  /** What both ends demand of a stream description. */
  predicate Usable(i: Info) {
    i.sampleRate != 0 && i.channels != 0 && i.sampleFormat == S16_LE && (i.frameSamples != 0 || i.frameDurationUs != 0)
  }

  /** 32-bit fields laid out one after another. */
  function Fields(values: seq<nat>): (bytes: seq<Byte>)
    ensures |bytes| == 4 * |values|
    decreases |values|
  {
    if values == [] then [] else ToLe(values[0], 4) + Fields(values[1..])
  }

  function HeaderValues(i: Info): seq<nat> {
    [2, CodecId(i.codec), i.sampleRate, i.channels, i.sampleFormat, i.frameSamples, i.frameDurationUs]
  }

  function HeaderV2(i: Info): (bytes: seq<Byte>)
    ensures |bytes| == HEADER_V2_BYTES
  {
    MAGIC_V2 + Fields(HeaderValues(i))
  }

  type Padding = p: seq<Byte> | |p| == 4 witness [0, 0, 0, 0]

  /** Bytes a record takes on disk. */
  function Extent(r: Record): nat {
    RECORD_HEADER_BYTES + |r.payload|
  }

  function RecordBytes(r: Record, padding: Padding): (bytes: seq<Byte>)
    ensures |bytes| == Extent(r)
  {
    ToLe(r.timestampUs, 8) + ToLe(|r.payload|, 4) + padding + r.payload
  }

  /** The records of a file, in order, each with whatever its padding held. */
  function Body(records: seq<Record>, paddings: seq<Padding>): seq<Byte>
    requires |records| == |paddings|
    decreases |records|
  {
    if records == [] then [] else RecordBytes(records[0], paddings[0]) + Body(records[1..], paddings[1..])
  }

  /** A 32-bit field at offset `at`. */
  function U32(bytes: seq<Byte>, at: nat): nat
    requires at + 4 <= |bytes|
  {
    FromLe(bytes[at..at + 4])
  }

  /** audio_packet_file_reader_open: the stream description and where the records begin. */
  function OpenFile(file: seq<Byte>): Option<(Info, nat)> {
    if |file| < 8 then None
    else
      var candidate :=
        if file[..8] == MAGIC_V1 then
          if |file| < HEADER_V1_BYTES || U32(file, 8) != 1 || CodecOf(U32(file, 12)) != Opus then None
          else Some((Info(Opus, U32(file, 16), U32(file, 20) % TWO_TO_16, U32(file, 24),
                          U32(file, 28) * U32(file, 16) / 1000000 % TWO_TO_32, U32(file, 28)), HEADER_V1_BYTES))
        else if file[..8] == MAGIC_V2 then
          if |file| < HEADER_V2_BYTES || U32(file, 8) != 2 || !SupportedCodec(CodecOf(U32(file, 12))) then None
          else Some((Info(CodecOf(U32(file, 12)), U32(file, 16), U32(file, 20) % TWO_TO_16, U32(file, 24),
                          U32(file, 28), U32(file, 32)), HEADER_V2_BYTES))
        else None;
      if candidate.Some? && Usable(candidate.value.0) then candidate else None
  }

  /** audio_packet_file_reader_read at position `at`: the result and the new position. A header cut short by the end
      of the file reads as the end of the file. */
  function ReadRecord(file: seq<Byte>, at: nat): (r: (ReadResult, nat))
    requires at <= |file|
    ensures at <= r.1 <= |file| && (r.0.Packet? ==> at < r.1)
  {
    if |file| - at < RECORD_HEADER_BYTES then (EndOfFile, |file|)
    else
      var size := U32(file, at + 8);
      var start := at + RECORD_HEADER_BYTES;
      if size == 0 || size > MAXIMUM_PACKET_BYTES then (Corrupt, start)
      else if |file| - start < size then (IoError, |file|)
      else (Packet(Record(FromLe(file[at..at + 8]), file[start..start + size])), start + size)
  }

  /** Reading until something other than a packet comes back. */
  function ReadAll(file: seq<Byte>, at: nat): (seq<Record>, ReadResult)
    requires at <= |file|
    decreases |file| - at
  {
    var (result, next) := ReadRecord(file, at);
    if result.Packet? then
      var (records, last) := ReadAll(file, next);
      ([result.record] + records, last)
    else ([], result)
  }

  /** What the writer takes. */
  predicate Writable(r: Record) {
    r.timestampUs < TWO_TO_64 && 0 < |r.payload| < TWO_TO_32
  }

  predicate Readable(r: Record) {
    Writable(r) && |r.payload| <= MAXIMUM_PACKET_BYTES
  }

  // ---------------------------------------------------------------- round trips

  /** A stretch of bytes found at `at` can be read piece by piece. */
  lemma SubSlice(file: seq<Byte>, at: nat, bytes: seq<Byte>, from: nat, to: nat)
    requires at + |bytes| <= |file| && file[at..at + |bytes|] == bytes && from <= to <= |bytes|
    ensures file[at + from..at + to] == bytes[from..to]
  {
    forall i | from <= i < to ensures file[at + i] == bytes[i] {
      assert file[at..at + |bytes|][i] == bytes[i];
    }
  }

  lemma {:induction false} FieldAt(values: seq<nat>, k: nat)
    requires k < |values| && values[k] < TWO_TO_32
    ensures U32(Fields(values), 4 * k) == values[k]
    decreases |values|
  {
    var bytes := Fields(values);
    if k == 0 {
      assert bytes[0..4] == ToLe(values[0], 4);
      PowersOf256();
      LeRoundTrip(values[0], 4);
    } else {
      FieldAt(values[1..], k - 1);
      assert bytes[4 * k..4 * k + 4] == Fields(values[1..])[4 * (k - 1)..4 * (k - 1) + 4];
    }
  }

  lemma HeaderField(i: Info, rest: seq<Byte>, k: nat)
    requires InfoFits(i) && k < 7
    ensures U32(HeaderV2(i) + rest, 8 + 4 * k) == HeaderValues(i)[k]
  {
    var file, fields := HeaderV2(i) + rest, Fields(HeaderValues(i));
    assert file[8..8 + |fields|] == fields;
    SubSlice(file, 8, fields, 4 * k, 4 * k + 4);
    FieldAt(HeaderValues(i), k);
  }

  /** A version 2 file whose header fields are those of i. */
  predicate HasHeader(file: seq<Byte>, i: Info) {
    && |file| >= HEADER_V2_BYTES && file[..8] == MAGIC_V2
    && U32(file, 8) == 2 && U32(file, 12) == CodecId(i.codec) && U32(file, 16) == i.sampleRate
    && U32(file, 20) == i.channels && U32(file, 24) == i.sampleFormat && U32(file, 28) == i.frameSamples
    && U32(file, 32) == i.frameDurationUs
  }

  lemma WrittenHeader(i: Info, rest: seq<Byte>)
    requires InfoFits(i)
    ensures HasHeader(HeaderV2(i) + rest, i)
  {
    assert (HeaderV2(i) + rest)[..8] == MAGIC_V2;
    HeaderField(i, rest, 0);
    HeaderField(i, rest, 1);
    HeaderField(i, rest, 2);
    HeaderField(i, rest, 3);
    HeaderField(i, rest, 4);
    HeaderField(i, rest, 5);
    HeaderField(i, rest, 6);
  }

  lemma HeaderOpens(file: seq<Byte>, i: Info)
    requires HasHeader(file, i) && InfoFits(i) && Usable(i) && SupportedCodec(i.codec)
    ensures OpenFile(file) == Some((i, HEADER_V2_BYTES))
  {
  }

  /** A written header is read back as it was, whatever follows it. */
  lemma HeaderRoundTrip(i: Info, rest: seq<Byte>)
    requires InfoFits(i) && Usable(i) && SupportedCodec(i.codec)
    ensures OpenFile(HeaderV2(i) + rest) == Some((i, HEADER_V2_BYTES))
  {
    WrittenHeader(i, rest);
    HeaderOpens(HeaderV2(i) + rest, i);
  }

  // ---------------------------------------------------------------- the layout, byte by byte

  /** The four bytes at `at` are n, least significant first. */
  predicate Le32(bytes: seq<Byte>, at: nat, n: nat) {
    at + 4 <= |bytes| && n == Quad(bytes[at], bytes[at + 1], bytes[at + 2], bytes[at + 3])
  }

  /** The file begins with the characters of a tag. */
  predicate Tagged(file: seq<Byte>, tag: string) {
    |tag| <= |file| && forall i | 0 <= i < |tag| :: file[i] == tag[i] as int
  }

  lemma FieldIsLe32(bytes: seq<Byte>, at: nat)
    requires at + 4 <= |bytes|
    ensures Le32(bytes, at, U32(bytes, at))
  {
    FourBytes(bytes[at..at + 4]);
  }

  lemma Le32IsField(bytes: seq<Byte>, at: nat, n: nat)
    requires Le32(bytes, at, n)
    ensures U32(bytes, at) == n
  {
    FourBytes(bytes[at..at + 4]);
  }

  lemma SameTag(file: seq<Byte>, magic: seq<Byte>, tag: string)
    requires |magic| == |tag| == 8 && forall i | 0 <= i < 8 :: magic[i] == tag[i] as int
    ensures Tagged(file, tag) <==> |file| >= 8 && file[..8] == magic
  {
    if Tagged(file, tag) {
      assert forall i | 0 <= i < 8 :: file[..8][i] == file[i] == magic[i];
    }
    if |file| >= 8 && file[..8] == magic {
      assert forall i | 0 <= i < 8 :: file[i] == file[..8][i];
    }
  }

  lemma Tags(file: seq<Byte>)
    ensures Tagged(file, "MCROPUS1") <==> |file| >= 8 && file[..8] == MAGIC_V1
    ensures Tagged(file, "MCRAUD02") <==> |file| >= 8 && file[..8] == MAGIC_V2
  {
    SameTag(file, MAGIC_V1, "MCROPUS1");
    SameTag(file, MAGIC_V2, "MCRAUD02");
  }

  /** A written header, byte by byte: the tag, then seven 32-bit fields, 36 bytes in all. */
  lemma HeaderLayout(i: Info)
    requires InfoFits(i) && SupportedCodec(i.codec)
    ensures var h := HeaderV2(i);
            && |h| == 36 && Tagged(h, "MCRAUD02") && Le32(h, 8, 2) && Le32(h, 12, if i.codec == Opus then 1 else 4)
            && Le32(h, 16, i.sampleRate) && Le32(h, 20, i.channels) && Le32(h, 24, i.sampleFormat)
            && Le32(h, 28, i.frameSamples) && Le32(h, 32, i.frameDurationUs)
  {
    var h := HeaderV2(i);
    assert h + [] == h;
    WrittenHeader(i, []);
    Tags(h);
    forall k | k in {8, 12, 16, 20, 24, 28, 32} ensures Le32(h, k, U32(h, k)) {
      FieldIsLe32(h, k);
    }
  }

  /** A record, byte by byte: a 64-bit timestamp, a 32-bit size, four bytes of padding, the payload. */
  lemma RecordLayout(r: Record, padding: Padding)
    requires Writable(r)
    ensures var b := RecordBytes(r, padding);
            && |b| == 16 + |r.payload| && (forall k | 0 <= k < 8 :: b[k] == r.timestampUs / Pow256(k) % 256)
            && Le32(b, 8, |r.payload|) && b[12..16] == padding && b[16..] == r.payload
  {
    var b := RecordBytes(r, padding);
    forall k | 0 <= k < 8 ensures b[k] == r.timestampUs / Pow256(k) % 256 {
      LeDigit(r.timestampUs, 8, k);
    }
    SizeField(r, padding);
    FieldIsLe32(b, 8);
  }

  /** Samples to a frame that lasts durationUs. */
  function FrameSamples(durationUs: nat, rate: nat): nat {
    durationUs * rate / 1000000 % 0x1_0000_0000
  }

  lemma VersionOneFields(file: seq<Byte>, i: Info, version: nat, codec: nat)
    requires |file| >= 32 && file[..8] == MAGIC_V1 && U32(file, 8) == version && U32(file, 12) == codec
    requires U32(file, 16) == i.sampleRate && U32(file, 20) == i.channels && U32(file, 24) == i.sampleFormat
    requires U32(file, 28) == i.frameDurationUs
    ensures OpenFile(file)
         == if version == 1 && codec == 1 && i.sampleRate != 0 && i.channels % 0x1_0000 != 0 && i.sampleFormat == 1
               && i.frameDurationUs != 0
            then Some((Info(Opus, i.sampleRate, i.channels % 0x1_0000, 1, FrameSamples(i.frameDurationUs, i.sampleRate),
                            i.frameDurationUs), 32))
            else None
  {
    if i.frameDurationUs == 0 {
      assert U32(file, 28) * U32(file, 16) == 0;
    }
  }

  /** A file of version 1 opens if and only if it names version and codec 1 and describes 16-bit audio with a rate, a
      channel count that survives in 16 bits, and a frame duration. The number of samples to a frame, which such a file
      does not hold, is the duration times the rate. */
  lemma VersionOneOpensIff(file: seq<Byte>, i: Info, version: nat, codec: nat)
    requires |file| >= 32 && Tagged(file, "MCROPUS1") && Le32(file, 8, version) && Le32(file, 12, codec)
    requires Le32(file, 16, i.sampleRate) && Le32(file, 20, i.channels) && Le32(file, 24, i.sampleFormat)
    requires Le32(file, 28, i.frameDurationUs)
    ensures OpenFile(file)
         == if version == 1 && codec == 1 && i.sampleRate != 0 && i.channels % 0x1_0000 != 0 && i.sampleFormat == 1
               && i.frameDurationUs != 0
            then Some((Info(Opus, i.sampleRate, i.channels % 0x1_0000, 1, FrameSamples(i.frameDurationUs, i.sampleRate),
                            i.frameDurationUs), 32))
            else None
  {
    Tags(file);
    Le32IsField(file, 8, version);
    Le32IsField(file, 12, codec);
    Le32IsField(file, 16, i.sampleRate);
    Le32IsField(file, 20, i.channels);
    Le32IsField(file, 24, i.sampleFormat);
    Le32IsField(file, 28, i.frameDurationUs);
    VersionOneFields(file, i, version, codec);
  }

  /** A file of version 2 opens if and only if it names version 2 and codec 1 or 4 and describes 16-bit audio with a
      rate, a channel count that survives in 16 bits, and a frame length in samples or microseconds. */
  lemma VersionTwoOpensIff(file: seq<Byte>, i: Info, version: nat, codec: nat)
    requires |file| >= 36 && Tagged(file, "MCRAUD02") && Le32(file, 8, version) && Le32(file, 12, codec)
    requires Le32(file, 16, i.sampleRate) && Le32(file, 20, i.channels) && Le32(file, 24, i.sampleFormat)
    requires Le32(file, 28, i.frameSamples) && Le32(file, 32, i.frameDurationUs)
    ensures OpenFile(file)
         == if version == 2 && (codec == 1 || codec == 4) && i.sampleRate != 0 && i.channels % 0x1_0000 != 0
               && i.sampleFormat == 1 && (i.frameSamples != 0 || i.frameDurationUs != 0)
            then Some((Info(if codec == 1 then Opus else Aac, i.sampleRate, i.channels % 0x1_0000, 1, i.frameSamples,
                            i.frameDurationUs), 36))
            else None
  {
    Tags(file);
    Le32IsField(file, 8, version);
    Le32IsField(file, 12, codec);
    Le32IsField(file, 16, i.sampleRate);
    Le32IsField(file, 20, i.channels);
    Le32IsField(file, 24, i.sampleFormat);
    Le32IsField(file, 28, i.frameSamples);
    Le32IsField(file, 32, i.frameDurationUs);
  }

  /** Nothing else opens: neither a file with another tag nor one shorter than its header. */
  lemma NothingElseOpens(file: seq<Byte>)
    requires !(Tagged(file, "MCROPUS1") && |file| >= 32) && !(Tagged(file, "MCRAUD02") && |file| >= 36)
    ensures OpenFile(file) == None
  {
    Tags(file);
  }

  /** Where a record's fields lie. */
  lemma FieldsOfRecord(file: seq<Byte>, at: nat, r: Record, padding: Padding)
    requires Writable(r) && at + RECORD_HEADER_BYTES + |r.payload| <= |file|
    requires file[at..at + RECORD_HEADER_BYTES + |r.payload|] == RecordBytes(r, padding)
    ensures FromLe(file[at..at + 8]) == r.timestampUs && U32(file, at + 8) == |r.payload|
    ensures file[at + RECORD_HEADER_BYTES..at + RECORD_HEADER_BYTES + |r.payload|] == r.payload
  {
    var bytes := RecordBytes(r, padding);
    SubSlice(file, at, bytes, 0, 8);
    SubSlice(file, at, bytes, 8, 12);
    SubSlice(file, at, bytes, RECORD_HEADER_BYTES, |bytes|);
    assert bytes[0..8] == ToLe(r.timestampUs, 8);
    assert bytes[8..12] == ToLe(|r.payload|, 4);
    assert bytes[RECORD_HEADER_BYTES..|bytes|] == r.payload;
    PowersOf256();
    LeRoundTrip(r.timestampUs, 8);
    LeRoundTrip(|r.payload|, 4);
  }

  /** A complete record on disk is returned if and only if its payload is at most 1 MiB. */
  lemma RecordIsReadIff(file: seq<Byte>, at: nat, r: Record, padding: Padding)
    requires Writable(r) && at + RECORD_HEADER_BYTES + |r.payload| <= |file|
    requires file[at..at + RECORD_HEADER_BYTES + |r.payload|] == RecordBytes(r, padding)
    ensures ReadRecord(file, at)
         == if Readable(r) then (Packet(r), at + RECORD_HEADER_BYTES + |r.payload|)
            else (Corrupt, at + RECORD_HEADER_BYTES)
  {
    FieldsOfRecord(file, at, r, padding);
  }

  /** The leading records whose payload is at most 1 MiB. */
  function ReadablePrefix(records: seq<Record>): seq<Record>
    decreases |records|
  {
    if records == [] || !Readable(records[0]) then [] else [records[0]] + ReadablePrefix(records[1..])
  }

  lemma SplitSuffix(file: seq<Byte>, at: nat, bytes: seq<Byte>, rest: seq<Byte>)
    requires at <= |file| && file[at..] == bytes + rest
    ensures at + |bytes| <= |file| && file[at..at + |bytes|] == bytes && file[at + |bytes|..] == rest
  {
    assert |file[at..]| == |bytes| + |rest|;
    assert file[at..][..|bytes|] == file[at..at + |bytes|];
    assert file[at..][|bytes|..] == file[at + |bytes|..];
  }

  function TotalExtent(records: seq<Record>): nat
    decreases |records|
  {
    if records == [] then 0 else Extent(records[0]) + TotalExtent(records[1..])
  }

  /** The records lie one behind another in the file from `at` on. */
  predicate Holds(file: seq<Byte>, at: nat, records: seq<Record>, paddings: seq<Padding>)
    requires |records| == |paddings|
    decreases |records|
  {
    records == []
    || (at + Extent(records[0]) <= |file| && file[at..at + Extent(records[0])] == RecordBytes(records[0], paddings[0])
        && Holds(file, at + Extent(records[0]), records[1..], paddings[1..]))
  }

  lemma BodyStarts(records: seq<Record>, paddings: seq<Padding>, tail: seq<Byte>)
    requires |records| == |paddings| && records != []
    ensures Body(records, paddings) + tail
         == RecordBytes(records[0], paddings[0]) + (Body(records[1..], paddings[1..]) + tail)
  {
  }

  lemma {:induction false} BodyHolds(file: seq<Byte>, at: nat, records: seq<Record>, paddings: seq<Padding>,
                                     tail: seq<Byte>)
    requires at <= |file| && |records| == |paddings| && file[at..] == Body(records, paddings) + tail
    ensures at + TotalExtent(records) <= |file| && file[at + TotalExtent(records)..] == tail
    ensures Holds(file, at, records, paddings)
    decreases |records|
  {
    if records != [] {
      var rest := Body(records[1..], paddings[1..]) + tail;
      BodyStarts(records, paddings, tail);
      SplitSuffix(file, at, RecordBytes(records[0], paddings[0]), rest);
      BodyHolds(file, at + Extent(records[0]), records[1..], paddings[1..], tail);
    }
  }

  /** Reading from `at` on gives r, and then what reading from `next` on gives. */
  predicate ReadsFirst(file: seq<Byte>, at: nat, r: Record, next: nat) {
    at <= next <= |file| && ReadAll(file, at) == ([r] + ReadAll(file, next).0, ReadAll(file, next).1)
  }

  lemma ReadingGoesOn(file: seq<Byte>, at: nat, r: Record, next: nat)
    requires at <= |file| && ReadRecord(file, at) == (Packet(r), next)
    ensures ReadsFirst(file, at, r, next)
  {
  }

  /** A readable record is read, and reading goes on behind it. */
  lemma HeldIsRead(file: seq<Byte>, at: nat, r: Record, padding: Padding)
    requires Readable(r) && at + Extent(r) <= |file| && file[at..at + Extent(r)] == RecordBytes(r, padding)
    ensures ReadsFirst(file, at, r, at + Extent(r))
  {
    RecordIsReadIff(file, at, r, padding);
    ReadingGoesOn(file, at, r, at + Extent(r));
  }

  /** Successive reads from `at` return these packets and end at `next`. */
  predicate Yields(file: seq<Byte>, at: nat, records: seq<Record>, next: nat)
    requires at <= |file|
    decreases |records|
  {
    if records == [] then next == at
    else
      var (result, position) := ReadRecord(file, at);
      result == Packet(records[0]) && Yields(file, position, records[1..], next)
  }

  /** Then they are the beginning of what is read from there. */
  lemma {:induction false} YieldsAreRead(file: seq<Byte>, at: nat, records: seq<Record>, next: nat)
    requires at <= |file| && Yields(file, at, records, next)
    ensures next <= |file| && ReadAll(file, at) == (records + ReadAll(file, next).0, ReadAll(file, next).1)
    decreases |records|
  {
    if records == [] {
      assert records + ReadAll(file, at).0 == ReadAll(file, at).0;
    } else {
      YieldsAreRead(file, ReadRecord(file, at).1, records[1..], next);
      var last := ReadAll(file, next).0;
      assert [records[0]] + (records[1..] + last) == records + last;
    }
  }

  lemma {:induction false} HeldAreYielded(file: seq<Byte>, at: nat, records: seq<Record>, paddings: seq<Padding>)
    requires at + TotalExtent(records) <= |file| && |records| == |paddings| && Holds(file, at, records, paddings)
    requires forall i | 0 <= i < |records| :: Readable(records[i])
    ensures Yields(file, at, records, at + TotalExtent(records))
    decreases |records|
  {
    if records != [] {
      RecordIsReadIff(file, at, records[0], paddings[0]);
      HeldAreYielded(file, at + Extent(records[0]), records[1..], paddings[1..]);
    }
  }

  /** Readable records are read, and reading goes on behind them. */
  lemma HeldAreRead(file: seq<Byte>, at: nat, records: seq<Record>, paddings: seq<Padding>)
    requires at + TotalExtent(records) <= |file| && |records| == |paddings| && Holds(file, at, records, paddings)
    requires forall i | 0 <= i < |records| :: Readable(records[i])
    ensures var next := at + TotalExtent(records);
            ReadAll(file, at) == (records + ReadAll(file, next).0, ReadAll(file, next).1)
  {
    HeldAreYielded(file, at, records, paddings);
    YieldsAreRead(file, at, records, at + TotalExtent(records));
  }

  /** Reading stops at the first record the reader refuses. */
  lemma {:induction false} HeldUpToRefused(file: seq<Byte>, at: nat, records: seq<Record>, paddings: seq<Padding>)
    requires at + TotalExtent(records) <= |file| && |records| == |paddings| && Holds(file, at, records, paddings)
    requires forall i | 0 <= i < |records| :: Writable(records[i])
    requires exists i :: 0 <= i < |records| && !Readable(records[i])
    ensures ReadAll(file, at) == (ReadablePrefix(records), Corrupt)
    decreases |records|
  {
    RecordIsReadIff(file, at, records[0], paddings[0]);
    if Readable(records[0]) {
      HeldIsRead(file, at, records[0], paddings[0]);
      HeldUpToRefused(file, at + Extent(records[0]), records[1..], paddings[1..]);
    }
  }

  lemma BodyFills(file: seq<Byte>, at: nat, records: seq<Record>, paddings: seq<Padding>)
    requires at <= |file| && |records| == |paddings| && file[at..] == Body(records, paddings)
    ensures at + TotalExtent(records) == |file| && Holds(file, at, records, paddings)
  {
    assert file[at..] == Body(records, paddings) + [];
    BodyHolds(file, at, records, paddings, []);
    assert |file[at + TotalExtent(records)..]| == |file| - at - TotalExtent(records);
  }

  /** Readable records up to the end of the file. */
  lemma AllAreRead(file: seq<Byte>, at: nat, records: seq<Record>, paddings: seq<Padding>)
    requires |records| == |paddings| && Holds(file, at, records, paddings) && at + TotalExtent(records) == |file|
    requires forall i | 0 <= i < |records| :: Readable(records[i])
    ensures ReadAll(file, at) == (records, EndOfFile)
  {
    HeldAreYielded(file, at, records, paddings);
    YieldsToTheEnd(file, at, records);
  }

  lemma {:induction false} YieldsToTheEnd(file: seq<Byte>, at: nat, records: seq<Record>)
    requires at <= |file| && Yields(file, at, records, |file|)
    ensures ReadAll(file, at) == (records, EndOfFile)
    decreases |records|
  {
    if records != [] {
      YieldsToTheEnd(file, ReadRecord(file, at).1, records[1..]);
      assert [records[0]] + records[1..] == records;
    }
  }

  /** Reading a file back, after any header, gives its records up to the first one the reader refuses. */
  lemma BodyRoundTrip(file: seq<Byte>, at: nat, records: seq<Record>, paddings: seq<Padding>)
    requires at <= |file| && |records| == |paddings| && file[at..] == Body(records, paddings)
    requires forall i | 0 <= i < |records| :: Writable(records[i])
    ensures ReadAll(file, at)
         == (ReadablePrefix(records), if ReadablePrefix(records) == records then EndOfFile else Corrupt)
  {
    BodyFills(file, at, records, paddings);
    ReadablePrefixIsAll(records);
    if ReadablePrefix(records) == records {
      AllAreRead(file, at, records, paddings);
    } else {
      HeldUpToRefused(file, at, records, paddings);
    }
  }

  /** Readable records are read wherever they stand, and reading goes on behind them. */
  lemma ReadOn(file: seq<Byte>, at: nat, records: seq<Record>, paddings: seq<Padding>, tail: seq<Byte>)
    requires at <= |file| && |records| == |paddings| && file[at..] == Body(records, paddings) + tail
    requires forall i | 0 <= i < |records| :: Readable(records[i])
    ensures var next := at + TotalExtent(records);
            && next <= |file| && file[next..] == tail
            && ReadAll(file, at) == (records + ReadAll(file, next).0, ReadAll(file, next).1)
  {
    BodyHolds(file, at, records, paddings, tail);
    HeldAreRead(file, at, records, paddings);
  }

  /** Main result: a written file opens with the same description and reads back as the same list of packets if and
      only if every payload is at most 1 MiB. */
  lemma FileRoundTrip(i: Info, records: seq<Record>, paddings: seq<Padding>)
    requires InfoFits(i) && Usable(i) && SupportedCodec(i.codec) && |records| == |paddings|
    requires forall k | 0 <= k < |records| :: Writable(records[k])
    ensures var file := HeaderV2(i) + Body(records, paddings);
            && OpenFile(file) == Some((i, HEADER_V2_BYTES))
            && (ReadAll(file, HEADER_V2_BYTES) == (records, EndOfFile)
                <==> forall k | 0 <= k < |records| :: |records[k].payload| <= MAXIMUM_PACKET_BYTES)
  {
    var file := HeaderV2(i) + Body(records, paddings);
    HeaderRoundTrip(i, Body(records, paddings));
    assert file[HEADER_V2_BYTES..] == Body(records, paddings);
    BodyRoundTrip(file, HEADER_V2_BYTES, records, paddings);
    ReadablePrefixIsAll(records);
  }

  lemma {:induction false} ReadablePrefixIsAll(records: seq<Record>)
    requires forall k | 0 <= k < |records| :: Writable(records[k])
    ensures ReadablePrefix(records) == records
       <==> forall k | 0 <= k < |records| :: |records[k].payload| <= MAXIMUM_PACKET_BYTES
    decreases |records|
  {
    if records != [] {
      ReadablePrefixIsAll(records[1..]);
      if Readable(records[0]) {
        assert ReadablePrefix(records) == records <==> ReadablePrefix(records[1..]) == records[1..];
      } else {
        assert |records[0].payload| > MAXIMUM_PACKET_BYTES;
      }
    }
  }

  // ---------------------------------------------------------------- truncation

  /** Reading looks only at the bytes it returns: cutting the file anywhere gives a prefix of what it gave before. */
  lemma {:induction false} TruncationGivesPrefix(file: seq<Byte>, at: nat, end: nat)
    requires at <= end <= |file|
    ensures ReadAll(file[..end], at).0 <= ReadAll(file, at).0
    decreases end - at
  {
    var cut := file[..end];
    var (result, next) := ReadRecord(cut, at);
    if result.Packet? {
      assert cut[at..at + 8] == file[at..at + 8];
      assert cut[at + 8..at + 12] == file[at + 8..at + 12];
      assert cut[at + RECORD_HEADER_BYTES..next] == file[at + RECORD_HEADER_BYTES..next];
      assert ReadRecord(file, at) == (result, next);
      TruncationGivesPrefix(file, next, end);
    }
  }

  /** The body of these records is cut `offset` bytes in, and the cut lies less than a record header behind the end of
      some record (or of the file header). */
  predicate CutInHeader(records: seq<Record>, offset: nat)
    decreases |records|
  {
    records == [] || offset < RECORD_HEADER_BYTES
    || (offset >= RECORD_HEADER_BYTES + |records[0].payload|
        && CutInHeader(records[1..], offset - RECORD_HEADER_BYTES - |records[0].payload|))
  }

  /** The records that lie wholly before the cut. */
  function Complete(records: seq<Record>, offset: nat): seq<Record>
    decreases |records|
  {
    if records == [] || offset < RECORD_HEADER_BYTES + |records[0].payload| then []
    else [records[0]] + Complete(records[1..], offset - RECORD_HEADER_BYTES - |records[0].payload|)
  }

  /** A record that lies before the cut is read as before. */
  lemma RecordBeforeCut(file: seq<Byte>, at: nat, r: Record, padding: Padding, end: nat)
    requires Readable(r) && at + Extent(r) <= end <= |file| && file[at..at + Extent(r)] == RecordBytes(r, padding)
    ensures ReadAll(file[..end], at)
            == ([r] + ReadAll(file[..end], at + Extent(r)).0, ReadAll(file[..end], at + Extent(r)).1)
  {
    assert file[..end][at..at + Extent(r)] == file[at..at + Extent(r)];
    HeldIsRead(file[..end], at, r, padding);
  }

  /** A record cut in its payload is an error. */
  lemma RecordAcrossCut(file: seq<Byte>, at: nat, r: Record, padding: Padding, end: nat)
    requires Readable(r) && at + Extent(r) <= |file| && file[at..at + Extent(r)] == RecordBytes(r, padding)
    requires at + RECORD_HEADER_BYTES <= end < at + Extent(r)
    ensures ReadAll(file[..end], at) == ([], IoError)
  {
    FieldsOfRecord(file, at, r, padding);
    assert file[..end][at + 8..at + 12] == file[at + 8..at + 12];
  }

  /** Reading a cut file gives the records before the cut; it ends silently if the cut lies in a record header and with
      an error if it lies in a payload. */
  lemma {:induction false} CutEnds(file: seq<Byte>, at: nat, records: seq<Record>, paddings: seq<Padding>, end: nat)
    requires |records| == |paddings| && Holds(file, at, records, paddings)
    requires at <= end <= at + TotalExtent(records) == |file|
    requires forall i | 0 <= i < |records| :: Readable(records[i])
    ensures ReadAll(file[..end], at)
         == (Complete(records, end - at), if CutInHeader(records, end - at) then EndOfFile else IoError)
    decreases |records|
  {
    if records == [] || end - at < RECORD_HEADER_BYTES {
      ShortTailIsTheEnd(file[..end], at);
    } else if end < at + Extent(records[0]) {
      RecordAcrossCut(file, at, records[0], paddings[0], end);
    } else {
      RecordBeforeCut(file, at, records[0], paddings[0], end);
      CutEnds(file, at + Extent(records[0]), records[1..], paddings[1..], end);
    }
  }

  lemma ShortTailIsTheEnd(file: seq<Byte>, at: nat)
    requires at <= |file| < at + RECORD_HEADER_BYTES
    ensures ReadAll(file, at) == ([], EndOfFile)
  {
  }

  /** The same for a written body behind any header. */
  lemma CutBody(header: seq<Byte>, records: seq<Record>, paddings: seq<Padding>, end: nat)
    requires |records| == |paddings| && forall i | 0 <= i < |records| :: Readable(records[i])
    requires |header| == HEADER_V2_BYTES <= end <= |header + Body(records, paddings)|
    ensures ReadAll((header + Body(records, paddings))[..end], HEADER_V2_BYTES)
         == (Complete(records, end - HEADER_V2_BYTES),
             if CutInHeader(records, end - HEADER_V2_BYTES) then EndOfFile else IoError)
  {
    var file := header + Body(records, paddings);
    assert file[HEADER_V2_BYTES..] == Body(records, paddings);
    BodyFills(file, HEADER_V2_BYTES, records, paddings);
    CutEnds(file, HEADER_V2_BYTES, records, paddings, end);
  }

  lemma CutHeader(i: Info, body: seq<Byte>, end: nat)
    requires InfoFits(i) && Usable(i) && SupportedCodec(i.codec) && HEADER_V2_BYTES <= end <= |HeaderV2(i) + body|
    ensures OpenFile((HeaderV2(i) + body)[..end]) == Some((i, HEADER_V2_BYTES))
  {
    assert (HeaderV2(i) + body)[..end] == HeaderV2(i) + body[..end - HEADER_V2_BYTES];
    HeaderRoundTrip(i, body[..end - HEADER_V2_BYTES]);
  }

  lemma {:induction false} CompleteIsPrefix(records: seq<Record>, offset: nat)
    ensures Complete(records, offset) <= records
    decreases |records|
  {
    if records != [] && offset >= Extent(records[0]) {
      CompleteIsPrefix(records[1..], offset - Extent(records[0]));
      assert records == [records[0]] + records[1..];
    }
  }

  /** A written file cut anywhere behind its header still opens and yields the packets before the cut; the reader
      calls that a normal end of file if and only if the cut lies less than a record header behind a record's end. */
  lemma TruncatedFile(i: Info, records: seq<Record>, paddings: seq<Padding>, end: nat)
    requires InfoFits(i) && Usable(i) && SupportedCodec(i.codec) && |records| == |paddings|
    requires forall k | 0 <= k < |records| :: Readable(records[k])
    requires HEADER_V2_BYTES <= end <= |HeaderV2(i) + Body(records, paddings)|
    ensures var cut, behind := (HeaderV2(i) + Body(records, paddings))[..end], end - HEADER_V2_BYTES;
            && OpenFile(cut) == Some((i, HEADER_V2_BYTES)) && Complete(records, behind) <= records
            && ReadAll(cut, HEADER_V2_BYTES)
               == (Complete(records, behind), if CutInHeader(records, behind) then EndOfFile else IoError)
  {
    CutHeader(i, Body(records, paddings), end);
    CutBody(HeaderV2(i), records, paddings, end);
    CompleteIsPrefix(records, end - HEADER_V2_BYTES);
  }

  /** A packet of one byte. */
  const SMALL: Record := Record(0, [1])

  /** A file with that packet, cut five bytes behind its header, reads as an empty file that ends normally. */
  lemma CutHeaderReadsAsEnd(i: Info, padding: Padding)
    requires InfoFits(i) && Usable(i) && SupportedCodec(i.codec)
    ensures var file := HeaderV2(i) + Body([SMALL], [padding]);
            HEADER_V2_BYTES + 5 <= |file|
            && ReadAll(file[..HEADER_V2_BYTES + 5], HEADER_V2_BYTES) == ([], EndOfFile)
  {
    TruncatedFile(i, [SMALL], [padding], HEADER_V2_BYTES + 5);
  }

  // ---------------------------------------------------------------- failed writes

  lemma SizeField(r: Record, padding: Padding)
    requires Writable(r)
    ensures U32(RecordBytes(r, padding), 8) == |r.payload|
  {
    assert RecordBytes(r, padding)[8..12] == ToLe(|r.payload|, 4);
    PowersOf256();
    LeRoundTrip(|r.payload|, 4);
  }

  /** A record of which only the first k bytes were written is not read. */
  lemma TornRecordIsNotRead(file: seq<Byte>, at: nat, r: Record, padding: Padding, k: nat)
    requires Writable(r) && at <= |file| && k < Extent(r) && file[at..] == RecordBytes(r, padding)[..k]
    ensures ReadAll(file, at).0 == []
  {
    assert |file[at..]| == |file| - at == k;
    if k >= RECORD_HEADER_BYTES {
      SizeField(r, padding);
      forall i | 8 <= i < 12 ensures file[at + i] == RecordBytes(r, padding)[i] {
        assert file[at..][i] == file[at + i];
      }
      assert file[at + 8..at + 12] == RecordBytes(r, padding)[8..12];
    }
  }

  /** A packet of one byte more than the reader takes. */
  const LARGE: Record := Record(0, seq(MAXIMUM_PACKET_BYTES + 1, _ => 0))

  /** It can be written, and reading the file back gives nothing but an error. */
  lemma LargePacketIsLost(i: Info, padding: Padding)
    requires InfoFits(i) && Usable(i) && SupportedCodec(i.codec)
    ensures Writable(LARGE) && |LARGE.payload| == 1048577
    ensures ReadAll(HeaderV2(i) + Body([LARGE], [padding]), HEADER_V2_BYTES) == ([], Corrupt)
  {
    var file := HeaderV2(i) + Body([LARGE], [padding]);
    assert file[HEADER_V2_BYTES..] == Body([LARGE], [padding]);
    BodyRoundTrip(file, HEADER_V2_BYTES, [LARGE], [padding]);
    assert ReadablePrefix([LARGE]) == [];
  }

  // ---------------------------------------------------------------- writer and reader objects

  function Min(a: nat, b: nat): nat {
    if a < b then a else b
  }

  class Writer {
    var file: seq<Byte>
    var info: Info
    var isOpen: bool
    ghost var records: seq<Record>
    ghost var paddings: seq<Padding>
    ghost var torn: seq<Byte>  // everything from the first failed write on

    ghost predicate Valid()
      reads this
    {
      isOpen ==> Usable(info) && SupportedCodec(info.codec) && |records| == |paddings|
                 && (forall i | 0 <= i < |records| :: Writable(records[i]))
                 && file == HeaderV2(info) + Body(records, paddings) + torn
    }

    constructor ()
      ensures Valid() && !isOpen
    {
      isOpen := false;
    }

    /** `created` says that the file could be created, `taken` how many bytes of the header the disk takes. */
    method Open(i: Info, created: bool, taken: nat) returns (ok: bool)
      modifies this
      ensures ok <==> SupportedCodec(i.codec) && Usable(i) && created && taken >= HEADER_V2_BYTES
      ensures ok ==> Valid() && isOpen && info == i && records == [] && torn == []
      ensures !ok ==> if SupportedCodec(i.codec) && Usable(i) then !isOpen && Valid() else unchanged(this)
    {
      if !SupportedCodec(i.codec) || !Usable(i) {
        return false;
      }
      isOpen := false;
      if !created {
        return false;
      }
      file := HeaderV2(i)[..Min(taken, HEADER_V2_BYTES)];
      if taken < HEADER_V2_BYTES {
        return false;
      }
      info := i;
      isOpen := true;
      records, paddings, torn := [], [], [];
      assert file == HeaderV2(i) + Body(records, paddings) + torn;
      return true;
    }

    /** `taken` is how many bytes of the record the disk takes, `padding` whatever lies in the header's padding. */
    method Write(codec: Codec, record: Record, padding: Padding, taken: nat) returns (ok: bool)
      requires Valid() && record.timestampUs < TWO_TO_64
      modifies this
      ensures Valid() && isOpen == old(isOpen) && info == old(info)
      ensures var accepted := isOpen && codec == info.codec && 0 < |record.payload| < TWO_TO_32;
              var bytes := RecordBytes(record, padding);
              && (ok <==> accepted && taken >= |bytes|)
              && (if !accepted then unchanged(this) else file == old(file) + bytes[..Min(taken, |bytes|)])
              && (accepted && old(torn) == [] ==>
                    if ok then records == old(records) + [record] && torn == []
                    else records == old(records) && torn == bytes[..taken])
    {
      if !isOpen || codec != info.codec || |record.payload| == 0 || |record.payload| >= TWO_TO_32 {
        return false;
      }
      ghost var bytes := RecordBytes(record, padding);
      ok := Put(record, padding, taken);
      if ok && torn == [] {
        BodyAppend(records, paddings, record, padding);
        Grown(HeaderV2(info), Body(records, paddings), torn, bytes);
        records, paddings := records + [record], paddings + [padding];
      } else {
        Grown(HeaderV2(info), Body(records, paddings), torn, bytes[..Min(taken, |bytes|)]);
        torn := torn + bytes[..Min(taken, |bytes|)];
      }
    }

    /** Both fwrite calls; the second is made only if the first succeeds. */
    method Put(record: Record, padding: Padding, taken: nat) returns (ok: bool)
      modifies this`file
      ensures var bytes := RecordBytes(record, padding);
              file == old(file) + bytes[..Min(taken, |bytes|)] && (ok <==> taken >= |bytes|)
    {
      ghost var before, bytes := file, RecordBytes(record, padding);
      var recordHeader := ToLe(record.timestampUs, 8) + ToLe(|record.payload|, 4) + padding;
      assert bytes == recordHeader + record.payload;
      file := file + recordHeader[..Min(taken, RECORD_HEADER_BYTES)];
      if taken < RECORD_HEADER_BYTES {
        assert recordHeader[..taken] == bytes[..taken];
        return false;
      }
      var left := Min(taken - RECORD_HEADER_BYTES, |record.payload|);
      file := file + record.payload[..left];
      assert recordHeader[..RECORD_HEADER_BYTES] + record.payload[..left] == bytes[..Min(taken, |bytes|)];
      assert file == before + (recordHeader[..RECORD_HEADER_BYTES] + record.payload[..left]);
      return left == |record.payload|;
    }
  }

  /** More bytes behind a file. */
  lemma Grown(header: seq<Byte>, body: seq<Byte>, torn: seq<Byte>, more: seq<Byte>)
    ensures header + body + torn + more == header + body + (torn + more)
    ensures torn == [] ==> header + body + torn + more == header + (body + more) + torn
  {
  }

  lemma {:induction false} BodyAppend(records: seq<Record>, paddings: seq<Padding>, r: Record, padding: Padding)
    requires |records| == |paddings|
    ensures Body(records + [r], paddings + [padding]) == Body(records, paddings) + RecordBytes(r, padding)
    decreases |records|
  {
    if records == [] {
      assert records + [r] == [r] && paddings + [padding] == [padding];
      assert Body([r][1..], [padding][1..]) == [];
    } else {
      assert (records + [r])[1..] == records[1..] + [r] && (paddings + [padding])[1..] == paddings[1..] + [padding];
      BodyAppend(records[1..], paddings[1..], r, padding);
    }
  }

  class Reader {
    const file: seq<Byte>
    var position: nat
    var info: Info
    var isOpen: bool

    ghost predicate Valid()
      reads this
    {
      position <= |file|
    }

    constructor Open(file: seq<Byte>)
      ensures Valid() && this.file == file
      ensures isOpen <==> OpenFile(file).Some?
      ensures isOpen ==> OpenFile(file) == Some((info, position))
    {
      this.file := file;
      var opened' := OpenFile(file);
      if opened'.Some? {
        info, position, isOpen := opened'.value.0, opened'.value.1, true;
      } else {
        info, position, isOpen := Info(Unknown, 0, 0, 0, 0, 0), 0, false;
      }
    }

    method Read() returns (result: ReadResult)
      requires Valid() && isOpen
      modifies this`position
      ensures Valid() && (result, position) == ReadRecord(file, old(position))
    {
      if |file| - position < RECORD_HEADER_BYTES {
        position := |file|;
        return EndOfFile;
      }
      var timestampUs, size := FromLe(file[position..position + 8]), U32(file, position + 8);
      position := position + RECORD_HEADER_BYTES;
      if size == 0 || size > MAXIMUM_PACKET_BYTES {
        return Corrupt;
      }
      if |file| - position < size {
        position := |file|;
        return IoError;
      }
      result := Packet(Record(timestampUs, file[position..position + size]));
      position := position + size;
    }

    /** The usual consumer loop: everything until the first result that is not a packet. */
    method ReadToEnd() returns (records: seq<Record>, last: ReadResult)
      requires Valid() && isOpen
      modifies this`position
      ensures Valid() && (records, last) == ReadAll(file, old(position))
    {
      records := [];
      last := Read();
      assert last.Packet? ==>
               [] + ([last.record] + ReadAll(file, position).0) == [last.record] + ReadAll(file, position).0;
      while last.Packet?
        invariant Valid() && isOpen
        invariant var all, rest := ReadAll(file, old(position)), ReadAll(file, position);
                  if last.Packet? then all == (records + ([last.record] + rest.0), rest.1) else all == (records, last)
        decreases |file| - position, if last.Packet? then 1 else 0
      {
        ghost var rest := ReadAll(file, position).0;
        assert records + ([last.record] + rest) == (records + [last.record]) + rest;
        records := records + [last.record];
        last := Read();
        assert records + [] == records;
      }
    }
  }
}
