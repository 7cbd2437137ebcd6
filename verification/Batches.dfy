/** The batch header: its fields, what makes a batch acceptable, printing one, and stamping one
    without touching what its checksum covers. */
module Batches {
  import opened Common
  import opened Bytes
  import opened Records
  import opened RecordPrint

  type U32 = x: int | 0 <= x < TWO32
  /** The checksum, whatever it is, of the bytes from the attributes on. */
  type Checksum = Bytes -> U32

  const OVERHEAD: nat := 61

  function Field(b: Bytes, at: nat, n: nat): Bytes
    requires at + n <= |b|
  {
    b[at..at + n]
  }

  function BaseOffset(b: Bytes): int requires |b| >= OVERHEAD { GetInt(Field(b, 0, 8)) }
  function BatchLength(b: Bytes): int requires |b| >= OVERHEAD { GetInt(Field(b, 8, 4)) }
  function LeaderEpoch(b: Bytes): int requires |b| >= OVERHEAD { GetInt(Field(b, 12, 4)) }
  function Magic(b: Bytes): int requires |b| >= OVERHEAD { GetInt(Field(b, 16, 1)) }
  function StoredCrc(b: Bytes): nat requires |b| >= OVERHEAD { GetBE(Field(b, 17, 4)) }
  function Attributes(b: Bytes): int requires |b| >= OVERHEAD { GetInt(Field(b, 21, 2)) }
  function LastOffsetDelta(b: Bytes): int requires |b| >= OVERHEAD { GetInt(Field(b, 23, 4)) }
  function BaseTimestamp(b: Bytes): int requires |b| >= OVERHEAD { GetInt(Field(b, 27, 8)) }
  function MaxTimestamp(b: Bytes): int requires |b| >= OVERHEAD { GetInt(Field(b, 35, 8)) }
  function ProducerId(b: Bytes): int requires |b| >= OVERHEAD { GetInt(Field(b, 43, 8)) }
  function ProducerEpoch(b: Bytes): int requires |b| >= OVERHEAD { GetInt(Field(b, 51, 2)) }
  function BaseSequence(b: Bytes): int requires |b| >= OVERHEAD { GetInt(Field(b, 53, 4)) }
  function RecordCount(b: Bytes): int requires |b| >= OVERHEAD { GetInt(Field(b, 57, 4)) }

  function LastOffset(b: Bytes): int
    requires |b| >= OVERHEAD
  {
    BaseOffset(b) + LastOffsetDelta(b)
  }

  /** The low three bits. */
  function Codec(attributes: int): int { attributes % 8 }
  predicate IsTransactional(attributes: int) { attributes / 16 % 2 == 1 }
  predicate IsControl(attributes: int) { attributes / 32 % 2 == 1 }

  /** A batch of the right shape, its checksum not looked at. */
  function View(b: Bytes): (r: Parsed<Bytes>)
    ensures r.Ok? ==> r.value == b && |b| >= OVERHEAD
  {
    if |b| < OVERHEAD then Err(TooShort(|b|))
    else if Magic(b) != 2 then Err(UnsupportedMagic(Magic(b)))
    else if BatchLength(b) + 12 != |b| then Err(LengthMismatch(BatchLength(b) + 12, |b|))
    else if LastOffsetDelta(b) < 0 then Err(NegativeExtent("lastOffsetDelta", LastOffsetDelta(b)))
    else if RecordCount(b) < 0 then Err(NegativeExtent("recordCount", RecordCount(b)))
    else Ok(b)
  }

  function Validated(crc: Checksum, b: Bytes): (r: Parsed<Bytes>)
    ensures r.Ok? ==> r.value == b && |b| >= OVERHEAD
  {
    var v :- View(b);
    if StoredCrc(v) != crc(v[21..]) then Err(CrcMismatch(StoredCrc(v), crc(v[21..]))) else Ok(v)
  }

  // ---- printing

  datatype BatchHeader = BatchHeader(
    baseOffset: int, leaderEpoch: int, attributes: int, lastDelta: int, baseTimestamp: int, maxTimestamp: int,
    producerId: int, producerEpoch: int, baseSequence: int, count: int)

  predicate HeaderFits(h: BatchHeader) {
    && IsI64(h.baseOffset) && IsI32(h.leaderEpoch) && IsI16(h.attributes) && IsI32(h.lastDelta)
    && IsI64(h.baseTimestamp) && IsI64(h.maxTimestamp)
    && IsI64(h.producerId) && IsI16(h.producerEpoch) && IsI32(h.baseSequence) && IsI32(h.count)
  }

  /** From the attributes on: what the checksum covers. */
  function PrintCovered(h: BatchHeader, body: Bytes): (b: Bytes)
    ensures |b| == 40 + |body|
  {
    PutInt(2, h.attributes) + PutInt(4, h.lastDelta) + PutInt(8, h.baseTimestamp) + PutInt(8, h.maxTimestamp)
    + PutInt(8, h.producerId) + PutInt(2, h.producerEpoch) + PutInt(4, h.baseSequence) + PutInt(4, h.count) + body
  }

  function PrintBatch(crc: Checksum, h: BatchHeader, body: Bytes): (b: Bytes)
    ensures |b| == OVERHEAD + |body|
  {
    PutInt(8, h.baseOffset) + PutInt(4, |body| + 49) + PutInt(4, h.leaderEpoch) + PutInt(1, 2)
    + PutBE(4, crc(PrintCovered(h, body))) + PrintCovered(h, body)
  }

  /** What the checksum covers, field by field. */
  lemma CoveredFields(h: BatchHeader, body: Bytes)
    ensures var c := PrintCovered(h, body);
            && c[0..2] == PutInt(2, h.attributes) && c[2..6] == PutInt(4, h.lastDelta)
            && c[6..14] == PutInt(8, h.baseTimestamp) && c[14..22] == PutInt(8, h.maxTimestamp)
            && c[22..30] == PutInt(8, h.producerId) && c[30..32] == PutInt(2, h.producerEpoch)
            && c[32..36] == PutInt(4, h.baseSequence) && c[36..40] == PutInt(4, h.count) && c[40..] == body
  {
  }

  lemma FrontFields(crc: Checksum, h: BatchHeader, body: Bytes)
    ensures var b := PrintBatch(crc, h, body);
            && b[0..8] == PutInt(8, h.baseOffset) && b[8..12] == PutInt(4, |body| + 49)
            && b[12..16] == PutInt(4, h.leaderEpoch) && b[16..17] == PutInt(1, 2)
            && b[17..21] == PutBE(4, crc(PrintCovered(h, body))) && b[21..] == PrintCovered(h, body)
  {
  }

  /** Every header field reads back as printed. */
  ghost predicate Carries(b: Bytes, h: BatchHeader)
    requires |b| >= OVERHEAD
  {
    && BaseOffset(b) == h.baseOffset && LeaderEpoch(b) == h.leaderEpoch
    && Attributes(b) == h.attributes && LastOffsetDelta(b) == h.lastDelta
    && BaseTimestamp(b) == h.baseTimestamp && MaxTimestamp(b) == h.maxTimestamp
    && ProducerId(b) == h.producerId && ProducerEpoch(b) == h.producerEpoch
    && BaseSequence(b) == h.baseSequence && RecordCount(b) == h.count
  }

  lemma SubField(b: Bytes, at: nat, n: nat)
    requires 21 + at + n <= |b|
    ensures b[21..][at..at + n] == b[21 + at..21 + at + n]
  {
  }

  lemma PrintCarries(crc: Checksum, h: BatchHeader, body: Bytes)
    requires HeaderFits(h)
    ensures Carries(PrintBatch(crc, h, body), h)
  {
    hide PutInt, GetInt, PrintCovered, PrintBatch, Pow256;
    var b := PrintBatch(crc, h, body);
    FrontFields(crc, h, body);
    CoveredFields(h, body);
    Widths();
    IntRoundTrip(8, h.baseOffset);
    IntRoundTrip(4, h.leaderEpoch);
    SubField(b, 0, 2);
    IntRoundTrip(2, h.attributes);
    SubField(b, 2, 4);
    IntRoundTrip(4, h.lastDelta);
    SubField(b, 6, 8);
    IntRoundTrip(8, h.baseTimestamp);
    SubField(b, 14, 8);
    IntRoundTrip(8, h.maxTimestamp);
    SubField(b, 22, 8);
    IntRoundTrip(8, h.producerId);
    SubField(b, 30, 2);
    IntRoundTrip(2, h.producerEpoch);
    SubField(b, 32, 4);
    IntRoundTrip(4, h.baseSequence);
    SubField(b, 36, 4);
    IntRoundTrip(4, h.count);
  }

  /** A printed batch validates, carries its header, and holds its body. */
  lemma PrintValidates(crc: Checksum, h: BatchHeader, body: Bytes)
    requires HeaderFits(h) && h.lastDelta >= 0 && h.count >= 0 && IsI32(|body| + 49)
    ensures var b := PrintBatch(crc, h, body);
            Validated(crc, b) == Ok(b) && Carries(b, h) && b[OVERHEAD..] == body
  {
    hide PutInt, GetInt, PrintCovered, PrintBatch, Pow256, PutBE, GetBE;
    var b := PrintBatch(crc, h, body);
    PrintCarries(crc, h, body);
    FrontFields(crc, h, body);
    CoveredFields(h, body);
    Widths();
    IntRoundTrip(4, |body| + 49);
    IntRoundTrip(1, 2);
    BERoundTrip(4, crc(PrintCovered(h, body)));
    assert b[OVERHEAD..] == b[21..][40..];
  }

  // ---- stamping

  /** The broker's offset and leader epoch written over the producer's, and nothing else. */
  function Stamp(b: Bytes, baseOffset: int, leaderEpoch: int): (s: Bytes)
    requires |b| >= OVERHEAD
    ensures |s| == |b|
  {
    PutInt(8, baseOffset) + b[8..12] + PutInt(4, leaderEpoch) + b[16..]
  }

  lemma StampedBytes(b: Bytes, baseOffset: int, leaderEpoch: int)
    requires |b| >= OVERHEAD
    ensures var s := Stamp(b, baseOffset, leaderEpoch);
            && s[0..8] == PutInt(8, baseOffset) && s[8..12] == b[8..12] && s[12..16] == PutInt(4, leaderEpoch)
            && s[16..] == b[16..]
  {
  }

  lemma SameField(s: Bytes, b: Bytes, at: nat, n: nat)
    requires |s| == |b| && |b| >= 16 && s[16..] == b[16..] && 16 <= at && at + n <= |b|
    ensures Field(s, at, n) == Field(b, at, n)
  {
  }

  /** Stamping a validated batch leaves a validated batch: the same checksum over the same bytes,
      every other field as it was. */
  lemma StampKeepsCrc(crc: Checksum, b: Bytes, baseOffset: int, leaderEpoch: int)
    requires Validated(crc, b).Ok? && IsI64(baseOffset) && IsI32(leaderEpoch)
    ensures var s := Stamp(b, baseOffset, leaderEpoch);
            && Validated(crc, s) == Ok(s)
            && StoredCrc(s) == StoredCrc(b) && s[21..] == b[21..]
            && BaseOffset(s) == baseOffset && LeaderEpoch(s) == leaderEpoch
            && LastOffset(s) == baseOffset + LastOffsetDelta(b)
  {
    hide PutInt, GetInt, Pow256, Stamp;
    var s := Stamp(b, baseOffset, leaderEpoch);
    StampedBytes(b, baseOffset, leaderEpoch);
    Widths();
    IntRoundTrip(8, baseOffset);
    IntRoundTrip(4, leaderEpoch);
    SameField(s, b, 16, 1);
    SameField(s, b, 17, 4);
    SameField(s, b, 23, 4);
    SameField(s, b, 57, 4);
    SameField(s, b, 21, |b| - 21);
    assert s[21..] == Field(s, 21, |b| - 21) && b[21..] == Field(b, 21, |b| - 21);
  }
}
