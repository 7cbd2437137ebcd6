/** Rewriting a batch to hold only the records a cleaning pass kept, at the offsets they had. */
module Rebuild {
  import opened Common
  import opened Bytes
  import opened Records
  import opened RecordPrint
  import opened Batches

  /** A surviving record, with absolute offset and timestamp. */
  datatype Kept = Kept(offset: int, timestamp: int, key: Option<Bytes>, value: Option<Bytes>,
                       headers: seq<Header>, attributes: int)

  /** Truncation to 32 bits. */
  function AsI32(v: int): int {
    var u := v % TWO32;
    if u >= 0x8000_0000 then u - TWO32 else u
  }

  function ToRec(k: Kept, base: int, baseTs: int): Rec {
    Rec(k.attributes, k.timestamp - baseTs, AsI32(k.offset - base), k.key, k.value, k.headers)
  }

  function FromRec(r: Rec, base: int, baseTs: int): Kept {
    Kept(base + r.offsetDelta, baseTs + r.timestampDelta, r.key, r.value, r.headers, r.attributes)
  }

  function ToRecs(kept: seq<Kept>, base: int, baseTs: int): (rs: seq<Rec>)
    ensures |rs| == |kept| && forall i | 0 <= i < |kept| :: rs[i] == ToRec(kept[i], base, baseTs)
  {
    seq(|kept|, i requires 0 <= i < |kept| => ToRec(kept[i], base, baseTs))
  }

  function FromRecs(rs: seq<Rec>, base: int, baseTs: int): (kept: seq<Kept>)
    ensures |rs| == |kept| && forall i | 0 <= i < |kept| :: kept[i] == FromRec(rs[i], base, baseTs)
  {
    seq(|rs|, i requires 0 <= i < |rs| => FromRec(rs[i], base, baseTs))
  }

  function MaxTs(kept: seq<Kept>): (m: int)
    requires kept != []
    ensures exists i | 0 <= i < |kept| :: kept[i].timestamp == m
    ensures forall i | 0 <= i < |kept| :: kept[i].timestamp <= m
  {
    var n := |kept| - 1;
    if n == 0 then kept[0].timestamp
    else
      var m := MaxTs(kept[..n]);
      if m >= kept[n].timestamp then
        ghost var i :| 0 <= i < n && kept[..n][i].timestamp == m;
        assert kept[i].timestamp == m;
        m
      else kept[n].timestamp
  }

  function NewHeader(source: Bytes, kept: seq<Kept>): BatchHeader
    requires |source| >= OVERHEAD && kept != []
  {
    BatchHeader(kept[0].offset, LeaderEpoch(source), Attributes(source) - Codec(Attributes(source)),
                AsI32(kept[|kept| - 1].offset - kept[0].offset), kept[0].timestamp, MaxTs(kept),
                ProducerId(source), ProducerEpoch(source), BaseSequence(source), |kept|)
  }

  /** What the rewritten batch is to be. */
  function Rewritten(crc: Checksum, source: Bytes, kept: seq<Kept>): Bytes
    requires |source| >= OVERHEAD && kept != []
  {
    PrintBatch(crc, NewHeader(source, kept), PutRecords(ToRecs(kept, kept[0].offset, kept[0].timestamp)))
  }

  // ---- the rewrite itself

  method WriteField(f: Option<Bytes>) returns (out: Bytes)
    ensures out == PutField(f)
  {
    if f.Some? {
      out := PutLen(|f.value|) + f.value;
    } else {
      out := PutLen(-1);
    }
  }

  lemma {:induction false} HeadersGrow(hs: seq<Header>, n: nat)
    requires n < |hs|
    ensures PutHeaders(hs[..n + 1]) == PutHeaders(hs[..n]) + PutHeader(hs[n])
  {
    hide PutHeader;
    if n == 0 {
      assert hs[..1] == [hs[0]] && hs[..0] == [];
      assert hs[..1][1..] == [];
    } else {
      HeadersGrow(hs[1..], n - 1);
      assert hs[..n + 1][1..] == hs[1..][..n] && hs[..n][1..] == hs[1..][..n - 1];
    }
  }

  method WriteRecord(k: Kept, base: int, baseTs: int) returns (out: Bytes)
    ensures out == PutRecord(ToRec(k, base, baseTs))
  {
    hide PutHeader, PutLen, PutField;
    ghost var r := ToRec(k, base, baseTs);
    var one := [ByteOf(k.attributes)] + PutLen(k.timestamp - baseTs) + PutLen(AsI32(k.offset - base));
    var key := WriteField(k.key);
    var value := WriteField(k.value);
    one := one + key + value + PutLen(|k.headers|);
    ghost var front := one;
    for i := 0 to |k.headers|
      invariant one == front + PutHeaders(k.headers[..i])
    {
      var h := k.headers[i];
      var hv := WriteField(h.value);
      HeadersGrow(k.headers, i);
      HeaderText(h);
      one := one + (PutLen(|h.name|) + h.name + hv);
    }
    assert k.headers[..|k.headers|] == k.headers;
    RecordText(r, front);
    out := PutLen(|one|) + one;
  }

  lemma HeaderText(h: Header)
    ensures PutHeader(h) == PutLen(|h.name|) + h.name + PutField(h.value)
  {
  }

  lemma RecordText(r: Rec, front: Bytes)
    requires front == [ByteOf(r.attributes)] + PutLen(r.timestampDelta) + PutLen(r.offsetDelta)
                      + PutField(r.key) + PutField(r.value) + PutLen(|r.headers|)
    ensures front + PutHeaders(r.headers) == PutFields(r)
  {
    hide PutLen, PutField, PutHeaders;
    var hs := PutHeaderList(r.headers);
    assert PutPayload(r) == PutField(r.key) + PutField(r.value) + PutLen(|r.headers|) + PutHeaders(r.headers);
    assert PutFields(r) == [ByteOf(r.attributes)] + PutLen(r.timestampDelta) + PutLen(r.offsetDelta) + PutPayload(r);
  }

  /** Writes the header with its length and checksum blank, then the body, then fills both in. */
  method WriteBatch(crc: Checksum, h: BatchHeader, body: Bytes) returns (b: Bytes)
    ensures b == PrintBatch(crc, h, body)
  {
    hide PutInt, PutBE;
    ghost var covered := PrintCovered(h, body);
    b := PutInt(8, h.baseOffset) + PutInt(4, 0) + PutInt(4, h.leaderEpoch) + PutInt(1, 2) + PutBE(4, 0)
         + PutInt(2, h.attributes) + PutInt(4, h.lastDelta) + PutInt(8, h.baseTimestamp) + PutInt(8, h.maxTimestamp)
         + PutInt(8, h.producerId) + PutInt(2, h.producerEpoch) + PutInt(4, h.baseSequence) + PutInt(4, h.count) + body;
    BlankBatch(h, body, b);
    b := b[..8] + PutInt(4, |b| - 12) + b[12..];
    PatchedLength(h, covered, b, |body|);
    var sum := crc(b[21..]);
    b := b[..17] + PutBE(4, sum) + b[21..];
  }

  lemma BlankBatch(h: BatchHeader, body: Bytes, b: Bytes)
    requires b == PutInt(8, h.baseOffset) + PutInt(4, 0) + PutInt(4, h.leaderEpoch) + PutInt(1, 2) + PutBE(4, 0)
                  + PutInt(2, h.attributes) + PutInt(4, h.lastDelta) + PutInt(8, h.baseTimestamp) + PutInt(8, h.maxTimestamp)
                  + PutInt(8, h.producerId) + PutInt(2, h.producerEpoch) + PutInt(4, h.baseSequence) + PutInt(4, h.count) + body
    ensures |b| == OVERHEAD + |body|
    ensures b == PutInt(8, h.baseOffset) + PutInt(4, 0)
                 + (PutInt(4, h.leaderEpoch) + PutInt(1, 2) + PutBE(4, 0) + PrintCovered(h, body))
  {
    hide PutInt, PutBE;
  }

  lemma PatchedLength(h: BatchHeader, covered: Bytes, b: Bytes, n: nat)
    requires var tail := PutInt(4, h.leaderEpoch) + PutInt(1, 2) + PutBE(4, 0) + covered;
             b == (PutInt(8, h.baseOffset) + PutInt(4, 0) + tail)[..8] + PutInt(4, n + 49)
                  + (PutInt(8, h.baseOffset) + PutInt(4, 0) + tail)[12..]
    ensures |b| >= 21 && b[21..] == covered
    ensures b[..17] == PutInt(8, h.baseOffset) + PutInt(4, n + 49) + PutInt(4, h.leaderEpoch) + PutInt(1, 2)
  {
    hide PutInt, PutBE;
    var base, length := PutInt(8, h.baseOffset), PutInt(4, 0);
    var tail := PutInt(4, h.leaderEpoch) + PutInt(1, 2) + PutBE(4, 0) + covered;
    assert (base + length + tail)[..8] == base && (base + length + tail)[12..] == tail;
  }

  method LatestTimestamp(kept: seq<Kept>) returns (m: int)
    requires kept != []
    ensures m == MaxTs(kept)
  {
    m := kept[0].timestamp;
    assert kept[..1] == [kept[0]];
    for i := 1 to |kept|
      invariant m == MaxTs(kept[..i])
    {
      assert kept[..i + 1][..i] == kept[..i];
      if kept[i].timestamp > m {
        m := kept[i].timestamp;
      }
    }
    assert kept[..|kept|] == kept;
  }

  method WriteRecords(kept: seq<Kept>, base: int, baseTs: int) returns (body: Bytes)
    ensures body == PutRecords(ToRecs(kept, base, baseTs))
  {
    hide PutRecord, ToRec;
    ghost var rs := ToRecs(kept, base, baseTs);
    body := [];
    for i := 0 to |kept|
      invariant body == PutRecords(rs[..i])
    {
      var one := WriteRecord(kept[i], base, baseTs);
      assert rs[..i + 1][..i] == rs[..i];
      body := body + one;
    }
    assert rs[..|kept|] == rs;
  }

  /** `None` when nothing was kept. */
  method RebuildBatch(crc: Checksum, source: Bytes, kept: seq<Kept>) returns (r: Option<Bytes>)
    requires |source| >= OVERHEAD
    ensures r == if kept == [] then None else Some(Rewritten(crc, source, kept))
  {
    hide PutRecords, ToRecs, PrintBatch, LeaderEpoch, Attributes, Codec, ProducerId, ProducerEpoch, BaseSequence, MaxTs;
    if kept == [] {
      return None;
    }
    var base, baseTs := kept[0].offset, kept[0].timestamp;
    var maxTs := LatestTimestamp(kept);
    var body := WriteRecords(kept, base, baseTs);
    var h := BatchHeader(base, LeaderEpoch(source), Attributes(source) - Codec(Attributes(source)),
                         AsI32(kept[|kept| - 1].offset - base), baseTs, maxTs,
                         ProducerId(source), ProducerEpoch(source), BaseSequence(source), |kept|);
    var b := WriteBatch(crc, h, body);
    return Some(b);
  }

  // ---- what it preserves

  /** In offset order, with every delta and length within its width. */
  ghost predicate Rewritable(kept: seq<Kept>) {
    && kept != [] && IsI32(|kept|)
    && (forall i | 0 <= i < |kept| ::
          && IsI64(kept[i].offset) && IsI64(kept[i].timestamp)
          && 0 <= kept[i].offset - kept[0].offset && IsI32(kept[i].offset - kept[0].offset)
          && Encodable(ToRec(kept[i], kept[0].offset, kept[0].timestamp)))
    && IsI32(|PutRecords(ToRecs(kept, kept[0].offset, kept[0].timestamp))| + 49)
  }

  /** The records of an uncompressed batch, absolute. */
  function DecodeBatch(b: Bytes): (r: Parsed<seq<Kept>>)
    requires |b| >= OVERHEAD
  {
    if Codec(Attributes(b)) != 0 then Err(Compressed(Codec(Attributes(b))))
    else if RecordCount(b) < 0 then Err(NegativeExtent("recordCount", RecordCount(b)))
    else
      var y := ReadAll(MEM, b, OVERHEAD, RecordCount(b), RecordCount(b));
      if y.error.Some? then Err(y.error.value)
      else Ok(FromRecs(y.records, BaseOffset(b), BaseTimestamp(b)))
  }

  lemma AttributesKept(a: int)
    requires IsI16(a)
    ensures var a' := a - Codec(a);
            IsI16(a') && Codec(a') == 0 && IsControl(a') == IsControl(a) && IsTransactional(a') == IsTransactional(a)
  {
    var q := a / 8;
    assert a == 8 * q + a % 8;
    assert a / 16 == q / 2 && (8 * q) / 16 == q / 2;
    assert a / 32 == q / 4 && (8 * q) / 32 == q / 4;
  }

  lemma SourceFits(source: Bytes)
    requires |source| >= OVERHEAD
    ensures IsI32(LeaderEpoch(source)) && IsI16(Attributes(source)) && IsI64(ProducerId(source))
    ensures IsI16(ProducerEpoch(source)) && IsI32(BaseSequence(source))
    ensures var a := Attributes(source);
            IsI16(a - Codec(a)) && Codec(a - Codec(a)) == 0 && IsControl(a - Codec(a)) == IsControl(a)
            && IsTransactional(a - Codec(a)) == IsTransactional(a)
  {
    hide GetInt;
    IntFits(Field(source, 12, 4));
    IntFits(Field(source, 21, 2));
    IntFits(Field(source, 43, 8));
    IntFits(Field(source, 51, 2));
    IntFits(Field(source, 53, 4));
    Widths();
    AttributesKept(Attributes(source));
  }

  lemma KeptFits(kept: seq<Kept>)
    requires Rewritable(kept)
    ensures kept != []
    ensures IsI64(kept[0].offset) && IsI64(kept[0].timestamp) && IsI64(MaxTs(kept)) && IsI32(|kept|)
    ensures var d := kept[|kept| - 1].offset - kept[0].offset;
            IsI32(d) && d >= 0 && AsI32(d) == d
    ensures forall i | 0 <= i < |kept| :: IsI32(kept[i].offset - kept[0].offset)
    ensures var rs := ToRecs(kept, kept[0].offset, kept[0].timestamp);
            (forall i | 0 <= i < |rs| :: Encodable(rs[i])) && IsI32(|PutRecords(rs)| + 49)
  {
    hide PutRecords, Encodable, MaxTs, ToRec;
    var i :| 0 <= i < |kept| && kept[i].timestamp == MaxTs(kept);
    assert IsI64(kept[i].timestamp);
    assert IsI32(kept[|kept| - 1].offset - kept[0].offset);
  }

  lemma HeaderIsFit(source: Bytes, kept: seq<Kept>)
    requires |source| >= OVERHEAD && Rewritable(kept)
    ensures HeaderFits(NewHeader(source, kept))
  {
    hide Rewritable, MaxTs, Field, GetInt, LeaderEpoch, Attributes, ProducerId, ProducerEpoch, BaseSequence, AsI32, Codec;
    SourceFits(source);
    KeptFits(kept);
  }

  /** What any bytes read as fits as many bytes. */
  lemma IntFits(b: Bytes)
    requires b != []
    ensures FitsInt(|b|, GetInt(b))
  {
    LeadingByte(b);
  }

  lemma {:induction false} LeadingByte(b: Bytes)
    requires b != []
    ensures 2 * GetBE(b) >= Pow256(|b|) <==> b[0] >= 128
  {
    var n := |b| - 1;
    if n > 0 {
      LeadingByte(b[..n]);
      assert Pow256(|b|) == 256 * Pow256(n);
      EvenPow(n);
    } else {
      assert b[..0] == [];
      assert Pow256(1) == 256 * Pow256(0);
    }
  }

  lemma EvenPow(n: nat)
    requires n > 0
    ensures Pow256(n) == 2 * (128 * Pow256(n - 1))
  {
  }

  /** The rewritten batch validates, keeps the producer's identity and the leader epoch, spans
      exactly from the first kept record to the last, and decodes to exactly the kept records:
      absolute offsets, timestamps, keys, values, headers and attributes. */
  lemma RebuildPreserves(crc: Checksum, source: Bytes, kept: seq<Kept>)
    requires |source| >= OVERHEAD && Rewritable(kept)
    ensures var b := Rewritten(crc, source, kept);
            && Validated(crc, b) == Ok(b)
            && DecodeBatch(b) == Ok(kept)
            && BaseOffset(b) == kept[0].offset && LastOffset(b) == kept[|kept| - 1].offset
            && MaxTimestamp(b) == MaxTs(kept)
            && LeaderEpoch(b) == LeaderEpoch(source) && ProducerId(b) == ProducerId(source)
            && ProducerEpoch(b) == ProducerEpoch(source) && BaseSequence(b) == BaseSequence(source)
            && IsControl(Attributes(b)) == IsControl(Attributes(source))
            && IsTransactional(Attributes(b)) == IsTransactional(Attributes(source))
  {
    hide PutRecords, Encodable, PrintBatch, Rewritable, MaxTs, AsI32, Validated, IsControl, IsTransactional,
      BaseOffset, Attributes, LeaderEpoch, BaseTimestamp, MaxTimestamp, ProducerId, ProducerEpoch, BaseSequence,
      RecordCount, LastOffsetDelta, DecodeBatch, Codec;
    KeptFits(kept);
    var h := NewHeader(source, kept);
    HeaderIsFit(source, kept);
    SourceFits(source);
    PrintValidates(crc, h, PutRecords(ToRecs(kept, kept[0].offset, kept[0].timestamp)));
    RebuildDecodes(Rewritten(crc, source, kept), kept);
  }

  lemma RebuildDecodes(b: Bytes, kept: seq<Kept>)
    requires |b| >= OVERHEAD && Rewritable(kept)
    requires BaseOffset(b) == kept[0].offset && BaseTimestamp(b) == kept[0].timestamp
    requires RecordCount(b) == |kept| && Codec(Attributes(b)) == 0
    requires b[OVERHEAD..] == PutRecords(ToRecs(kept, kept[0].offset, kept[0].timestamp))
    ensures DecodeBatch(b) == Ok(kept)
  {
    hide PutRecords, Encodable, ReadAll, Rewritable, BaseOffset, Attributes, BaseTimestamp, RecordCount, ToRec, Codec;
    KeptFits(kept);
    var base, baseTs := kept[0].offset, kept[0].timestamp;
    var rs := ToRecs(kept, base, baseTs);
    assert b[OVERHEAD..] == b[OVERHEAD..OVERHEAD + |PutRecords(rs)|];
    assert At(b, OVERHEAD, PutRecords(rs));
    BodyReads(rs, b, OVERHEAD);
    BackAgain(kept, base, baseTs);
  }

  lemma BackAgain(kept: seq<Kept>, base: int, baseTs: int)
    requires forall i | 0 <= i < |kept| :: IsI32(kept[i].offset - base)
    ensures FromRecs(ToRecs(kept, base, baseTs), base, baseTs) == kept
  {
  }
}
