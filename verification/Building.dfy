/** Building a batch of new records, and walking a blob of batches. */
module Building {
  import opened Common
  import opened Bytes
  import opened Records
  import opened RecordPrint
  import opened Batches
  import opened Rebuild

  datatype NewRecord = NewRecord(key: Option<Bytes>, value: Option<Bytes>, timestamp: int)

  // ---- building

  /** The records as a reader is to find them, the first at `base`. */
  function Placed(records: seq<NewRecord>, base: int): (kept: seq<Kept>)
    ensures |kept| == |records|
    ensures forall i | 0 <= i < |kept| :: kept[i] == Kept(base + i, records[i].timestamp, records[i].key, records[i].value, [], 0)
  {
    seq(|records|, i requires 0 <= i < |records| =>
      Kept(base + i, records[i].timestamp, records[i].key, records[i].value, [], 0))
  }

  function BuiltHeader(records: seq<NewRecord>, producerId: int, transactional: bool): BatchHeader
    requires records != []
  {
    BatchHeader(0, -1, if transactional then 16 else 0, AsI32(|records| - 1), records[0].timestamp, MaxTs(Placed(records, 0)),
                producerId, -1, -1, AsI32(|records|))
  }

  function Built(crc: Checksum, records: seq<NewRecord>, producerId: int, transactional: bool): Bytes
    requires records != []
  {
    PrintBatch(crc, BuiltHeader(records, producerId, transactional),
               PutRecords(ToRecs(Placed(records, 0), 0, records[0].timestamp)))
  }

  method BuildBatch(crc: Checksum, records: seq<NewRecord>, producerId: int, transactional: bool) returns (b: Bytes)
    requires records != []
    ensures b == Built(crc, records, producerId, transactional)
  {
    hide PutRecords, ToRecs, PrintBatch, MaxTs, AsI32;
    var kept := Placed(records, 0);
    var maxTs := LatestTimestamp(kept);
    var body := WriteRecords(kept, 0, records[0].timestamp);
    b := WriteBatch(crc, BatchHeader(0, -1, if transactional then 16 else 0, AsI32(|records| - 1), records[0].timestamp, maxTs,
                                     producerId, -1, -1, AsI32(|records|)), body);
  }

  /** Where a batch stands changes none of its bytes past the stamp. */
  lemma SameDeltas(records: seq<NewRecord>, base: int, ts: int)
    ensures ToRecs(Placed(records, base), base, ts) == ToRecs(Placed(records, 0), 0, ts)
  {
  }

  lemma BuiltFits(records: seq<NewRecord>, base: int, producerId: int, transactional: bool)
    requires records != [] && Rewritable(Placed(records, base)) && IsI64(producerId)
    ensures HeaderFits(BuiltHeader(records, producerId, transactional))
    ensures AsI32(|records|) == |records| && AsI32(|records| - 1) == |records| - 1
    ensures IsI32(|PutRecords(ToRecs(Placed(records, 0), 0, records[0].timestamp))| + 49)
  {
    hide PutRecords, MaxTs, Rewritable, AsI32, ToRecs, Encodable;
    var kept := Placed(records, base);
    KeptFits(kept);
    Fits32(|records|);
    Fits32(|records| - 1);
    SameDeltas(records, base, records[0].timestamp);
    SameTimes(records, base);
  }

  lemma Fits32(v: int)
    requires IsI32(v)
    ensures AsI32(v) == v
  {
  }

  lemma SameTimes(records: seq<NewRecord>, base: int)
    requires records != []
    ensures MaxTs(Placed(records, base)) == MaxTs(Placed(records, 0))
  {
  }

  /** A built batch, stamped wherever the log ends, validates and decodes to exactly its records at
      consecutive offsets from there. */
  lemma BuildPreserves(crc: Checksum, records: seq<NewRecord>, producerId: int, transactional: bool, base: int, epoch: int)
    requires records != [] && Rewritable(Placed(records, base)) && IsI64(producerId) && IsI32(epoch)
    ensures var b := Built(crc, records, producerId, transactional);
            var s := Stamp(b, base, epoch);
            && Validated(crc, b) == Ok(b) && Validated(crc, s) == Ok(s)
            && DecodeBatch(s) == Ok(Placed(records, base))
            && BaseOffset(s) == base && LastOffset(s) == base + |records| - 1
            && ProducerId(s) == producerId && IsTransactional(Attributes(s)) == transactional && !IsControl(Attributes(s))
  {
    hide Built, Placed, Rewritable, Validated, BaseOffset, LastOffset, ProducerId, Attributes, DecodeBatch, Stamp, IsTransactional, IsControl;
    BuiltStamps(crc, records, producerId, transactional, base, epoch);
    BuiltDecodes(crc, records, producerId, transactional, base, epoch);
  }

  /** Its own header fields and body. */
  lemma BuiltCarries(crc: Checksum, records: seq<NewRecord>, producerId: int, transactional: bool, base: int)
    requires records != [] && Rewritable(Placed(records, base)) && IsI64(producerId)
    ensures var b := Built(crc, records, producerId, transactional);
            && Validated(crc, b) == Ok(b)
            && Attributes(b) == (if transactional then 16 else 0) && LastOffsetDelta(b) == |records| - 1
            && BaseTimestamp(b) == records[0].timestamp && ProducerId(b) == producerId && RecordCount(b) == |records|
            && b[OVERHEAD..] == PutRecords(ToRecs(Placed(records, 0), 0, records[0].timestamp))
  {
    hide PutRecords, PrintBatch, MaxTs, AsI32, Rewritable, Validated, HeaderFits, ToRecs, Placed,
      BaseOffset, LeaderEpoch, Attributes, LastOffsetDelta, BaseTimestamp, MaxTimestamp, ProducerId, ProducerEpoch, BaseSequence, RecordCount;
    BuiltFits(records, base, producerId, transactional);
    PrintValidates(crc, BuiltHeader(records, producerId, transactional), PutRecords(ToRecs(Placed(records, 0), 0, records[0].timestamp)));
  }

  lemma FirstFits(records: seq<NewRecord>, base: int)
    requires records != [] && Rewritable(Placed(records, base))
    ensures IsI64(base)
  {
    hide PutRecords, ToRecs, Encodable;
    assert Placed(records, base)[0].offset == base;
  }

  lemma Flags()
    ensures IsTransactional(16) && !IsTransactional(0) && !IsControl(16) && !IsControl(0)
  {
  }

  lemma BuiltStamps(crc: Checksum, records: seq<NewRecord>, producerId: int, transactional: bool, base: int, epoch: int)
    requires records != [] && Rewritable(Placed(records, base)) && IsI64(producerId) && IsI32(epoch)
    ensures var b := Built(crc, records, producerId, transactional);
            var s := Stamp(b, base, epoch);
            && Validated(crc, b) == Ok(b) && Validated(crc, s) == Ok(s)
            && BaseOffset(s) == base && LastOffset(s) == base + |records| - 1
            && ProducerId(s) == producerId && IsTransactional(Attributes(s)) == transactional && !IsControl(Attributes(s))
  {
    hide Built, PutRecords, ToRecs, Rewritable, Placed, Validated, BaseOffset, LastOffset, LastOffsetDelta, LeaderEpoch, Attributes,
      BaseTimestamp, RecordCount, StoredCrc, ProducerId, Stamp, IsTransactional, IsControl;
    var b := Built(crc, records, producerId, transactional);
    BuiltCarries(crc, records, producerId, transactional, base);
    FirstFits(records, base);
    StampKeepsCrc(crc, b, base, epoch);
    StampLeaves(b, base, epoch);
    Flags();
  }

  lemma BuiltDecodes(crc: Checksum, records: seq<NewRecord>, producerId: int, transactional: bool, base: int, epoch: int)
    requires records != [] && Rewritable(Placed(records, base)) && IsI64(producerId) && IsI32(epoch)
    ensures DecodeBatch(Stamp(Built(crc, records, producerId, transactional), base, epoch)) == Ok(Placed(records, base))
  {
    hide Built, PutRecords, ToRecs, Rewritable, Validated, BaseOffset, LastOffset, LastOffsetDelta, LeaderEpoch, Attributes,
      BaseTimestamp, RecordCount, ProducerId, Stamp, DecodeBatch, IsTransactional, IsControl;
    var b := Built(crc, records, producerId, transactional);
    BuiltCarries(crc, records, producerId, transactional, base);
    BuiltStamps(crc, records, producerId, transactional, base, epoch);
    StampLeaves(b, base, epoch);
    SameDeltas(records, base, records[0].timestamp);
    RebuildDecodes(Stamp(b, base, epoch), Placed(records, base));
  }

  lemma StampLeaves(b: Bytes, base: int, epoch: int)
    requires |b| >= OVERHEAD
    ensures var s := Stamp(b, base, epoch);
            && Attributes(s) == Attributes(b) && BaseTimestamp(s) == BaseTimestamp(b) && RecordCount(s) == RecordCount(b)
            && ProducerId(s) == ProducerId(b) && LastOffsetDelta(s) == LastOffsetDelta(b) && s[OVERHEAD..] == b[OVERHEAD..]
  {
    hide GetInt, Field, Stamp;
    var s := Stamp(b, base, epoch);
    StampedBytes(b, base, epoch);
    SameField(s, b, 21, 2);
    SameField(s, b, 23, 4);
    SameField(s, b, 27, 8);
    SameField(s, b, 43, 8);
    SameField(s, b, 57, 4);
    assert s[OVERHEAD..] == s[16..][OVERHEAD - 16..] == b[OVERHEAD..];
  }

  // ---- walking a blob

  /** The next batch and what follows it; nothing follows a length that cannot be. */
  function NextBatch(buf: Bytes): (r: (Option<Parsed<Bytes>>, Bytes))
    ensures buf == [] <==> r.0.None?
    ensures buf != [] ==> |r.1| < |buf|
  {
    if buf == [] then (None, [])
    else if |buf| < 12 then (Some(Err(TooShort(|buf|))), [])
    else
      var total := GetInt(buf[8..12]) + 12;
      if total <= 0 || total > |buf| then (Some(Err(LengthMismatch(total, |buf|))), [])
      else (Some(View(buf[..total])), buf[total..])
  }

  function Walk(buf: Bytes): (items: seq<Parsed<Bytes>>)
    decreases |buf|
  {
    var r := NextBatch(buf);
    if r.0.None? then [] else [r.0.value] + Walk(r.1)
  }

  function Concat(batches: seq<Bytes>): Bytes {
    if batches == [] then [] else batches[0] + Concat(batches[1..])
  }

  class BatchIter {
    var buf: Bytes

    constructor (bytes: Bytes)
      ensures buf == bytes
    {
      buf := bytes;
    }

    method Next() returns (r: Option<Parsed<Bytes>>)
      modifies this
      ensures (r, buf) == NextBatch(old(buf))
    {
      hide GetInt, View;
      if buf == [] {
        return None;
      }
      if |buf| < 12 {
        var n := |buf|;
        buf := [];
        return Some(Err(TooShort(n)));
      }
      var declared := GetInt(buf[8..12]);
      var total := declared + 12;
      if total <= 0 || total > |buf| {
        var actual := |buf|;
        buf := [];
        return Some(Err(LengthMismatch(total, actual)));
      }
      var one := buf[..total];
      buf := buf[total..];
      return Some(View(one));
    }

    method Collect() returns (items: seq<Parsed<Bytes>>)
      modifies this
      ensures items == Walk(old(buf)) && buf == []
    {
      hide NextBatch;
      items := [];
      ghost var all := Walk(buf);
      assert items + all == all;
      var more := true;
      while more
        invariant more ==> all == items + Walk(buf)
        invariant !more ==> all == items && buf == []
        decreases more, |buf|
      {
        ghost var rest := Walk(buf);
        EndOfBlob(buf);
        var r := Next();
        if r.None? {
          more := false;
        } else {
          assert items + rest == items + [r.value] + Walk(buf);
          items := items + [r.value];
        }
      }
    }
  }

  lemma EndOfBlob(buf: Bytes)
    ensures NextBatch(buf).0.None? ==> NextBatch(buf).1 == [] && Walk(buf) == []
    ensures NextBatch(buf).0.Some? ==> Walk(buf) == [NextBatch(buf).0.value] + Walk(NextBatch(buf).1)
  {
  }

  /** A blob of whole batches gives each of them, in order. */
  lemma {:induction false} WalkReturns(batches: seq<Bytes>)
    requires forall b | b in batches :: View(b).Ok?
    ensures |Walk(Concat(batches))| == |batches| && forall i | 0 <= i < |batches| :: Walk(Concat(batches))[i] == Ok(batches[i])
  {
    hide View, NextBatch;
    if batches != [] {
      var b, rest := batches[0], Concat(batches[1..]);
      WalkReturns(batches[1..]);
      NextIs(b, rest);
    } else {
      EndOfBlob([]);
    }
  }

  lemma NextIs(b: Bytes, rest: Bytes)
    requires View(b).Ok?
    ensures NextBatch(b + rest) == (Some(Ok(b)), rest)
  {
    hide GetInt;
    var buf := b + rest;
    assert buf[8..12] == b[8..12];
    assert buf[..|b|] == b && buf[|b|..] == rest;
  }

  /** If nothing fails, the batches are the blob, byte for byte. */
  lemma {:induction false} WalkTiles(buf: Bytes)
    requires forall item | item in Walk(buf) :: item.Ok?
    ensures Concat(Values(Walk(buf))) == buf
    decreases |buf|
  {
    hide View, GetInt;
    if buf != [] {
      var r := NextBatch(buf);
      var items := Walk(buf);
      assert items[0] == r.0.value && items[0] in items && items[1..] == Walk(r.1);
      WalkTiles(r.1);
      var total := GetInt(buf[8..12]) + 12;
      assert buf == buf[..total] + buf[total..];
      assert r.0.value == View(buf[..total]);
      assert Values(items)[0] == buf[..total] && Values(items)[1..] == Values(items[1..]);
    }
  }

  function Values(items: seq<Parsed<Bytes>>): (bs: seq<Bytes>)
    requires forall item | item in items :: item.Ok?
    ensures |bs| == |items| && forall i | 0 <= i < |items| :: bs[i] == items[i].value
  {
    seq(|items|, i requires 0 <= i < |items| => assert items[i] in items; items[i].value)
  }
}
