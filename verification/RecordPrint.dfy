/** Writing records and batches, and what reading them back gives. */
module RecordPrint {
  import opened Common
  import opened Bytes
  import opened Records

  /** `b` stands at `pos`. */
  predicate At(buf: Bytes, pos: nat, b: Bytes) {
    pos + |b| <= |buf| && buf[pos..pos + |b|] == b
  }

  lemma AtSplit(buf: Bytes, pos: nat, a: Bytes, b: Bytes)
    requires At(buf, pos, a + b)
    ensures At(buf, pos, a) && At(buf, pos + |a|, b)
  {
    var w := buf[pos..pos + |a + b|];
    assert buf[pos..pos + |a|] == w[..|a|];
    assert buf[pos + |a|..pos + |a| + |b|] == w[|a|..];
  }

  // ---- fields

  function PutLen(v: int): Bytes {
    PutVar(Zig(v))
  }

  function PutField(f: Option<Bytes>): Bytes {
    if f.None? then PutLen(-1) else PutLen(|f.value|) + f.value
  }

  function PutHeader(h: Header): Bytes {
    PutLen(|h.name|) + h.name + PutField(h.value)
  }

  function PutHeaders(hs: seq<Header>): Bytes {
    if hs == [] then [] else PutHeader(hs[0]) + PutHeaders(hs[1..])
  }

  function PutHeaderList(hs: seq<Header>): Bytes {
    PutLen(|hs|) + PutHeaders(hs)
  }

  function PutPayload(r: Rec): Bytes {
    PutField(r.key) + (PutField(r.value) + PutHeaderList(r.headers))
  }

  function ByteOf(v: int): Byte {
    v % 256
  }

  function PutFields(r: Rec): Bytes {
    [ByteOf(r.attributes)] + (PutLen(r.timestampDelta) + (PutLen(r.offsetDelta) + PutPayload(r)))
  }

  function PutRecord(r: Rec): Bytes {
    PutLen(|PutFields(r)|) + PutFields(r)
  }

  function PutRecords(rs: seq<Rec>): Bytes {
    if rs == [] then [] else PutRecords(rs[..|rs| - 1]) + PutRecord(rs[|rs| - 1])
  }

  /** A record whose every number fits the width it is written in. */
  predicate Encodable(r: Rec) {
    && IsI8(r.attributes) && IsI64(r.timestampDelta) && IsI32(r.offsetDelta)
    && IsI32(|PutFields(r)|)
  }

  lemma ZagBack(v: int)
    ensures IsI32(v) ==> Zig(v) < TWO32 && Zag(Zig(v) % TWO32) == v
    ensures IsI64(v) ==> Zig(v) < TWO64 && Zag(Zig(v) % TWO64) == v
  {
    hide Zig, Zag;
    ZigFits(v);
    ZigZag(v);
  }

  lemma LenAt(v: int, buf: Bytes, pos: nat, end: nat)
    requires IsI32(v) && At(buf, pos, PutLen(v)) && pos + |PutLen(v)| <= end
    ensures GetVar(buf, pos, end, 5) == Some((Zig(v), pos + |PutLen(v)|))
    ensures Zag(Zig(v) % TWO32) == v
    ensures ReadLen(buf, pos, end) == Ok((v, pos + |PutLen(v)|))
  {
    hide PutVar, Pow128, GetVar, Zig, Zag;
    ZagBack(v);
    FiveGroups();
    VarLength(Zig(v), 5);
    VarRoundTrip(Zig(v), buf, pos, end, 5);
  }

  lemma TenGroups()
    ensures Pow128(10) >= TWO64
  {
  }

  lemma LongAt(v: int, buf: Bytes, pos: nat, end: nat, at: nat)
    requires IsI64(v) && At(buf, pos, PutLen(v)) && pos + |PutLen(v)| <= end
    ensures ReadLong(buf, pos, end, at) == Ok((v, pos + |PutLen(v)|))
  {
    hide PutVar, Pow128, GetVar, Zig, Zag;
    ZagBack(v);
    TenGroups();
    VarLength(Zig(v), 10);
    VarRoundTrip(Zig(v), buf, pos, end, 10);
  }

  lemma FieldAt(f: Option<Bytes>, buf: Bytes, pos: nat, end: nat)
    requires At(buf, pos, PutField(f)) && pos + |PutField(f)| <= end && IsI32(|PutField(f)|)
    ensures ReadField(MEM, buf, pos, end, true) == Ok((f, pos + |PutField(f)|))
  {
    hide PutVar, GetVar;
    if f.Some? {
      AtSplit(buf, pos, PutLen(|f.value|), f.value);
      LenAt(|f.value|, buf, pos, end);
    } else {
      LenAt(-1, buf, pos, end);
    }
  }

  lemma HeaderAt(h: Header, buf: Bytes, pos: nat, end: nat, at: nat)
    requires At(buf, pos, PutHeader(h)) && pos + |PutHeader(h)| <= end && IsI32(|PutHeader(h)|)
    ensures ReadHeader(MEM, buf, pos, end, at) == Ok((h, pos + |PutHeader(h)|))
  {
    hide PutVar, GetVar, ReadField;
    AtSplit(buf, pos, PutLen(|h.name|) + h.name, PutField(h.value));
    AtSplit(buf, pos, PutLen(|h.name|), h.name);
    LenAt(|h.name|, buf, pos, end);
    FieldAt(h.value, buf, pos + |PutLen(|h.name|)| + |h.name|, end);
  }

  lemma {:induction false} HeadersAt(hs: seq<Header>, buf: Bytes, pos: nat, end: nat, at: nat)
    requires At(buf, pos, PutHeaders(hs)) && pos + |PutHeaders(hs)| <= end && IsI32(|PutHeaders(hs)|)
    ensures ReadHeaders(MEM, buf, pos, end, |hs|, at) == Ok((hs, pos + |PutHeaders(hs)|))
  {
    hide PutHeader, ReadHeader;
    if hs != [] {
      AtSplit(buf, pos, PutHeader(hs[0]), PutHeaders(hs[1..]));
      HeaderAt(hs[0], buf, pos, end, at);
      HeadersAt(hs[1..], buf, pos + |PutHeader(hs[0])|, end, at);
      assert [hs[0]] + hs[1..] == hs;
    }
  }

  lemma {:induction false} HeaderCountFits(hs: seq<Header>)
    ensures |hs| <= |PutHeaders(hs)|
  {
    if hs != [] {
      HeaderCountFits(hs[1..]);
    }
  }

  lemma PayloadAt(r: Rec, buf: Bytes, pos: nat, end: nat, at: nat)
    requires At(buf, pos, PutPayload(r)) && pos + |PutPayload(r)| == end && IsI32(|PutPayload(r)|)
    ensures var p4 := pos + |PutField(r.key)|;
            var p5 := p4 + |PutField(r.value)|;
            var p6 := p5 + |PutLen(|r.headers|)|;
            && ReadField(MEM, buf, pos, end, true) == Ok((r.key, p4))
            && ReadField(MEM, buf, p4, end, true) == Ok((r.value, p5))
            && ReadCount(MEM, buf, p5, end) == Ok((|r.headers|, p6))
            && ReadHeaders(MEM, buf, p6, end, |r.headers|, at) == Ok((r.headers, end))
  {
    hide PutLen, PutField, GetVar, ReadField, ReadHeaders, PutHeaders, ReadLen;
    AtSplit(buf, pos, PutField(r.key), PutField(r.value) + PutHeaderList(r.headers));
    FieldAt(r.key, buf, pos, end);
    var p4 := pos + |PutField(r.key)|;
    AtSplit(buf, p4, PutField(r.value), PutHeaderList(r.headers));
    FieldAt(r.value, buf, p4, end);
    var p5 := p4 + |PutField(r.value)|;
    AtSplit(buf, p5, PutLen(|r.headers|), PutHeaders(r.headers));
    HeaderCountFits(r.headers);
    LenAt(|r.headers|, buf, p5, end);
    HeadersAt(r.headers, buf, p5 + |PutLen(|r.headers|)|, end, at);
  }

  /** A record's fields read back inside exactly their own extent. */
  lemma FieldsAt(r: Rec, buf: Bytes, at: nat, start: nat)
    requires Encodable(r) && At(buf, start, PutFields(r))
    ensures PutFields(r) != []
    ensures ReadFields(MEM, buf, at, start, start + |PutFields(r)|) == Ok((r, start + |PutFields(r)|))
  {
    hide PutLen, PutPayload, GetVar, ReadField, ReadHeaders, ReadLong, ReadLen, ReadCount, ByteOf, SignedByte, Zig, Zag, IsI8, IsI64;
    var end := start + |PutFields(r)|;
    FrontAt(r, buf, at, start);
    SignBack(r.attributes);
    var p3 := start + 1 + |PutLen(r.timestampDelta)| + |PutLen(r.offsetDelta)|;
    PayloadAt(r, buf, p3, end, at);
  }

  lemma SignBack(v: int)
    requires IsI8(v)
    ensures SignedByte(ByteOf(v)) == v
  {
  }

  /** The fields before the payload, and where it stands. */
  lemma FrontAt(r: Rec, buf: Bytes, at: nat, start: nat)
    requires Encodable(r) && At(buf, start, PutFields(r))
    ensures var end, p1 := start + |PutFields(r)|, start + 1;
            var p2 := p1 + |PutLen(r.timestampDelta)|;
            var p3 := p2 + |PutLen(r.offsetDelta)|;
            && end <= |buf| && p3 + |PutPayload(r)| == end
            && buf[start] == ByteOf(r.attributes)
            && ReadLong(buf, p1, end, at) == Ok((r.timestampDelta, p2))
            && GetVar(buf, p2, end, 5) == Some((Zig(r.offsetDelta), p3)) && Zag(Zig(r.offsetDelta) % TWO32) == r.offsetDelta
            && At(buf, p3, PutPayload(r))
  {
    hide PutLen, PutPayload, GetVar, ReadLong, ReadLen, ByteOf, Zig, Zag, At, IsI8;
    var end := start + |PutFields(r)|;
    FourAt(buf, start, ByteOf(r.attributes), PutLen(r.timestampDelta), PutLen(r.offsetDelta), PutPayload(r));
    var p1 := start + 1;
    LongAt(r.timestampDelta, buf, p1, end, at);
    LenAt(r.offsetDelta, buf, p1 + |PutLen(r.timestampDelta)|, end);
  }

  lemma FourAt(buf: Bytes, pos: nat, a: Byte, b: Bytes, c: Bytes, d: Bytes)
    requires At(buf, pos, [a] + (b + (c + d)))
    ensures pos + 1 + |b| + |c| + |d| <= |buf| && buf[pos] == a
    ensures At(buf, pos + 1, b) && At(buf, pos + 1 + |b|, c) && At(buf, pos + 1 + |b| + |c|, d)
  {
    AtSplit(buf, pos, [a], b + (c + d));
    assert buf[pos] == buf[pos..pos + 1][0] == a;
    AtSplit(buf, pos + 1, b, c + d);
    AtSplit(buf, pos + 1 + |b|, c, d);
  }

  lemma RecordAt(r: Rec, buf: Bytes, pos: nat)
    requires Encodable(r) && At(buf, pos, PutRecord(r))
    ensures NextRecord(MEM, buf, pos) == Ok((r, pos + |PutRecord(r)|))
  {
    hide PutLen, PutFields, ReadFields, GetVar;
    var n := |PutFields(r)|;
    AtSplit(buf, pos, PutLen(n), PutFields(r));
    LenAt(n, buf, pos, |buf| + 1);
    FieldsAt(r, buf, pos, pos + |PutLen(n)|);
  }

  /** Where each record of a body ends. */
  ghost function Ends(rs: seq<Rec>, pos: nat): (b: seq<nat>)
    ensures |b| == |rs| + 1 && forall i | 0 <= i <= |rs| :: b[i] == pos + |PutRecords(rs[..i])|
  {
    seq(|rs| + 1, i requires 0 <= i <= |rs| => pos + |PutRecords(rs[..i])|)
  }

  lemma RecordsStep(rs: seq<Rec>, i: nat)
    requires i < |rs|
    ensures PutRecords(rs[..i + 1]) == PutRecords(rs[..i]) + PutRecord(rs[i])
  {
    hide PutRecord;
    assert rs[..i + 1][..i] == rs[..i];
  }

  lemma {:induction false} PrefixAt(rs: seq<Rec>, i: nat, buf: Bytes, pos: nat)
    requires i <= |rs| && At(buf, pos, PutRecords(rs))
    ensures At(buf, pos, PutRecords(rs[..i]))
    decreases |rs| - i
  {
    hide PutRecord, PutRecords;
    if i == |rs| {
      assert rs[..i] == rs;
    } else {
      PrefixAt(rs, i + 1, buf, pos);
      RecordsStep(rs, i);
      AtSplit(buf, pos, PutRecords(rs[..i]), PutRecord(rs[i]));
    }
  }

  lemma BodyTiles(rs: seq<Rec>, buf: Bytes, pos: nat)
    requires forall i | 0 <= i < |rs| :: Encodable(rs[i])
    requires At(buf, pos, PutRecords(rs))
    ensures forall i | 0 <= i < |rs| :: NextRecord(MEM, buf, Ends(rs, pos)[i]) == Ok((rs[i], Ends(rs, pos)[i + 1]))
  {
    hide NextRecord, PutRecord, PutRecords, Encodable, At;
    forall i | 0 <= i < |rs| ensures NextRecord(MEM, buf, Ends(rs, pos)[i]) == Ok((rs[i], Ends(rs, pos)[i + 1])) {
      PrefixAt(rs, i + 1, buf, pos);
      RecordsStep(rs, i);
      AtSplit(buf, pos, PutRecords(rs[..i]), PutRecord(rs[i]));
      RecordAt(rs[i], buf, pos + |PutRecords(rs[..i])|);
    }
  }

  /** The records written to the end of a buffer are the records read from it. */
  lemma BodyReads(rs: seq<Rec>, buf: Bytes, pos: nat)
    requires forall i | 0 <= i < |rs| :: Encodable(rs[i])
    requires At(buf, pos, PutRecords(rs)) && pos + |PutRecords(rs)| == |buf|
    ensures ReadAll(MEM, buf, pos, |rs|, |rs|) == Yield(rs, None)
  {
    hide NextRecord, PutRecord, Encodable;
    BodyTiles(rs, buf, pos);
    assert rs[..|rs|] == rs && rs[..0] == [];
    assert Tiles(MEM, buf, pos, rs, Ends(rs, pos));
    TilesAreRead(MEM, buf, pos, rs, Ends(rs, pos), |rs|);
  }

  // ---- a record only a buffer can hold

  /** One more empty header than a stream will count the cost of. */
  const MANY: nat := 0x10_0001

  function Blank(n: nat): (hs: seq<Header>)
    ensures |hs| == n
  {
    seq(n, i => Header([], None))
  }

  lemma {:induction false} BlankSize(n: nat)
    ensures |PutHeaders(Blank(n))| == 2 * n
  {
    if n > 0 {
      assert Blank(n)[1..] == Blank(n - 1);
      assert |PutHeader(Header([], None))| == 2;
      BlankSize(n - 1);
    }
  }

  /** Two megabytes on the wire: a buffer reads it, a stream finds it too large. */
  lemma StreamRefuses()
    ensures var r := Rec(0, 0, 0, None, None, Blank(MANY));
            var buf := PutRecord(r);
            && Encodable(r)
            && NextRecord(MEM, buf, 0) == Ok((r, |buf|))
            && NextRecord(STREAM, buf, 0) == Err(DecompressedTooLarge)
  {
    hide Blank, PutHeaders, NextRecord, Pow128, PutRecord;
    var r := Rec(0, 0, 0, None, None, Blank(MANY));
    BlankSize(MANY);
    FiveGroups();
    VarLength(Zig(MANY), 5);
    assert |PutLen(0)| == 1 && |PutLen(-1)| == 1;
    assert |PutFields(r)| <= 10 + 2 * MANY;
    var buf := PutRecord(r);
    assert At(buf, 0, buf) by { assert buf[0..|buf|] == buf; }
    RecordAt(r, buf, 0);
    RecordAgrees(buf, 0);
  }
}
