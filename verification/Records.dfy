/** Record batches, magic 2: the batch header, and the records inside a batch read from a buffer
    or from a decompressing stream. */
module Records {
  import opened Common
  import opened Bytes

  datatype BatchError =
    | TooShort(length: nat)
    | UnsupportedMagic(magic: int)
    | CrcMismatch(stored: nat, computed: nat)
    | LengthMismatch(expected: int, actual: nat)
    | NegativeExtent(field: string, value: int)
    | TruncatedRecord(at: nat)
    | NegativeLength(field: string, value: int)
    | RecordSizeMismatch(declared: int, read: int)
    | RecordCountMismatch(promised: nat, found: nat)
    | Decompression(codec: int)
    | DecompressedTooLarge
    | Compressed(codec: int)

  type Parsed<T> = Result<T, BatchError>

  datatype Header = Header(name: Bytes, value: Option<Bytes>)

  datatype Rec = Rec(attributes: int, timestampDelta: int, offsetDelta: int,
                     key: Option<Bytes>, value: Option<Bytes>, headers: seq<Header>)

  const MAX_DECOMPRESSED_BYTES: nat := 64 * 1024 * 1024
  /** What one header costs in memory, beyond its bytes. */
  const HEADER_ENTRY: nat := 64

  /** A way of reading: buffered or streamed, and in full or
      for their keys only. */
  datatype Mode = Mode(streamed: bool, full: bool)

  // ---- fields

  function ReadLen(buf: Bytes, pos: nat, end: nat): (r: Parsed<(int, nat)>)
    ensures r.Ok? ==> pos < r.value.1 <= end && r.value.1 <= |buf| && IsI32(r.value.0)
  {
    var v := GetVar(buf, pos, end, 5);
    if v.None? then Err(TruncatedRecord(pos)) else Ok((Zag(v.value.0 % TWO32), v.value.1))
  }

  function ReadLong(buf: Bytes, pos: nat, end: nat, at: nat): (r: Parsed<(int, nat)>)
    ensures r.Ok? ==> pos < r.value.1 <= end && r.value.1 <= |buf|
  {
    var v := GetVar(buf, pos, end, 10);
    if v.None? then Err(TruncatedRecord(at)) else Ok((Zag(v.value.0 % TWO64), v.value.1))
  }

  /** The next `len` bytes. A stream skips them, and yields none, unless they are to be kept. */
  function ReadBytes(m: Mode, buf: Bytes, pos: nat, end: nat, len: nat, keep: bool): (r: Parsed<(Bytes, nat)>)
    ensures r.Ok? ==> r.value.1 == pos + len <= end && pos + len <= |buf|
  {
    if pos + len > end then Err(TruncatedRecord(pos))
    else if m.streamed && keep && len > MAX_DECOMPRESSED_BYTES then Err(DecompressedTooLarge)
    else if pos + len > |buf| then Err(TruncatedRecord(pos))
    else Ok((if m.streamed && !keep then [] else buf[pos..pos + len], pos + len))
  }

  /** An optional field; a negative length means there is none. */
  function ReadField(m: Mode, buf: Bytes, pos: nat, end: nat, keep: bool): (r: Parsed<(Option<Bytes>, nat)>)
    ensures r.Ok? ==> pos < r.value.1 <= end && r.value.1 <= |buf|
  {
    var (len, p) :- ReadLen(buf, pos, end);
    if len < 0 then Ok((None, p))
    else
      var (b, q) :- ReadBytes(m, buf, p, end, len, keep);
      Ok((Some(b), q))
  }

  function ReadHeader(m: Mode, buf: Bytes, pos: nat, end: nat, at: nat): (r: Parsed<(Header, nat)>)
    ensures r.Ok? ==> pos < r.value.1 <= end && r.value.1 <= |buf|
  {
    if pos >= end then Err(TruncatedRecord(at))
    else
      var (len, p) :- ReadLen(buf, pos, end);
      if len < 0 then Err(NegativeLength("header key length", len))
      else
        var (name, q) :- ReadBytes(m, buf, p, end, len, m.full);
        var (value, z) :- ReadField(m, buf, q, end, m.full);
        Ok((Header(name, value), z))
  }

  function ReadHeaders(m: Mode, buf: Bytes, pos: nat, end: nat, count: nat, at: nat): (r: Parsed<(seq<Header>, nat)>)
    ensures r.Ok? && pos <= |buf| && pos <= end ==> pos <= r.value.1 <= end && r.value.1 <= |buf|
    ensures r.Ok? ==> |r.value.0| == (if m.full then count else 0) && pos + 2 * count <= r.value.1
    decreases count
  {
    if count == 0 then Ok(([], pos))
    else
      var (h, p) :- ReadHeader(m, buf, pos, end, at);
      var (rest, q) :- ReadHeaders(m, buf, p, end, count - 1, at);
      Ok((if m.full then [h] + rest else [], q))
  }

  // ---- one record

  /** A record's declared extent: its length, and where its fields begin and end. */
  function ReadExtent(m: Mode, buf: Bytes, pos: nat): (r: Parsed<(int, nat, nat)>)
    ensures r.Ok? ==> 0 < r.value.0 && pos < r.value.1 <= |buf| && r.value.2 == r.value.1 + r.value.0
    ensures r.Ok? && !m.streamed ==> r.value.2 <= |buf|
  {
    var v := GetVar(buf, pos, |buf| + 1, 5);
    if v.None? then Err(TruncatedRecord(pos))
    else
      var (length, start) := (Zag(v.value.0 % TWO32), v.value.1);
      if length < 0 then Err(NegativeLength("record length", length))
      else if m.full && m.streamed && length > MAX_DECOMPRESSED_BYTES then Err(DecompressedTooLarge)
      else if !m.streamed && start + length > |buf| then Err(TruncatedRecord(pos))
      else if length == 0 then Err(TruncatedRecord(pos))
      else Ok((length, start, start + length))
  }

  function ReadCount(m: Mode, buf: Bytes, pos: nat, end: nat): (r: Parsed<(nat, nat)>)
    ensures r.Ok? ==> pos < r.value.1 <= end && r.value.1 <= |buf|
  {
    var (count, p) :- ReadLen(buf, pos, end);
    if count < 0 then Err(NegativeLength("header count", count))
    else if m.full && m.streamed && count * HEADER_ENTRY > MAX_DECOMPRESSED_BYTES then Err(DecompressedTooLarge)
    else Ok((count, p))
  }

  function SignedByte(b: Byte): int {
    if b < 128 then b else b - 256
  }

  /** The fields of a record whose extent is `start..end`, read at `pos` as a whole. */
  function ReadFields(m: Mode, buf: Bytes, at: nat, start: nat, end: nat): (r: Parsed<(Rec, nat)>)
    requires start < end
    ensures r.Ok? ==> r.value.1 == end <= |buf|
  {
    if start >= |buf| then Err(TruncatedRecord(at))
    else
      var (ts, p1) :- ReadLong(buf, start + 1, end, at);
      var off := GetVar(buf, p1, end, 5);
      if off.None? then Err(TruncatedRecord(at))
      else
        var (key, p2) :- ReadField(m, buf, off.value.1, end, true);
        var (value, p3) :- ReadField(m, buf, p2, end, m.full);
        var (count, p4) :- ReadCount(m, buf, p3, end);
        var (headers, p5) :- ReadHeaders(m, buf, p4, end, count, at);
        if p5 != end then Err(RecordSizeMismatch(end - start, p5 - start))
        else Ok((Rec(SignedByte(buf[start]), ts, Zag(off.value.0 % TWO32), key, value, headers), end))
  }

  function NextRecord(m: Mode, buf: Bytes, pos: nat): (r: Parsed<(Rec, nat)>)
    ensures r.Ok? ==> pos < r.value.1 <= |buf|
  {
    var (length, start, end) :- ReadExtent(m, buf, pos);
    ReadFields(m, buf, pos, start, end)
  }

  // ---- all records

  /** What iterating a batch yields: the records before the end or the first error. */
  datatype Yield = Yield(records: seq<Rec>, error: Option<BatchError>)

  function ReadAll(m: Mode, buf: Bytes, pos: nat, remaining: nat, declared: nat): (y: Yield)
    requires remaining <= declared
    ensures y.error.None? ==> |y.records| == remaining
    ensures |y.records| <= remaining
    decreases remaining
  {
    if pos >= |buf| then
      Yield([], if remaining == 0 then None else Some(RecordCountMismatch(declared, declared - remaining)))
    else if remaining == 0 then Yield([], Some(RecordCountMismatch(declared, declared + 1)))
    else
      var r := NextRecord(m, buf, pos);
      if r.Err? then Yield([], Some(r.error))
      else
        var rest := ReadAll(m, buf, r.value.1, remaining - 1, declared);
        Yield([r.value.0] + rest.records, rest.error)
  }

  /** The iterator: a position, a count down from the declared one, and whether it is spent. */
  class RecordIter {
    const mode: Mode
    const buf: Bytes
    const declared: nat
    var pos: nat
    var remaining: nat
    var done: bool

    constructor (mode: Mode, buf: Bytes, pos: nat, declared: nat)
      ensures this.mode == mode && this.buf == buf && this.declared == declared
      ensures this.pos == pos && remaining == declared && !done
    {
      this.mode := mode;
      this.buf := buf;
      this.declared := declared;
      this.pos := pos;
      remaining := declared;
      done := false;
    }

    /** What is still to come. */
    ghost function Rest(): Yield
      reads this
      requires remaining <= declared
    {
      if done then Yield([], None) else ReadAll(mode, buf, pos, remaining, declared)
    }

    method Next() returns (r: Option<Parsed<Rec>>)
      requires remaining <= declared
      modifies this
      ensures remaining <= declared
      ensures r.None? ==> done && old(Rest()) == Yield([], None)
      ensures r.Some? && r.value.Err? ==> done && old(Rest()) == Yield([], Some(r.value.error))
      ensures r.Some? && r.value.Ok? ==> old(Rest()).records == [r.value.value] + Rest().records
                                         && old(Rest()).error == Rest().error && remaining < old(remaining)
    {
      hide NextRecord;
      if done {
        return None;
      }
      if pos >= |buf| {
        done := true;
        if remaining != 0 {
          return Some(Err(RecordCountMismatch(declared, declared - remaining)));
        }
        return None;
      }
      if remaining == 0 {
        done := true;
        return Some(Err(RecordCountMismatch(declared, declared + 1)));
      }
      remaining := remaining - 1;
      var next := NextRecord(mode, buf, pos);
      match next
      case Ok((record, p)) =>
        pos := p;
        r := Some(Ok(record));
      case Err(e) =>
        done := true;
        r := Some(Err(e));
    }

    /** Draining the iterator yields exactly what the batch holds. */
    method Collect() returns (y: Yield)
      requires remaining <= declared
      modifies this
      ensures y == old(Rest())
    {
      hide NextRecord;
      var records := [];
      while true
        invariant remaining <= declared
        invariant old(Rest()).records == records + Rest().records && old(Rest()).error == Rest().error
        decreases remaining
      {
        var r := Next();
        match r {
          case None => return Yield(records, None);
          case Some(Err(e)) => return Yield(records, Some(e));
          case Some(Ok(record)) => records := records + [record];
        }
      }
    }
  }

  // ---- an error-free read

  /** `b` cuts the payload at every record's end: record `i` is read at `b[i]` and ends at
      `b[i + 1]`. */
  ghost predicate Tiles(m: Mode, buf: Bytes, pos: nat, records: seq<Rec>, b: seq<nat>) {
    && |b| == |records| + 1
    && b[0] == pos && b[|records|] == |buf|
    && forall i | 0 <= i < |records| :: NextRecord(m, buf, b[i]) == Ok((records[i], b[i + 1]))
  }

  /** A read without error yields the declared count, and its records' extents tile the payload. */
  lemma {:induction false} ErrorFreeTiles(m: Mode, buf: Bytes, pos: nat, remaining: nat, declared: nat) returns (b: seq<nat>)
    requires remaining <= declared && pos <= |buf|
    requires ReadAll(m, buf, pos, remaining, declared).error.None?
    ensures |ReadAll(m, buf, pos, remaining, declared).records| == remaining
    ensures Tiles(m, buf, pos, ReadAll(m, buf, pos, remaining, declared).records, b)
    decreases remaining
  {
    hide NextRecord;
    if pos >= |buf| {
      b := [pos];
    } else {
      var r := NextRecord(m, buf, pos);
      var rest := ErrorFreeTiles(m, buf, r.value.1, remaining - 1, declared);
      b := [pos] + rest;
    }
  }

  /** And conversely: whatever tiles the payload in the declared number is what is read. */
  lemma {:induction false} TilesAreRead(m: Mode, buf: Bytes, pos: nat, records: seq<Rec>, b: seq<nat>, declared: nat)
    requires Tiles(m, buf, pos, records, b) && |records| <= declared
    ensures ReadAll(m, buf, pos, |records|, declared) == Yield(records, None)
    decreases |records|
  {
    hide NextRecord;
    if records != [] {
      assert NextRecord(m, buf, b[0]) == Ok((records[0], b[1]));
      forall i | 0 <= i < |records[1..]| ensures NextRecord(m, buf, b[1..][i]) == Ok((records[1..][i], b[1..][i + 1])) {
        assert NextRecord(m, buf, b[i + 1]) == Ok((records[i + 1], b[i + 2]));
      }
      TilesAreRead(m, buf, b[1], records[1..], b[1..], declared);
      TilesAscend(m, buf, pos, records, b);
    }
  }

  lemma TilesAscend(m: Mode, buf: Bytes, pos: nat, records: seq<Rec>, b: seq<nat>)
    requires Tiles(m, buf, pos, records, b) && records != []
    ensures pos < |buf|
  {
    assert NextRecord(m, buf, b[0]) == Ok((records[0], b[1]));
  }

  // ---- stream against buffer, keys against full records

  const MEM := Mode(false, true)
  const STREAM := Mode(true, true)

  /** What a record costs a stream that holds it whole. */
  predicate WithinCaps(length: int, headers: nat) {
    length <= MAX_DECOMPRESSED_BYTES && headers * HEADER_ENTRY <= MAX_DECOMPRESSED_BYTES
  }

  /** What the record read at `pos` declares. */
  function LengthAt(buf: Bytes, pos: nat): int {
    var v := GetVar(buf, pos, |buf| + 1, 5);
    if v.None? then 0 else Zag(v.value.0 % TWO32)
  }

  lemma FieldAgrees(buf: Bytes, pos: nat, end: nat)
    requires end <= pos + MAX_DECOMPRESSED_BYTES
    ensures ReadField(STREAM, buf, pos, end, true) == ReadField(MEM, buf, pos, end, true)
  {
    hide ReadLen;
  }

  lemma HeaderAgrees(buf: Bytes, pos: nat, end: nat, at: nat)
    requires end <= pos + MAX_DECOMPRESSED_BYTES
    ensures ReadHeader(STREAM, buf, pos, end, at) == ReadHeader(MEM, buf, pos, end, at)
  {
    hide ReadLen, ReadField;
    var n := ReadLen(buf, pos, end);
    if n.Ok? && n.value.0 >= 0 {
      FieldAgrees(buf, n.value.1 + n.value.0, end);
    }
  }

  lemma {:induction false} HeadersAgree(buf: Bytes, pos: nat, end: nat, count: nat, at: nat)
    requires end <= pos + MAX_DECOMPRESSED_BYTES
    ensures ReadHeaders(STREAM, buf, pos, end, count, at) == ReadHeaders(MEM, buf, pos, end, count, at)
    decreases count
  {
    hide ReadHeader;
    if count > 0 {
      HeaderAgrees(buf, pos, end, at);
      var r := ReadHeader(MEM, buf, pos, end, at);
      if r.Ok? {
        HeadersAgree(buf, r.value.1, end, count - 1, at);
      }
    }
  }

  /** Inside an extent both sources reach, a stream reads what a buffer does, or finds more
      headers than it will hold. */
  lemma FieldsAgree(buf: Bytes, at: nat, start: nat, end: nat)
    requires start < end && end - start <= MAX_DECOMPRESSED_BYTES
    ensures var mem, str := ReadFields(MEM, buf, at, start, end), ReadFields(STREAM, buf, at, start, end);
            && (mem.Ok? ==> str == if WithinCaps(end - start, |mem.value.0.headers|) then mem else Err(DecompressedTooLarge))
            && (mem.Err? ==> str.Err?)
  {
    hide GetVar, ReadHeaders, ReadLong, ReadField, ReadLen;
    if start < |buf| {
      var ts := ReadLong(buf, start + 1, end, at);
      if ts.Ok? {
        var off := GetVar(buf, ts.value.1, end, 5);
        if off.Some? {
          FieldAgrees(buf, off.value.1, end);
          var key := ReadField(MEM, buf, off.value.1, end, true);
          if key.Ok? {
            FieldAgrees(buf, key.value.1, end);
            var value := ReadField(MEM, buf, key.value.1, end, true);
            if value.Ok? {
              var count := ReadCount(MEM, buf, value.value.1, end);
              if count.Ok? {
                HeadersAgree(buf, count.value.1, end, count.value.0, at);
              }
            }
          }
        }
      }
    }
  }

  /** Record by record: a stream yields what a buffer does, refuses a record over its caps, and
      fails wherever a buffer fails. */
  lemma RecordAgrees(buf: Bytes, pos: nat)
    ensures var mem, str := NextRecord(MEM, buf, pos), NextRecord(STREAM, buf, pos);
            && (mem.Ok? ==> str == if WithinCaps(LengthAt(buf, pos), |mem.value.0.headers|) then mem
                                   else Err(DecompressedTooLarge))
            && (mem.Err? ==> str.Err?)
  {
    hide ReadFields;
    var ext := ReadExtent(STREAM, buf, pos);
    if ext.Ok? {
      FieldsAgree(buf, pos, ext.value.1, ext.value.2);
    }
  }

  /** No record a buffer would yield is over a stream's caps. */
  ghost predicate InCaps(buf: Bytes, pos: nat, remaining: nat)
    decreases remaining
  {
    pos < |buf| && remaining > 0 ==>
      var r := NextRecord(MEM, buf, pos);
      r.Ok? ==> WithinCaps(LengthAt(buf, pos), |r.value.0.headers|) && InCaps(buf, r.value.1, remaining - 1)
  }

  /** Over a whole batch: within the caps a stream yields the same records and fails at the same
      record, if at all; over them it stops, at the first record that is over, with a prefix. */
  lemma {:induction false} StreamAgrees(buf: Bytes, pos: nat, remaining: nat, declared: nat)
    requires remaining <= declared
    ensures var mem, str := ReadAll(MEM, buf, pos, remaining, declared), ReadAll(STREAM, buf, pos, remaining, declared);
            && (InCaps(buf, pos, remaining) ==> str.records == mem.records && (str.error.None? <==> mem.error.None?))
            && (!InCaps(buf, pos, remaining) ==> str.records <= mem.records && |str.records| < |mem.records|
                                                 && str.error == Some(DecompressedTooLarge))
    decreases remaining
  {
    hide NextRecord, LengthAt;
    if pos < |buf| && remaining > 0 {
      RecordAgrees(buf, pos);
      var r := NextRecord(MEM, buf, pos);
      if r.Ok? {
        StreamAgrees(buf, r.value.1, remaining - 1, declared);
      }
    }
  }

  datatype RecordKey = RecordKey(offsetDelta: int, key: Option<Bytes>)

  function KeyOf(r: Rec): RecordKey {
    RecordKey(r.offsetDelta, r.key)
  }

  function KeysOf(records: seq<Rec>): (keys: seq<RecordKey>)
    ensures |keys| == |records|
    ensures forall i | 0 <= i < |records| :: keys[i] == KeyOf(records[i])
  {
    seq(|records|, i requires 0 <= i < |records| => KeyOf(records[i]))
  }

  function Full(streamed: bool): Mode { Mode(streamed, true) }
  function KeysOnly(streamed: bool): Mode { Mode(streamed, false) }

  /** Reading keys only accepts what a full read accepts and refuses what it refuses, except that
      it never finds a value or a header too large. */
  predicate KeyView<T, U>(full: Parsed<(T, nat)>, keys: Parsed<(U, nat)>) {
    && (full.Ok? ==> keys.Ok? && keys.value.1 == full.value.1)
    && (full.Err? && full.error != DecompressedTooLarge ==> keys == Err(full.error))
  }

  lemma FieldView(streamed: bool, buf: Bytes, pos: nat, end: nat)
    ensures KeyView(ReadField(Full(streamed), buf, pos, end, true), ReadField(KeysOnly(streamed), buf, pos, end, false))
    ensures ReadField(Full(streamed), buf, pos, end, true) == ReadField(KeysOnly(streamed), buf, pos, end, true)
  {
  }

  lemma HeaderView(streamed: bool, buf: Bytes, pos: nat, end: nat, at: nat)
    ensures KeyView(ReadHeader(Full(streamed), buf, pos, end, at), ReadHeader(KeysOnly(streamed), buf, pos, end, at))
  {
    hide GetVar, ReadField;
    if pos < end {
      var len := ReadLen(buf, pos, end);
      if len.Ok? && len.value.0 >= 0 {
        var name := ReadBytes(Full(streamed), buf, len.value.1, end, len.value.0, true);
        if name.Ok? {
          FieldView(streamed, buf, name.value.1, end);
        }
      }
    }
  }

  lemma {:induction false} HeadersView(streamed: bool, buf: Bytes, pos: nat, end: nat, count: nat, at: nat)
    ensures KeyView(ReadHeaders(Full(streamed), buf, pos, end, count, at), ReadHeaders(KeysOnly(streamed), buf, pos, end, count, at))
    decreases count
  {
    hide ReadHeader;
    if count > 0 {
      HeaderView(streamed, buf, pos, end, at);
      var h := ReadHeader(Full(streamed), buf, pos, end, at);
      if h.Ok? {
        HeadersView(streamed, buf, h.value.1, end, count - 1, at);
      }
    }
  }

  lemma FieldsView(streamed: bool, buf: Bytes, at: nat, start: nat, end: nat)
    requires start < end
    ensures var full, keys := ReadFields(Full(streamed), buf, at, start, end), ReadFields(KeysOnly(streamed), buf, at, start, end);
            KeyView(full, keys) && (full.Ok? ==> KeyOf(keys.value.0) == KeyOf(full.value.0))
  {
    hide GetVar, ReadHeaders, ReadField, ReadLen;
    if start < |buf| {
      var ts := ReadLong(buf, start + 1, end, at);
      if ts.Ok? {
        var off := GetVar(buf, ts.value.1, end, 5);
        if off.Some? {
          FieldView(streamed, buf, off.value.1, end);
          var key := ReadField(Full(streamed), buf, off.value.1, end, true);
          if key.Ok? {
            FieldView(streamed, buf, key.value.1, end);
            var value := ReadField(Full(streamed), buf, key.value.1, end, true);
            if value.Ok? {
              var count := ReadCount(Full(streamed), buf, value.value.1, end);
              if count.Ok? {
                HeadersView(streamed, buf, count.value.1, end, count.value.0, at);
              }
            }
          }
        }
      }
    }
  }

  lemma RecordView(streamed: bool, buf: Bytes, pos: nat)
    ensures var full, keys := NextRecord(Full(streamed), buf, pos), NextRecord(KeysOnly(streamed), buf, pos);
            KeyView(full, keys) && (full.Ok? ==> KeyOf(keys.value.0) == KeyOf(full.value.0))
  {
    hide ReadFields, GetVar;
    var ext := ReadExtent(Full(streamed), buf, pos);
    if ext.Ok? {
      FieldsView(streamed, buf, pos, ext.value.1, ext.value.2);
    }
  }

  /** Key-only iteration is the key projection of full iteration, errors and all, unless the full
      one stops at a record too large to hold. */
  lemma {:induction false} KeysProject(streamed: bool, buf: Bytes, pos: nat, remaining: nat, declared: nat)
    requires remaining <= declared
    ensures var full := ReadAll(Full(streamed), buf, pos, remaining, declared);
            var keys := ReadAll(KeysOnly(streamed), buf, pos, remaining, declared);
            && KeysOf(full.records) <= KeysOf(keys.records)
            && (full.error != Some(DecompressedTooLarge) ==>
                  KeysOf(keys.records) == KeysOf(full.records) && keys.error == full.error)
    decreases remaining
  {
    hide NextRecord;
    if pos < |buf| && remaining > 0 {
      RecordView(streamed, buf, pos);
      var r := NextRecord(Full(streamed), buf, pos);
      if r.Ok? {
        KeysProject(streamed, buf, r.value.1, remaining - 1, declared);
      }
    }
  }

  /** A buffer never finds anything too large. */
  lemma {:induction false} BufferHasNoCaps(buf: Bytes, pos: nat, remaining: nat, declared: nat)
    requires remaining <= declared
    ensures ReadAll(MEM, buf, pos, remaining, declared).error != Some(DecompressedTooLarge)
    decreases remaining
  {
    hide NextRecord;
    if pos < |buf| && remaining > 0 {
      RecordHasNoCaps(buf, pos);
      var r := NextRecord(MEM, buf, pos);
      if r.Ok? {
        BufferHasNoCaps(buf, r.value.1, remaining - 1, declared);
      }
    }
  }

  lemma RecordHasNoCaps(buf: Bytes, pos: nat)
    ensures NextRecord(MEM, buf, pos) != Err(DecompressedTooLarge)
  {
    hide ReadHeaders, GetVar;
    var ext := ReadExtent(MEM, buf, pos);
    if ext.Ok? {
      forall p: nat, n: nat ensures ReadHeaders(MEM, buf, p, ext.value.2, n, pos) != Err(DecompressedTooLarge) {
        HeadersHaveNoCaps(buf, p, ext.value.2, n, pos);
      }
    }
  }

  lemma HeaderHasNoCaps(buf: Bytes, pos: nat, end: nat, at: nat)
    ensures ReadHeader(MEM, buf, pos, end, at) != Err(DecompressedTooLarge)
  {
    hide GetVar;
  }

  lemma {:induction false} HeadersHaveNoCaps(buf: Bytes, pos: nat, end: nat, count: nat, at: nat)
    ensures ReadHeaders(MEM, buf, pos, end, count, at) != Err(DecompressedTooLarge)
    decreases count
  {
    hide ReadHeader;
    if count > 0 {
      HeaderHasNoCaps(buf, pos, end, at);
      var h := ReadHeader(MEM, buf, pos, end, at);
      if h.Ok? {
        HeadersHaveNoCaps(buf, h.value.1, end, count - 1, at);
      }
    }
  }
}
