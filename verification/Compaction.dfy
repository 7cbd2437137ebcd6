/** The cleaner: the whole-log survivor rule, the bounded fingerprint map, and the cleaning of one
    batch against it. */
module Compaction {
  import opened Common
  import opened Bytes
  import opened Records
  import opened Rebuild
  import opened CompactionLog

  /** A batch as the cleaner sees it: header fields, and the decompressed bytes its records start
      in at `start`. */
  datatype Batch = Batch(base: int, lastDelta: int, baseTs: int, control: bool, compressed: bool,
                         payload: Bytes, start: nat, count: nat)

  /** Decompressed whole, then read. */
  function Whole(b: Batch): Yield {
    if b.compressed && |b.payload| > MAX_DECOMPRESSED_BYTES then Yield([], Some(DecompressedTooLarge))
    else ReadAll(MEM, b.payload, b.start, b.count, b.count)
  }

  /** Decompressed as it is read. */
  function Streamed(b: Batch): Yield {
    ReadAll(Full(b.compressed), b.payload, b.start, b.count, b.count)
  }

  function StreamedKeys(b: Batch): Yield {
    ReadAll(KeysOnly(b.compressed), b.payload, b.start, b.count, b.count)
  }

  /** The last offset of a batch's extent. */
  function Reach(b: Batch): int {
    b.base + b.lastDelta
  }

  function Absolute(b: Batch, rs: seq<Rec>): seq<Kept> {
    FromRecs(rs, b.base, b.baseTs)
  }

  /** The records of a data batch; a control batch has none the cleaner looks at. */
  function Entries(b: Batch): seq<Kept> {
    if b.control then [] else Absolute(b, Whole(b).records)
  }

  /** A batch that reads without error and within the caps, its records inside its extent. */
  ghost predicate Readable(b: Batch) {
    b.control ||
    (&& Whole(b).error.None?
     && (b.compressed ==> InCaps(b.payload, b.start, b.count))
     && forall e | e in Entries(b) :: b.base <= e.offset <= Reach(b))
  }

  /** However it is read, a readable batch yields the same records. */
  lemma ReadsAgree(b: Batch)
    requires Readable(b) && !b.control
    ensures Streamed(b) == Whole(b)
    ensures StreamedKeys(b).error.None? && KeysOf(StreamedKeys(b).records) == KeysOf(Whole(b).records)
  {
    hide ReadAll;
    if b.compressed {
      StreamAgrees(b.payload, b.start, b.count, b.count);
    }
    KeysProject(b.compressed, b.payload, b.start, b.count, b.count);
  }

  // ---- the whole-log rule

  ghost function AllEntries(log: seq<Batch>): seq<Kept> {
    if log == [] then [] else AllEntries(log[..|log| - 1]) + Entries(log[|log| - 1])
  }

  datatype Last = Last(offset: int, tombstone: bool, timestamp: int)

  /** What has been seen so far: each key's last record, and the unkeyed offsets. */
  datatype Seen = Seen(latest: map<Bytes, Last>, unkeyed: set<int>)

  function Note(s: Seen, e: Kept): Seen {
    if e.key.None? then s.(unkeyed := s.unkeyed + {e.offset})
    else
      var k := e.key.value;
      if k in s.latest && e.offset <= s.latest[k].offset then s
      else s.(latest := s.latest[k := Last(e.offset, e.value.None?, e.timestamp)])
  }

  ghost predicate Witness(e: Kept, k: Bytes, l: Last) {
    e.key == Some(k) && l == Last(e.offset, e.value.None?, e.timestamp)
  }

  ghost predicate Tracks(s: Seen, done: seq<Kept>) {
    && (forall e | e in done && e.key.Some? :: e.key.value in s.latest && e.offset <= s.latest[e.key.value].offset)
    && (forall k | k in s.latest :: exists e | e in done :: Witness(e, k, s.latest[k]))
    && (forall o :: o in s.unkeyed <==> exists e | e in done :: e.key.None? && e.offset == o)
  }

  lemma TracksNothing()
    ensures Tracks(Seen(map[], {}), [])
  {
  }

  lemma NoteTracks(s: Seen, done: seq<Kept>, e: Kept)
    requires Tracks(s, done)
    ensures Tracks(Note(s, e), done + [e])
  {
    var s', done' := Note(s, e), done + [e];
    assert e in done';
    forall k | k in s'.latest ensures exists d | d in done' :: Witness(d, k, s'.latest[k]) {
      if k in s.latest && s'.latest[k] == s.latest[k] {
        var d :| d in done && Witness(d, k, s.latest[k]);
        assert d in done';
      } else {
        assert Witness(e, k, s'.latest[k]);
      }
    }
    forall o ensures o in s'.unkeyed <==> exists d | d in done' :: d.key.None? && d.offset == o {
      if d :| d in done && d.key.None? && d.offset == o {
        assert d in done';
      }
    }
  }

  /** The offsets kept of what was seen. */
  predicate LastStays(l: Last, cutoff: int) {
    !(l.tombstone && l.timestamp < cutoff)
  }

  function KeptOffsets(s: Seen, cutoff: int): set<int> {
    (set k | k in s.latest && LastStays(s.latest[k], cutoff) :: s.latest[k].offset) + s.unkeyed
  }

  lemma TrackedSurvive(s: Seen, log: seq<Kept>, cutoff: int)
    requires Tracks(s, log) && Distinct(log)
    ensures forall e | e in log :: e.offset in KeptOffsets(s, cutoff) <==> Survives(log, cutoff, e)
    ensures forall o | o in KeptOffsets(s, cutoff) :: exists e | e in log :: e.offset == o
  {
  }

  /** No offset is used twice. */
  ghost predicate Distinct(log: seq<Kept>) {
    forall a, b | a in log && b in log :: a.offset == b.offset ==> a == b
  }

  datatype Survivors = Survivors(offsets: set<int>, controlBatches: seq<int>, keys: nat)

  /** The base offsets of the control batches, in order. */
  function ControlBases(batches: seq<Batch>): seq<int> {
    if batches == [] then []
    else
      var n := |batches| - 1;
      ControlBases(batches[..n]) + if batches[n].control then [batches[n].base] else []
  }

  /** The keys of a log. */
  ghost function KeysIn(log: seq<Kept>): set<Bytes> {
    set e | e in log && e.key.Some? :: e.key.value
  }

  lemma TrackedKeys(s: Seen, log: seq<Kept>)
    requires Tracks(s, log)
    ensures s.latest.Keys == KeysIn(log) && |s.latest| == |KeysIn(log)|
  {
    forall k | k in s.latest ensures k in KeysIn(log) {
      var e :| e in log && Witness(e, k, s.latest[k]);
    }
    assert s.latest.Keys == KeysIn(log);
  }

  /** Reads every batch, remembering each key's last record. */
  method SurvivorsUntil(batches: seq<Batch>, cutoff: int) returns (r: Parsed<Survivors>)
    ensures (forall x | 0 <= x < |batches| :: batches[x].control || Whole(batches[x]).error.None?) ==> r.Ok?
    ensures r.Err? ==> exists x | 0 <= x < |batches| :: !batches[x].control && Whole(batches[x]).error == Some(r.error)
    ensures r.Ok? && Distinct(AllEntries(batches)) ==>
              && (forall e | e in AllEntries(batches) ::
                    e.offset in r.value.offsets <==> Survives(AllEntries(batches), cutoff, e))
              && (forall o | o in r.value.offsets :: exists e | e in AllEntries(batches) :: e.offset == o)
    ensures r.Ok? ==> r.value.controlBatches == ControlBases(batches) && r.value.keys == |KeysIn(AllEntries(batches))|
  {
    hide Whole, Tracks, KeptOffsets, Survives, Distinct, FromRecs, Note, KeysIn;
    var seen := Seen(map[], {});
    TracksNothing();
    var control := [];
    for i := 0 to |batches|
      invariant Tracks(seen, AllEntries(batches[..i]))
      invariant control == ControlBases(batches[..i])
    {
      assert batches[..i + 1][..i] == batches[..i];
      var b := batches[i];
      ghost var before := AllEntries(batches[..i]);
      assert AllEntries(batches[..i + 1]) == before + Entries(b);
      if b.control {
        assert before + [] == before;
        control := control + [b.base];
      } else {
        var y := Whole(b);
        var es := Absolute(b, y.records);
        assert before + es[..0] == before;
        for j := 0 to |es|
          invariant Tracks(seen, before + es[..j])
        {
          NoteTracks(seen, before + es[..j], es[j]);
          assert before + es[..j] + [es[j]] == before + es[..j + 1];
          seen := Note(seen, es[j]);
        }
        assert es[..|es|] == es;
        if y.error.Some? {
          return Err(y.error.value);
        }
      }
    }
    assert batches[..|batches|] == batches;
    TrackedKeys(seen, AllEntries(batches));
    if Distinct(AllEntries(batches)) {
      TrackedSurvive(seen, AllEntries(batches), cutoff);
    }
    return Ok(Survivors(KeptOffsets(seen, cutoff), control, |seen.latest|));
  }

  // ---- the bounded map

  /** What a map of fingerprints knows of the records it was shown. */
  ghost predicate MapOf(fp: Bytes -> nat, latest: map<nat, int>, seen: seq<Kept>) {
    && (forall e | e in seen && e.key.Some? :: fp(e.key.value) in latest && e.offset <= latest[fp(e.key.value)])
    && (forall h | h in latest :: exists e | e in seen :: e.key.Some? && fp(e.key.value) == h && e.offset == latest[h])
  }

  /** The larger offset wins. */
  function Raise(m: map<nat, int>, h: nat, offset: int): map<nat, int> {
    if h in m && m[h] >= offset then m else m[h := offset]
  }

  lemma RaiseMaps(fp: Bytes -> nat, m: map<nat, int>, seen: seq<Kept>, e: Kept)
    requires MapOf(fp, m, seen)
    ensures MapOf(fp, if e.key.Some? then Raise(m, fp(e.key.value), e.offset) else m, seen + [e])
  {
  }

  /** Two maps of two lists, merged, are a map of both. */
  function Merge(a: map<nat, int>, b: map<nat, int>): (m: map<nat, int>)
    ensures m.Keys == a.Keys + b.Keys
    ensures forall h | h in m :: m[h] == if h in a && (h !in b || a[h] >= b[h]) then a[h] else b[h]
  {
    map h | h in a.Keys + b.Keys :: if h in a && (h !in b || a[h] >= b[h]) then a[h] else b[h]
  }

  lemma MergeMaps(fp: Bytes -> nat, a: map<nat, int>, sa: seq<Kept>, b: map<nat, int>, sb: seq<Kept>)
    requires MapOf(fp, a, sa) && MapOf(fp, b, sb)
    ensures MapOf(fp, Merge(a, b), sa + sb)
  {
    var m := Merge(a, b);
    forall h | h in m ensures exists e | e in sa + sb :: e.key.Some? && fp(e.key.value) == h && e.offset == m[h] {
      if h in a && m[h] == a[h] {
        var e :| e in sa && e.key.Some? && fp(e.key.value) == h && e.offset == a[h];
        assert e in sa + sb;
      } else {
        var e :| e in sb && e.key.Some? && fp(e.key.value) == h && e.offset == b[h];
        assert e in sa + sb;
      }
    }
  }

  /** The distinct fingerprints of some records. */
  ghost function Prints(fp: Bytes -> nat, es: seq<Kept>): set<nat> {
    set e | e in es && e.key.Some? :: fp(e.key.value)
  }

  lemma MapPrints(fp: Bytes -> nat, m: map<nat, int>, es: seq<Kept>)
    requires MapOf(fp, m, es)
    ensures m.Keys == Prints(fp, es)
  {
  }

  lemma SubsetSize(a: set<nat>, b: set<nat>)
    requires a <= b
    ensures |a| <= |b|
  {
    if a != {} {
      var x :| x in a;
      SubsetSize(a - {x}, b - {x});
    }
  }

  /** The keyed view of a batch that the map is made from. */
  function KeyEntries(b: Batch): seq<Kept> {
    if b.control then [] else Absolute(b, StreamedKeys(b).records)
  }

  function Max(a: int, b: int): int {
    if a >= b then a else b
  }

  class OffsetMap {
    const fp: Bytes -> nat
    var latest: map<nat, int>
    /** How far the map reaches; records above it are none of its business. */
    var end: int
    ghost var seen: seq<Kept>

    ghost predicate Valid()
      reads this
    {
      MapOf(fp, latest, seen)
    }

    constructor (fp: Bytes -> nat)
      ensures Valid() && this.fp == fp && latest == map[] && end == -1 && seen == []
    {
      this.fp := fp;
      latest := map[];
      end := -1;
      seen := [];
    }

    /** Whether the records' keys fit beside those already mapped. */
    ghost predicate Fits(es: seq<Kept>, maxKeys: nat)
      reads this
    {
      latest == map[] || Prints(fp, es) == {} || |latest.Keys + Prints(fp, es)| <= maxKeys
    }

    /** The last offset of each key among `es`, deduplicated as it goes; `None` as soon as there
        are more keys than fit. */
    method Scan(es: seq<Kept>, maxKeys: nat) returns (r: Option<map<nat, int>>)
      ensures r.Some? <==> Fits(es, maxKeys)
      ensures r.Some? ==> MapOf(fp, r.value, es)
    {
      hide MapOf, Prints;
      var found: map<nat, int> := map[];
      EmptyMap(fp);
      for j := 0 to |es|
        invariant MapOf(fp, found, es[..j])
        invariant latest == map[] || found == map[] || |latest.Keys + found.Keys| <= maxKeys
      {
        RaiseMaps(fp, found, es[..j], es[j]);
        assert es[..j] + [es[j]] == es[..j + 1];
        if es[j].key.Some? {
          found := Raise(found, fp(es[j].key.value), es[j].offset);
          KeyCount(latest, found);
          if latest != map[] && |latest| + |found.Keys - latest.Keys| > maxKeys {
            PrintsGrow(fp, found, es, j + 1, latest.Keys);
            return None;
          }
        }
      }
      assert es[..|es|] == es;
      MapPrints(fp, found, es);
      return Some(found);
    }

    /** Adds every keyed record of a batch, or nothing: an unreadable batch is an error, and one
        that would take the map past `maxKeys` is refused, unless the map is empty. Keys are
        counted as they are read, so too many before the unreadable record is a refusal. */
    method AddBatch(b: Batch, maxKeys: nat) returns (r: Parsed<bool>)
      requires Valid()
      modifies this
      ensures Valid()
      ensures r.Ok? && r.value ==> seen == old(seen) + KeyEntries(b) && end == Max(old(end), Reach(b))
      ensures !(r.Ok? && r.value) ==> latest == old(latest) && end == old(end) && seen == old(seen)
      ensures r.Ok? && !r.value <==> !b.control && !old(Fits(KeyEntries(b), maxKeys))
      ensures r.Err? <==> !b.control && old(Fits(KeyEntries(b), maxKeys)) && StreamedKeys(b).error.Some?
      ensures r.Err? ==> StreamedKeys(b).error == Some(r.error)
    {
      hide StreamedKeys, MapOf, FromRecs, Prints;
      if b.control {
        end := Max(end, Reach(b));
        assert seen + [] == seen;
        return Ok(true);
      }
      var y := StreamedKeys(b);
      var es := Absolute(b, y.records);
      var found := Scan(es, maxKeys);
      if found.None? {
        return Ok(false);
      }
      if y.error.Some? {
        return Err(y.error.value);
      }
      MergeMaps(fp, latest, seen, found.value, es);
      latest := Merge(latest, found.value);
      seen := seen + es;
      end := Max(end, Reach(b));
      return Ok(true);
    }
  }

  lemma EmptyMap(fp: Bytes -> nat)
    ensures MapOf(fp, map[], [])
  {
  }

  lemma KeyCount(a: map<nat, int>, b: map<nat, int>)
    ensures |a| + |b.Keys - a.Keys| == |a.Keys + b.Keys|
  {
  }

  lemma PrintsGrow(fp: Bytes -> nat, found: map<nat, int>, es: seq<Kept>, n: nat, keys: set<nat>)
    requires n <= |es| && MapOf(fp, found, es[..n])
    ensures |keys + found.Keys| <= |keys + Prints(fp, es)|
    ensures found != map[] ==> Prints(fp, es) != {}
  {
    MapPrints(fp, found, es[..n]);
    assert found != map[] ==> found.Keys != {};
    forall h | h in found.Keys ensures h in Prints(fp, es) {
      var e :| e in es[..n] && e.key.Some? && fp(e.key.value) == h;
      assert e in es;
    }
    SubsetSize(keys + found.Keys, keys + Prints(fp, es));
  }

  // ---- cleaning one batch

  /** What a kept record costs in memory, beyond its bytes. */
  const KEPT_ENTRY: nat := 112

  function FieldLen(f: Option<Bytes>): nat {
    if f.Some? then |f.value| else 0
  }

  function HeaderBytes(hs: seq<Header>): nat {
    if hs == [] then 0
    else HeaderBytes(hs[..|hs| - 1]) + HEADER_ENTRY + |hs[|hs| - 1].name| + FieldLen(hs[|hs| - 1].value)
  }

  function HeldBytes(e: Kept): nat {
    KEPT_ENTRY + FieldLen(e.key) + FieldLen(e.value) + HeaderBytes(e.headers)
  }

  ghost function TotalHeld(es: seq<Kept>): nat {
    if es == [] then 0 else TotalHeld(es[..|es| - 1]) + HeldBytes(es[|es| - 1])
  }

  /** Whether a record outlives a pass with this map. */
  predicate Stays(fp: Bytes -> nat, latest: map<nat, int>, end: int, expired: int -> bool, e: Kept) {
    || e.offset > end
    || e.key.None?
    || (!(fp(e.key.value) in latest && latest[fp(e.key.value)] > e.offset) && !(e.value.None? && expired(e.offset)))
  }

  ghost function StayFn(fp: Bytes -> nat, latest: map<nat, int>, end: int, expired: int -> bool): Kept -> bool {
    e => Stays(fp, latest, end, expired, e)
  }

  /** The survivors of a batch, were there no size cap. */
  ghost function Left(b: Batch, fp: Bytes -> nat, latest: map<nat, int>, end: int, expired: int -> bool): seq<Kept> {
    Filter(StayFn(fp, latest, end, expired), Absolute(b, Streamed(b).records))
  }

  /** A compressed batch some of whose records, or whose survivors together, are too large to hold. */
  ghost predicate CapHit(b: Batch, left: seq<Kept>) {
    Streamed(b).error == Some(DecompressedTooLarge) || (b.compressed && TotalHeld(left) > MAX_DECOMPRESSED_BYTES)
  }

  lemma {:induction false} HeldGrows(fn: Kept -> bool, es: seq<Kept>, n: nat)
    requires n <= |es|
    ensures TotalHeld(Filter(fn, es[..n])) <= TotalHeld(Filter(fn, es))
    decreases |es| - n
  {
    if n < |es| {
      HeldGrows(fn, es, n + 1);
      assert es[..n + 1][..n] == es[..n];
      var a := Filter(fn, es[..n]);
      if fn(es[n]) {
        assert (a + [es[n]])[..|a|] == a;
      }
    } else {
      assert es[..n] == es;
    }
  }

  /** The records that stay, counting what they cost if the batch is compressed; `None` when that
      is too much. */
  method Sift(es: seq<Kept>, compressed: bool, m: OffsetMap, expired: int -> bool) returns (r: Option<seq<Kept>>)
    ensures var left := Filter(StayFn(m.fp, m.latest, m.end, expired), es);
            r == if compressed && TotalHeld(left) > MAX_DECOMPRESSED_BYTES then None else Some(left)
  {
    hide Stays, HeldBytes, Filter, TotalHeld, StayFn;
    StayMeans(m.fp, m.latest, m.end, expired);
    ghost var fn := StayFn(m.fp, m.latest, m.end, expired);
    NothingHeld(fn);
    var kept: seq<Kept>, keptBytes: nat := [], 0;
    for j := 0 to |es|
      invariant kept == Filter(fn, es[..j])
      invariant compressed ==> keptBytes == TotalHeld(kept) && keptBytes <= MAX_DECOMPRESSED_BYTES
    {
      FilterStep(fn, es, j);
      if Stays(m.fp, m.latest, m.end, expired, es[j]) {
        if compressed {
          HeldStep(kept, es[j]);
          keptBytes := keptBytes + HeldBytes(es[j]);
          if keptBytes > MAX_DECOMPRESSED_BYTES {
            HeldGrows(fn, es, j + 1);
            return None;
          }
        }
        kept := kept + [es[j]];
      }
    }
    assert es[..|es|] == es;
    return Some(kept);
  }

  lemma NothingHeld(fn: Kept -> bool)
    ensures Filter(fn, []) == [] && TotalHeld([]) == 0
  {
  }

  lemma HeldStep(kept: seq<Kept>, e: Kept)
    ensures TotalHeld(kept + [e]) == TotalHeld(kept) + HeldBytes(e)
  {
  }

  lemma StayMeans(fp: Bytes -> nat, latest: map<nat, int>, end: int, expired: int -> bool)
    ensures forall e :: StayFn(fp, latest, end, expired)(e) == Stays(fp, latest, end, expired, e)
  {
  }

  /** Cleans one batch; `None` leaves it whole: a control batch, a batch
      above the map, one over a size cap, or one the map supersedes nothing of. */
  method CleanBatch(b: Batch, m: OffsetMap, expired: int -> bool) returns (r: Parsed<Option<seq<Kept>>>)
    ensures var left := Left(b, m.fp, m.latest, m.end, expired);
            if b.control || b.base > m.end || CapHit(b, left) then r == Ok(None)
            else if Streamed(b).error.Some? then r == Err(Streamed(b).error.value)
            else r == Ok(if left == Absolute(b, Streamed(b).records) then None else Some(left))
  {
    hide Streamed, FromRecs, Stays, Filter, StayFn, TotalHeld;
    if b.control || b.base > m.end {
      return Ok(None);
    }
    var y := Streamed(b);
    var es := Absolute(b, y.records);
    var kept := Sift(es, b.compressed, m, expired);
    if kept.None? || y.error == Some(DecompressedTooLarge) {
      return Ok(None);
    }
    if y.error.Some? {
      return Err(y.error.value);
    }
    FilterShort(StayFn(m.fp, m.latest, m.end, expired), es);
    return Ok(if |kept.value| < |es| then Some(kept.value) else None);
  }

  // ---- the map against the log

  /** No two keys present share a fingerprint. */
  ghost predicate Sound(fp: Bytes -> nat, log: seq<Kept>) {
    forall a, b | a in log && b in log && a.key.Some? && b.key.Some? :: fp(a.key.value) == fp(b.key.value) ==> a.key == b.key
  }

  /** The same keys at the same offsets. */
  ghost predicate SameKeys(a: seq<Kept>, b: seq<Kept>) {
    |a| == |b| && forall i | 0 <= i < |a| :: a[i].key == b[i].key && a[i].offset == b[i].offset
  }

  lemma SameKeysSupersede(a: seq<Kept>, b: seq<Kept>, e: Kept)
    requires SameKeys(a, b)
    ensures Superseded(a, e) ==> Superseded(b, e)
  {
  }

  /** The keys a map was made from are keys of the log. */
  ghost predicate KeysFrom(seen: seq<Kept>, log: seq<Kept>) {
    forall m | m in seen :: exists l | l in log :: l.key == m.key
  }

  /** Looking a fingerprint up decides whether the mapped records supersede a record of the log. */
  lemma MapDecides(fp: Bytes -> nat, latest: map<nat, int>, end: int, expired: int -> bool,
                   seen: seq<Kept>, log: seq<Kept>, e: Kept)
    requires MapOf(fp, latest, seen) && KeysFrom(seen, log) && Sound(fp, log) && e in log
    ensures Stays(fp, latest, end, expired, e) <==> Keeps(seen, end, expired, e)
  {
  }

  /** With a map of the whole log, and tombstones going when older than the cutoff, cleaning a
      batch keeps exactly the records the whole-log rule keeps. */
  lemma CleanerAgrees(fp: Bytes -> nat, latest: map<nat, int>, end: int, expired: int -> bool,
                      seen: seq<Kept>, log: seq<Kept>, cutoff: int, e: Kept)
    requires MapOf(fp, latest, seen) && SameKeys(seen, log) && Sound(fp, log) && e in log
    requires forall l | l in log :: l.offset <= end && (expired(l.offset) <==> l.timestamp < cutoff)
    ensures Stays(fp, latest, end, expired, e) <==> Survives(log, cutoff, e)
  {
    SameKeysFrom(seen, log);
    MapDecides(fp, latest, end, expired, seen, log, e);
    SameKeysSupersede(seen, log, e);
    SameKeysSupersede(log, seen, e);
  }

  lemma SameKeysFrom(seen: seq<Kept>, log: seq<Kept>)
    requires SameKeys(seen, log)
    ensures KeysFrom(seen, log)
  {
  }

  // ---- a whole pass

  lemma {:induction false} EntryInLog(log: seq<Batch>, x: nat, e: Kept)
    requires x < |log| && e in Entries(log[x])
    ensures e in AllEntries(log)
  {
    hide Entries;
    if x < |log| - 1 {
      EntryInLog(log[..|log| - 1], x, e);
    }
  }

  lemma KeyEntriesMatch(b: Batch)
    requires Readable(b)
    ensures SameKeys(KeyEntries(b), Entries(b))
  {
    hide ReadAll;
    if !b.control {
      ReadsAgree(b);
      var ks, rs := StreamedKeys(b).records, Whole(b).records;
      forall i | 0 <= i < |ks| ensures KeyOf(ks[i]) == KeyOf(rs[i]) {
        assert KeysOf(ks)[i] == KeysOf(rs)[i];
      }
    }
  }

  /** Maps as many batches from the front as fit, the first always; stops at the first unreadable
      one. */
  method BuildMap(log: seq<Batch>, fp: Bytes -> nat, maxKeys: nat) returns (m: OffsetMap, n: nat, error: Option<BatchError>)
    ensures fresh(m) && m.Valid() && m.fp == fp && n <= |log|
    ensures error.None? && log != [] ==> n > 0
    ensures forall x | 0 <= x < n :: Reach(log[x]) <= m.end
    ensures (forall x | 0 <= x < |log| :: Readable(log[x])) ==>
              && error.None?
              && SameKeys(m.seen, AllEntries(log[..n]))
              && (forall e | e in AllEntries(log[..n]) :: e.offset <= m.end)
  {
    hide Readable, Entries, KeyEntries, StreamedKeys, MapOf, Prints;
    m := new OffsetMap(fp);
    n := 0;
    error := None;
    ghost var good := forall x | 0 <= x < |log| :: Readable(log[x]);
    while n < |log|
      invariant fresh(m) && m.Valid() && m.fp == fp && n <= |log|
      invariant error.None?
      invariant n == 0 ==> m.latest == map[]
      invariant forall x | 0 <= x < n :: Reach(log[x]) <= m.end
      invariant good ==> SameKeys(m.seen, AllEntries(log[..n]))
      invariant good ==> forall e | e in AllEntries(log[..n]) :: e.offset <= m.end
    {
      ghost var seen, end := m.seen, m.end;
      if good {
        KeysReadable(log[n]);
      }
      var added := m.AddBatch(log[n], maxKeys);
      if added.Err? {
        return m, n, Some(added.error);
      }
      if !added.value {
        return;
      }
      if good {
        MapGrows(log, n, seen, end);
      }
      n := n + 1;
    }
  }

  lemma KeysReadable(b: Batch)
    requires Readable(b)
    ensures b.control || StreamedKeys(b).error.None?
  {
    hide ReadAll;
    if !b.control {
      ReadsAgree(b);
    }
  }

  lemma InExtent(b: Batch, e: Kept)
    requires Readable(b) && e in Entries(b)
    ensures e.offset <= Reach(b)
  {
    hide ReadAll;
  }

  lemma MapGrows(log: seq<Batch>, n: nat, seen: seq<Kept>, end: int)
    requires n < |log| && Readable(log[n])
    requires SameKeys(seen, AllEntries(log[..n])) && forall e | e in AllEntries(log[..n]) :: e.offset <= end
    ensures SameKeys(seen + KeyEntries(log[n]), AllEntries(log[..n + 1]))
    ensures forall e | e in AllEntries(log[..n + 1]) :: e.offset <= Max(end, Reach(log[n]))
  {
    hide Entries, KeyEntries, Readable;
    assert log[..n + 1][..n] == log[..n];
    KeyEntriesMatch(log[n]);
    forall e | e in Entries(log[n])
      ensures e.offset <= Reach(log[n])
    {
      InExtent(log[n], e);
    }
  }

  /** What is left of a batch: the kept records, or all of them. */
  function Remains(b: Batch, cleaned: Option<seq<Kept>>): seq<Kept> {
    if cleaned.Some? then cleaned.value else Entries(b)
  }

  /** Cleaning a readable batch leaves what the pass keeps of it, or, over a cap, all of it. */
  lemma BatchCleaned(b: Batch, fp: Bytes -> nat, latest: map<nat, int>, end: int, expired: int -> bool,
                     seen: seq<Kept>, log: seq<Kept>, cleaned: Option<seq<Kept>>)
    requires Readable(b) && MapOf(fp, latest, seen) && KeysFrom(seen, log) && Sound(fp, log)
    requires forall e | e in Entries(b) :: e in log
    requires var left := Left(b, fp, latest, end, expired);
             cleaned == if b.control || b.base > end || CapHit(b, left) || left == Absolute(b, Streamed(b).records) then None
                        else Some(left)
    ensures (!b.control && b.base <= end && CapHit(b, Left(b, fp, latest, end, expired)) && Remains(b, cleaned) == Entries(b))
            || Remains(b, cleaned) == Pass(seen, end, expired, Entries(b))
  {
    hide ReadAll, MapOf, KeysFrom, Sound, Stays, TotalHeld;
    var es := Entries(b);
    var fn := KeepFn(seen, end, expired);
    if b.control {
      FilterAll(fn, es);
    } else {
      ReadsAgree(b);
      if b.base > end {
        FilterAll(fn, es);
      } else {
        forall e | e in es ensures StayFn(fp, latest, end, expired)(e) == fn(e) {
          MapDecides(fp, latest, end, expired, seen, log, e);
        }
        FilterSame(StayFn(fp, latest, end, expired), fn, es);
      }
    }
  }

  /** A map of any of a log's batches, used on any of them. */
  ghost predicate Usable(log: seq<Batch>, m: OffsetMap)
    reads m
  {
    (forall x | 0 <= x < |log| :: Readable(log[x])) && StandFor(m.seen, AllEntries(log)) && Sound(m.fp, AllEntries(log))
  }

  /** One pass over a log: each chosen batch in turn cleaned against the map, the rest left whole. */
  method CleanPass(log: seq<Batch>, m: OffsetMap, chosen: nat -> bool, expired: int -> bool) returns (r: Parsed<seq<Kept>>)
    requires m.Valid()
    ensures Usable(log, m) ==>
              && r.Ok?
              && (forall e | e in r.value :: e in AllEntries(log))
              && (forall e | e in AllEntries(log) && Keeps(m.seen, m.end, expired, e) :: e in r.value)
              && ((forall x | 0 <= x < |log| :: chosen(x) && !CapHit(log[x], Left(log[x], m.fp, m.latest, m.end, expired)))
                  ==> r.value == Pass(m.seen, m.end, expired, AllEntries(log)))
    ensures Usable(log, m) && (forall o :: !expired(o)) ==>
              && (forall e :: Latest(AllEntries(log), e) <==> Latest(r.value, e))
              && (forall e | e in AllEntries(log) && (e.key.None? || e.offset > m.end) :: e in r.value)
  {
    hide Readable, Entries, AllEntries, MapOf, Sound, Keeps, CapHit, Left, Latest, Pass, PassOf, StandFor, KeysFrom;
    ghost var good := Usable(log, m);
    ghost var exact := forall x | 0 <= x < |log| :: chosen(x) && !CapHit(log[x], Left(log[x], m.fp, m.latest, m.end, expired));
    var out: seq<Kept> := [];
    assert log[..0] == [];
    NothingPassed(m.seen, m.end, expired, exact);
    for i := 0 to |log|
      invariant good ==> PassOf(m.seen, m.end, expired, AllEntries(log[..i]), out, exact)
    {
      var left := Entries(log[i]);
      if chosen(i) {
        var c := CleanBatch(log[i], m, expired);
        if good {
          BatchReadable(log[i]);
        }
        if c.Err? {
          return Err(c.error);
        }
        left := Remains(log[i], c.value);
        if good {
          OneOfLog(log, i, m.seen, m.fp);
          BatchCleaned(log[i], m.fp, m.latest, m.end, expired, m.seen, AllEntries(log), c.value);
        }
      }
      if good {
        UpToNext(log, i);
        PassGrows(m.seen, m.end, expired, AllEntries(log[..i]), out, Entries(log[i]), left, exact);
      }
      out := out + left;
    }
    assert log[..|log|] == log;
    if good {
      PassedAll(m.seen, m.end, expired, AllEntries(log), out, exact);
    }
    if good && (forall o :: !expired(o)) {
      NoneExpire(m.seen, m.end, expired);
      PassPreserves(m.seen, m.end, AllEntries(log), out);
    }
    return Ok(out);
  }

  lemma NoneExpire(seen: seq<Kept>, end: int, expired: int -> bool)
    requires forall o :: !expired(o)
    ensures forall e :: Keeps(seen, end, expired, e) <==> Keeps(seen, end, NO_TOMBSTONES, e)
  {
  }

  /** A pass by a map of keys alone is the pass by the records they came from. */
  lemma PassByKeys(seen: seq<Kept>, es: seq<Kept>, end: int, expired: int -> bool, log: seq<Kept>)
    requires SameKeys(seen, es)
    ensures Pass(seen, end, expired, log) == Pass(es, end, expired, log)
  {
    forall e | e in log ensures Keeps(seen, end, expired, e) == Keeps(es, end, expired, e) {
      SameKeysSupersede(seen, es, e);
      SameKeysSupersede(es, seen, e);
    }
    FilterSame(KeepFn(seen, end, expired), KeepFn(es, end, expired), log);
  }

  lemma OneOfLog(log: seq<Batch>, i: nat, seen: seq<Kept>, fp: Bytes -> nat)
    requires i < |log| && StandFor(seen, AllEntries(log))
    ensures KeysFrom(seen, AllEntries(log)) && forall e | e in Entries(log[i]) :: e in AllEntries(log)
  {
    hide Entries;
    forall e | e in Entries(log[i]) ensures e in AllEntries(log) {
      EntryInLog(log, i, e);
    }
    forall m | m in seen ensures exists l | l in AllEntries(log) :: l.key == m.key {
      var l :| l in AllEntries(log) && l.key == m.key && l.offset == m.offset;
    }
  }

  lemma UpToNext(log: seq<Batch>, i: nat)
    requires i < |log|
    ensures AllEntries(log[..i + 1]) == AllEntries(log[..i]) + Entries(log[i])
  {
    hide Entries;
    assert log[..i + 1][..i] == log[..i];
  }

  lemma BatchReadable(b: Batch)
    requires Readable(b)
    ensures b.control || Streamed(b).error.None?
  {
    hide ReadAll;
    if !b.control {
      ReadsAgree(b);
    }
  }

  /** What a pass has left of the part of a log it has been over. */
  ghost predicate PassOf(seen: seq<Kept>, end: int, expired: int -> bool, log: seq<Kept>, left: seq<Kept>, exact: bool) {
    && (forall e | e in left :: e in log)
    && (forall e | e in log && Keeps(seen, end, expired, e) :: e in left)
    && (exact ==> left == Pass(seen, end, expired, log))
  }

  lemma NothingPassed(seen: seq<Kept>, end: int, expired: int -> bool, exact: bool)
    ensures PassOf(seen, end, expired, AllEntries([]), [], exact)
  {
  }

  lemma PassedAll(seen: seq<Kept>, end: int, expired: int -> bool, log: seq<Kept>, left: seq<Kept>, exact: bool)
    requires PassOf(seen, end, expired, log, left, exact)
    ensures forall e | e in left :: e in log
    ensures forall e | e in log && Keeps(seen, end, expired, e) :: e in left
    ensures exact ==> left == Pass(seen, end, expired, log)
  {
  }

  lemma PassGrows(seen: seq<Kept>, end: int, expired: int -> bool, log: seq<Kept>, left: seq<Kept>,
                  es: seq<Kept>, rest: seq<Kept>, exact: bool)
    requires PassOf(seen, end, expired, log, left, exact)
    requires rest == Pass(seen, end, expired, es) || (!exact && rest == es)
    ensures PassOf(seen, end, expired, log + es, left + rest, exact)
  {
    FilterAppend(KeepFn(seen, end, expired), log, es);
  }
}
