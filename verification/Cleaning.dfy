/** The cleaner's pieces together: one pass against the whole-log rule, and a log of batches cleaned
    in as many bounded passes as it takes, each batch rewritten in bytes. */
module Cleaning {
  import opened Common
  import opened Bytes
  import opened Records
  import opened RecordPrint
  import opened Batches
  import opened Rebuild
  import opened CompactionLog
  import opened Compaction

  // ---- one pass with a map of the whole log

  ghost predicate AllReadable(log: seq<Batch>) {
    forall x | 0 <= x < |log| :: Readable(log[x])
  }

  /** What the two ways of compacting a log take for granted of it. */
  ghost predicate Comparable(log: seq<Batch>, fp: Bytes -> nat, cutoff: int, expired: int -> bool) {
    && AllReadable(log) && Distinct(AllEntries(log)) && Sound(fp, AllEntries(log))
    && forall e | e in AllEntries(log) :: expired(e.offset) <==> e.timestamp < cutoff
  }

  /** A map that took the whole log, and no cap hit: the cleaner keeps exactly the records whose
      offsets the whole-log rule keeps. */
  method CleanWhole(log: seq<Batch>, fp: Bytes -> nat, maxKeys: nat, cutoff: int, expired: int -> bool)
    returns (m: OffsetMap, n: nat, survivors: Parsed<Survivors>, kept: Parsed<seq<Kept>>)
    ensures n <= |log|
    ensures Comparable(log, fp, cutoff, expired) && n == |log|
            && (forall x | 0 <= x < |log| :: !CapHit(log[x], Left(log[x], m.fp, m.latest, m.end, expired))) ==>
              && survivors.Ok? && kept.Ok?
              && (forall e | e in kept.value :: e in AllEntries(log))
              && (forall e | e in AllEntries(log) :: e in kept.value <==> e.offset in survivors.value.offsets)
  {
    hide Readable, Survives, Keeps, CapHit, Left, Sound, Distinct;
    var error;
    m, n, error := BuildMap(log, fp, maxKeys);
    survivors := SurvivorsUntil(log, cutoff);
    ghost var all := AllEntries(log);
    assert n == |log| ==> log[..n] == log;
    if Comparable(log, fp, cutoff, expired) {
      forall x | 0 <= x < |log|
        ensures log[x].control || Whole(log[x]).error.None?
      {
        WholeReads(log[x]);
      }
      if n == |log| {
        StandsFor(m.seen, all);
      }
    }
    kept := CleanPass(log, m, x => true, expired);
    if Comparable(log, fp, cutoff, expired) && n == |log| {
      forall e | e in all
        ensures Keeps(m.seen, m.end, expired, e) <==> Survives(all, cutoff, e)
      {
        KeepsIsSurvives(m.seen, all, m.end, expired, cutoff, e);
      }
    }
  }

  lemma WholeReads(b: Batch)
    requires Readable(b)
    ensures b.control || Whole(b).error.None?
  {
    hide ReadAll;
  }

  lemma StandsFor(seen: seq<Kept>, log: seq<Kept>)
    requires SameKeys(seen, log)
    ensures StandFor(seen, log)
  {
    forall m | m in seen ensures exists l | l in log :: l.key == m.key && l.offset == m.offset {
      var i :| 0 <= i < |seen| && seen[i] == m;
      assert log[i] in log;
    }
  }

  lemma KeepsIsSurvives(seen: seq<Kept>, log: seq<Kept>, end: int, expired: int -> bool, cutoff: int, e: Kept)
    requires SameKeys(seen, log) && e in log && e.offset <= end && (expired(e.offset) <==> e.timestamp < cutoff)
    ensures Keeps(seen, end, expired, e) <==> Survives(log, cutoff, e)
  {
    hide Superseded;
    SameKeysSupersede(seen, log, e);
    SameKeysSupersede(log, seen, e);
  }

  // ---- batches in bytes

  /** A batch as the cleaner sees it; `inflate` is what its compression decodes to. */
  function ViewOf(b: Bytes, inflate: Bytes -> Bytes): Batch
    requires |b| >= OVERHEAD
  {
    var packed := Codec(Attributes(b)) != 0;
    var count := RecordCount(b);
    Batch(BaseOffset(b), LastOffsetDelta(b), BaseTimestamp(b), IsControl(Attributes(b)), packed,
          if packed then inflate(b[OVERHEAD..]) else b, if packed then 0 else OVERHEAD, if count >= 0 then count else 0)
  }

  predicate Framed(log: seq<Bytes>) {
    forall x | 0 <= x < |log| :: |log[x]| >= OVERHEAD
  }

  function Views(log: seq<Bytes>, inflate: Bytes -> Bytes): (vs: seq<Batch>)
    requires Framed(log)
    ensures |vs| == |log| && forall x | 0 <= x < |log| :: vs[x] == ViewOf(log[x], inflate)
  {
    seq(|log|, x requires 0 <= x < |log| => ViewOf(log[x], inflate))
  }

  /** However records are dropped from a batch, what is left fits the widths it is written in. */
  ghost predicate Shrinks(es: seq<Kept>) {
    forall keep: Kept -> bool :: Filter(keep, es) == [] || Rewritable(Filter(keep, es))
  }

  /** A batch the cleaner can rewrite: readable, in order, and within every cap. */
  ghost predicate Tidy(b: Batch) {
    && Readable(b) && Ascending(Entries(b)) && Shrinks(Entries(b))
    && (b.compressed ==> TotalHeld(Entries(b)) <= MAX_DECOMPRESSED_BYTES)
  }

  /** Extents follow one another. */
  ghost predicate InOrder(log: seq<Batch>) {
    forall i, j | 0 <= i < j < |log| :: Reach(log[i]) < log[j].base
  }

  ghost predicate TidyLog(log: seq<Batch>) {
    (forall x | 0 <= x < |log| :: Tidy(log[x]) && log[x].base <= Reach(log[x])) && InOrder(log)
  }

  // ---- rewriting one batch

  lemma ShrinksOn(es: seq<Kept>, keep: Kept -> bool)
    requires Shrinks(es)
    ensures Shrinks(Filter(keep, es))
  {
    hide Rewritable;
    forall again: Kept -> bool
      ensures Filter(again, Filter(keep, es)) == [] || Rewritable(Filter(again, Filter(keep, es)))
    {
      var both := Both(keep, again);
      FilterTwice(keep, again, both, es);
      assert Filter(both, es) == [] || Rewritable(Filter(both, es));
    }
  }

  ghost function Both(p: Kept -> bool, q: Kept -> bool): Kept -> bool {
    e => p(e) && q(e)
  }

  /** A rewritten batch holds exactly the kept records and lies inside the old extent. */
  lemma RewrittenView(crc: Checksum, source: Bytes, inflate: Bytes -> Bytes, keep: Kept -> bool)
    requires |source| >= OVERHEAD && Tidy(ViewOf(source, inflate)) && !ViewOf(source, inflate).control
    requires Filter(keep, Entries(ViewOf(source, inflate))) != []
    ensures var kept := Filter(keep, Entries(ViewOf(source, inflate)));
            var b := Rewritten(crc, source, kept);
            |b| >= OVERHEAD &&
            var old', new' := ViewOf(source, inflate), ViewOf(b, inflate);
            && Entries(new') == kept && Tidy(new') && !new'.control
            && old'.base <= new'.base <= Reach(new') && Reach(new') <= Reach(old')
  {
    hide Rewritable, Rewritten, Filter, ViewOf, Tidy, Entries, Whole, Reach, Ascending, Shrinks;
    var old' := ViewOf(source, inflate);
    var kept := Filter(keep, Entries(old'));
    KeptTidy(old', keep);
    RewrittenAs(crc, source, inflate, kept);
    RewrittenTidy(ViewOf(Rewritten(crc, source, kept), inflate), kept);
  }

  lemma KeptTidy(b: Batch, keep: Kept -> bool)
    requires Tidy(b) && !b.control && Filter(keep, Entries(b)) != []
    ensures var kept := Filter(keep, Entries(b));
            && Rewritable(kept) && Ascending(kept) && Shrinks(kept)
            && b.base <= kept[0].offset && kept[|kept| - 1].offset <= Reach(b)
  {
    hide Rewritable, Readable, Entries, Ascending, Shrinks, Filter, TotalHeld, Reach;
    KeptRewritable(Entries(b), keep);
    ShrinksOn(Entries(b), keep);
    FilterOrder(keep, Entries(b));
    KeptExtent(b, keep);
  }

  lemma RewrittenAs(crc: Checksum, source: Bytes, inflate: Bytes -> Bytes, kept: seq<Kept>)
    requires |source| >= OVERHEAD && Rewritable(kept) && !ViewOf(source, inflate).control
    ensures var b := Rewritten(crc, source, kept);
            |b| >= OVERHEAD &&
            var v := ViewOf(b, inflate);
            && !v.control && !v.compressed && Entries(v) == kept && Whole(v).error.None?
            && v.base == kept[0].offset && Reach(v) == kept[|kept| - 1].offset
  {
    hide Rewritable, Rewritten, Entries, Whole, DecodeBatch, Validated, ReadAll,
      BaseOffset, Attributes, BaseTimestamp, RecordCount, LastOffsetDelta, Codec, IsControl;
    RebuildPreserves(crc, source, kept);
    RewrittenPlain(crc, source, kept);
    RewrittenReads(Rewritten(crc, source, kept), inflate, kept);
  }

  lemma KeptRewritable(es: seq<Kept>, keep: Kept -> bool)
    requires Shrinks(es) && Filter(keep, es) != []
    ensures Rewritable(Filter(keep, es))
  {
    hide Rewritable;
  }

  lemma FilterOrder(keep: Kept -> bool, es: seq<Kept>)
    requires Ascending(es)
    ensures Ascending(Filter(keep, es))
  {
  }

  /** The first and last kept record lie inside the batch they came from. */
  lemma KeptExtent(b: Batch, keep: Kept -> bool)
    requires Readable(b) && !b.control && Filter(keep, Entries(b)) != []
    ensures var kept := Filter(keep, Entries(b));
            b.base <= kept[0].offset && kept[|kept| - 1].offset <= Reach(b)
  {
    hide Entries;
    var kept := Filter(keep, Entries(b));
    assert kept[0] in kept && kept[|kept| - 1] in kept;
    InReadable(b, kept[0]);
    InReadable(b, kept[|kept| - 1]);
  }

  lemma InReadable(b: Batch, e: Kept)
    requires Readable(b) && !b.control && e in Entries(b)
    ensures b.base <= e.offset <= Reach(b)
  {
    hide ReadAll;
  }

  lemma RewrittenPlain(crc: Checksum, source: Bytes, kept: seq<Kept>)
    requires |source| >= OVERHEAD && Rewritable(kept)
    ensures var b := Rewritten(crc, source, kept);
            |b| >= OVERHEAD && Codec(Attributes(b)) == 0 && RecordCount(b) == |kept| && LastOffsetDelta(b) == kept[|kept| - 1].offset - kept[0].offset
  {
    hide PutRecords, Encodable, PrintBatch, Rewritable, MaxTs, AsI32, Validated,
      BaseOffset, Attributes, LeaderEpoch, BaseTimestamp, MaxTimestamp, ProducerId, ProducerEpoch, BaseSequence,
      RecordCount, LastOffsetDelta, Codec;
    KeptFits(kept);
    HeaderIsFit(source, kept);
    SourceFits(source);
    PrintValidates(crc, NewHeader(source, kept), PutRecords(ToRecs(kept, kept[0].offset, kept[0].timestamp)));
  }

  lemma RewrittenReads(b: Bytes, inflate: Bytes -> Bytes, kept: seq<Kept>)
    requires |b| >= OVERHEAD && Codec(Attributes(b)) == 0 && RecordCount(b) == |kept| && DecodeBatch(b) == Ok(kept)
    ensures !IsControl(Attributes(b)) ==> Entries(ViewOf(b, inflate)) == kept && Whole(ViewOf(b, inflate)).error.None?
  {
    hide ReadAll, BaseOffset, Attributes, BaseTimestamp, RecordCount, LastOffsetDelta, Codec, IsControl;
  }

  lemma RewrittenTidy(b: Batch, kept: seq<Kept>)
    requires !b.control && !b.compressed && Entries(b) == kept && Whole(b).error.None?
    requires Ascending(kept) && kept != [] && Shrinks(kept) && b.base == kept[0].offset && Reach(b) == kept[|kept| - 1].offset
    ensures Tidy(b) && b.base <= Reach(b)
  {
    hide Whole, Entries, Shrinks;
    forall e | e in kept
      ensures b.base <= e.offset <= Reach(b)
    {
      var i :| 0 <= i < |kept| && kept[i] == e;
    }
    IsReadable(b);
  }

  lemma IsReadable(b: Batch)
    requires !b.compressed && Whole(b).error.None? && forall e | e in Entries(b) :: b.base <= e.offset <= Reach(b)
    ensures Readable(b)
  {
    hide Whole, Entries;
  }

  // ---- one bounded pass, in bytes

  lemma {:induction false} HeldShrinks(fn: Kept -> bool, es: seq<Kept>)
    ensures TotalHeld(Filter(fn, es)) <= TotalHeld(es)
  {
    hide HeldBytes, Ascending, Filter;
    NothingHeld(fn);
    if es != [] {
      var n := |es| - 1;
      HeldShrinks(fn, es[..n]);
      FilterEnd(fn, es);
      if fn(es[n]) {
        HeldStep(Filter(fn, es[..n]), es[n]);
      }
    }
  }

  lemma NoCapHit(b: Batch, fp: Bytes -> nat, latest: map<nat, int>, end: int, expired: int -> bool)
    requires Tidy(b) && !b.control
    ensures !CapHit(b, Left(b, fp, latest, end, expired))
  {
    hide ReadAll, Filter, TotalHeld, Shrinks, Ascending, StayFn;
    ReadsAgree(b);
    HeldShrinks(StayFn(fp, latest, end, expired), Entries(b));
  }

  /** What cleaning a tidy batch leaves is what the pass keeps of it. */
  lemma TidyCleaned(b: Batch, fp: Bytes -> nat, latest: map<nat, int>, end: int, never: int -> bool,
                    seen: seq<Kept>, log: seq<Kept>, cleaned: Option<seq<Kept>>)
    requires Tidy(b) && MapOf(fp, latest, seen) && StandFor(seen, log) && Sound(fp, log) && forall o :: !never(o)
    requires forall e | e in Entries(b) :: e in log
    requires var left := Left(b, fp, latest, end, never);
             cleaned == if b.control || b.base > end || CapHit(b, left) || left == Absolute(b, Streamed(b).records) then None
                        else Some(left)
    ensures Remains(b, cleaned) == Filter(KeepFn(seen, end, NO_TOMBSTONES), Entries(b))
    ensures cleaned.Some? ==> !b.control
  {
    hide MapOf, Sound, Entries, Left, Readable, Shrinks, Ascending, CapHit, TotalHeld, Streamed, FromRecs, Keeps;
    if !b.control {
      NoCapHit(b, fp, latest, end, never);
    }
    forall m | m in seen ensures exists l | l in log :: l.key == m.key {
      var l :| l in log && l.key == m.key && l.offset == m.offset;
    }
    assert KeysFrom(seen, log);
    BatchCleaned(b, fp, latest, end, never, seen, log, cleaned);
    NoneExpire(seen, end, never);
    FilterSame(KeepFn(seen, end, never), KeepFn(seen, end, NO_TOMBSTONES), Entries(b));
  }

  lemma OneMore(log: seq<Batch>, b: Batch)
    ensures AllEntries(log + [b]) == AllEntries(log) + Entries(b)
  {
    hide Entries;
    assert (log + [b])[..|log|] == log;
  }

  lemma TidyMore(log: seq<Batch>, b: Batch)
    requires TidyLog(log) && Tidy(b) && b.base <= Reach(b) && forall x | 0 <= x < |log| :: Reach(log[x]) < b.base
    ensures TidyLog(log + [b])
  {
    hide Tidy;
  }

  lemma ViewsMore(log: seq<Bytes>, b: Bytes, inflate: Bytes -> Bytes)
    requires Framed(log) && |b| >= OVERHEAD
    ensures Framed(log + [b]) && Views(log + [b], inflate) == Views(log, inflate) + [ViewOf(b, inflate)]
  {
    hide ViewOf;
  }

  lemma PassMore(seen: seq<Kept>, end: int, a: seq<Kept>, b: seq<Kept>)
    ensures Pass(seen, end, NO_TOMBSTONES, a + b)
         == Pass(seen, end, NO_TOMBSTONES, a) + Filter(KeepFn(seen, end, NO_TOMBSTONES), b)
  {
    FilterAppend(KeepFn(seen, end, NO_TOMBSTONES), a, b);
  }

  /** `out` is what a pass has made of the batches so far, all of it at or below `reach`. */
  ghost predicate Made(done: seq<Batch>, out: seq<Batch>, seen: seq<Kept>, end: int) {
    && TidyLog(out)
    && AllEntries(out) == Pass(seen, end, NO_TOMBSTONES, AllEntries(done))
    && (done == [] ==> out == [])
    && forall x | 0 <= x < |out| :: done != [] && Reach(out[x]) <= Reach(done[|done| - 1])
  }

  lemma MadeMore(done: seq<Batch>, out: seq<Batch>, seen: seq<Kept>, end: int, b: Batch, left: Option<Batch>)
    requires Made(done, out, seen, end) && TidyLog(done + [b])
    requires left.Some? ==> Tidy(left.value) && b.base <= left.value.base <= Reach(left.value) <= Reach(b)
    requires (if left.Some? then Entries(left.value) else []) == Filter(KeepFn(seen, end, NO_TOMBSTONES), Entries(b))
    ensures Made(done + [b], if left.Some? then out + [left.value] else out, seen, end)
  {
    hide Entries, Tidy, Pass, Filter, KeepFn, TidyLog, AllEntries;
    OneMore(done, b);
    PassMore(seen, end, AllEntries(done), Entries(b));
    LastReach(done, b);
    if left.Some? {
      OneMore(out, left.value);
      TidyMore(out, left.value);
    } else {
      assert AllEntries(out) + [] == AllEntries(out);
    }
  }

  lemma LastReach(done: seq<Batch>, b: Batch)
    requires TidyLog(done + [b])
    ensures (done + [b])[|done|] == b && b.base <= Reach(b)
    ensures done != [] ==> Reach(done[|done| - 1]) < b.base
  {
    hide Tidy;
    var all := done + [b];
    assert all[|done|] == b;
    if done != [] {
      assert all[|done| - 1] == done[|done| - 1];
    }
  }

  /** Cleans one batch and, when records go, rewrites it; `None` when none is left. */
  method CleanOne(crc: Checksum, b: Bytes, inflate: Bytes -> Bytes, m: OffsetMap, never: int -> bool, ghost log: seq<Kept>)
    returns (r: Parsed<Option<Bytes>>)
    requires m.Valid() && |b| >= OVERHEAD && forall o :: !never(o)
    ensures r.Ok? && r.value.Some? ==> |r.value.value| >= OVERHEAD
    ensures Tidy(ViewOf(b, inflate)) && ViewOf(b, inflate).base <= Reach(ViewOf(b, inflate))
            && StandFor(m.seen, log) && Sound(m.fp, log) && (forall e | e in Entries(ViewOf(b, inflate)) :: e in log) ==>
              && r.Ok?
              && (if r.value.Some? then Entries(ViewOf(r.value.value, inflate)) else [])
                 == Filter(KeepFn(m.seen, m.end, NO_TOMBSTONES), Entries(ViewOf(b, inflate)))
              && (r.value.Some? ==>
                    var old', new' := ViewOf(b, inflate), ViewOf(r.value.value, inflate);
                    Tidy(new') && old'.base <= new'.base <= Reach(new') <= Reach(old'))
  {
    hide Tidy, Entries, Filter, Left, CapHit, Streamed, FromRecs, MapOf, Sound, Rewritten, ViewOf, KeepFn;
    var view := ViewOf(b, inflate);
    var c := CleanBatch(view, m, never);
    ghost var good := Tidy(view) && view.base <= Reach(view) && StandFor(m.seen, log) && Sound(m.fp, log)
                      && (forall e | e in Entries(view) :: e in log);
    if good {
      TidyReads(view);
    }
    if c.Err? {
      return Err(c.error);
    }
    if good {
      TidyCleaned(view, m.fp, m.latest, m.end, never, m.seen, log, c.value);
    }
    if c.value.None? {
      return Ok(Some(b));
    }
    var kept := c.value.value;
    var rebuilt := RebuildBatch(crc, b, kept);
    if good && kept != [] {
      RewrittenView(crc, b, inflate, KeepFn(m.seen, m.end, NO_TOMBSTONES));
    }
    if rebuilt.Some? {
      RewrittenFramed(crc, b, kept);
    }
    return Ok(rebuilt);
  }

  lemma TidyReads(b: Batch)
    requires Tidy(b)
    ensures b.control || Streamed(b).error.None?
  {
    hide Streamed, Shrinks, Readable;
    BatchReadable(b);
  }

  lemma RewrittenFramed(crc: Checksum, source: Bytes, kept: seq<Kept>)
    requires |source| >= OVERHEAD && kept != []
    ensures |Rewritten(crc, source, kept)| >= OVERHEAD
  {
    hide PutRecords, NewHeader, PrintBatch;
  }

  /** A map of some of a log, used on all of it. */
  ghost predicate PassReady(log: seq<Batch>, m: OffsetMap)
    reads m
  {
    TidyLog(log) && StandFor(m.seen, AllEntries(log)) && Sound(m.fp, AllEntries(log))
  }

  method PassOver(crc: Checksum, log: seq<Bytes>, inflate: Bytes -> Bytes, m: OffsetMap) returns (r: Parsed<seq<Bytes>>)
    requires m.Valid() && Framed(log)
    ensures r.Ok? ==> Framed(r.value)
    ensures PassReady(Views(log, inflate), m) ==> r.Ok? && Made(Views(log, inflate), Views(r.value, inflate), m.seen, m.end)
  {
    hide TidyLog, Made, Tidy, Entries, Filter, Sound, ViewOf, KeepFn, MapOf;
    var never: int -> bool := o => false;
    var out: seq<Bytes> := [];
    ghost var views := Views(log, inflate);
    ghost var good := PassReady(views, m);
    NothingMade(m.seen, m.end);
    for i := 0 to |log|
      invariant Framed(out)
      invariant good ==> Made(views[..i], Views(out, inflate), m.seen, m.end)
    {
      ghost var all := AllEntries(views);
      ghost var view := ViewOf(log[i], inflate);
      if good {
        TidyAt(views, i);
        forall e | e in Entries(views[i]) ensures e in all {
          EntryInLog(views, i, e);
        }
      }
      var c := CleanOne(crc, log[i], inflate, m, never, all);
      if c.Err? {
        return Err(c.error);
      }
      if good {
        assert views[..i] + [views[i]] == views[..i + 1];
        TidyPrefix(views, i + 1);
        MadeMore(views[..i], Views(out, inflate), m.seen, m.end, view,
                 if c.value.Some? then Some(ViewOf(c.value.value, inflate)) else None);
      }
      if c.value.Some? {
        ViewsMore(out, c.value.value, inflate);
        out := out + [c.value.value];
      }
    }
    assert views[..|log|] == views;
    return Ok(out);
  }

  lemma NothingMade(seen: seq<Kept>, end: int)
    ensures Made([], [], seen, end)
  {
  }

  lemma TidyAt(log: seq<Batch>, i: nat)
    requires TidyLog(log) && i < |log|
    ensures Tidy(log[i]) && log[i].base <= Reach(log[i])
  {
    hide Tidy;
  }

  lemma TidyPrefix(log: seq<Batch>, n: nat)
    requires TidyLog(log) && n <= |log|
    ensures TidyLog(log[..n])
  {
    hide Tidy;
  }

  // ---- as many passes as it takes

  /** Every unkeyed record, and of each key the last. */
  ghost function Compacted(log: seq<Kept>): seq<Kept> {
    Filter(LastFn(log), log)
  }

  ghost function LastFn(log: seq<Kept>): Kept -> bool {
    (e: Kept) => e.key.None? || !Superseded(log, e)
  }

  /** Removing no tombstones, that is what one pass with a map of the whole log leaves, and what
      the whole-log rule keeps when no tombstone is old enough to go. */
  lemma CompactedIsPass(log: seq<Kept>, end: int, cutoff: int)
    requires forall e | e in log :: e.offset <= end && cutoff <= e.timestamp
    ensures Compacted(log) == Pass(log, end, NO_TOMBSTONES, log)
    ensures forall e :: e in Compacted(log) <==> Survives(log, cutoff, e)
  {
    hide Superseded;
    FilterSame(LastFn(log), KeepFn(log, end, NO_TOMBSTONES), log);
  }

  lemma SupersededEither(a: seq<Kept>, b: seq<Kept>, e: Kept)
    ensures Superseded(a + b, e) <==> Superseded(a, e) || Superseded(b, e)
  {
    var all := a + b;
    if Superseded(all, e) {
      var x :| 0 <= x < |all| && SameKey(all[x], e) && e.offset < all[x].offset;
      if x < |a| {
        assert a[x] == all[x];
      } else {
        assert b[x - |a|] == all[x];
      }
    }
    if Superseded(a, e) {
      var x :| 0 <= x < |a| && SameKey(a[x], e) && e.offset < a[x].offset;
      assert all[x] == a[x];
    }
    if Superseded(b, e) {
      var x :| 0 <= x < |b| && SameKey(b[x], e) && e.offset < b[x].offset;
      assert all[|a| + x] == b[x];
    }
  }

  lemma NotByEarlier(a: seq<Kept>, e: Kept)
    requires forall x | x in a :: x.offset < e.offset
    ensures !Superseded(a, e)
  {
    forall x | 0 <= x < |a|
      ensures !(e.offset < a[x].offset)
    {
      assert a[x] in a;
    }
  }

  /** A pass with a map of the next stretch carries compaction on to its end. */
  lemma PassCompacts(before: seq<Kept>, stretch: seq<Kept>, end: int)
    requires forall a, b | a in before && b in stretch :: a.offset < b.offset
    requires forall e | e in before || e in stretch :: e.offset <= end
    ensures Pass(stretch, end, NO_TOMBSTONES, Compacted(before) + stretch) == Compacted(before + stretch)
  {
    hide Superseded, Ascending;
    var all := before + stretch;
    var keep, last := KeepFn(stretch, end, NO_TOMBSTONES), LastFn(all);
    forall e | e in before ensures last(e) == (LastFn(before)(e) && keep(e)) {
      SupersededEither(before, stretch, e);
    }
    forall e | e in stretch ensures last(e) == keep(e) {
      SupersededEither(before, stretch, e);
      NotByEarlier(before, e);
    }
    FilterTwice(LastFn(before), keep, last, before);
    FilterSame(last, keep, stretch);
    FilterAppend(keep, Compacted(before), stretch);
    FilterAppend(last, before, stretch);
  }

  // ---- the batches behind them

  lemma {:induction false} EntriesSplit(a: seq<Batch>, b: seq<Batch>)
    ensures AllEntries(a + b) == AllEntries(a) + AllEntries(b)
    decreases |b|
  {
    hide Entries;
    if b == [] {
      assert a + b == a && AllEntries(a) + [] == AllEntries(a);
    } else {
      var n := |b| - 1;
      EntriesSplit(a, b[..n]);
      assert a + b == (a + b[..n]) + [b[n]] && b[..n] + [b[n]] == b;
      OneMore(a + b[..n], b[n]);
      OneMore(b[..n], b[n]);
    }
  }

  lemma {:induction false} EntryFrom(log: seq<Batch>, e: Kept) returns (x: nat)
    requires e in AllEntries(log)
    ensures x < |log| && e in Entries(log[x])
  {
    hide Entries;
    var n := |log| - 1;
    if e in Entries(log[n]) {
      x := n;
    } else {
      x := EntryFrom(log[..n], e);
    }
  }

  /** A record lies inside the extent of its batch. */
  lemma EntryExtent(log: seq<Batch>, e: Kept) returns (x: nat)
    requires TidyLog(log) && e in AllEntries(log)
    ensures x < |log| && log[x].base <= e.offset <= Reach(log[x])
  {
    hide Entries, Shrinks, TotalHeld, Ascending, Readable;
    x := EntryFrom(log, e);
    TidyAt(log, x);
    TidyExtent(log[x], e);
  }

  lemma TidyExtent(b: Batch, e: Kept)
    requires Tidy(b) && e in Entries(b)
    ensures b.base <= e.offset <= Reach(b)
  {
    hide Whole, Shrinks, TotalHeld, Ascending;
  }

  lemma StretchesOrdered(a: seq<Batch>, b: seq<Batch>)
    requires TidyLog(a) && TidyLog(b) && forall i, j | 0 <= i < |a| && 0 <= j < |b| :: Reach(a[i]) < b[j].base
    ensures forall x, y | x in AllEntries(a) && y in AllEntries(b) :: x.offset < y.offset
    ensures TidyLog(a + b)
  {
    hide Tidy, Entries;
    forall x, y | x in AllEntries(a) && y in AllEntries(b)
      ensures x.offset < y.offset
    {
      var i := EntryExtent(a, x);
      var j := EntryExtent(b, y);
    }
  }

  /** Where the passes have got to: `done` is the compacted form of the first `k` batches. */
  ghost predicate Reached(views: seq<Batch>, k: nat, done: seq<Batch>)
    requires k <= |views|
  {
    && TidyLog(done)
    && AllEntries(done) == Compacted(AllEntries(views[..k]))
    && forall x | 0 <= x < |done| :: k > 0 && Reach(done[x]) <= Reach(views[k - 1])
  }

  /** What a stretch's map may be used on: all that is done, and the stretch. */
  lemma PassStarts(views: seq<Batch>, k: nat, n: nat, done: seq<Batch>, seen: seq<Kept>, end: int, fp: Bytes -> nat)
    requires TidyLog(views) && k + n <= |views| && n > 0 && Reached(views, k, done) && Sound(fp, AllEntries(views))
    requires SameKeys(seen, AllEntries(views[k..k + n])) && (forall e | e in AllEntries(views[k..k + n]) :: e.offset <= end)
    requires Reach(views[k]) <= end
    ensures var part := done + views[k..k + n];
            && TidyLog(part) && StandFor(seen, AllEntries(part)) && Sound(fp, AllEntries(part))
    ensures Pass(seen, end, NO_TOMBSTONES, AllEntries(done + views[k..k + n])) == Compacted(AllEntries(views[..k + n]))
  {
    hide TidyLog, Compacted, Pass, Sound, Reached, SameKeys, StandFor, AllEntries;
    PartsOrdered(views, k, n, done);
    PartStands(views, k, n, done, seen);
    assert AllEntries(done) == Compacted(AllEntries(views[..k])) by { ReachedSo(views, k, done); }
    SoundPart(views, k, n, done, fp);
    var before, stretch := AllEntries(views[..k]), AllEntries(views[k..k + n]);
    EntriesSplit(done, views[k..k + n]);
    EntriesSplit(views[..k], views[k..k + n]);
    assert views[..k] + views[k..k + n] == views[..k + n];
    forall e | e in before ensures e.offset <= end {
      BeforeStretch(views, k, e);
    }
    PassByKeys(seen, stretch, end, NO_TOMBSTONES, AllEntries(done) + stretch);
    PassCompacts(before, stretch, end);
  }

  lemma ReachedSo(views: seq<Batch>, k: nat, done: seq<Batch>)
    requires k <= |views| && Reached(views, k, done)
    ensures AllEntries(done) == Compacted(AllEntries(views[..k]))
  {
    hide TidyLog, Compacted, AllEntries;
  }

  lemma PartsOrdered(views: seq<Batch>, k: nat, n: nat, done: seq<Batch>)
    requires TidyLog(views) && k + n <= |views| && Reached(views, k, done)
    ensures TidyLog(done + views[k..k + n])
    ensures forall x, y | x in AllEntries(views[..k]) && y in AllEntries(views[k..k + n]) :: x.offset < y.offset
  {
    hide Tidy, AllEntries, Compacted;
    var a, b := views[..k], views[k..k + n];
    TidyPrefix(views, k);
    TidyMiddle(views, k, n);
    forall i, j | 0 <= i < |a| && 0 <= j < |b| ensures Reach(a[i]) < b[j].base {
      assert a[i] == views[i] && b[j] == views[k + j];
    }
    forall i, j | 0 <= i < |done| && 0 <= j < |b| ensures Reach(done[i]) < b[j].base {
      assert b[j] == views[k + j];
    }
    StretchesOrdered(done, b);
    StretchesOrdered(a, b);
  }

  lemma PartStands(views: seq<Batch>, k: nat, n: nat, done: seq<Batch>, seen: seq<Kept>)
    requires k + n <= |views| && SameKeys(seen, AllEntries(views[k..k + n]))
    ensures StandFor(seen, AllEntries(done + views[k..k + n]))
  {
    hide AllEntries, SameKeys;
    var stretch, all := AllEntries(views[k..k + n]), AllEntries(done + views[k..k + n]);
    EntriesSplit(done, views[k..k + n]);
    StandsFor(seen, stretch);
    forall m | m in seen ensures exists l | l in all :: l.key == m.key && l.offset == m.offset {
      var l :| l in stretch && l.key == m.key && l.offset == m.offset;
      assert l in all;
    }
  }

  lemma BeforeStretch(views: seq<Batch>, k: nat, e: Kept)
    requires TidyLog(views) && k < |views| && e in AllEntries(views[..k])
    ensures e.offset <= Reach(views[k])
  {
    hide Tidy, AllEntries;
    TidyPrefix(views, k);
    var x := EntryExtent(views[..k], e);
    assert views[..k][x] == views[x] && Reach(views[x]) < views[k].base <= Reach(views[k]);
  }

  lemma TidyMiddle(views: seq<Batch>, k: nat, n: nat)
    requires TidyLog(views) && k + n <= |views|
    ensures TidyLog(views[k..k + n])
  {
    hide Tidy;
    var b := views[k..k + n];
    forall i, j | 0 <= i < j < |b| ensures Reach(b[i]) < b[j].base {
      assert b[i] == views[k + i] && b[j] == views[k + j];
    }
  }

  lemma SoundPart(views: seq<Batch>, k: nat, n: nat, done: seq<Batch>, fp: Bytes -> nat)
    requires k + n <= |views| && Sound(fp, AllEntries(views)) && AllEntries(done) == Compacted(AllEntries(views[..k]))
    ensures Sound(fp, AllEntries(done + views[k..k + n]))
  {
    hide Entries, AllEntries, Sound;
    forall e | e in AllEntries(done + views[k..k + n]) ensures e in AllEntries(views) {
      StillInLog(views, k, n, done, e);
    }
    SoundFewer(fp, AllEntries(views), AllEntries(done + views[k..k + n]));
  }

  lemma SoundFewer(fp: Bytes -> nat, all: seq<Kept>, some: seq<Kept>)
    requires Sound(fp, all) && forall e | e in some :: e in all
    ensures Sound(fp, some)
  {
  }

  lemma StillInLog(views: seq<Batch>, k: nat, n: nat, done: seq<Batch>, e: Kept)
    requires k + n <= |views| && AllEntries(done) == Compacted(AllEntries(views[..k]))
    requires e in AllEntries(done + views[k..k + n])
    ensures e in AllEntries(views)
  {
    hide AllEntries, Compacted;
    var before, part, rest := views[..k], views[k..k + n], views[k + n..];
    assert before + (part + rest) == views;
    StillInParts(before, part, rest, done, e);
  }

  lemma StillInParts(before: seq<Batch>, part: seq<Batch>, rest: seq<Batch>, done: seq<Batch>, e: Kept)
    requires AllEntries(done) == Compacted(AllEntries(before)) && e in AllEntries(done + part)
    ensures e in AllEntries(before + (part + rest))
  {
    hide AllEntries, Compacted;
    InEither(done, part, e);
    InEither(before, part + rest, e);
    InEither(part, rest, e);
    CompactedIn(AllEntries(before));
  }

  lemma InEither(a: seq<Batch>, b: seq<Batch>, e: Kept)
    ensures e in AllEntries(a + b) <==> e in AllEntries(a) || e in AllEntries(b)
  {
    hide Entries, AllEntries;
    EntriesSplit(a, b);
  }

  lemma CompactedIn(log: seq<Kept>)
    ensures forall e | e in Compacted(log) :: e in log
  {
    hide Superseded;
  }

  /** A log of batches in bytes, cleaned stretch after stretch with maps of at most `maxKeys` keys:
      it decodes to every unkeyed record and the last of each key, in order, whatever the stretches
      turned out to be. */
  method CleanLog(crc: Checksum, log: seq<Bytes>, inflate: Bytes -> Bytes, fp: Bytes -> nat, maxKeys: nat) returns (r: Parsed<seq<Bytes>>)
    requires Framed(log)
    ensures r.Ok? ==> Framed(r.value)
    ensures TidyLog(Views(log, inflate)) && Sound(fp, AllEntries(Views(log, inflate))) ==>
              && r.Ok? && TidyLog(Views(r.value, inflate))
              && AllEntries(Views(r.value, inflate)) == Compacted(AllEntries(Views(log, inflate)))
  {
    hide TidyLog, Sound, Views, Compacted, Reached, Entries;
    ghost var views := Views(log, inflate);
    ghost var good := TidyLog(views) && Sound(fp, AllEntries(views));
    var done: seq<Bytes> := [];
    var k := 0;
    NothingReached(views);
    assert Views(done, inflate) == [];
    while k < |log|
      invariant k <= |log| && Framed(done)
      invariant good ==> Reached(views, k, Views(done, inflate))
      decreases |log| - k
    {
      var next := CleanStretch(crc, log, inflate, fp, maxKeys, done, k);
      if next.Err? {
        return Err(next.error);
      }
      done, k := next.value.0, next.value.1;
    }
    ReachedEnd(views, Views(done, inflate));
    return Ok(done);
  }

  lemma ReachedEnd(views: seq<Batch>, done: seq<Batch>)
    ensures Reached(views, |views|, done) ==> TidyLog(done) && AllEntries(done) == Compacted(AllEntries(views))
  {
    hide TidyLog, Compacted, Entries;
    assert views[..|views|] == views;
  }

  lemma ViewsPart(log: seq<Bytes>, k: nat, n: nat, done: seq<Bytes>, inflate: Bytes -> Bytes)
    requires Framed(log) && Framed(done) && k + n <= |log|
    ensures Framed(log[k..]) && Views(log[k..], inflate) == Views(log, inflate)[k..]
    ensures Framed(done + log[k..k + n]) && Views(done + log[k..k + n], inflate) == Views(done, inflate) + Views(log, inflate)[k..k + n]
  {
    hide ViewOf;
    forall x | 0 <= x < |log| - k ensures |log[k..][x]| >= OVERHEAD {
      assert log[k..][x] == log[k + x];
    }
    var part := done + log[k..k + n];
    forall x | 0 <= x < |part| ensures |part[x]| >= OVERHEAD {
      if x >= |done| {
        assert part[x] == log[k + x - |done|];
      }
    }
    assert Views(log[k..], inflate) == Views(log, inflate)[k..];
    assert Views(done + log[k..k + n], inflate) == Views(done, inflate) + Views(log, inflate)[k..k + n];
  }

  /** Maps the next stretch and cleans everything up to its end. */
  method CleanStretch(crc: Checksum, log: seq<Bytes>, inflate: Bytes -> Bytes, fp: Bytes -> nat, maxKeys: nat, done: seq<Bytes>, k: nat)
    returns (r: Parsed<(seq<Bytes>, nat)>)
    requires Framed(log) && Framed(done) && k < |log|
    ensures r.Ok? ==> Framed(r.value.0) && k < r.value.1 <= |log|
    ensures TidyLog(Views(log, inflate)) && Sound(fp, AllEntries(Views(log, inflate))) && Reached(Views(log, inflate), k, Views(done, inflate)) ==>
              r.Ok? && Reached(Views(log, inflate), r.value.1, Views(r.value.0, inflate))
  {
    hide TidyLog, Sound, Views, Framed, Compacted, Made, MapOf, Reached, AllEntries, StandFor, Pass;
    ghost var views := Views(log, inflate);
    ghost var good := TidyLog(views) && Sound(fp, AllEntries(views)) && Reached(views, k, Views(done, inflate));
    var m, n, error := MapStretch(log, inflate, fp, maxKeys, done, k);
    if error.Some? {
      return Err(error.value);
    }
    var part := done + log[k..k + n];
    var passed := PassOver(crc, part, inflate, m);
    if passed.Err? {
      return Err(passed.error);
    }
    if good {
      MadeReaches(views, k, n, Views(part, inflate), Views(passed.value, inflate), m.seen, m.end);
    }
    return Ok((passed.value, k + n));
  }

  /** The map of the next stretch, fit to clean with from the start of the log. */
  method MapStretch(log: seq<Bytes>, inflate: Bytes -> Bytes, fp: Bytes -> nat, maxKeys: nat, done: seq<Bytes>, k: nat)
    returns (m: OffsetMap, n: nat, error: Option<BatchError>)
    requires Framed(log) && Framed(done) && k < |log|
    ensures fresh(m) && m.Valid()
    ensures error.None? ==> 0 < n <= |log| - k && Framed(done + log[k..k + n])
    ensures TidyLog(Views(log, inflate)) && Sound(fp, AllEntries(Views(log, inflate))) && Reached(Views(log, inflate), k, Views(done, inflate)) ==>
              error.None? &&
              var views, parts := Views(log, inflate), Views(done + log[k..k + n], inflate);
              && PassReady(parts, m) && parts != [] && parts[|parts| - 1] == views[k + n - 1]
              && Pass(m.seen, m.end, NO_TOMBSTONES, AllEntries(parts)) == Compacted(AllEntries(views[..k + n]))
  {
    hide TidyLog, Sound, Views, Framed, Readable, Compacted, MapOf, Reached, AllEntries, SameKeys, StandFor, Pass;
    ghost var views := Views(log, inflate);
    ViewsPart(log, k, 0, done, inflate);
    var todo := Views(log[k..], inflate);
    m, n, error := BuildMap(todo, fp, maxKeys);
    if TidyLog(views) && Sound(fp, AllEntries(views)) && Reached(views, k, Views(done, inflate)) {
      TidyReadable(views, k);
      ViewsPart(log, k, n, done, inflate);
      StretchReady(views, k, n, Views(done, inflate), todo, Views(done + log[k..k + n], inflate), m.seen, m.end, fp);
    } else if error.None? {
      ViewsPart(log, k, n, done, inflate);
    }
  }

  lemma StretchReady(views: seq<Batch>, k: nat, n: nat, done: seq<Batch>, todo: seq<Batch>, parts: seq<Batch>,
                     seen: seq<Kept>, end: int, fp: Bytes -> nat)
    requires TidyLog(views) && k + n <= |views| && n > 0 && Reached(views, k, done) && Sound(fp, AllEntries(views))
    requires todo == views[k..] && parts == done + views[k..k + n]
    requires SameKeys(seen, AllEntries(todo[..n])) && (forall e | e in AllEntries(todo[..n]) :: e.offset <= end) && Reach(todo[0]) <= end
    ensures TidyLog(parts) && StandFor(seen, AllEntries(parts)) && Sound(fp, AllEntries(parts))
    ensures Pass(seen, end, NO_TOMBSTONES, AllEntries(parts)) == Compacted(AllEntries(views[..k + n]))
    ensures parts != [] && parts[|parts| - 1] == views[k + n - 1]
  {
    hide TidyLog, Sound, Compacted, Reached, AllEntries, SameKeys, StandFor, Pass;
    assert todo[..n] == views[k..k + n] && todo[0] == views[k];
    PassStarts(views, k, n, done, seen, end, fp);
  }

  lemma NothingReached(views: seq<Batch>)
    ensures Reached(views, 0, [])
  {
  }

  lemma TidyReadable(views: seq<Batch>, k: nat)
    requires TidyLog(views) && k <= |views|
    ensures AllReadable(views[k..]) && forall x | 0 <= x < |views| - k :: Readable(views[k..][x])
  {
    hide Readable, Shrinks;
    forall x | 0 <= x < |views| - k ensures Readable(views[k..][x]) {
      assert views[k..][x] == views[k + x];
    }
  }

  lemma MadeReaches(views: seq<Batch>, k: nat, n: nat, parts: seq<Batch>, out: seq<Batch>, seen: seq<Kept>, end: int)
    requires k + n <= |views| && n > 0 && parts != [] && parts[|parts| - 1] == views[k + n - 1]
    requires Made(parts, out, seen, end)
    requires Pass(seen, end, NO_TOMBSTONES, AllEntries(parts)) == Compacted(AllEntries(views[..k + n]))
    ensures Reached(views, k + n, out)
  {
    hide TidyLog, Compacted, Pass, Entries;
  }
}
