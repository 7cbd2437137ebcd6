/** What compaction means for a log as a list of records: which survive, what one pass with a map
    of part of the log removes, and what a series of bounded passes comes to. */
module CompactionLog {
  import opened Common
  import opened Bytes
  import opened Rebuild

  /** In log order: offsets strictly ascend. */
  ghost predicate Ascending(log: seq<Kept>) {
    forall a, b | 0 <= a < b < |log| :: log[a].offset < log[b].offset
  }

  predicate SameKey(a: Kept, b: Kept) {
    a.key.Some? && a.key == b.key
  }

  /** `e` is keyed and `log` has a later record of its key, at or below `upto`. */
  ghost predicate SupersededBy(log: seq<Kept>, upto: int, e: Kept) {
    exists x | 0 <= x < |log| :: SameKey(log[x], e) && e.offset < log[x].offset <= upto
  }

  ghost predicate Superseded(log: seq<Kept>, e: Kept) {
    exists x | 0 <= x < |log| :: SameKey(log[x], e) && e.offset < log[x].offset
  }

  ghost function Filter(keep: Kept -> bool, log: seq<Kept>): (r: seq<Kept>)
    ensures forall e :: e in r <==> e in log && keep(e)
    ensures Ascending(log) ==> Ascending(r)
  {
    if log == [] then []
    else
      var n := |log| - 1;
      var rest := Filter(keep, log[..n]);
      if keep(log[n]) then
        FilterGrows(keep, log, rest);
        rest + [log[n]]
      else rest
  }

  lemma FilterGrows(keep: Kept -> bool, log: seq<Kept>, rest: seq<Kept>)
    requires log != [] && forall e :: e in rest ==> e in log[..|log| - 1]
    requires Ascending(log) ==> Ascending(rest)
    ensures Ascending(log) ==> Ascending(rest + [log[|log| - 1]])
  {
    if Ascending(log) {
      forall a | 0 <= a < |rest| ensures rest[a].offset < log[|log| - 1].offset {
        assert rest[a] in rest;
      }
    }
  }

  lemma {:induction false} FilterSame(p: Kept -> bool, q: Kept -> bool, log: seq<Kept>)
    requires forall e | e in log :: p(e) == q(e)
    ensures Filter(p, log) == Filter(q, log)
  {
    if log != [] {
      assert log[|log| - 1] in log;
      FilterSame(p, q, log[..|log| - 1]);
    }
  }

  lemma {:induction false} FilterTwice(p: Kept -> bool, q: Kept -> bool, both: Kept -> bool, log: seq<Kept>)
    requires forall e | e in log :: both(e) == (p(e) && q(e))
    ensures Filter(q, Filter(p, log)) == Filter(both, log)
  {
    if log != [] {
      var n := |log| - 1;
      assert log[n] in log;
      FilterTwice(p, q, both, log[..n]);
      var rest := Filter(p, log[..n]);
      if p(log[n]) {
        assert (rest + [log[n]])[..|rest|] == rest;
      }
    }
  }

  lemma FilterStep(p: Kept -> bool, log: seq<Kept>, n: nat)
    requires n < |log|
    ensures Filter(p, log[..n + 1]) == if p(log[n]) then Filter(p, log[..n]) + [log[n]] else Filter(p, log[..n])
  {
    assert log[..n + 1][..n] == log[..n];
  }

  lemma {:induction false} FilterAppend(p: Kept -> bool, a: seq<Kept>, b: seq<Kept>)
    ensures Filter(p, a + b) == Filter(p, a) + Filter(p, b)
    decreases |b|
  {
    if b == [] {
      assert a + b == a;
    } else {
      var n := |b| - 1;
      assert (a + b)[..|a + b| - 1] == a + b[..n];
      FilterAppend(p, a, b[..n]);
    }
  }

  lemma NothingFiltered(p: Kept -> bool)
    ensures Filter(p, []) == []
  {
  }

  lemma FilterEnd(p: Kept -> bool, log: seq<Kept>)
    requires log != []
    ensures var n := |log| - 1;
            Filter(p, log) == if p(log[n]) then Filter(p, log[..n]) + [log[n]] else Filter(p, log[..n])
  {
  }

  lemma {:induction false} FilterShort(p: Kept -> bool, log: seq<Kept>)
    ensures |Filter(p, log)| <= |log|
    ensures |Filter(p, log)| == |log| ==> Filter(p, log) == log
  {
    hide Ascending, Filter;
    NothingFiltered(p);
    if log != [] {
      var n := |log| - 1;
      FilterShort(p, log[..n]);
      FilterEnd(p, log);
      assert log[..n] + [log[n]] == log;
    }
  }

  lemma {:induction false} FilterAll(p: Kept -> bool, log: seq<Kept>)
    requires forall e | e in log :: p(e)
    ensures Filter(p, log) == log
  {
    if log != [] {
      var n := |log| - 1;
      var init := log[..n];
      assert log == init + [log[n]];
      FilterAll(p, init);
    }
  }

  // ---- one pass

  /** What a pass keeps whose map holds the records `seen` and ends at `end`; `expired` says which
      tombstones it may remove. */
  ghost predicate Keeps(seen: seq<Kept>, end: int, expired: int -> bool, e: Kept) {
    || e.offset > end
    || e.key.None?
    || (!Superseded(seen, e) && !(e.value.None? && expired(e.offset)))
  }

  ghost function Pass(seen: seq<Kept>, end: int, expired: int -> bool, log: seq<Kept>): seq<Kept> {
    Filter(KeepFn(seen, end, expired), log)
  }

  ghost function KeepFn(seen: seq<Kept>, end: int, expired: int -> bool): Kept -> bool {
    e => Keeps(seen, end, expired, e)
  }

  ghost const NO_TOMBSTONES: int -> bool := o => false

  /** The record that decides its key: the last of it. */
  ghost predicate Latest(log: seq<Kept>, e: Kept) {
    e in log && e.key.Some? && !Superseded(log, e)
  }

  /** What a pass that removes no tombstones may do to a log: drop records its map supersedes,
      all of them or, where a batch is too large to rewrite, fewer. */
  ghost predicate Thins(seen: seq<Kept>, end: int, log: seq<Kept>, left: seq<Kept>) {
    && (forall e | e in left :: e in log)
    && (forall e | e in log && Keeps(seen, end, NO_TOMBSTONES, e) :: e in left)
  }

  /** Each of `seen` stands for a record of the log: its key, at its offset. */
  ghost predicate StandFor(seen: seq<Kept>, log: seq<Kept>) {
    forall m | m in seen :: exists l | l in log :: l.key == m.key && l.offset == m.offset
  }

  /** Removing no tombstones, a pass with a map of any part of a log keeps every key's latest
      record, every unkeyed record and everything above the map, and makes no other record a
      key's latest. */
  lemma PassPreserves(seen: seq<Kept>, end: int, log: seq<Kept>, left: seq<Kept>)
    requires Thins(seen, end, log, left) && StandFor(seen, log)
    ensures forall e | e in log && (e.key.None? || e.offset > end) :: e in left
    ensures forall e :: Latest(log, e) <==> Latest(left, e)
  {
    forall e | Latest(log, e) ensures e in left && Latest(left, e) {
      LatestKept(seen, end, log, left, e);
    }
    forall e | Latest(left, e) ensures Latest(log, e) {
      StillLatest(seen, end, log, left, e);
    }
  }

  lemma SupersededIn(small: seq<Kept>, big: seq<Kept>, e: Kept)
    requires StandFor(small, big)
    ensures Superseded(small, e) ==> Superseded(big, e)
  {
  }

  lemma Supersedes(log: seq<Kept>, l: Kept, e: Kept)
    requires l in log && SameKey(l, e) && l.offset > e.offset
    ensures Superseded(log, e)
  {
  }

  lemma LatestKept(seen: seq<Kept>, end: int, log: seq<Kept>, left: seq<Kept>, e: Kept)
    requires StandFor(seen, log)
    requires Thins(seen, end, log, left) && Latest(log, e)
    ensures e in left && Latest(left, e)
  {
    SupersededIn(seen, log, e);
    SupersededIn(left, log, e);
  }

  lemma StillLatest(seen: seq<Kept>, end: int, log: seq<Kept>, left: seq<Kept>, e: Kept)
    requires StandFor(seen, log)
    requires Thins(seen, end, log, left) && Latest(left, e)
    ensures Latest(log, e)
  {
    if Superseded(log, e) {
      var l := LatestOf(log, e);
      LatestKept(seen, end, log, left, l);
      Supersedes(left, l, e);
    }
  }

  /** Every keyed record's key has a latest record, no earlier than it. */
  lemma LatestOf(log: seq<Kept>, e: Kept) returns (l: Kept)
    requires e in log || Superseded(log, e)
    requires e.key.Some?
    ensures Latest(log, l) && SameKey(l, e) && l.offset >= e.offset
    ensures Superseded(log, e) ==> l.offset > e.offset
  {
    var n := |log|;
    l := e;
    if Superseded(log, e) {
      var x :| 0 <= x < |log| && SameKey(log[x], e) && e.offset < log[x].offset;
      l := log[x];
    }
    var i := 0;
    while i < n
      invariant 0 <= i <= n && l in log && SameKey(l, e) && l.offset >= e.offset
      invariant Superseded(log, e) ==> l.offset > e.offset
      invariant forall x | 0 <= x < i && SameKey(log[x], e) :: log[x].offset <= l.offset
    {
      if SameKey(log[i], e) && log[i].offset > l.offset {
        l := log[i];
      }
      i := i + 1;
    }
    if Superseded(log, l) {
      var x :| 0 <= x < |log| && SameKey(log[x], l) && l.offset < log[x].offset;
      assert SameKey(log[x], e);
    }
  }

  /** Running a pass again, its map made afresh from what the first left, removes nothing more. */
  lemma PassAgain(log: seq<Kept>, from: int, end: int)
    requires Ascending(log)
    ensures var stretch := Between(from, end, log);
            var once := Pass(stretch, end, NO_TOMBSTONES, log);
            Pass(Between(from, end, once), end, NO_TOMBSTONES, once) == once
  {
    var stretch := Between(from, end, log);
    var once := Pass(stretch, end, NO_TOMBSTONES, log);
    var again := Between(from, end, once);
    forall e | e in once ensures Keeps(again, end, NO_TOMBSTONES, e) {
      SupersededIn(again, stretch, e);
    }
    FilterAll(KeepFn(again, end, NO_TOMBSTONES), once);
  }

  // ---- bounded passes

  /** The records after `from`, up to and including `end`. */
  ghost function Between(from: int, end: int, log: seq<Kept>): seq<Kept> {
    Filter(RangeFn(from, end), log)
  }

  ghost function RangeFn(from: int, end: int): Kept -> bool {
    (e: Kept) => from < e.offset <= end
  }

  /** One pass after another: each maps the next stretch and cleans everything up to its end. */
  ghost function Passes(log: seq<Kept>, from: int, cuts: seq<int>): seq<Kept>
    decreases |cuts|
  {
    if cuts == [] then log
    else Passes(Pass(Between(from, cuts[0], log), cuts[0], NO_TOMBSTONES, log), cuts[0], cuts[1..])
  }

  /** What is left of `log` once it has been cleaned up to `upto`. */
  ghost function CleanTo(log: seq<Kept>, upto: int): seq<Kept> {
    Filter(CleanFn(log, upto), log)
  }

  ghost function CleanFn(log: seq<Kept>, upto: int): Kept -> bool {
    (e: Kept) => e.offset > upto || !SupersededBy(log, upto, e)
  }

  lemma OnePass(log: seq<Kept>, from: int, cut: int)
    requires Ascending(log) && from <= cut
    ensures Pass(Between(from, cut, CleanTo(log, from)), cut, NO_TOMBSTONES, CleanTo(log, from)) == CleanTo(log, cut)
  {
    var done := CleanTo(log, from);
    var stretch := Between(from, cut, done);
    var p, q, both := CleanFn(log, from), KeepFn(stretch, cut, NO_TOMBSTONES), CleanFn(log, cut);
    forall e | e in log ensures both(e) == (p(e) && q(e)) {
      StretchDecides(log, from, cut, stretch, e);
    }
    FilterTwice(p, q, both, log);
  }

  /** Below the cut, being superseded up to it is being superseded up to where the stretch
      begins or inside the stretch. */
  lemma StretchDecides(log: seq<Kept>, from: int, cut: int, stretch: seq<Kept>, e: Kept)
    requires from <= cut && e in log
    requires stretch == Between(from, cut, CleanTo(log, from))
    ensures (e.offset > cut || !SupersededBy(log, cut, e))
            == ((e.offset > from || !SupersededBy(log, from, e)) && Keeps(stretch, cut, NO_TOMBSTONES, e))
  {
    forall m | m in log && from < m.offset <= cut ensures m in stretch {
      assert m in CleanTo(log, from);
    }
    if SupersededBy(log, cut, e) {
      var x :| 0 <= x < |log| && SameKey(log[x], e) && e.offset < log[x].offset <= cut;
      assert log[x] in log;
      if log[x].offset > from {
        var y :| 0 <= y < |stretch| && stretch[y] == log[x];
        assert SameKey(stretch[y], e);
      } else {
        assert SupersededBy(log, from, e);
      }
    }
    if SupersededBy(log, from, e) {
      var x :| 0 <= x < |log| && SameKey(log[x], e) && e.offset < log[x].offset <= from;
      assert log[x].offset <= cut;
    }
    if Superseded(stretch, e) {
      var y :| 0 <= y < |stretch| && SameKey(stretch[y], e) && e.offset < stretch[y].offset;
      assert stretch[y] in stretch;
      assert stretch[y] in CleanTo(log, from);
      var x :| 0 <= x < |log| && log[x] == stretch[y];
      assert SameKey(log[x], e);
    }
  }

  ghost predicate Rising(from: int, cuts: seq<int>)
    decreases |cuts|
  {
    cuts == [] || (from <= cuts[0] && Rising(cuts[0], cuts[1..]))
  }

  lemma {:induction false} PassesClean(log: seq<Kept>, from: int, cuts: seq<int>)
    requires Ascending(log) && Rising(from, cuts)
    ensures Passes(CleanTo(log, from), from, cuts) == CleanTo(log, if cuts == [] then from else cuts[|cuts| - 1])
    decreases |cuts|
  {
    hide Pass, CleanTo, Between, Ascending;
    if cuts != [] {
      OnePass(log, from, cuts[0]);
      PassesClean(log, cuts[0], cuts[1..]);
    }
  }

  /** Cut a log into consecutive stretches any way at all: cleaning it one bounded pass after
      another leaves exactly what one pass with a map of the whole log leaves. */
  lemma PassesAreOnePass(log: seq<Kept>, from: int, cuts: seq<int>)
    requires Ascending(log) && cuts != [] && Rising(from, cuts)
    requires forall e | e in log :: from < e.offset <= cuts[|cuts| - 1]
    ensures Passes(log, from, cuts) == Pass(log, cuts[|cuts| - 1], NO_TOMBSTONES, log)
  {
    var last := cuts[|cuts| - 1];
    FilterAll(CleanFn(log, from), log);
    PassesClean(log, from, cuts);
    forall e | e in log ensures (e.offset > last || !SupersededBy(log, last, e)) == Keeps(log, last, NO_TOMBSTONES, e) {
      if Superseded(log, e) {
        var x :| 0 <= x < |log| && SameKey(log[x], e) && e.offset < log[x].offset;
        assert log[x] in log && log[x].offset <= last;
      }
    }
    FilterSame(CleanFn(log, last), KeepFn(log, last, NO_TOMBSTONES), log);
  }

  // ---- the whole-log definition

  /** What the simple whole-log rule keeps: unkeyed records, and of each key the latest, unless
      that is a tombstone older than the cutoff. */
  ghost predicate Survives(log: seq<Kept>, cutoff: int, e: Kept) {
    && e in log
    && (e.key.None? || (!Superseded(log, e) && !(e.value.None? && e.timestamp < cutoff)))
  }

  /** A pass with a map of the whole log keeps exactly what the whole-log rule keeps. */
  lemma PassIsSurvival(log: seq<Kept>, end: int, cutoff: int, expired: int -> bool)
    requires forall e | e in log :: e.offset <= end && (expired(e.offset) <==> e.timestamp < cutoff)
    ensures forall e :: e in Pass(log, end, expired, log) <==> Survives(log, cutoff, e)
  {
  }
}
