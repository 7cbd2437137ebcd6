/** One idempotent producer on one partition: the window of its newest batches, and the decision
    a batch gets against it. */
module ProducerWindow {
  import opened Common

  const RETAINED_BATCHES := 5
  const I32_MAX := 0x7fff_ffff
  const TWO31 := 0x8000_0000

  type I32 = x: int | -0x8000_0000 <= x <= I32_MAX

  /** A window row; an offset below zero is a reservation. */
  datatype Row = Row(epoch: int, first: I32, last: I32, base: int)

  datatype SequenceCheck =
    | Append
    | Duplicate(baseOffset: int)
    | OutOfOrder(expected: int, got: int)
    | Stale
    | Fenced(currentEpoch: int)

  // ---- sequence arithmetic

  function IncrementSequence(sequence: I32, increment: I32): (r: I32)
    requires increment >= 0
  {
    if sequence > I32_MAX - increment then increment - (I32_MAX - sequence) - 1 else sequence + increment
  }

  predicate InSequence(last: I32, next: I32) {
    next == last + 1 || (next == 0 && last == I32_MAX)
  }

  predicate Sequence(s: I32) { s >= 0 }

  /** Sequences are the integers modulo 2^31, and "in sequence" is the successor. */
  lemma SequencesWrap(s: I32, i: I32, next: I32)
    requires Sequence(s) && Sequence(i) && Sequence(next)
    ensures IncrementSequence(s, i) == (s + i) % TWO31
    ensures InSequence(s, next) <==> next == (s + 1) % TWO31
  {
  }

  // ---- the decision

  function FindBatch(rows: seq<Row>, epoch: int, first: I32, last: I32): (r: Option<Row>)
    ensures r.Some? ==> r.value in rows && r.value.epoch == epoch && r.value.first == first && r.value.last == last
    ensures r.None? ==> forall row | row in rows :: !(row.epoch == epoch && row.first == first && row.last == last)
  {
    if rows == [] then None
    else if rows[0].epoch == epoch && rows[0].first == first && rows[0].last == last then Some(rows[0])
    else FindBatch(rows[1..], epoch, first, last)
  }

  /** `rows` oldest first, by insertion. */
  function Check(rows: seq<Row>, epochStart: int, epoch: int, first: I32, last: I32): SequenceCheck {
    if rows == [] then Append
    else
      var newest := rows[|rows| - 1];
      if epoch < newest.epoch then Fenced(newest.epoch)
      else if epoch > newest.epoch then
        if first != 0 then OutOfOrder(0, first) else Append
      else
        var dup := FindBatch(rows, newest.epoch, first, last);
        if dup.Some? then Duplicate(dup.value.base)
        else if InSequence(newest.last, first) then Append
        else if newest.base >= 0 && newest.base < epochStart then Stale
        else OutOfOrder(IncrementSequence(newest.last, 1), first)
  }

  function CheckRow(rows: seq<Row>, epochStart: int, b: Row): SequenceCheck {
    Check(rows, epochStart, b.epoch, b.first, b.last)
  }

  // ---- the table

  /** The row with this first sequence, the table's key; the length when there is none. */
  function Position(rows: seq<Row>, first: int): (k: nat)
    ensures k <= |rows| && (k < |rows| ==> rows[k].first == first)
    ensures forall j | 0 <= j < k :: rows[j].first != first
  {
    if rows == [] || rows[0].first == first then 0 else 1 + Position(rows[1..], first)
  }

  function Cut<T>(s: seq<T>, k: nat): seq<T> {
    if k < |s| then s[..k] + s[k + 1..] else s
  }

  function Newest<T>(s: seq<T>): seq<T> {
    if |s| <= RETAINED_BATCHES then s else s[|s| - RETAINED_BATCHES..]
  }

  /** A row at a first sequence already there replaces it and becomes the newest. */
  function Recorded(rows: seq<Row>, b: Row): seq<Row> {
    Newest(Cut(rows, Position(rows, b.first)) + [b])
  }

  function Stamped(rows: seq<Row>, first: int, base: int): seq<Row> {
    var k := Position(rows, first);
    if k < |rows| then rows[k := rows[k].(base := base)] else rows
  }

  function Released(rows: seq<Row>, first: int): seq<Row> {
    var k := Position(rows, first);
    if k < |rows| && rows[k].base < 0 then Cut(rows, k) else rows
  }

  function Kept(rows: seq<Row>, end: int): (r: seq<Row>)
    ensures forall row :: row in r <==> row in rows && row.base < end
  {
    if rows == [] then []
    else (if rows[0].base < end then [rows[0]] else []) + Kept(rows[1..], end)
  }

  // ---- what the log holds

  ghost predicate Follows(a: Row, b: Row) {
    a.epoch <= b.epoch && (if a.epoch == b.epoch then InSequence(a.last, b.first) else b.first == 0)
  }

  /** Epochs never decrease; within one, batches chain without gap or repeat; a new one starts
      at zero. */
  ghost predicate Chain(log: seq<Row>) {
    forall i {:trigger log[i]} | 0 < i < |log| :: Follows(log[i - 1], log[i])
  }

  lemma {:induction false} EpochsRise(log: seq<Row>, i: nat, j: nat)
    requires Chain(log) && i <= j < |log|
    ensures log[i].epoch <= log[j].epoch
    decreases j - i
  {
    if i < j {
      EpochsRise(log, i, j - 1);
      assert Follows(log[j - 1], log[j]);
    }
  }

  ghost predicate OffsetsRise(log: seq<Row>) {
    && (forall i | 0 <= i < |log| :: 0 <= log[i].base)
    && (forall i, j | 0 <= i < j < |log| :: log[i].base < log[j].base)
  }

  /** From batch `lo` on, a window's worth of one epoch's batches starts at six different
      sequences. */
  ghost predicate Spaced(log: seq<Row>, lo: nat) {
    forall i, j | lo <= i < j < |log| && j <= i + RETAINED_BATCHES && log[i].epoch == log[j].epoch ::
      log[i].first != log[j].first
  }

  ghost function Length(b: Row): int {
    (b.last - b.first) % TWO31 + 1
  }

  ghost function Span(log: seq<Row>, i: nat, j: nat): int
    requires i <= j <= |log|
  {
    if i == j then 0 else Span(log, i, j - 1) + Length(log[j - 1])
  }

  lemma DistanceStep(a: int, last: I32, first: I32, next: I32)
    requires a % TWO31 == 0 && InSequence(last, next)
    ensures (a + next - first - ((last - first) % TWO31 + 1)) % TWO31 == 0
  {
  }

  lemma {:induction false} SpanIsDistance(log: seq<Row>, i: nat, j: nat)
    requires Chain(log) && i <= j < |log| && log[i].epoch == log[j].epoch
    ensures (log[j].first - log[i].first - Span(log, i, j)) % TWO31 == 0
    ensures i < j ==> Span(log, i, j) > 0
    decreases j - i
  {
    if i < j {
      EpochsRise(log, i, j - 1);
      EpochsRise(log, j - 1, j);
      SpanIsDistance(log, i, j - 1);
      assert Follows(log[j - 1], log[j]);
      DistanceStep(log[j - 1].first - log[i].first - Span(log, i, j - 1), log[j - 1].last, log[j - 1].first, log[j].first);
    }
  }

  /** It does when the window spans fewer than 2^31 sequences. */
  lemma SpanSpaces(log: seq<Row>, lo: nat)
    requires Chain(log)
    requires forall i, j {:trigger Span(log, i, j)} | lo <= i < j < |log| && j <= i + RETAINED_BATCHES && log[i].epoch == log[j].epoch ::
               Span(log, i, j) < TWO31
    ensures Spaced(log, lo)
  {
    forall i, j | lo <= i < j < |log| && j <= i + RETAINED_BATCHES && log[i].epoch == log[j].epoch
      ensures log[i].first != log[j].first
    {
      SpanIsDistance(log, i, j);
      assert Span(log, i, j) < TWO31;
    }
  }

  // ---- the window is the newest part of the log

  ghost predicate Increasing(idx: seq<nat>) {
    forall a, b | 0 <= a < b < |idx| :: idx[a] < idx[b]
  }

  ghost predicate Distinct(rows: seq<Row>) {
    forall a, b | 0 <= a < b < |rows| :: rows[a].first != rows[b].first
  }

  /** Row by row, where it stands in the log. */
  ghost predicate Placed(rows: seq<Row>, idx: seq<nat>, log: seq<Row>, p: nat)
    requires p <= |log|
  {
    && |rows| == |idx| && Increasing(idx) && Distinct(rows)
    && forall k | 0 <= k < |rows| :: idx[k] < p && rows[k] == log[idx[k]]
  }

  ghost predicate Rows(rows: seq<Row>, idx: seq<nat>, log: seq<Row>, p: nat)
    requires p <= |log|
  {
    Placed(rows, idx, log, p) && |rows| <= RETAINED_BATCHES
  }

  /** No batch before `p` has taken the row of batch `j` by starting at its first sequence. */
  ghost predicate Unreplaced(log: seq<Row>, j: nat, p: nat)
    requires j < p <= |log|
  {
    forall i | j < i < p :: log[i].first != log[j].first
  }

  /** The newest five batches of the epoch at hand are there, from `c` on, but for those replaced
      and those of `gone`, which a failed append took. */
  ghost predicate Tail(idx: seq<nat>, log: seq<Row>, gone: set<nat>, c: nat, p: nat)
    requires p <= |log|
  {
    forall j: nat | c <= j < p <= j + RETAINED_BATCHES && log[j].epoch == log[p - 1].epoch && j !in gone && Unreplaced(log, j, p) ::
      j in idx
  }

  /** Batch `i` and the five after it start at six different sequences. */
  ghost predicate Apart(log: seq<Row>, i: nat)
    requires i + RETAINED_BATCHES < |log|
  {
    forall a, b | i <= a < b <= i + RETAINED_BATCHES :: log[a].first != log[b].first
  }

  /** No row has five followers of its own epoch before `p`, all of them apart and none gone. */
  ghost predicate Recent(i: nat, log: seq<Row>, gone: set<nat>, p: nat) {
    i + RETAINED_BATCHES < p <= |log| && Apart(log, i) && (forall g | g in gone :: !(i <= g <= i + RETAINED_BATCHES))
    ==> log[i + RETAINED_BATCHES].epoch != log[i].epoch
  }

  /** What row `k` stands for: a batch not replaced since, not gone, and not long past. */
  ghost predicate Standing(i: nat, log: seq<Row>, gone: set<nat>, c: nat, p: nat)
    requires p <= |log|
  {
    i < p && i !in gone && Unreplaced(log, i, p) && Recent(i, log, gone, if i < c then |log| else p)
  }

  /** The window after the first `p` batches of `log`, of which those from `c` on were recorded
      one after another. */
  ghost predicate Window(rows: seq<Row>, idx: seq<nat>, log: seq<Row>, gone: set<nat>, c: nat, p: nat) {
    && c <= p <= |log|
    && Rows(rows, idx, log, p)
    && Tail(idx, log, gone, c, p)
    && (forall g | g in gone :: g < p)
    && forall k | 0 <= k < |idx| :: Standing(idx[k], log, gone, c, p)
  }

  ghost function NextIdx(rows: seq<Row>, idx: seq<nat>, b: Row, p: nat): seq<nat> {
    Newest(Cut(idx, Position(rows, b.first)) + [p])
  }

  lemma {:induction false} Spread(idx: seq<nat>, a: nat, b: nat)
    requires Increasing(idx) && a <= b < |idx|
    ensures idx[b] - idx[a] >= b - a
    decreases b - a
  {
    if a < b {
      Spread(idx, a, b - 1);
    }
  }

  lemma CutAt<T>(s: seq<T>, k: nat, a: nat)
    requires a < |Cut(s, k)|
    ensures k < |s| ==> Cut(s, k)[a] == s[if a < k then a else a + 1]
    ensures k >= |s| ==> Cut(s, k)[a] == s[a]
  {
  }

  lemma CutPlaced(rows: seq<Row>, idx: seq<nat>, log: seq<Row>, p: nat, first: int)
    requires p <= |log| && Placed(rows, idx, log, p)
    ensures Placed(Cut(rows, Position(rows, first)), Cut(idx, Position(rows, first)), log, p)
    ensures forall row | row in Cut(rows, Position(rows, first)) :: row.first != first
  {
    hide Cut, Position;
    var k := Position(rows, first);
    var cut, cutIdx := Cut(rows, k), Cut(idx, k);
    CutLength(rows, k);
    CutLength(idx, k);
    forall a | 0 <= a < |cut|
      ensures cut[a].first != first && cutIdx[a] < p && cut[a] == log[cutIdx[a]]
    {
      CutAt(rows, k, a);
      CutAt(idx, k, a);
    }
    forall a, b | 0 <= a < b < |cut|
      ensures cutIdx[a] < cutIdx[b] && cut[a].first != cut[b].first
    {
      CutAt(rows, k, a);
      CutAt(rows, k, b);
      CutAt(idx, k, a);
      CutAt(idx, k, b);
    }
  }

  lemma CutLength<T>(s: seq<T>, k: nat)
    ensures |Cut(s, k)| == if k < |s| then |s| - 1 else |s|
  {
  }

  lemma NewestPlaced(rows: seq<Row>, idx: seq<nat>, log: seq<Row>, p: nat)
    requires p <= |log| && Placed(rows, idx, log, p)
    ensures Rows(Newest(rows), Newest(idx), log, p)
  {
    hide Newest;
    var d := if |rows| <= RETAINED_BATCHES then 0 else |rows| - RETAINED_BATCHES;
    NewestIs(rows);
    NewestIs(idx);
    assert Newest(rows) == rows[d..] && Newest(idx) == idx[d..];
    forall a, b | 0 <= a < b < |rows| - d
      ensures rows[d..][a].first != rows[d..][b].first && idx[d..][a] < idx[d..][b]
    {
      assert rows[d..][a] == rows[d + a] && rows[d..][b] == rows[d + b];
    }
  }

  lemma NewestIs<T>(s: seq<T>)
    ensures Newest(s) == s[if |s| <= RETAINED_BATCHES then 0 else |s| - RETAINED_BATCHES..]
  {
  }

  lemma RowsStep(rows: seq<Row>, idx: seq<nat>, log: seq<Row>, p: nat)
    requires p < |log| && Rows(rows, idx, log, p)
    ensures Rows(Recorded(rows, log[p]), NextIdx(rows, idx, log[p], p), log, p + 1)
  {
    hide Cut, Position, Newest, Rows;
    assert Placed(rows, idx, log, p) by { ArePlaced(rows, idx, log, p); }
    CutPlaced(rows, idx, log, p, log[p].first);
    var k := Position(rows, log[p].first);
    var all, allIdx := Cut(rows, k) + [log[p]], Cut(idx, k) + [p];
    assert Placed(all, allIdx, log, p + 1);
    NewestPlaced(all, allIdx, log, p + 1);
  }

  lemma ArePlaced(rows: seq<Row>, idx: seq<nat>, log: seq<Row>, p: nat)
    requires p <= |log| && Rows(rows, idx, log, p)
    ensures Placed(rows, idx, log, p)
  {
  }

  /** An index stays unless its first sequence is the new one's, or five newer ones follow. */
  lemma StaysIn(rows: seq<Row>, idx: seq<nat>, log: seq<Row>, p: nat, j: nat)
    requires p < |log| && Placed(rows, idx, log, p) && j in idx && log[j].first != log[p].first && p <= j + 4
    ensures j in NextIdx(rows, idx, log[p], p)
  {
    hide Position, Cut, Placed;
    var k := Position(rows, log[p].first);
    var all := Cut(idx, k) + [p];
    var at := StaysAt(rows, idx, log, p, j);
    Spread(all, at, |all| - 1);
    assert all[|all| - 1] == p;
    if |all| > RETAINED_BATCHES {
      assert Newest(all)[at - (|all| - RETAINED_BATCHES)] == j;
    }
  }

  lemma StaysAt(rows: seq<Row>, idx: seq<nat>, log: seq<Row>, p: nat, j: nat) returns (at: nat)
    requires p < |log| && Placed(rows, idx, log, p) && j in idx && log[j].first != log[p].first
    ensures var all := Cut(idx, Position(rows, log[p].first)) + [p];
            at < |all| && all[at] == j && Increasing(all)
  {
    hide Cut, Position;
    var k := Position(rows, log[p].first);
    CutPlaced(rows, idx, log, p, log[p].first);
    var a :| 0 <= a < |idx| && idx[a] == j;
    at := if a < k then a else a - 1;
    CutLength(idx, k);
    CutAt(idx, k, at);
  }

  lemma SameEpochBetween(log: seq<Row>, i: nat, j: nat, p: nat)
    requires Chain(log) && i <= j <= p < |log| && log[i].epoch == log[p].epoch
    ensures log[j].epoch == log[p].epoch
  {
    EpochsRise(log, i, j);
    EpochsRise(log, j, p);
  }

  lemma UnreplacedSplit(log: seq<Row>, j: nat, p: nat)
    requires j < p < |log| && Unreplaced(log, j, p + 1)
    ensures Unreplaced(log, j, p) && log[j].first != log[p].first
  {
  }

  lemma TailStep(rows: seq<Row>, idx: seq<nat>, log: seq<Row>, gone: set<nat>, c: nat, p: nat)
    requires p < |log| && Chain(log) && Placed(rows, idx, log, p) && Tail(idx, log, gone, c, p)
    ensures Tail(NextIdx(rows, idx, log[p], p), log, gone, c, p + 1)
  {
    hide NextIdx, Placed, Chain, Unreplaced;
    var next := NextIdx(rows, idx, log[p], p);
    forall j: nat | c <= j < p + 1 <= j + RETAINED_BATCHES && log[j].epoch == log[p].epoch && j !in gone && Unreplaced(log, j, p + 1)
      ensures j in next
    {
      if j < p {
        TailStays(rows, idx, log, gone, c, p, j);
      } else {
        EndsNext(rows, idx, log[p], p);
      }
    }
  }

  lemma TailStays(rows: seq<Row>, idx: seq<nat>, log: seq<Row>, gone: set<nat>, c: nat, p: nat, j: nat)
    requires p < |log| && Chain(log) && Placed(rows, idx, log, p) && Tail(idx, log, gone, c, p)
    requires c <= j < p < j + RETAINED_BATCHES && log[j].epoch == log[p].epoch && j !in gone && Unreplaced(log, j, p + 1)
    ensures j in NextIdx(rows, idx, log[p], p)
  {
    hide NextIdx, Placed, Chain, Unreplaced;
    SameEpochBetween(log, j, p - 1, p);
    UnreplacedSplit(log, j, p);
    StaysIn(rows, idx, log, p, j);
  }

  lemma EndsNext(rows: seq<Row>, idx: seq<nat>, b: Row, p: nat)
    ensures var next := NextIdx(rows, idx, b, p);
            next != [] && next[|next| - 1] == p
    ensures var rows' := Recorded(rows, b);
            rows' != [] && rows'[|rows'| - 1] == b
  {
  }

  lemma {:induction false} RunFits(idx: seq<nat>, a: nat, i: nat, n: nat)
    requires Increasing(idx) && a < |idx| && idx[a] == i
    requires forall j: nat | i <= j <= i + n :: j in idx
    ensures a + n < |idx|
    decreases n
  {
    if n > 0 {
      assert i + 1 in idx;
      var b :| 0 <= b < |idx| && idx[b] == i + 1;
      RunFits(idx, b, i + 1, n - 1);
    }
  }

  /** With five newer ones of its epoch, a row has been pruned. */
  lemma Pruned(next: seq<nat>, log: seq<Row>, gone: set<nat>, c: nat, p: nat, i: nat)
    requires p < |log| && Chain(log) && |next| <= RETAINED_BATCHES && Increasing(next) && Tail(next, log, gone, c, p + 1)
    requires c <= i && i + RETAINED_BATCHES == p && log[p].epoch == log[i].epoch
    requires Apart(log, i) && forall g | g in gone :: !(i <= g <= p)
    ensures i !in next
  {
    hide Chain;
    var j0 := i + 1;
    forall j: nat | j0 <= j <= j0 + 4
      ensures j in next
    {
      SameEpochBetween(log, i, j, p);
      assert j !in gone;
      assert Unreplaced(log, j, p + 1);
    }
    assert j0 in next;
    var b :| 0 <= b < |next| && next[b] == j0;
    RunFits(next, b, j0, 4);
  }

  lemma NextIdxFrom(rows: seq<Row>, idx: seq<nat>, b: Row, p: nat, i: nat)
    requires |rows| == |idx| && i in NextIdx(rows, idx, b, p)
    ensures i == p || i in idx
  {
  }

  lemma NewestFrom<T>(s: seq<T>, x: T)
    requires x in Newest(s)
    ensures x in s
  {
  }

  lemma UnreplacedOne(log: seq<Row>, i: nat, p: nat)
    requires i < p < |log| && Unreplaced(log, i, p) && log[p].first != log[i].first
    ensures Unreplaced(log, i, p + 1)
  {
  }

  /** Recording takes the row at the new batch's first sequence, so no row it leaves is replaced. */
  lemma UnreplacedStep(rows: seq<Row>, idx: seq<nat>, log: seq<Row>, p: nat, i: nat)
    requires p < |log| && Placed(rows, idx, log, p) && i in NextIdx(rows, idx, log[p], p) && i != p && i < p && Unreplaced(log, i, p)
    ensures Unreplaced(log, i, p + 1)
  {
    hide Position, Cut, Newest, Increasing, Distinct, Unreplaced;
    var k := Position(rows, log[p].first);
    var cut, cutIdx := Cut(rows, k), Cut(idx, k);
    CutPlaced(rows, idx, log, p, log[p].first);
    NewestFrom(cutIdx + [p], i);
    var a :| 0 <= a < |cutIdx| && cutIdx[a] == i;
    assert cut[a] == log[i] && cut[a] in cut;
    UnreplacedOne(log, i, p);
  }

  lemma StandingStep(rows: seq<Row>, idx: seq<nat>, log: seq<Row>, gone: set<nat>, c: nat, p: nat, i: nat)
    requires p < |log| && Chain(log) && Window(rows, idx, log, gone, c, p)
    requires var next := NextIdx(rows, idx, log[p], p);
             i in next && |next| <= RETAINED_BATCHES && Increasing(next) && Tail(next, log, gone, c, p + 1)
    ensures Standing(i, log, gone, c, p + 1)
  {
    hide NextIdx, Chain, Increasing, Distinct, Apart, Tail;
    NextIdxFrom(rows, idx, log[p], p, i);
    if i != p {
      var a :| 0 <= a < |idx| && idx[a] == i;
      assert Standing(idx[a], log, gone, c, p);
      UnreplacedStep(rows, idx, log, p, i);
      if i >= c && i + RETAINED_BATCHES == p && log[p].epoch == log[i].epoch && Apart(log, i)
         && (forall g | g in gone :: !(i <= g <= i + RETAINED_BATCHES)) {
        Pruned(NextIdx(rows, idx, log[p], p), log, gone, c, p, i);
      }
    }
  }

  /** Recording the next batch moves the window on by one. */
  lemma WindowStep(rows: seq<Row>, idx: seq<nat>, log: seq<Row>, gone: set<nat>, c: nat, p: nat)
    requires p < |log| && Chain(log) && Window(rows, idx, log, gone, c, p)
    ensures Window(Recorded(rows, log[p]), NextIdx(rows, idx, log[p], p), log, gone, c, p + 1)
  {
    hide Recorded, NextIdx, Chain, Increasing, Distinct, Standing, Tail;
    var next := NextIdx(rows, idx, log[p], p);
    RowsStep(rows, idx, log, p);
    TailStep(rows, idx, log, gone, c, p);
    forall k | 0 <= k < |next|
      ensures Standing(next[k], log, gone, c, p + 1)
    {
      StandingStep(rows, idx, log, gone, c, p, next[k]);
    }
  }
}
