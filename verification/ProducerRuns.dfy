/** Runs of one idempotent producer: what is appended, what a resend is told, and what is left
    after the log is cut back. */
module ProducerRuns {
  import opened Common
  import opened ProducerWindow

  // ---- the table's statements, one after another

  lemma NotBefore(rows: seq<Row>, first: I32)
    requires Distinct(rows)
    ensures forall row | row in Cut(rows, Position(rows, first)) :: row.first != first
    ensures Distinct(Cut(rows, Position(rows, first)))
  {
  }

  lemma NewestDistinct(rows: seq<Row>)
    requires Distinct(rows)
    ensures Distinct(Newest(rows))
  {
  }

  /** The recorded row is the newest and the only one with its first sequence. */
  lemma RecordedLast(rows: seq<Row>, b: Row)
    requires Distinct(rows)
    ensures var r := Recorded(rows, b);
            Distinct(r) && r != [] && r[|r| - 1] == b && Position(r, b.first) == |r| - 1
  {
    hide Cut, Position, Newest;
    NotBefore(rows, b.first);
    var all := Cut(rows, Position(rows, b.first)) + [b];
    NewestDistinct(all);
    NewestIs(all);
  }

  /** Reserving and then stamping is recording with the offset. */
  lemma StampCompletes(rows: seq<Row>, b: Row, reserved: Row)
    requires Distinct(rows) && reserved == b.(base := -1)
    ensures Stamped(Recorded(rows, reserved), b.first, b.base) == Recorded(rows, b)
  {
    hide Cut, Position;
    RecordedLast(rows, reserved);
  }

  // ---- an append that fails after its batch was reserved

  function Abandoned(rows: seq<Row>, reserved: Row): seq<Row> {
    Released(Recorded(rows, reserved), reserved.first)
  }

  /** What is left of a window, row or index, once the one at `k` and, if there are then five, the
      oldest are out of it. */
  function Shrunk<T>(s: seq<T>, k: nat): seq<T> {
    var cut := Cut(s, k);
    if |cut| == RETAINED_BATCHES then cut[1..] else cut
  }

  lemma AbandonedIs(rows: seq<Row>, reserved: Row)
    requires Distinct(rows) && |rows| <= RETAINED_BATCHES && reserved.base < 0
    ensures Abandoned(rows, reserved) == Shrunk(rows, Position(rows, reserved.first))
  {
    hide Position, Cut, Newest, Distinct;
    RecordedLast(rows, reserved);
    var cut := Cut(rows, Position(rows, reserved.first));
    CutLength(rows, Position(rows, reserved.first));
    NewestFront(cut, reserved);
    CutLast(Recorded(rows, reserved));
  }

  lemma NewestFront<T>(cut: seq<T>, x: T)
    requires |cut| <= RETAINED_BATCHES
    ensures var r := Newest(cut + [x]);
            r != [] && r[..|r| - 1] == if |cut| == RETAINED_BATCHES then cut[1..] else cut
  {
  }

  lemma CutLast<T>(s: seq<T>)
    requires s != []
    ensures Cut(s, |s| - 1) == s[..|s| - 1]
  {
  }

  /** The newest four rows stay unless the batch had their first sequence, and the newest row is
      still the newest exactly then. */
  lemma AbandonKeeps(rows: seq<Row>, reserved: Row)
    requires Distinct(rows) && 0 < |rows| <= RETAINED_BATCHES && reserved.base < 0
    ensures var r := Abandoned(rows, reserved);
            && (forall k | |rows| - 4 <= k < |rows| && 0 <= k && rows[k].first != reserved.first :: rows[k] in r)
            && (r != [] && r[|r| - 1] == rows[|rows| - 1] <==> rows[|rows| - 1].first != reserved.first)
  {
    hide Position, Abandoned;
    AbandonedIs(rows, reserved);
    NotBefore(rows, reserved.first);
    var k := Position(rows, reserved.first);
    var cut, r := Cut(rows, k), Abandoned(rows, reserved);
    forall i | |rows| - 4 <= i < |rows| && 0 <= i && rows[i].first != reserved.first
      ensures rows[i] in r
    {
      var at := if i < k then i else i - (if k < |rows| then 1 else 0);
      assert cut[at] == rows[i];
      if |cut| == RETAINED_BATCHES {
        assert cut[1..][at - 1] == rows[i];
      }
    }
  }

  /** So a new epoch whose first append fails can leave the batch it replaced to be appended
      again. */
  lemma AbandonForgets()
    ensures var old', new' := Row(0, 0, 2, 10), Row(1, 0, 4, -1);
            && CheckRow([old'], 0, new') == Append
            && CheckRow([old'], 0, old') == Duplicate(10)
            && CheckRow(Abandoned([old'], new'), 0, old') == Append
  {
    var old', new' := Row(0, 0, 2, 10), Row(1, 0, 4, -1);
    assert Recorded([old'], new') == [new'];
    assert Position([new'], 0) == 0;
  }

  // ---- one batch after another

  /** The window against the log of what was appended. `gone` are the batches whose rows failed
      appends took, and `whole` says none of them took the newest row. */
  ghost predicate Tracks(rows: seq<Row>, idx: seq<nat>, log: seq<Row>, gone: set<nat>, whole: bool) {
    && OffsetsRise(log) && Rows(rows, idx, log, |log|)
    && (whole ==>
          && Chain(log)
          && (log == [] || (rows != [] && rows[|rows| - 1] == log[|log| - 1]))
          && Window(rows, idx, log, gone, 0, |log|))
  }

  lemma RowsExtend(rows: seq<Row>, idx: seq<nat>, log: seq<Row>, b: Row)
    requires Rows(rows, idx, log, |log|)
    ensures Rows(rows, idx, log + [b], |log|)
  {
    hide Increasing, Distinct;
  }

  lemma StandingExtends(log: seq<Row>, b: Row, gone: set<nat>, i: nat)
    requires Standing(i, log, gone, 0, |log|)
    ensures Standing(i, log + [b], gone, 0, |log|)
  {
    var more := log + [b];
    if i + RETAINED_BATCHES < |log| && Apart(more, i) {
      assert Apart(log, i) by {
        forall x, y | i <= x < y <= i + RETAINED_BATCHES
          ensures log[x].first != log[y].first
        {
          assert more[x] == log[x] && more[y] == log[y];
        }
      }
    }
  }

  lemma TailExtends(idx: seq<nat>, log: seq<Row>, b: Row, gone: set<nat>)
    requires Tail(idx, log, gone, 0, |log|)
    ensures Tail(idx, log + [b], gone, 0, |log|)
  {
    var more, p := log + [b], |log|;
    forall j: nat | j < p <= j + RETAINED_BATCHES && more[j].epoch == more[p - 1].epoch && j !in gone && Unreplaced(more, j, p)
      ensures j in idx
    {
      forall i | j < i < p
        ensures log[i].first != log[j].first
      {
        assert more[i] == log[i];
      }
      assert Unreplaced(log, j, p);
    }
  }

  lemma WindowExtends(rows: seq<Row>, idx: seq<nat>, log: seq<Row>, gone: set<nat>, b: Row)
    requires Window(rows, idx, log, gone, 0, |log|)
    ensures Window(rows, idx, log + [b], gone, 0, |log|)
  {
    hide Rows, Tail, Standing;
    RowsExtend(rows, idx, log, b);
    TailExtends(idx, log, b, gone);
    forall k | 0 <= k < |idx|
      ensures Standing(idx[k], log + [b], gone, 0, |log|)
    {
      StandingExtends(log, b, gone, idx[k]);
    }
  }

  lemma ChainExtends(rows: seq<Row>, epochStart: int, log: seq<Row>, b: Row)
    requires Chain(log) && (log == [] || (rows != [] && rows[|rows| - 1] == log[|log| - 1]))
    requires CheckRow(rows, epochStart, b) == Append
    ensures Chain(log + [b])
  {
    var more := log + [b];
    forall i {:trigger more[i]} | 0 < i < |more|
      ensures Follows(more[i - 1], more[i])
    {
      if i < |log| {
        assert Follows(log[i - 1], log[i]);
      }
    }
  }

  lemma OffsetsExtend(log: seq<Row>, b: Row)
    requires OffsetsRise(log) && b.base >= 0 && (log != [] ==> log[|log| - 1].base < b.base)
    ensures OffsetsRise(log + [b])
  {
    var more := log + [b];
    forall i, j | 0 <= i < j < |more|
      ensures more[i].base < more[j].base
    {
      assert log[i].base <= log[|log| - 1].base;
    }
  }

  lemma AppendTracks(rows: seq<Row>, idx: seq<nat>, log: seq<Row>, gone: set<nat>, whole: bool, epochStart: int, b: Row)
    requires Tracks(rows, idx, log, gone, whole) && CheckRow(rows, epochStart, b) == Append
    requires b.base >= 0 && (log != [] ==> log[|log| - 1].base < b.base)
    ensures Tracks(Recorded(rows, b), NextIdx(rows, idx, b, |log|), log + [b], gone, whole)
  {
    hide Recorded, NextIdx, Window, CheckRow, Rows, Chain, OffsetsRise;
    var more := log + [b];
    assert more[|log|] == b && more[|more| - 1] == b;
    OffsetsExtend(log, b);
    RowsExtend(rows, idx, log, b);
    RowsStep(rows, idx, more, |log|);
    if whole {
      EndsNext(rows, idx, b, |log|);
      ChainExtends(rows, epochStart, log, b);
      WindowExtends(rows, idx, log, gone, b);
      WindowStep(rows, idx, more, gone, 0, |log|);
    }
  }

  // ---- a failed append

  ghost function Without(rows: seq<Row>, idx: seq<nat>, first: I32): seq<nat> {
    Shrunk(idx, Position(rows, first))
  }

  ghost function Taken(idx: seq<nat>, left: seq<nat>): set<nat> {
    set i | i in idx && i !in left
  }

  lemma ShrunkPlaced(rows: seq<Row>, idx: seq<nat>, log: seq<Row>, p: nat, first: I32)
    requires p <= |log| && Rows(rows, idx, log, p)
    ensures Rows(Shrunk(rows, Position(rows, first)), Without(rows, idx, first), log, p)
    ensures forall i | i in Without(rows, idx, first) :: i in idx
  {
    hide Cut, Position;
    CutPlaced(rows, idx, log, p, first);
    var k := Position(rows, first);
    var cut, cutIdx := Cut(rows, k), Cut(idx, k);
    CutLength(rows, k);
    forall a | 0 <= a < |cutIdx|
      ensures cutIdx[a] in idx
    {
      CutAt(idx, k, a);
    }
    if |cut| == RETAINED_BATCHES {
      forall a, b | 0 <= a < b < |cut| - 1
        ensures cut[1..][a].first != cut[1..][b].first && cutIdx[1..][a] < cutIdx[1..][b]
      {
        assert cut[1..][a] == cut[a + 1] && cut[1..][b] == cut[b + 1];
      }
    }
  }

  lemma ShrunkWindow(rows: seq<Row>, idx: seq<nat>, log: seq<Row>, gone: set<nat>, left: seq<nat>, leftRows: seq<Row>)
    requires Window(rows, idx, log, gone, 0, |log|) && Rows(leftRows, left, log, |log|) && forall i | i in left :: i in idx
    ensures Window(leftRows, left, log, gone + Taken(idx, left), 0, |log|)
  {
    hide Rows, Unreplaced, Apart;
    var more := gone + Taken(idx, left);
    assert Tail(left, log, more, 0, |log|);
    forall k | 0 <= k < |left|
      ensures Standing(left[k], log, more, 0, |log|)
    {
      assert left[k] in left;
      var a :| 0 <= a < |idx| && idx[a] == left[k];
      assert Standing(idx[a], log, gone, 0, |log|);
    }
    forall g | g in more
      ensures g < |log|
    {
      if g in idx {
        var a :| 0 <= a < |idx| && idx[a] == g;
        assert Standing(idx[a], log, gone, 0, |log|);
      }
    }
  }

  /** Taking the newest row breaks the chain; anything else leaves a window that knows what it lost. */
  lemma AbandonTracks(rows: seq<Row>, idx: seq<nat>, log: seq<Row>, gone: set<nat>, whole: bool, reserved: Row)
    requires Tracks(rows, idx, log, gone, whole) && reserved.base < 0
    ensures var left := Without(rows, idx, reserved.first);
            Tracks(Abandoned(rows, reserved), left, log, gone + Taken(idx, left),
                   whole && (rows == [] || rows[|rows| - 1].first != reserved.first))
  {
    hide Abandoned, Window, Chain, OffsetsRise, Without, Shrunk;
    AbandonedIs(rows, reserved);
    ShrunkPlaced(rows, idx, log, |log|, reserved.first);
    var left := Without(rows, idx, reserved.first);
    if whole && (rows == [] || rows[|rows| - 1].first != reserved.first) {
      ShrunkWindow(rows, idx, log, gone, left, Abandoned(rows, reserved));
      if rows != [] {
        AbandonKeeps(rows, reserved);
      }
    }
  }

  class Producer {
    var rows: seq<Row>
    ghost var log: seq<Row>
    ghost var idx: seq<nat>
    ghost var gone: set<nat>
    ghost var whole: bool

    ghost predicate Valid()
      reads this
    {
      Tracks(rows, idx, log, gone, whole)
    }

    constructor ()
      ensures Valid() && rows == [] && log == [] && gone == {} && whole
    {
      rows, log, idx, gone, whole := [], [], [], {}, true;
    }

    /** Five rows at most, the new one last; an older one stays unless it started at the same
        sequence or five newer rows follow it. */
    method Record(b: Row)
      modifies this`rows
      ensures rows == Recorded(old(rows), b)
      ensures 0 < |rows| <= RETAINED_BATCHES && rows[|rows| - 1] == b
      ensures Distinct(old(rows)) ==> Distinct(rows)
      ensures Distinct(old(rows)) && |old(rows)| < RETAINED_BATCHES ==>
                forall row | row in old(rows) && row.first != b.first :: row in rows
      ensures forall row | row in rows && row != b :: row in old(rows)
    {
      hide Position;
      if Distinct(rows) {
        RecordedLast(rows, b);
      }
      RecordedFrom(rows, b);
      rows := Cut(rows, Position(rows, b.first)) + [b];
      rows := Newest(rows);
    }

    /** Only the row at `first` changes, and only its offset. */
    method Stamp(first: I32, base: int)
      modifies this`rows
      ensures rows == Stamped(old(rows), first, base)
      ensures |rows| == |old(rows)|
      ensures Distinct(old(rows)) ==>
                forall k | 0 <= k < |rows| ::
                  rows[k] == if old(rows)[k].first == first then old(rows)[k].(base := base) else old(rows)[k]
    {
      var k := Position(rows, first);
      if k < |rows| {
        rows := rows[k := rows[k].(base := base)];
      }
    }

    /** A reservation at `first` goes; every other row stays. */
    method Release(first: I32)
      modifies this`rows
      ensures rows == Released(old(rows), first)
      ensures Distinct(old(rows)) ==>
                forall row :: row in rows <==> row in old(rows) && !(row.first == first && row.base < 0)
    {
      if Distinct(rows) {
        ReleasedFrom(rows, first);
      }
      var k := Position(rows, first);
      if k < |rows| && rows[k].base < 0 {
        rows := Cut(rows, k);
      }
    }

    /** The rows below `end` stay, in their order. */
    method ForgetPast(end: int)
      modifies this`rows
      ensures forall row :: row in rows <==> row in old(rows) && row.base < end
      ensures rows == Kept(old(rows), end)
    {
      rows := Kept(rows, end);
    }

    /** Check, reserve, append, and then stamp the offset or, when the append failed, release. */
    method Produce(epochStart: int, epoch: int, first: I32, lastOffsetDelta: I32, appended: Option<int>) returns (c: SequenceCheck)
      requires Valid() && lastOffsetDelta >= 0
      requires appended.Some? ==> appended.value >= 0 && (log != [] ==> log[|log| - 1].base < appended.value)
      modifies this
      ensures Valid()
      ensures c == Check(old(rows), epochStart, epoch, first, IncrementSequence(first, lastOffsetDelta))
      ensures c == Append && appended.Some? ==>
                && log == old(log) + [Row(epoch, first, IncrementSequence(first, lastOffsetDelta), appended.value)]
                && gone == old(gone) && whole == old(whole)
      ensures c == Append && appended.None? ==>
                && log == old(log) && gone == old(gone) + Taken(old(idx), idx)
                && (whole <==> old(whole) && (old(rows) == [] || old(rows)[|old(rows)| - 1].first != first))
      ensures c != Append ==> rows == old(rows) && log == old(log) && idx == old(idx) && gone == old(gone) && whole == old(whole)
    {
      hide Recorded, Stamped, Released, Abandoned, NextIdx, Window, Check, Chain, OffsetsRise, Rows, Taken, Without;
      var last := IncrementSequence(first, lastOffsetDelta);
      c := Check(rows, epochStart, epoch, first, last);
      if c != Append {
        return;
      }
      var reserved := Row(epoch, first, last, -1);
      if appended.Some? {
        ghost var b := reserved.(base := appended.value);
        assert CheckRow(rows, epochStart, b) == Append;
        AppendTracks(rows, idx, log, gone, whole, epochStart, b);
        assert Distinct(rows) by { RowsDistinct(rows, idx, log); }
        StampCompletes(rows, b, reserved);
        ghost var next := NextIdx(rows, idx, b, |log|);
        Record(reserved);
        Stamp(first, appended.value);
        log, idx := log + [b], next;
      } else {
        ghost var left := Without(rows, idx, first);
        AbandonTracks(rows, idx, log, gone, whole, reserved);
        AbandonedBy(rows, reserved);
        whole := whole && (rows == [] || rows[|rows| - 1].first != first);
        Record(reserved);
        Release(first);
        idx, gone := left, gone + Taken(idx, left);
      }
    }
  }

  lemma RowsDistinct(rows: seq<Row>, idx: seq<nat>, log: seq<Row>)
    requires Rows(rows, idx, log, |log|)
    ensures Distinct(rows)
  {
  }

  lemma AbandonedBy(rows: seq<Row>, reserved: Row)
    ensures Abandoned(rows, reserved) == Released(Recorded(rows, reserved), reserved.first)
  {
  }

  lemma RecordedFrom(rows: seq<Row>, b: Row)
    ensures forall row | row in Recorded(rows, b) && row != b :: row in rows
    ensures Distinct(rows) && |rows| < RETAINED_BATCHES ==>
              forall row | row in rows && row.first != b.first :: row in Recorded(rows, b)
  {
    hide Position;
    var k := Position(rows, b.first);
    forall row | row in rows && row.first != b.first
      ensures row in Cut(rows, k)
    {
      var a :| 0 <= a < |rows| && rows[a] == row;
      assert a < k ==> Cut(rows, k)[a] == row;
      assert a > k ==> Cut(rows, k)[a - 1] == row;
    }
  }

  lemma ReleasedFrom(rows: seq<Row>, first: I32)
    requires Distinct(rows)
    ensures forall row :: row in Released(rows, first) <==> row in rows && !(row.first == first && row.base < 0)
  {
    hide Position;
    var k := Position(rows, first);
    forall row | row in rows && row.first != first
      ensures row in Cut(rows, k)
    {
      var a :| 0 <= a < |rows| && rows[a] == row;
      assert a < k ==> Cut(rows, k)[a] == row;
      assert a > k ==> Cut(rows, k)[a - 1] == row;
    }
    NotBefore(rows, first);
  }

  // ---- what a resend is told

  /** A resend of one of the newest five batches of the epoch is recognised, and answered with its
      offset, exactly when no later batch started at its first sequence and no failed append took
      its row. */
  lemma NewestFiveAreDuplicates(rows: seq<Row>, idx: seq<nat>, log: seq<Row>, gone: set<nat>, epochStart: int, j: nat)
    requires Tracks(rows, idx, log, gone, true)
    requires j < |log| <= j + RETAINED_BATCHES && log[j].epoch == log[|log| - 1].epoch
    ensures CheckRow(rows, epochStart, log[j]) == Duplicate(log[j].base)
            <==> j !in gone && forall i | j < i < |log| :: log[i].first != log[j].first
  {
    hide Chain, Recent;
    var dup := FindBatch(rows, log[j].epoch, log[j].first, log[j].last);
    if dup.Some? {
      var a :| 0 <= a < |rows| && rows[a] == dup.value;
      assert Standing(idx[a], log, gone, 0, |log|);
    }
    if j !in gone && Unreplaced(log, j, |log|) {
      var k :| 0 <= k < |idx| && idx[k] == j;
      assert rows[k] == log[j];
    }
  }

  /** Which is always, while the newest batches span fewer than 2^31 sequences and no append
      failed. */
  lemma NarrowSpanKeepsFive(rows: seq<Row>, idx: seq<nat>, log: seq<Row>, epochStart: int, j: nat)
    requires Tracks(rows, idx, log, {}, true)
    requires j < |log| <= j + RETAINED_BATCHES && log[j].epoch == log[|log| - 1].epoch && Span(log, j, |log| - 1) < TWO31
    ensures CheckRow(rows, epochStart, log[j]) == Duplicate(log[j].base)
  {
    hide CheckRow, Window;
    forall i | j < i < |log|
      ensures log[i].first != log[j].first
    {
      SameEpochBetween(log, j, i, |log| - 1);
      SpanIsDistance(log, j, i);
      SpanGrows(log, j, i, |log| - 1);
    }
    NewestFiveAreDuplicates(rows, idx, log, {}, epochStart, j);
  }

  lemma {:induction false} SpanGrows(log: seq<Row>, i: nat, j: nat, k: nat)
    requires i <= j <= k <= |log|
    ensures Span(log, i, j) <= Span(log, i, k)
    decreases k - j
  {
    if j < k {
      SpanGrows(log, i, j, k - 1);
    }
  }

  /** A wider span can lose one: the second batch takes the row of the first. */
  lemma WideSpanLosesOne()
    ensures var a, b := Row(0, 0, I32_MAX, 0), Row(0, 0, 2, TWO31);
            && CheckRow([], 0, a) == Append && CheckRow([a], 0, b) == Append
            && Span([a, b], 0, 1) == TWO31
            && CheckRow(Recorded([a], b), 0, a) == OutOfOrder(3, 0)
  {
    var a, b := Row(0, 0, I32_MAX, 0), Row(0, 0, 2, TWO31);
    assert FindBatch([a][1..], 0, 0, 2) == None;
    assert Recorded([a], b) == [b];
    assert FindBatch([b][1..], 0, 0, I32_MAX) == None;
    assert Span([a, b], 0, 0) == 0;
  }
}
