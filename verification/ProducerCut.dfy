/** The log cut back to an end: what the window then answers, and when the lost batches are
    accepted again. */
module ProducerCut {
  import opened Common
  import opened ProducerWindow
  import opened ProducerRuns

  /** No answer names an offset at or past the end. */
  lemma ForgetsPast(rows: seq<Row>, end: int, epochStart: int, b: Row)
    ensures var c := CheckRow(Kept(rows, end), epochStart, b);
            c.Duplicate? ==> c.baseOffset < end
  {
  }

  /** The log's first `c` batches are the ones below `end`. */
  ghost predicate CutAtEnd(log: seq<Row>, end: int, c: nat) {
    c <= |log| && forall i | 0 <= i < |log| :: log[i].base < end <==> i < c
  }

  lemma {:induction false} KeptPrefix(rows: seq<Row>, end: int, n: nat)
    requires n <= |rows| && forall k | 0 <= k < |rows| :: rows[k].base < end <==> k < n
    ensures Kept(rows, end) == rows[..n]
  {
    if rows != [] {
      KeptPrefix(rows[1..], end, if n == 0 then 0 else n - 1);
    }
  }

  lemma CountBelow(idx: seq<nat>, c: nat) returns (n: nat)
    requires Increasing(idx)
    ensures n <= |idx| && forall k | 0 <= k < |idx| :: idx[k] < c <==> k < n
  {
    n := 0;
    while n < |idx| && idx[n] < c
      invariant n <= |idx| && forall k | 0 <= k < n :: idx[k] < c
    {
      n := n + 1;
    }
  }

  /** What is left is a window on what is left of the log. */
  lemma ForgottenWindow(rows: seq<Row>, idx: seq<nat>, log: seq<Row>, gone: set<nat>, end: int, c: nat) returns (left: seq<nat>)
    requires Window(rows, idx, log, gone, 0, |log|) && CutAtEnd(log, end, c) && forall g | g in gone :: g < c
    ensures Window(Kept(rows, end), left, log, gone, c, c) && left <= idx
  {
    var n := CountBelow(idx, c);
    KeptPrefix(rows, end, n);
    left := idx[..n];
    assert Rows(rows[..n], left, log, c) by { PrefixPlaced(rows, idx, log, c, n); }
    forall k | 0 <= k < n
      ensures Standing(left[k], log, gone, c, c)
    {
      assert Standing(idx[k], log, gone, 0, |log|);
    }
  }

  lemma PrefixPlaced(rows: seq<Row>, idx: seq<nat>, log: seq<Row>, c: nat, n: nat)
    requires c <= |log| && Rows(rows, idx, log, |log|) && n <= |idx| && forall k | 0 <= k < n :: idx[k] < c
    ensures Rows(rows[..n], idx[..n], log, c)
  {
  }

  /** From batch `lo` on, where the oldest row stands, no failed append took a row, and windows span
      few enough sequences. */
  ghost predicate Clear(idx: seq<nat>, log: seq<Row>, gone: set<nat>, lo: nat) {
    (forall i | i in idx :: lo <= i) && (forall g | g in gone :: g < lo) && Spaced(log, lo)
  }

  // ---- resending what was lost

  /** From the `p`th on, each is accepted and recorded. */
  ghost predicate AllAccepted(rows: seq<Row>, epochStart: int, log: seq<Row>, p: nat)
    decreases |log| - p
  {
    p < |log| ==> CheckRow(rows, epochStart, log[p]) == Append && AllAccepted(Recorded(rows, log[p]), epochStart, log, p + 1)
  }

  /** Nothing from before the cut is retained, or the last batch before it is, or the first lost
      batch starts at zero in a later epoch than any retained. */
  ghost predicate Resumes(rows: seq<Row>, log: seq<Row>, c: nat)
    requires c < |log|
  {
    || rows == []
    || (c > 0 && log[c - 1] in rows)
    || (log[c].first == 0 && rows[|rows| - 1].epoch < log[c].epoch)
  }

  /** A row of the next batch's epoch is one of the five before it. */
  lemma RowIsNear(rows: seq<Row>, idx: seq<nat>, log: seq<Row>, gone: set<nat>, lo: nat, c: nat, p: nat, k: nat)
    requires Window(rows, idx, log, gone, c, p) && Clear(idx, log, gone, lo) && Chain(log)
    requires p < |log| && k < |rows| && rows[k].epoch == log[p].epoch
    ensures p <= idx[k] + RETAINED_BATCHES
  {
    hide Tail, Chain, Distinct;
    var i := idx[k];
    if i + RETAINED_BATCHES < p {
      assert i in idx && Standing(i, log, gone, c, p);
      SameEpochBetween(log, i, i + RETAINED_BATCHES, p);
      AreApart(log, lo, i);
    }
  }

  lemma AreApart(log: seq<Row>, lo: nat, i: nat)
    requires Chain(log) && Spaced(log, lo) && lo <= i && i + RETAINED_BATCHES < |log| && log[i].epoch == log[i + RETAINED_BATCHES].epoch
    ensures Apart(log, i)
  {
    hide Chain;
    forall a, b | i <= a < b <= i + RETAINED_BATCHES
      ensures log[a].first != log[b].first
    {
      SameEpochBetween(log, i, a, i + RETAINED_BATCHES);
      SameEpochBetween(log, i, b, i + RETAINED_BATCHES);
    }
  }

  lemma NoDuplicate(rows: seq<Row>, idx: seq<nat>, log: seq<Row>, gone: set<nat>, lo: nat, c: nat, p: nat)
    requires Window(rows, idx, log, gone, c, p) && Clear(idx, log, gone, lo) && Chain(log) && p < |log|
    ensures FindBatch(rows, log[p].epoch, log[p].first, log[p].last).None?
  {
    hide Window, Chain;
    var dup := FindBatch(rows, log[p].epoch, log[p].first, log[p].last);
    if dup.Some? {
      var k :| 0 <= k < |rows| && rows[k] == dup.value;
      RowIsNear(rows, idx, log, gone, lo, c, p, k);
      RowAt(rows, idx, log, gone, c, p, k);
    }
  }

  lemma RowAt(rows: seq<Row>, idx: seq<nat>, log: seq<Row>, gone: set<nat>, c: nat, p: nat, k: nat)
    requires Window(rows, idx, log, gone, c, p) && k < |rows|
    ensures k < |idx| && idx[k] < p <= |log| && rows[k] == log[idx[k]] && idx[k] in idx
  {
  }

  lemma AcceptedNext(rows: seq<Row>, idx: seq<nat>, log: seq<Row>, gone: set<nat>, lo: nat, c: nat, p: nat, epochStart: int)
    requires Window(rows, idx, log, gone, c, p) && Clear(idx, log, gone, lo) && Chain(log) && 0 < p < |log|
    requires rows != [] && rows[|rows| - 1] == log[p - 1]
    ensures CheckRow(rows, epochStart, log[p]) == Append
  {
    hide Window, Clear;
    assert Follows(log[p - 1], log[p]);
    NoDuplicate(rows, idx, log, gone, lo, c, p);
  }

  lemma ClearStep(rows: seq<Row>, idx: seq<nat>, log: seq<Row>, gone: set<nat>, lo: nat, p: nat)
    requires Clear(idx, log, gone, lo) && p < |log| && lo <= p && |rows| == |idx|
    ensures Clear(NextIdx(rows, idx, log[p], p), log, gone, lo)
  {
    hide NextIdx, Spaced;
    forall i | i in NextIdx(rows, idx, log[p], p)
      ensures lo <= i
    {
      NextIdxFrom(rows, idx, log[p], p, i);
    }
  }

  /** Once one has been accepted, so are the rest. */
  lemma {:induction false} AcceptedOn(rows: seq<Row>, idx: seq<nat>, log: seq<Row>, gone: set<nat>, lo: nat, c: nat, p: nat, epochStart: int)
    requires Window(rows, idx, log, gone, c, p) && Clear(idx, log, gone, lo) && Chain(log) && lo <= p && 0 < p <= |log|
    requires |rows| == |idx| && rows != [] && rows[|rows| - 1] == log[p - 1]
    ensures AllAccepted(rows, epochStart, log, p)
    decreases |log| - p
  {
    hide Window, Clear, Chain, Recorded, NextIdx, CheckRow;
    if p < |log| {
      AcceptedNext(rows, idx, log, gone, lo, c, p, epochStart);
      AcceptStep(rows, idx, log, gone, lo, c, p);
      AcceptedOn(Recorded(rows, log[p]), NextIdx(rows, idx, log[p], p), log, gone, lo, c, p + 1, epochStart);
    }
  }

  lemma AcceptStep(rows: seq<Row>, idx: seq<nat>, log: seq<Row>, gone: set<nat>, lo: nat, c: nat, p: nat)
    requires Window(rows, idx, log, gone, c, p) && Clear(idx, log, gone, lo) && Chain(log) && lo <= p < |log|
    ensures var rows', idx' := Recorded(rows, log[p]), NextIdx(rows, idx, log[p], p);
            && Window(rows', idx', log, gone, c, p + 1) && Clear(idx', log, gone, lo)
            && |rows'| == |idx'| && rows' != [] && rows'[|rows'| - 1] == log[p]
  {
    hide Clear, Chain, Recorded, NextIdx, Tail, Standing;
    WindowStep(rows, idx, log, gone, c, p);
    ClearStep(rows, idx, log, gone, lo, p);
    EndsNext(rows, idx, log[p], p);
  }

  lemma LastBeforeCut(rows: seq<Row>, idx: seq<nat>, log: seq<Row>, gone: set<nat>, c: nat)
    requires Window(rows, idx, log, gone, c, c) && OffsetsRise(log) && 0 < c < |log| && log[c - 1] in rows
    ensures rows[|rows| - 1] == log[c - 1]
  {
    hide Tail, Standing, Distinct;
    var k :| 0 <= k < |rows| && rows[k] == log[c - 1];
    assert log[idx[k]].base == log[c - 1].base;
    assert idx[k] == c - 1;
    if k < |rows| - 1 {
      assert idx[k] < idx[|rows| - 1];
    }
  }

  /** The first lost batch. */
  lemma FirstAccepted(rows: seq<Row>, idx: seq<nat>, log: seq<Row>, gone: set<nat>, lo: nat, c: nat, epochStart: int)
    requires Window(rows, idx, log, gone, c, c) && Clear(idx, log, gone, lo) && Chain(log) && OffsetsRise(log) && c < |log|
    ensures CheckRow(rows, epochStart, log[c]) == Append <==> Resumes(rows, log, c)
  {
    hide Window, Clear, OffsetsRise, Chain;
    if rows != [] {
      var last := |rows| - 1;
      RowAt(rows, idx, log, gone, c, c, last);
      var i := idx[last];
      EpochsRise(log, i, c);
      NoDuplicate(rows, idx, log, gone, lo, c, c);
      if log[c - 1] in rows {
        LastBeforeCut(rows, idx, log, gone, c);
        AcceptedNext(rows, idx, log, gone, lo, c, c, epochStart);
      } else if rows[last].epoch == log[c].epoch && InSequence(rows[last].last, log[c].first) {
        NotInSequence(rows, idx, log, gone, lo, c);
      }
    }
  }

  /** An older row than the last one before the cut is not in sequence with the lost batch. */
  lemma NotInSequence(rows: seq<Row>, idx: seq<nat>, log: seq<Row>, gone: set<nat>, lo: nat, c: nat)
    requires Window(rows, idx, log, gone, c, c) && Clear(idx, log, gone, lo) && Chain(log)
    requires 0 < c < |log| && rows != [] && log[c - 1] !in rows && rows[|rows| - 1].epoch == log[c].epoch
    ensures !InSequence(rows[|rows| - 1].last, log[c].first)
  {
    hide Window;
    var last := |rows| - 1;
    RowAt(rows, idx, log, gone, c, c, last);
    RowIsNear(rows, idx, log, gone, lo, c, c, last);
    var i := idx[last];
    SameEpochBetween(log, i, i + 1, c);
    assert Follows(log[i], log[i + 1]);
    assert log[i + 1].first != log[c].first;
  }

  /** The same sequences, whatever offsets they get this time. */
  ghost predicate Resent(log: seq<Row>, again: seq<Row>, c: nat) {
    && c <= |log| == |again| && again[..c] == log[..c]
    && forall i | 0 <= i < |log| :: again[i].epoch == log[i].epoch && again[i].first == log[i].first && again[i].last == log[i].last
  }

  lemma ResentChain(log: seq<Row>, again: seq<Row>, c: nat, lo: nat)
    requires Resent(log, again, c) && Chain(log)
    ensures Chain(again) && (Spaced(log, lo) ==> Spaced(again, lo))
  {
    forall i {:trigger again[i]} | 0 < i < |again|
      ensures Follows(again[i - 1], again[i])
    {
      assert Follows(log[i - 1], log[i]);
    }
  }

  lemma ResentStands(log: seq<Row>, again: seq<Row>, gone: set<nat>, c: nat, i: nat)
    requires Resent(log, again, c) && Standing(i, log, gone, c, c)
    ensures Standing(i, again, gone, c, c)
  {
    forall x | i < x < c
      ensures again[x].first != again[i].first
    {
      assert log[x].first != log[i].first;
    }
    if i + RETAINED_BATCHES < |log| && Apart(again, i) {
      forall x, y | i <= x < y <= i + RETAINED_BATCHES
        ensures log[x].first != log[y].first
      {
        assert again[x].first != again[y].first;
      }
      assert Apart(log, i);
    }
  }

  lemma ResentKeeps(rows: seq<Row>, idx: seq<nat>, log: seq<Row>, gone: set<nat>, again: seq<Row>, c: nat)
    requires Resent(log, again, c) && Window(rows, idx, log, gone, c, c)
    ensures Window(rows, idx, again, gone, c, c)
  {
    hide Increasing, Distinct, Standing;
    forall i | 0 <= i < c
      ensures again[i] == log[i]
    {
      assert again[..c][i] == log[..c][i];
    }
    forall k | 0 <= k < |idx|
      ensures Standing(idx[k], again, gone, c, c)
    {
      ResentStands(log, again, gone, c, idx[k]);
    }
  }

  /** After the cut, resending the lost batches in order is accepted at every step exactly when the
      window resumes there. */
  lemma ResendIsAccepted(rows: seq<Row>, idx: seq<nat>, log: seq<Row>, gone: set<nat>, lo: nat, again: seq<Row>, end: int, c: nat, epochStart: int)
    requires Tracks(rows, idx, log, gone, true) && Clear(idx, log, gone, lo) && CutAtEnd(log, end, c) && lo <= c < |log|
    requires Resent(log, again, c) && OffsetsRise(again)
    ensures AllAccepted(Kept(rows, end), epochStart, again, c) <==> Resumes(Kept(rows, end), log, c)
  {
    hide Window, Chain, Recorded, NextIdx, CheckRow, OffsetsRise, CutAtEnd, Rows, Clear;
    var left := ResendStarts(rows, idx, log, gone, lo, again, end, c);
    var kept := Kept(rows, end);
    FirstAccepted(kept, left, again, gone, lo, c, epochStart);
    assert c > 0 ==> again[c - 1] == again[..c][c - 1] == log[..c][c - 1] == log[c - 1];
    if CheckRow(kept, epochStart, again[c]) == Append {
      AcceptStep(kept, left, again, gone, lo, c, c);
      AcceptedOn(Recorded(kept, again[c]), NextIdx(kept, left, again[c], c), again, gone, lo, c, c + 1, epochStart);
    }
  }

  lemma ResendStarts(rows: seq<Row>, idx: seq<nat>, log: seq<Row>, gone: set<nat>, lo: nat, again: seq<Row>, end: int, c: nat)
    returns (left: seq<nat>)
    requires Tracks(rows, idx, log, gone, true) && Clear(idx, log, gone, lo) && CutAtEnd(log, end, c) && lo <= c < |log|
    requires Resent(log, again, c)
    ensures Window(Kept(rows, end), left, again, gone, c, c) && Clear(left, again, gone, lo) && Chain(again)
  {
    hide Window, Chain, OffsetsRise, CutAtEnd, Rows, Spaced;
    left := ForgottenWindow(rows, idx, log, gone, end, c);
    ResentKeeps(Kept(rows, end), left, log, gone, again, c);
    ResentChain(log, again, c, lo);
    forall i | i in left
      ensures lo <= i
    {
      assert i in idx;
    }
  }

  /** In particular when no later epoch began after the cut. */
  lemma OneEpochResumes(rows: seq<Row>, idx: seq<nat>, log: seq<Row>, gone: set<nat>, lo: nat, end: int, c: nat)
    requires Tracks(rows, idx, log, gone, true) && Clear(idx, log, gone, lo) && CutAtEnd(log, end, c) && lo <= c < |log|
    requires c > 0 ==> log[c - 1].epoch == log[|log| - 1].epoch
    ensures Resumes(Kept(rows, end), log, c)
  {
    hide Chain, Clear, OffsetsRise, Window, CutAtEnd, Rows;
    if Kept(rows, end) != [] {
      var row := Kept(rows, end)[0];
      assert row in Kept(rows, end);
      KeptBelow(rows, idx, log, gone, lo, end, c, row);
      if |log| < c + RETAINED_BATCHES {
        JustBelow(rows, idx, log, gone, lo, end, c);
      } else {
        AllPast(rows, idx, log, gone, lo, end, c);
      }
    }
  }

  lemma KeptBelow(rows: seq<Row>, idx: seq<nat>, log: seq<Row>, gone: set<nat>, lo: nat, end: int, c: nat, row: Row)
    requires Window(rows, idx, log, gone, 0, |log|) && Clear(idx, log, gone, lo) && CutAtEnd(log, end, c) && row in Kept(rows, end)
    ensures lo < c
  {
    hide Tail, Spaced, Standing;
    assert row in rows;
    var k :| 0 <= k < |rows| && rows[k] == row;
    assert idx[k] in idx;
  }

  lemma JustBelow(rows: seq<Row>, idx: seq<nat>, log: seq<Row>, gone: set<nat>, lo: nat, end: int, c: nat)
    requires Window(rows, idx, log, gone, 0, |log|) && Clear(idx, log, gone, lo) && Chain(log) && CutAtEnd(log, end, c)
    requires lo < c < |log| < c + RETAINED_BATCHES && log[c - 1].epoch == log[|log| - 1].epoch
    ensures log[c - 1] in Kept(rows, end)
  {
    hide Chain, Standing, Increasing, Distinct;
    var j := c - 1;
    forall i | j < i < |log|
      ensures log[i].first != log[j].first
    {
      SameEpochBetween(log, j, i, |log| - 1);
    }
    assert Unreplaced(log, j, |log|) && j !in gone;
    assert j in idx;
    var k :| 0 <= k < |idx| && idx[k] == j;
    assert rows[k] == log[j];
  }

  lemma AllPast(rows: seq<Row>, idx: seq<nat>, log: seq<Row>, gone: set<nat>, lo: nat, end: int, c: nat)
    requires Window(rows, idx, log, gone, 0, |log|) && Clear(idx, log, gone, lo) && Chain(log) && CutAtEnd(log, end, c)
    requires lo <= c && 0 < c && c + RETAINED_BATCHES <= |log| && log[c - 1].epoch == log[|log| - 1].epoch
    ensures Kept(rows, end) == []
  {
    hide Chain, Tail, Standing, Distinct, Spaced;
    assert idx != [] && idx[0] >= c by {
      OldestRow(idx, log, gone, lo, c);
    }
    KeptPrefix(rows, end, 0);
  }

  lemma OldestRow(idx: seq<nat>, log: seq<Row>, gone: set<nat>, lo: nat, c: nat)
    requires Chain(log) && Tail(idx, log, gone, 0, |log|) && Clear(idx, log, gone, lo) && Increasing(idx) && |idx| <= RETAINED_BATCHES
    requires lo <= c && 0 < c && c + RETAINED_BATCHES <= |log| && log[c - 1].epoch == log[|log| - 1].epoch
    ensures idx != [] && idx[0] >= c
  {
    hide Chain;
    var p := |log|;
    var i := p - RETAINED_BATCHES;
    forall j: nat | i <= j <= i + 4
      ensures j in idx
    {
      SameEpochBetween(log, c - 1, j, p - 1);
      forall x | j < x < p
        ensures log[x].first != log[j].first
      {
        SameEpochBetween(log, c - 1, x, p - 1);
      }
      assert Unreplaced(log, j, p) && j !in gone;
    }
    assert i in idx;
    var a :| 0 <= a < |idx| && idx[a] == i;
    RunFits(idx, a, i, 4);
  }

  lemma AcceptsNew(rows: seq<Row>, log: seq<Row>, p: nat)
    requires p < |log| && |rows| < RETAINED_BATCHES && forall row | row in rows :: row.first != log[p].first
    requires CheckRow(rows, 0, log[p]) == Append && AllAccepted(rows + [log[p]], 0, log, p + 1)
    ensures AllAccepted(rows, 0, log, p)
  {
    hide CheckRow;
    assert Recorded(rows, log[p]) == rows + [log[p]];
  }

  // ---- a run that ends badly: two epochs, the second cut off whole

  const B := Row(0, 3, 5, 0)
  const C := Row(0, 6, 8, 3)
  const X := Row(0, 9, 11, 6)
  const D := Row(1, 0, 5, 9)
  const E := Row(1, 6, 8, 15)

  lemma RunIsAccepted()
    ensures AllAccepted([], 0, [B, C, X, D, E], 0)
  {
    hide AllAccepted;
    var log := [B, C, X, D, E];
    AcceptsLast([B, C, X, D], log);
    assert [B, C, X] + [D] == [B, C, X, D] && [B, C] + [X] == [B, C, X] && [B] + [C] == [B, C] && [] + [B] == [B];
    AcceptsNew([B, C, X], log, 3);
    AcceptsNew([B, C], log, 2);
    AcceptsNew([B], log, 1);
    AcceptsNew([], log, 0);
  }

  lemma RunReplaces()
    ensures Recorded([B, C, X, D], E) == [B, X, D, E]
  {
    assert Position([B, C, X, D], 6) == 1 by {
      assert [B, C, X, D][1..] == [C, X, D];
    }
    assert Cut([B, C, X, D], 1) == [B, X, D];
  }

  /** It can fail: a later epoch's batch replaced the one just below the cut, and was lost. */
  lemma ResendCanBeRefused()
    ensures AllAccepted([], 0, [B, C, X, D, E], 0)
    ensures Recorded([B, C, X, D], E) == [B, X, D, E]
    ensures CheckRow(Kept([B, X, D, E], 6), 0, X) == OutOfOrder(6, 9)
  {
    hide AllAccepted, Recorded;
    RunIsAccepted();
    RunReplaces();
    KeptPrefix([B, X, D, E], 6, 1);
    assert [B, X, D, E][..1] == [B];
    assert FindBatch([B], 0, 9, 11) == None;
  }

  lemma AcceptsLast(rows: seq<Row>, log: seq<Row>)
    requires log != [] && CheckRow(rows, 0, log[|log| - 1]) == Append
    ensures AllAccepted(rows, 0, log, |log| - 1)
  {
  }
}
