/** One drain from peek to slot advance, and the worker that runs drains for ever, with a crash
    possible between any two steps. */
module CdcWorker {
  import opened Common
  import opened CdcStream
  import opened CdcWorld
  import opened CdcDb
  import opened CdcRuns
  import opened CdcDrain
  import opened CdcWal

  /** The transaction being read: `prev` is the end of the one before it in this peek. */
  datatype Open = Open(end: Lsn, prev: Option<Lsn>, count: nat, sum: Summary)

  /** How many elements a lane is owed of the first `t` transactions and, of the next, the first
      `r` rows. */
  ghost function Owed(c: Config, wal: seq<Txn>, src: Source, t: nat, r: nat): nat
    requires t <= |wal| && (t < |wal| ==> r <= |wal[t].rows|)
  {
    |LaneItems(c, wal[..t], src)|
    + if t < |wal| && src.Table? then |ChangeItems(wal[t].end, wal[t].rows[..r], src)| else 0
  }

  ghost predicate OwedAll(c: Config, wal: seq<Txn>, got: seq<nat>, t: nat, r: nat)
    requires t <= |wal| && (t < |wal| ==> r <= |wal[t].rows|)
  {
    |got| == |c.sources| && forall i | 0 <= i < |got| :: got[i] == Owed(c, wal, c.sources[i], t, r)
  }

  /** With the first `t` transactions read, every lane has been offered all that ends by then. */
  lemma ReadIsScanned(c: Config, wal: seq<Txn>, got: seq<nat>, t: nat, r: nat)
    requires GoodConfig(c) && GoodWal(wal) && 0 < t <= |wal| && (t < |wal| ==> r <= |wal[t].rows|)
    requires |got| == |c.sources|
    requires forall i | 0 <= i < |got| :: got[i] >= |LaneItems(c, wal[..t], c.sources[i])|
    ensures ScannedTo(FeedOf(c, wal), got, wal[t - 1].end)
  {
    var f := FeedOf(c, wal);
    forall j, k | 0 <= j < |f.items| && 0 <= k < |f.items[j]| && f.items[j][k].pos.end <= wal[t - 1].end
      ensures k < got[j]
    {
      LaneSplit(c, wal, t, c.sources[j], k);
    }
  }

  /** With the slot held where the previous transaction ended, nothing still to be taken is lost. */
  lemma PrevHolds(c: Config, wal: seq<Txn>, got: seq<nat>, t: nat, lane: nat, hold: Option<Lsn>)
    requires GoodConfig(c) && GoodWal(wal) && t <= |wal| && |got| == |c.sources| && lane < |got|
    requires forall i | 0 <= i < |got| :: got[i] >= |LaneItems(c, wal[..t], c.sources[i])|
    requires hold.None? || (t > 0 && hold == Some(wal[t - 1].end))
    ensures HoldOK(FeedOf(c, wal), got, FeedOf(c, wal).items[lane], hold, got[lane])
  {
    if hold.Some? {
      ReadIsScanned(c, wal, got, t, 0);
    }
  }

  /** Once a transaction's rows are read, every table lane has been offered all of it. */
  lemma TablesRead(c: Config, wal: seq<Txn>, got: seq<nat>, t: nat)
    requires GoodConfig(c) && GoodWal(wal) && t < |wal| && |got| == |c.sources|
    requires forall i | 0 <= i < |got| && c.sources[i].Table? :: got[i] >= Owed(c, wal, c.sources[i], t, |wal[t].rows|)
    ensures TablesScanned(FeedOf(c, wal), got, wal[t].end)
  {
    var f := FeedOf(c, wal);
    assert wal[t].rows[..|wal[t].rows|] == wal[t].rows;
    forall j, k | 0 <= j < |f.items| && !f.summary[j] && 0 <= k < |f.items[j]| && f.items[j][k].pos.end <= wal[t].end
      ensures k < got[j]
    {
      LaneSplit(c, wal, t + 1, c.sources[j], k);
      assert wal[..t + 1][..t] == wal[..t];
    }
  }

  /** A row's own element, when it routes to a lane. */
  lemma RowItem(c: Config, wal: seq<Txn>, t: nat, r: nat, src: Source)
    requires t < |wal| && r < |wal[t].rows|
    ensures Routes(src, wal[t].rows[r]) ==>
              && Owed(c, wal, src, t, r + 1) == Owed(c, wal, src, t, r) + 1
              && Owed(c, wal, src, t, r) < |LaneItems(c, wal, src)|
              && LaneItems(c, wal, src)[Owed(c, wal, src, t, r)]
                 == Item(Pos(wal[t].end, Changes(wal[t].rows[..r]) + 1), wal[t].rows[r].cols,
                         ElementText(wal[t].rows[r].lsnText, wal[t].rows[r].data))
    ensures !Routes(src, wal[t].rows[r]) ==> Owed(c, wal, src, t, r + 1) == Owed(c, wal, src, t, r)
  {
    hide LaneItems, ChangeItems, Changes, ElementText;
    var rows := wal[t].rows;
    ChangeStep(wal[t].end, rows, r, src);
    if Routes(src, rows[r]) {
      ChangePrefix(wal[t].end, rows, r + 1, src);
      LaneAt(c, wal, t, src, |ChangeItems(wal[t].end, rows[..r], src)|);
    }
  }

  lemma NextRow(xid: Option<int>, rows: seq<Row>, r: nat, counting: bool)
    requires r < |rows|
    ensures Changes(rows[..r + 1]) == Changes(rows[..r]) + if rows[r].Change? then 1 else 0
    ensures SummaryOf(xid, rows[..r + 1], counting)
            == if rows[r].Change? then Note(SummaryOf(xid, rows[..r], counting), rows[r], counting)
               else SummaryOf(xid, rows[..r], counting)
  {
    assert rows[..r + 1][..r] == rows[..r];
  }

  lemma {:induction false} EventsAreChanges(xid: Option<int>, rows: seq<Row>, counting: bool)
    ensures SummaryOf(xid, rows, counting).events == Changes(rows)
  {
    if rows != [] {
      EventsAreChanges(xid, rows[..|rows| - 1], counting);
    }
  }

  /** The read of one peek: what `stream` keeps beside the drain itself. */
  class Scan {
    const d: Drain
    const config: Config
    ghost const wal: seq<Txn>
    /** The peek began after the first `start` transactions. */
    ghost const start: nat
    var high: Option<Lsn>
    var lastEnd: Option<Lsn>
    var txn: Option<Open>

    ghost predicate Base()
      reads this, d, d.db
    {
      && d.Valid()
      && GoodConfig(config) && GoodWal(wal) && start <= |wal|
      && d.db.feed == FeedOf(config, wal)
      && |d.lanes| == |config.sources|
    }

    /** Between transactions, with the first `t` read. */
    ghost predicate Between(t: nat)
      reads this, d, d.db
    {
      && Base() && start <= t <= |wal|
      && txn.None?
      && OwedAll(config, wal, d.got, t, 0)
      && high == lastEnd == if t > start then Some(wal[t - 1].end) else None
    }

    /** Inside transaction `t`, with its first `r` rows read. */
    ghost predicate Inside(t: nat, r: nat)
      reads this, d, d.db
    {
      && Base() && start <= t < |wal| && r <= |wal[t].rows|
      && Opened(t, r)
      && OwedAll(config, wal, d.got, t, r)
    }

    ghost predicate Opened(t: nat, r: nat)
      reads this
      requires start <= t < |wal| && r <= |wal[t].rows|
    {
      && high.Some? && high.value <= wal[t].end
      && lastEnd == (if t > start then Some(wal[t - 1].end) else None)
      && txn == Some(Open(wal[t].end, lastEnd, Changes(wal[t].rows[..r]),
                          SummaryOf(wal[t].xid, wal[t].rows[..r], Counting(config))))
    }

    constructor (d: Drain, config: Config, ghost wal: seq<Txn>, ghost start: nat)
      requires d.Valid() && GoodConfig(config) && GoodWal(wal) && start <= |wal|
      requires d.db.feed == FeedOf(config, wal) && |d.lanes| == |config.sources|
      requires OwedAll(config, wal, d.got, start, 0)
      ensures Between(start) && this.d == d && this.config == config && this.wal == wal && this.start == start
    {
      this.d := d;
      this.config := config;
      this.wal := wal;
      this.start := start;
      high := None;
      lastEnd := None;
      txn := None;
    }

    method See(lsn: Lsn)
      modifies this`high
      ensures high == Some(if old(high).Some? && old(high).value >= lsn then old(high).value else lsn)
    {
      high := if high.Some? && high.value >= lsn then high else Some(lsn);
    }

    method OnBegin(begin: Lsn, end: Lsn, xid: Option<int>, ghost t: nat)
      requires Between(t) && t < |wal| && begin == wal[t].begin && end == wal[t].end && xid == wal[t].xid
      modifies this
      ensures Inside(t, 0)
    {
      hide Owed, LaneItems, FeedOf, Drain.Valid;
      assert GoodTxn(wal[t]);
      assert wal[t].rows[..0] == [];
      See(begin);
      txn := Some(Open(end, lastEnd, 0, Empty(xid)));
    }

    /** The steps since have only added to the history; if none failed, no lane has stopped. */
    twostate predicate Calm()
      reads d, d.db
    {
      && old(d.db.trace) <= d.db.trace
      && d.streaming == old(d.streaming)
      && |d.lanes| == |old(d.lanes)|
      && d.db.failures >= old(d.db.failures)
      && (d.db.failures == old(d.db.failures) && (forall j | 0 <= j < |d.lanes| :: old(d.lanes)[j].stopped.None?)
          ==> forall j | 0 <= j < |d.lanes| :: d.lanes[j].stopped.None?)
    }

    /** A change goes to every lane mapped to its table. */
    method OnChange(row: Row, ghost t: nat, ghost r: nat)
      requires Inside(t, r) && r < |wal[t].rows| && row == wal[t].rows[r] && row.Change?
      modifies this, d, d.db
      ensures Inside(t, r + 1) && Calm()
    {
      hide Owed, LaneItems, FeedOf, Drain.Valid, HoldOK, GoodConfig, SummaryOf, Changes;
      assert GoodTxn(wal[t]);
      NextRow(wal[t].xid, wal[t].rows, r, Counting(config));
      See(row.lsn);
      var o := txn.value;
      o := o.(count := o.count + 1, sum := Note(o.sum, row, Counting(config)));
      txn := Some(o);
      RouteAll(row, Pos(o.end, o.count), o.prev, t, r);
    }

    method RouteAll(row: Row, pos: Pos, prev: Option<Lsn>, ghost t: nat, ghost r: nat)
      requires Base() && start <= t < |wal| && r < |wal[t].rows| && row == wal[t].rows[r] && row.Change?
      requires OwedAll(config, wal, d.got, t, r)
      requires pos == Pos(wal[t].end, Changes(wal[t].rows[..r]) + 1)
      requires prev == if t > start then Some(wal[t - 1].end) else None
      modifies d, d.db
      ensures Base() && Calm() && OwedAll(config, wal, d.got, t, r + 1)
    {
      hide Owed, LaneItems, HoldOK, SummaryOf, Changes, GoodWal, GoodConfig, TablesScanned, Drain.Valid;
      for lane := 0 to |config.sources|
        invariant Base() && Calm()
        invariant |d.got| == |config.sources|
        invariant forall i | 0 <= i < |d.got| ::
                    d.got[i] == Owed(config, wal, config.sources[i], t, if i < lane then r + 1 else r)
      {
        var src := config.sources[lane];
        RowItem(config, wal, t, r, src);
        if Routes(src, row) {
          OfferReady(config, wal, d.got, t, r, lane, prev);
          LanesMatch(d, config, wal);
          var _ := d.Offer(lane, pos, prev, row.cols, ElementText(row.lsnText, row.data));
        }
      }
    }

    method OnOther(row: Row, ghost t: nat, ghost r: nat)
      requires Inside(t, r) && r < |wal[t].rows| && row == wal[t].rows[r] && !row.Change?
      modifies this
      ensures Inside(t, r + 1)
    {
      hide Owed, LaneItems, FeedOf, Drain.Valid, GoodConfig, SummaryOf, Changes;
      assert GoodTxn(wal[t]);
      NextRow(wal[t].xid, wal[t].rows, r, Counting(config));
      forall i | 0 <= i < |config.sources| ensures
          Owed(config, wal, config.sources[i], t, r + 1) == Owed(config, wal, config.sources[i], t, r) {
        RowItem(config, wal, t, r, config.sources[i]);
      }
      See(row.lsn);
    }

    /** A transaction that changed anything is summarised to every summary lane. */
    method OnCommit(lsn: Lsn, ghost t: nat)
      requires t < |wal| && Inside(t, |wal[t].rows|) && lsn == wal[t].end
      modifies this, d, d.db
      ensures Between(t + 1) && Calm()
    {
      hide Owed, LaneItems, FeedOf, Drain.Valid, GoodConfig, SummaryOf, Changes;
      assert wal[t].rows[..|wal[t].rows|] == wal[t].rows;
      EventsAreChanges(wal[t].xid, wal[t].rows, Counting(config));
      See(lsn);
      var o := txn.value;
      txn := None;
      if o.sum.events > 0 {
        SummariseAll(o, t);
      } else {
        CommitOwed(config, wal, d.got, t, |d.got|);
      }
      lastEnd := Some(lsn);
    }

    method SummariseAll(o: Open, ghost t: nat)
      requires Base() && start <= t < |wal| && OwedAll(config, wal, d.got, t, |wal[t].rows|)
      requires o.end == wal[t].end && Changes(wal[t].rows) > 0
      requires o.prev == if t > start then Some(wal[t - 1].end) else None
      requires o.sum == SummaryOf(wal[t].xid, wal[t].rows, Counting(config))
      modifies d, d.db
      ensures Base() && Calm() && OwedAll(config, wal, d.got, t + 1, 0)
    {
      hide Owed, LaneItems, HoldOK, SummaryOf, Changes, GoodWal, GoodConfig, TablesScanned, Drain.Valid;
      var element := config.summarize(o.sum);
      for lane := 0 to |config.sources|
        invariant Base() && Calm()
        invariant HalfSummarised(config, wal, d.got, t, lane)
      {
        if config.sources[lane].Summaries? {
          SummaryReady(config, wal, d.got, t, lane, o.prev);
          LanesMatch(d, config, wal);
          var _ := d.Offer(lane, Pos(o.end, SUMMARY_SEQ), o.prev, "[]", element);
        }
      }
      CommitOwed(config, wal, d.got, t, |config.sources|);
    }

    /** Reads the whole peek; false when a fetch fails or a row cannot be read. */
    method Read(peeked: seq<Txn>) returns (ok: bool)
      requires Between(start) && start + |peeked| <= |wal| && wal[start..start + |peeked|] == peeked
      modifies this, d, d.db
      ensures Base() && Calm()
      ensures ok ==> Between(start + |peeked|)
      ensures ok && peeked == [] ==> d.lanes == old(d.lanes) && d.db.world == old(d.db.world)
      ensures !ok ==> d.db.failures > old(d.db.failures)
    {
      hide OwedAll, Drain.Valid, FeedOf, GoodConfig, GoodWal;
      for x := 0 to |peeked|
        invariant Between(start + x) && Calm()
        invariant x == 0 ==> d.lanes == old(d.lanes) && d.db.world == old(d.db.world)
      {
        assert peeked[x] == wal[start..start + |peeked|][x] == wal[start + x];
        ok := ReadTxn(peeked[x], start + x);
        if !ok {
          return false;
        }
      }
      ok := true;
    }

    method ReadTxn(p: Txn, ghost t: nat) returns (ok: bool)
      requires Between(t) && t < |wal| && p == wal[t]
      modifies this, d, d.db
      ensures Base() && Calm()
      ensures ok ==> Between(t + 1)
      ensures !ok ==> d.db.failures > old(d.db.failures)
    {
      hide OwedAll, FeedOf, GoodConfig, GoodWal, SummaryOf, Changes, LaneOK, LanesWorld, StateOK, SummaryScanned, Bodies;
      ok := d.db.Step();
      if !ok {
        return;
      }
      OnBegin(p.begin, p.end, p.xid, t);
      for r := 0 to |p.rows|
        invariant Inside(t, r) && Calm()
      {
        ok := d.db.Step();
        if !ok {
          return;
        }
        if p.rows[r].Change? {
          OnChange(p.rows[r], t, r);
        } else {
          OnOther(p.rows[r], t, r);
        }
      }
      ok := d.db.Step();
      if ok {
        OnCommit(p.end, t);
      }
    }
  }

  lemma OfferReady(c: Config, wal: seq<Txn>, got: seq<nat>, t: nat, r: nat, lane: nat, prev: Option<Lsn>)
    requires GoodConfig(c) && GoodWal(wal) && t < |wal| && r < |wal[t].rows| && |got| == |c.sources| && lane < |got|
    requires forall i | 0 <= i < |got| :: got[i] == Owed(c, wal, c.sources[i], t, if i < lane then r + 1 else r)
    requires prev.None? || (t > 0 && prev == Some(wal[t - 1].end))
    ensures HoldOK(FeedOf(c, wal), got, FeedOf(c, wal).items[lane], prev, got[lane])
  {
    PrevHolds(c, wal, got, t, lane, prev);
  }

  lemma LanesMatch(d: Drain, c: Config, wal: seq<Txn>)
    requires d.Valid() && d.db.feed == FeedOf(c, wal) && |d.lanes| == |c.sources|
    ensures |d.summary| == |c.sources| && |d.got| == |c.sources|
    ensures forall i | 0 <= i < |c.sources| ::
              d.db.feed.items[i] == LaneItems(c, wal, c.sources[i]) && d.summary[i] == c.sources[i].Summaries?
  {
  }

  /** While a commit is being summarised: the summary lanes below `lane` have it. */
  ghost predicate HalfSummarised(c: Config, wal: seq<Txn>, got: seq<nat>, t: nat, lane: nat)
    requires t < |wal|
  {
    && |got| == |c.sources|
    && forall i | 0 <= i < |got| ::
         got[i] == Owed(c, wal, c.sources[i], t, |wal[t].rows|)
                   + if c.sources[i].Summaries? && i < lane then |TxnItems(c, wal[t], c.sources[i])| else 0
  }

  lemma SummaryReady(c: Config, wal: seq<Txn>, got: seq<nat>, t: nat, lane: nat, prev: Option<Lsn>)
    requires GoodConfig(c) && GoodWal(wal) && t < |wal| && HalfSummarised(c, wal, got, t, lane)
    requires lane < |got| && c.sources[lane].Summaries? && Changes(wal[t].rows) > 0
    requires prev.None? || (t > 0 && prev == Some(wal[t - 1].end))
    ensures HoldOK(FeedOf(c, wal), got, FeedOf(c, wal).items[lane], prev, got[lane])
    ensures TablesScanned(FeedOf(c, wal), got, wal[t].end)
    ensures got[lane] < |LaneItems(c, wal, c.sources[lane])|
    ensures LaneItems(c, wal, c.sources[lane])[got[lane]] == SummaryItem(c, wal[t])
    ensures HalfSummarised(c, wal, got[lane := got[lane] + 1], t, lane + 1)
  {
    PrevHolds(c, wal, got, t, lane, prev);
    TablesRead(c, wal, got, t);
    LaneAt(c, wal, t, c.sources[lane], 0);
  }

  /** With its summaries out, a transaction is read. */
  lemma CommitOwed(c: Config, wal: seq<Txn>, got: seq<nat>, t: nat, lane: nat)
    requires t < |wal| && lane == |got|
    requires HalfSummarised(c, wal, got, t, lane) || (Changes(wal[t].rows) == 0 && OwedAll(c, wal, got, t, |wal[t].rows|))
    ensures OwedAll(c, wal, got, t + 1, 0)
  {
    assert wal[..t + 1][..t] == wal[..t];
    assert wal[t].rows[..|wal[t].rows|] == wal[t].rows;
    forall i | 0 <= i < |got| ensures got[i] == Owed(c, wal, c.sources[i], t + 1, 0) {
      if t + 1 < |wal| {
        assert wal[t + 1].rows[..0] == [];
      }
    }
  }

  // ---- one drain

  /** How many transactions the slot has passed. */
  function Passed(wal: seq<Txn>, slot: nat): (n: nat)
    ensures n <= |wal|
    ensures n > 0 ==> wal[n - 1].end <= slot
    ensures n < |wal| ==> wal[n].end > slot
  {
    PassedFrom(wal, slot, 0)
  }

  function PassedFrom(wal: seq<Txn>, slot: nat, k: nat): (n: nat)
    requires k <= |wal| && (k > 0 ==> wal[k - 1].end <= slot)
    ensures n <= |wal|
    ensures n > 0 ==> wal[n - 1].end <= slot
    ensures n < |wal| ==> wal[n].end > slot
    decreases |wal| - k
  {
    if k == |wal| || wal[k].end > slot then k else PassedFrom(wal, slot, k + 1)
  }

  ghost function FirstOwed(c: Config, wal: seq<Txn>, t: nat): (got: seq<nat>)
    requires t <= |wal|
    ensures |got| == |c.sources| && forall i | 0 <= i < |got| :: got[i] == |LaneItems(c, wal[..t], c.sources[i])|
  {
    seq(|c.sources|, i requires 0 <= i < |c.sources| => |LaneItems(c, wal[..t], c.sources[i])|)
  }

  /** Where a drain starts: every lane has delivered at least what the slot has passed. */
  lemma StartsBehind(c: Config, wal: seq<Txn>, w: World)
    requires GoodConfig(c) && GoodWal(wal) && StateOK(FeedOf(c, wal), w)
    ensures var t := Passed(wal, w.slot);
            var got := FirstOwed(c, wal, t);
            && OwedAll(c, wal, got, t, 0)
            && SummaryScanned(FeedOf(c, wal), got)
            && forall i | 0 <= i < |got| :: got[i] <= Upto(FeedOf(c, wal).items[i], w.saved[i])
  {
    var f, t := FeedOf(c, wal), Passed(wal, w.slot);
    var got := FirstOwed(c, wal, t);
    if t < |wal| {
      assert wal[t].rows[..0] == [];
    }
    forall i | 0 <= i < |got| ensures got[i] <= Upto(f.items[i], w.saved[i]) {
      FirstDelivered(c, wal, w, t, i);
    }
    forall i, k | 0 <= i < |got| && f.summary[i] && 0 <= k < got[i] <= |f.items[i]|
      ensures TablesScanned(f, got, f.items[i][k].pos.end)
    {
      FirstScanned(c, wal, t, i, k);
    }
  }

  lemma FirstDelivered(c: Config, wal: seq<Txn>, w: World, t: nat, i: nat)
    requires GoodConfig(c) && GoodWal(wal) && StateOK(FeedOf(c, wal), w)
    requires t <= |wal| && (t > 0 ==> wal[t - 1].end <= w.slot) && i < |c.sources|
    ensures |LaneItems(c, wal[..t], c.sources[i])| <= Upto(FeedOf(c, wal).items[i], w.saved[i])
  {
    hide TrueTexts, SummariesFollow, Prefixes, SafeLane;
    var f, src := FeedOf(c, wal), c.sources[i];
    var n := |LaneItems(c, wal[..t], src)|;
    LanePrefix(c, wal, t, src);
    if n > 0 {
      LaneItemsSorted(c, wal[..t], src);
      LaneSplit(c, wal, t, src, n - 1);
      assert SlotBehind(f.items[i], w.slot, w.saved[i]);
      UptoSplits(f.items[i], w.saved[i]);
      assert Delivered(w.saved[i], f.items[i][n - 1].pos);
    }
  }

  lemma FirstScanned(c: Config, wal: seq<Txn>, t: nat, i: nat, k: nat)
    requires GoodConfig(c) && GoodWal(wal) && t <= |wal| && i < |c.sources|
    requires k < |LaneItems(c, wal[..t], c.sources[i])| && k < |LaneItems(c, wal, c.sources[i])|
    ensures TablesScanned(FeedOf(c, wal), FirstOwed(c, wal, t), LaneItems(c, wal, c.sources[i])[k].pos.end)
  {
    LaneItemsSorted(c, wal[..t], c.sources[i]);
    LaneSplit(c, wal, t, c.sources[i], k);
    ReadIsScanned(c, wal, FirstOwed(c, wal, t), t, 0);
  }

  lemma RestIsGood(f: Feed, w: World)
    requires AtRest(f, w)
    ensures StateOK(f, w) && GoodFeed(f) && |w.saved| == |f.items|
  {
  }

  /** A drain abandoned while the peek was being read has recorded all it delivered. */
  lemma AbandonedRest(f: Feed, w: World, lanes: seq<Lane>, appended: set<Partition>)
    requires StateOK(f, w) && LanesWorld(f, w, lanes, appended)
    requires forall j | 0 <= j < |lanes| :: !lanes[j].moved
    ensures AtRest(f, w)
  {
    forall i | 0 <= i < |f.items| && w.clean ensures HandledTo(f.items[i], w.log, i, w.saved[i]) {
      assert LaneWorld(f, w, i, lanes[i], appended);
    }
  }

  // ---- a drain that ends before it records

  /** Ending a drain here, as a failed cursor close does, leaves every lane's saved position at
      what it has handled exactly when no lane has moved past its own. */
  lemma EndedEarly(f: Feed, w: World, lanes: seq<Lane>, appended: set<Partition>)
    requires StateOK(f, w) && LanesWorld(f, w, lanes, appended) && w.clean
    ensures AtRest(f, w) <==> forall j | 0 <= j < |lanes| :: !lanes[j].moved
  {
    hide StateOK;
    if forall j | 0 <= j < |lanes| :: !lanes[j].moved {
      AbandonedRest(f, w, lanes, appended);
    }
    forall j | 0 <= j < |lanes| && lanes[j].moved
      ensures !HandledTo(f.items[j], w.log, j, w.saved[j])
    {
      MovedIsAhead(f, w, j, lanes[j], appended);
    }
  }

  lemma MovedIsAhead(f: Feed, w: World, j: nat, l: Lane, appended: set<Partition>)
    requires |w.saved| == |f.items| && j < |f.items| && LaneWorld(f, w, j, l, appended) && w.clean && l.moved
    ensures !HandledTo(f.items[j], w.log, j, w.saved[j])
  {
    var s := f.items[j];
    assert |Handled(s, w.log, j)| == Upto(s, l.delivered);
  }

  /** Such a lane then repeats itself: whatever it appends next, from where its saved position left
      it, is no longer a prefix of its stream. */
  lemma NextDrainRepeats(f: Feed, w: World, l: Lane, appended: set<Partition>, e: Entry)
    requires GoodFeed(f) && |w.saved| == |f.items| && e.lane < |f.items| && w.clean && l.moved
    requires LaneWorld(f, w, e.lane, l, appended) && TrueText(f, e) && e.after == w.saved[e.lane]
    ensures !(Handled(f.items[e.lane], w.log + [e], e.lane) <= f.items[e.lane])
  {
    var s := f.items[e.lane];
    var lo, d, hi := Upto(s, e.after), Upto(s, l.delivered), Upto(s, Some(e.last));
    var all := Handled(s, w.log + [e], e.lane);
    assert all == s[..d] + s[lo..hi] by {
      assert (w.log + [e])[..|w.log + [e]| - 1] == w.log;
    }
    assert all[d] == s[lo];
    assert d < |s| ==> s[lo] != s[d] by { assert Sorted(s); }
  }

  const CHANGE := Item(Pos(7, 1), "[]", "{}")
  const FLUSHED := Entry(0, None, Pos(7, 1), "[]", "[{}]", {}, false)

  lemma FlushedText()
    ensures TrueText(Feed([[CHANGE]], [false]), FLUSHED)
    ensures Upto([CHANGE], None) == 0 && Upto([CHANGE], Some(Pos(7, 1))) == 1
  {
    assert [CHANGE][..0] == [];
    assert [CHANGE][0..1] == [CHANGE];
    assert Join([CHANGE]) == "{}";
    assert ArrayText([CHANGE]) == "[{}]";
  }

  lemma FlushedHandled()
    ensures Handled([CHANGE], [FLUSHED], 0) == [CHANGE]
    ensures Handled([CHANGE], [FLUSHED] + [FLUSHED], 0) == [CHANGE, CHANGE]
  {
    hide Upto;
    FlushedText();
    assert Handled([CHANGE], [], 0) == [] && [FLUSHED][..0] == [];
    assert [CHANGE][0..1] == [CHANGE];
    assert ([FLUSHED] + [FLUSHED])[..1] == [FLUSHED];
  }

  /** One change, appended in the last flush of a drain whose cursor then fails to close, is
      appended again by the next drain, which starts from the saved position. */
  lemma FailedCloseRepeats()
    ensures var f, w := Feed([[CHANGE]], [false]), World(0, [None], [FLUSHED], true);
            && StateOK(f, w)
            && LanesWorld(f, w, [Lane(Some(Pos(7, 1)), true, None, None)], {})
            && TrueText(f, FLUSHED) && FLUSHED.after == w.saved[0]
            && Handled([CHANGE], w.log + [FLUSHED], 0) == [CHANGE, CHANGE]
  {
    hide Upto, Handled, TrueText;
    var w := World(0, [None], [FLUSHED], true);
    FlushedText();
    FlushedHandled();
    assert Touches(w.log[0], 0, CHANGE.pos);
    assert [CHANGE][..1] == [CHANGE];
  }

  /** A fresh drain at the slot's position, every lane where its saved position left it. */
  method Peek(db: Db, config: Config, stall: seq<bool>, chunkBytes: nat, ghost wal: seq<Txn>, ghost start: nat)
    returns (scan: Scan)
    requires GoodConfig(config) && GoodWal(wal) && |stall| == |config.sources|
    requires db.Valid() && db.feed == FeedOf(config, wal) && AtRest(db.feed, db.world)
    requires start == Passed(wal, db.world.slot)
    ensures fresh(scan) && fresh(scan.d) && scan.d.db == db && scan.Between(start)
    ensures scan.wal == wal && scan.start == start && scan.config == config
    ensures NoRuns(scan.d.lanes) && scan.d.streaming
    ensures forall j | 0 <= j < |scan.d.lanes| :: scan.d.lanes[j].stopped.None?
  {
    hide StateOK, GoodWal, GoodConfig, SummaryScanned, LanesWorld, LaneOK, Bodies, ScannedTo, Owed, LaneItems;
    RestIsGood(db.feed, db.world);
    StartsBehind(config, wal, db.world);
    var summary := seq(|config.sources|, i requires 0 <= i < |config.sources| => config.sources[i].Summaries?);
    var d := new Drain(db, summary, stall, chunkBytes, FirstOwed(config, wal, start));
    scan := new Scan(d, config, wal, start);
  }

  /** Peek, render and append, sync, record, advance. Every outcome of every step leaves the
      world at rest; when no step fails, the slot passes everything peeked. */
  method DrainOnce(db: Db, config: Config, stall: seq<bool>, chunkBytes: nat, wal: seq<Txn>, count: nat)
    requires GoodConfig(config) && GoodWal(wal) && |stall| == |config.sources|
    requires db.Valid() && db.feed == FeedOf(config, wal) && AtRest(db.feed, db.world)
    modifies db
    ensures db.Valid() && old(db.trace) <= db.trace && AtRest(db.feed, db.world)
    ensures db.failures >= old(db.failures)
    ensures var t := Passed(wal, old(db.world).slot);
            db.failures == old(db.failures) && count > 0 && t < |wal|
            ==> db.world.slot == wal[if t + count <= |wal| then t + count - 1 else |wal| - 1].end
  {
    hide StateOK, GoodWal, GoodConfig, FeedOf, SummaryScanned, LanesWorld, LaneOK, Bodies, ScannedTo, OwedAll, AtRest;
    var begun := db.Step();
    if !begun {
      return;
    }
    var start := Passed(wal, db.world.slot);
    var stop := if start + count <= |wal| then start + count else |wal|;
    var scan := Peek(db, config, stall, chunkBytes, wal, start);
    var ok := scan.Read(wal[start..stop]);
    if !ok {
      AbandonedRest(db.feed, db.world, scan.d.lanes, scan.d.appended);
      return;
    }
    Conclude(scan, stop);
  }

  /** The peek is read: the rest goes out, the cursor closes, and if anything was peeked the
      drain commits. A cursor that will not close leaves the last appends unrecorded. */
  method Conclude(scan: Scan, ghost stop: nat)
    requires scan.Between(stop)
    requires stop == scan.start ==> NoRuns(scan.d.lanes) && AtRest(scan.d.db.feed, scan.d.db.world)
    modifies scan.d, scan.d.db
    ensures var db := scan.d.db;
            && db.Valid() && old(db.trace) <= db.trace && AtRest(db.feed, db.world)
            && db.failures >= old(db.failures)
            && (db.failures == old(db.failures) && stop > scan.start
                && (forall j | 0 <= j < |old(scan.d.lanes)| :: old(scan.d.lanes)[j].stopped.None?)
                ==> db.world.slot == scan.wal[stop - 1].end)
  {
    hide StateOK, GoodWal, GoodConfig, FeedOf, SummaryScanned, LanesWorld, LaneOK, Bodies, ScannedTo, OwedAll, AtRest;
    var db := scan.d.db;
    scan.d.Finish();
    var closed := db.Step();
    if !closed {
      if exists j | 0 <= j < |scan.d.lanes| :: scan.d.lanes[j].moved {
        db.Fail(true);
        SpoiltRest(db.feed, db.world);
      } else {
        AbandonedRest(db.feed, db.world, scan.d.lanes, scan.d.appended);
      }
      return;
    }
    if scan.high.None? {
      return;
    }
    PeekScanned(scan.config, scan.wal, scan.d.got, stop);
    var _ := scan.d.Commit(scan.high.value);
  }

  lemma PeekScanned(c: Config, wal: seq<Txn>, got: seq<nat>, t: nat)
    requires GoodConfig(c) && GoodWal(wal) && 0 < t <= |wal| && OwedAll(c, wal, got, t, 0)
    ensures ScannedTo(FeedOf(c, wal), got, wal[t - 1].end)
  {
    ReadIsScanned(c, wal, got, t, 0);
  }

  // ---- whole runs

  /** The worker ticks, or dies in some state it has been in and is started again. */
  datatype Event = Tick(count: nat) | Crash(moment: nat, left: World)

  /** Before the first drain: an empty log, no position saved, and a slot that has passed nothing. */
  lemma FreshWorld(c: Config, wal: seq<Txn>, slot: Lsn)
    requires GoodConfig(c) && GoodWal(wal)
    requires forall t | 0 <= t < |wal| :: slot < wal[t].end
    ensures AtRest(FeedOf(c, wal), World(slot, seq(|c.sources|, i => None), [], true))
  {
    var f := FeedOf(c, wal);
    var w := World(slot, seq(|c.sources|, i => None), [], true);
    FeedIsGood(c, wal);
    forall i | 0 <= i < |f.items| ensures SlotBehind(f.items[i], slot, None) && HandledTo(f.items[i], [], i, None) {
      NothingPassed(c, wal, c.sources[i], slot);
      UptoSplits(f.items[i], None);
      assert |f.items[i]| > 0 ==> !Delivered(None, f.items[i][0].pos);
    }
  }

  lemma {:induction false} NothingPassed(c: Config, wal: seq<Txn>, src: Source, slot: Lsn)
    requires GoodConfig(c) && forall t | 0 <= t < |wal| :: slot < wal[t].end
    ensures forall k | 0 <= k < |LaneItems(c, wal, src)| :: LaneItems(c, wal, src)[k].pos.end > slot
  {
    if wal != [] {
      NothingPassed(c, wal[..|wal| - 1], src, slot);
      TxnItemsSorted(c, wal[|wal| - 1], src);
    }
  }

  /** Any run of the worker from a fresh start, whatever fails in it and whenever it dies: at
      every instant nothing the slot or a saved position has passed is lost or at risk, no
      summary has come before a change it sums up, every entry was rendered from exactly the
      changes it accounts for, and until the first crash, failed sync or save, or drain that ended
      with appends unrecorded, each mapping has handled a prefix of its stream, each change once. */
  method Work(config: Config, stall: seq<bool>, chunkBytes: nat, wal: seq<Txn>, slot: Lsn, events: seq<Event>)
    returns (db: Db)
    requires GoodConfig(config) && GoodWal(wal) && |stall| == |config.sources|
    requires forall t | 0 <= t < |wal| :: slot < wal[t].end
    ensures db.Valid() && db.feed == FeedOf(config, wal)
    ensures forall x | 0 <= x < |db.trace| :: StateOK(FeedOf(config, wal), db.trace[x])
    ensures AtRest(FeedOf(config, wal), db.world)
  {
    hide StateOK, GoodWal, GoodConfig, FeedOf, AtRest;
    FreshWorld(config, wal, slot);
    var w := World(slot, seq(|config.sources|, i => None), [], true);
    RestIsGood(FeedOf(config, wal), w);
    db := new Db(FeedOf(config, wal), w);
    for n := 0 to |events|
      invariant db.Valid() && db.feed == FeedOf(config, wal) && AtRest(db.feed, db.world)
      invariant fresh(db)
    {
      match events[n]
      case Tick(count) =>
        DrainOnce(db, config, stall, chunkBytes, wal, count);
      case Crash(moment, left) =>
        if moment < |db.trace| && CrashOf(db.trace[moment], left) {
          db.Crash(moment, left);
        }
    }
  }
}
