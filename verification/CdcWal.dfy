/** The transactions the slot decodes, and what each mapping is owed of them. */
module CdcWal {
  import opened Common
  import opened CdcStream
  import opened CdcRuns

  /** A decoded row inside a transaction; `Other` is any row the drain does not route. */
  datatype Row =
    | Change(lsn: Lsn, lsnText: string, ts: Option<int>, schema: string, table: string, cols: string, data: string)
    | Other(lsn: Lsn)

  /** A whole transaction. Its commit row's LSN is `end`. */
  datatype Txn = Txn(begin: Lsn, end: Lsn, xid: Option<int>, rows: seq<Row>)

  datatype Source = Table(schema: string, table: string) | Summaries

  /** Transaction metadata: how many changes the commit carried, and of which tables. */
  datatype Summary = Summary(xid: Option<int>, ts: Option<int>, lsn: Option<Lsn>, events: nat,
                             tables: map<string, map<string, nat>>)

  /** The enabled mappings' sources, and the text of a summary. */
  datatype Config = Config(sources: seq<Source>, summarize: Summary -> string)

  ghost predicate GoodConfig(c: Config) {
    forall s :: c.summarize(s) != ""
  }

  /** Commit order, and every row inside its transaction's extent. */
  ghost predicate GoodWal(wal: seq<Txn>) {
    && (forall a, b | 0 <= a < b < |wal| :: wal[a].end < wal[b].end)
    && forall a | 0 <= a < |wal| :: GoodTxn(wal[a])
  }

  ghost predicate GoodTxn(t: Txn) {
    && t.begin <= t.end
    && |t.rows| < SUMMARY_SEQ
    && forall r | 0 <= r < |t.rows| :: t.rows[r].lsn <= t.end
  }

  // ---- transaction summaries

  function MaxTs(a: Option<int>, b: Option<int>): Option<int> {
    if b.None? || (a.Some? && a.value >= b.value) then a else b
  }

  function MaxLsn(a: Option<Lsn>, b: Lsn): Option<Lsn> {
    if a.Some? && a.value >= b then a else Some(b)
  }

  function CountOf(m: map<string, map<string, nat>>, schema: string, table: string): nat {
    if schema in m && table in m[schema] then m[schema][table] else 0
  }

  /** One more change of a table. */
  function Bump(m: map<string, map<string, nat>>, schema: string, table: string): map<string, map<string, nat>> {
    var inner := if schema in m then m[schema] else map[];
    m[schema := inner[table := CountOf(m, schema, table) + 1]]
  }

  function Note(s: Summary, row: Row, counting: bool): Summary
    requires row.Change?
  {
    s.(events := s.events + 1,
       ts := MaxTs(s.ts, row.ts),
       lsn := MaxLsn(s.lsn, row.lsn),
       tables := if counting then Bump(s.tables, row.schema, row.table) else s.tables)
  }

  function Empty(xid: Option<int>): Summary {
    Summary(xid, None, None, 0, map[])
  }

  ghost function SummaryOf(xid: Option<int>, rows: seq<Row>, counting: bool): Summary {
    if rows == [] then Empty(xid)
    else
      var n := |rows| - 1;
      var s := SummaryOf(xid, rows[..n], counting);
      if rows[n].Change? then Note(s, rows[n], counting) else s
  }

  /** Changes of one table, counted directly. */
  ghost function Occurrences(rows: seq<Row>, schema: string, table: string): nat {
    if rows == [] then 0
    else
      var n := |rows| - 1;
      Occurrences(rows[..n], schema, table)
      + if rows[n].Change? && rows[n].schema == schema && rows[n].table == table then 1 else 0
  }

  ghost function Changes(rows: seq<Row>): nat {
    if rows == [] then 0
    else Changes(rows[..|rows| - 1]) + if rows[|rows| - 1].Change? then 1 else 0
  }

  /** A summary names every table its transaction changed and no other, with the number of its
      changes; its LSN is the highest of any change. */
  lemma {:induction false} SummaryCounts(xid: Option<int>, rows: seq<Row>, schema: string, table: string)
    ensures var s := SummaryOf(xid, rows, true);
            && s.xid == xid
            && s.events == Changes(rows)
            && CountOf(s.tables, schema, table) == Occurrences(rows, schema, table)
            && (schema in s.tables && table in s.tables[schema] <==> Occurrences(rows, schema, table) > 0)
            && (forall r | 0 <= r < |rows| && rows[r].Change? :: s.lsn.Some? && rows[r].lsn <= s.lsn.value)
            && (s.lsn.Some? ==> exists r | 0 <= r < |rows| :: rows[r].Change? && rows[r].lsn == s.lsn.value)
  {
    if rows != [] {
      var n := |rows| - 1;
      var rest := rows[..n];
      SummaryCounts(xid, rest, schema, table);
      var s0, s := SummaryOf(xid, rest, true), SummaryOf(xid, rows, true);
      if rows[n].Change? {
        SummaryCounts(xid, rest, rows[n].schema, rows[n].table);
        assert rows[n].lsn <= s.lsn.value;
        forall r | 0 <= r < |rows| && rows[r].Change? ensures rows[r].lsn <= s.lsn.value {
          if r < n {
            assert rest[r] == rows[r];
          }
        }
      }
      if s.lsn.Some? && s.lsn == s0.lsn {
        var r :| 0 <= r < |rest| && rest[r].Change? && rest[r].lsn == s0.lsn.value;
        assert rows[r].lsn == s.lsn.value;
      }
    }
  }

  /** Its timestamp is the latest of any change that carries one. */
  lemma {:induction false} SummaryTime(xid: Option<int>, rows: seq<Row>, counting: bool)
    ensures var s := SummaryOf(xid, rows, counting);
            && (forall r | 0 <= r < |rows| && rows[r].Change? && rows[r].ts.Some? :: s.ts.Some? && rows[r].ts.value <= s.ts.value)
            && (s.ts.Some? ==> exists r | 0 <= r < |rows| :: rows[r].Change? && rows[r].ts == s.ts)
  {
    if rows != [] {
      var n := |rows| - 1;
      var rest := rows[..n];
      SummaryTime(xid, rest, counting);
      var s0, s := SummaryOf(xid, rest, counting), SummaryOf(xid, rows, counting);
      forall r | 0 <= r < |rows| && rows[r].Change? && rows[r].ts.Some?
        ensures s.ts.Some? && rows[r].ts.value <= s.ts.value
      {
        if r < n {
          assert rest[r] == rows[r];
        }
      }
      if s.ts.Some? {
        if s.ts == s0.ts {
          var r :| 0 <= r < |rest| && rest[r].Change? && rest[r].ts == s0.ts;
          assert rows[r].ts == s.ts;
        } else {
          assert rows[n].ts == s.ts;
        }
      }
    }
  }

  // ---- what each lane is owed

  /** The element a change is rendered from. */
  function ElementText(lsnText: string, data: string): string {
    "{\"lsn\":\"" + lsnText + "\",\"ch\":" + data + "}"
  }

  predicate Routes(src: Source, row: Row) {
    row.Change? && src.Table? && row.schema == src.schema && row.table == src.table
  }

  /** The elements of a transaction's rows a table mapping is owed; the rank counts every change
      of the transaction, of any table. */
  ghost function ChangeItems(end: Lsn, rows: seq<Row>, src: Source): seq<Item> {
    if rows == [] then []
    else
      var n := |rows| - 1;
      var rest := ChangeItems(end, rows[..n], src);
      if Routes(src, rows[n])
      then rest + [Item(Pos(end, Changes(rows)), rows[n].cols, ElementText(rows[n].lsnText, rows[n].data))]
      else rest
  }

  predicate Counting(c: Config) {
    Summaries in c.sources
  }

  ghost function SummaryItem(c: Config, t: Txn): Item {
    Item(Pos(t.end, SUMMARY_SEQ), "[]", c.summarize(SummaryOf(t.xid, t.rows, Counting(c))))
  }

  ghost function TxnItems(c: Config, t: Txn, src: Source): seq<Item> {
    if src.Table? then ChangeItems(t.end, t.rows, src)
    else if Changes(t.rows) > 0 then [SummaryItem(c, t)]
    else []
  }

  ghost function LaneItems(c: Config, wal: seq<Txn>, src: Source): seq<Item> {
    if wal == [] then []
    else LaneItems(c, wal[..|wal| - 1], src) + TxnItems(c, wal[|wal| - 1], src)
  }

  ghost function FeedOf(c: Config, wal: seq<Txn>): Feed {
    Feed(seq(|c.sources|, i requires 0 <= i < |c.sources| => LaneItems(c, wal, c.sources[i])),
         seq(|c.sources|, i requires 0 <= i < |c.sources| => c.sources[i].Summaries?))
  }

  lemma {:induction false} ChangesBound(rows: seq<Row>)
    ensures Changes(rows) <= |rows|
  {
    if rows != [] {
      ChangesBound(rows[..|rows| - 1]);
    }
  }

  /** A transaction's elements come in rank order, inside it. */
  lemma {:induction false} ChangeItemsSorted(end: Lsn, rows: seq<Row>, src: Source)
    ensures var s := ChangeItems(end, rows, src);
            && Sorted(s) && Written(s)
            && forall k | 0 <= k < |s| :: s[k].pos.end == end && s[k].pos.rank <= Changes(rows)
  {
    if rows != [] {
      ChangeItemsSorted(end, rows[..|rows| - 1], src);
    }
  }

  /** A summary's position is after that of every change of its transaction. */
  lemma SummaryRanksLast(c: Config, t: Txn, src: Source, k: nat)
    requires GoodTxn(t) && k < |ChangeItems(t.end, t.rows, src)|
    ensures var change, summary := ChangeItems(t.end, t.rows, src)[k].pos, SummaryItem(c, t).pos;
            Le(change, summary) && change != summary
  {
    ChangeItemsSorted(t.end, t.rows, src);
    ChangesBound(t.rows);
  }

  lemma TxnItemsSorted(c: Config, t: Txn, src: Source)
    requires GoodConfig(c)
    ensures var s := TxnItems(c, t, src);
            Sorted(s) && Written(s) && forall k | 0 <= k < |s| :: s[k].pos.end == t.end
  {
    ChangeItemsSorted(t.end, t.rows, src);
  }

  lemma {:induction false} LaneItemsSorted(c: Config, wal: seq<Txn>, src: Source)
    requires GoodConfig(c) && GoodWal(wal)
    ensures var s := LaneItems(c, wal, src);
            && Sorted(s) && Written(s)
            && forall k | 0 <= k < |s| :: wal != [] && s[k].pos.end <= wal[|wal| - 1].end
  {
    if wal != [] {
      var n := |wal| - 1;
      LaneItemsSorted(c, wal[..n], src);
      TxnItemsSorted(c, wal[n], src);
      var a, b := LaneItems(c, wal[..n], src), TxnItems(c, wal[n], src);
      forall k | 0 <= k < |a| ensures a[k].pos.end < wal[n].end {
        assert wal[..n][n - 1] == wal[n - 1];
      }
    }
  }

  lemma FeedIsGood(c: Config, wal: seq<Txn>)
    requires GoodConfig(c) && GoodWal(wal)
    ensures GoodFeed(FeedOf(c, wal))
  {
    forall i | 0 <= i < |c.sources| ensures Sorted(LaneItems(c, wal, c.sources[i])) && Written(LaneItems(c, wal, c.sources[i])) {
      LaneItemsSorted(c, wal, c.sources[i]);
    }
  }

  /** What a lane is owed of the first `t` transactions is the first part of what it is owed. */
  lemma {:induction false} LanePrefix(c: Config, wal: seq<Txn>, t: nat, src: Source)
    requires t <= |wal|
    ensures LaneItems(c, wal[..t], src) <= LaneItems(c, wal, src)
  {
    if t == |wal| {
      assert wal[..t] == wal;
    } else {
      LanePrefix(c, wal[..|wal| - 1], t, src);
      assert wal[..|wal| - 1][..t] == wal[..t];
    }
  }

  lemma {:induction false} LaneTail(c: Config, wal: seq<Txn>, t: nat, src: Source, k: nat)
    requires GoodConfig(c) && GoodWal(wal) && 0 < t < |wal|
    requires |LaneItems(c, wal[..t], src)| <= k < |LaneItems(c, wal, src)|
    ensures LaneItems(c, wal, src)[k].pos.end > wal[t - 1].end
  {
    hide LaneItems, TxnItems, GoodTxn;
    var n := |wal| - 1;
    LaneStep(c, wal, n, src);
    assert wal[..n + 1] == wal;
    if k < |LaneItems(c, wal[..n], src)| {
      assert wal[..n][..t] == wal[..t];
      LaneTail(c, wal[..n], t, src, k);
    } else {
      TxnItemsSorted(c, wal[n], src);
    }
  }

  /** Exactly the elements of the first `t` transactions end by the end of the last of them. */
  lemma LaneSplit(c: Config, wal: seq<Txn>, t: nat, src: Source, k: nat)
    requires GoodConfig(c) && GoodWal(wal) && 0 < t <= |wal| && k < |LaneItems(c, wal, src)|
    ensures LaneItems(c, wal, src)[k].pos.end <= wal[t - 1].end <==> k < |LaneItems(c, wal[..t], src)|
  {
    hide LaneItems;
    assert t == |wal| ==> wal[..t] == wal;
    LanePrefix(c, wal, t, src);
    if k < |LaneItems(c, wal[..t], src)| {
      LaneItemsSorted(c, wal[..t], src);
    } else if t < |wal| {
      LaneTail(c, wal, t, src, k);
    }
  }

  /** The element in hand, while transaction `t` is being read, is the lane's next. */
  lemma LaneAt(c: Config, wal: seq<Txn>, t: nat, src: Source, k: nat)
    requires t < |wal| && k < |TxnItems(c, wal[t], src)|
    ensures |LaneItems(c, wal[..t], src)| + k < |LaneItems(c, wal, src)|
    ensures LaneItems(c, wal, src)[|LaneItems(c, wal[..t], src)| + k] == TxnItems(c, wal[t], src)[k]
  {
    hide TxnItems, LaneItems;
    LanePrefix(c, wal, t + 1, src);
    LaneStep(c, wal, t, src);
  }

  lemma LaneStep(c: Config, wal: seq<Txn>, t: nat, src: Source)
    requires t < |wal|
    ensures LaneItems(c, wal[..t + 1], src) == LaneItems(c, wal[..t], src) + TxnItems(c, wal[t], src)
  {
    hide TxnItems;
    assert wal[..t + 1][..t] == wal[..t];
  }

  lemma ChangeStep(end: Lsn, rows: seq<Row>, r: nat, src: Source)
    requires r < |rows|
    ensures ChangeItems(end, rows[..r + 1], src) ==
              if Routes(src, rows[r])
              then ChangeItems(end, rows[..r], src)
                   + [Item(Pos(end, Changes(rows[..r]) + 1), rows[r].cols, ElementText(rows[r].lsnText, rows[r].data))]
              else ChangeItems(end, rows[..r], src)
  {
    hide ElementText;
    assert rows[..r + 1][..r] == rows[..r];
  }

  lemma {:induction false} ChangePrefix(end: Lsn, rows: seq<Row>, r: nat, src: Source)
    requires r <= |rows|
    ensures ChangeItems(end, rows[..r], src) <= ChangeItems(end, rows, src)
  {
    if r == |rows| {
      assert rows[..r] == rows;
    } else {
      ChangePrefix(end, rows[..|rows| - 1], r, src);
      assert rows[..|rows| - 1][..r] == rows[..r];
    }
  }
}
