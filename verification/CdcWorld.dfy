/** Everything the drain changes outside its own memory (the slot, the saved positions and the
    log), what must be true of it at every instant, and the steps that change it. */
module CdcWorld {
  import opened Common
  import opened CdcStream

  datatype Partition = Partition(topic: nat, index: nat)

  /** One committed render-and-append: mapping `lane` handled its changes after `after`, up to
      and including `last`, rendered from `body` under the shape `cols`. A change counts as handled whether it was
      appended, filtered out or dead-lettered. `pending` holds the partitions appended to and
      not made durable since; `lost` marks an entry whose appends a crash took away. */
  datatype Entry = Entry(
    lane: nat, after: Option<Pos>, last: Pos, cols: string, body: string,
    pending: set<Partition>, lost: bool)

  /** `clean` until the first crash, the first sync or save that failed after an append, or the
      first drain that ended with appends it had not recorded. */
  datatype World = World(slot: nat, saved: seq<Option<Pos>>, log: seq<Entry>, clean: bool)

  predicate Touches(e: Entry, lane: nat, q: Pos) {
    e.lane == lane && !Delivered(e.after, q) && Le(q, e.last)
  }

  ghost predicate Produced(log: seq<Entry>, lane: nat, q: Pos) {
    exists x | 0 <= x < |log| :: Touches(log[x], lane, q)
  }

  /** The change at `q` is in the log, at risk only in the partitions of `atRisk`. */
  ghost predicate Covered(log: seq<Entry>, lane: nat, q: Pos, atRisk: set<Partition>) {
    exists x | 0 <= x < |log| :: Touches(log[x], lane, q) && !log[x].lost && log[x].pending <= atRisk
  }

  /** What lane `i` has been recorded as having delivered is handled and durable. */
  ghost predicate SafeLane(f: Feed, w: World, i: nat)
    requires |w.saved| == |f.items| && i < |f.items|
  {
    forall k | 0 <= k < |f.items[i]| ::
      Delivered(w.saved[i], f.items[i][k].pos) ==> Covered(w.log, i, f.items[i][k].pos, {})
  }

  /** The slot has passed nothing that lane position `p` does not account for. */
  ghost predicate SlotBehind(s: seq<Item>, slot: nat, p: Option<Pos>) {
    forall k | 0 <= k < |s| :: s[k].pos.end <= slot ==> Delivered(p, s[k].pos)
  }

  /** No loss: what a saved position has passed is handled and durable, and the slot is never
      ahead of any saved position. */
  ghost predicate Safe(f: Feed, w: World)
    requires |w.saved| == |f.items|
  {
    forall i | 0 <= i < |f.items| ::
      SafeLane(f, w, i) && SlotBehind(f.items[i], w.slot, w.saved[i])
  }

  /** Every change of every transaction ending at or below the slot has been handled by every
      lane, and nothing it was appended to can still be lost. */
  lemma SlotLosesNothing(f: Feed, w: World, i: nat, k: nat)
    requires StateOK(f, w)
    requires i < |f.items| && k < |f.items[i]| && f.items[i][k].pos.end <= w.slot
    ensures exists x | 0 <= x < |w.log| ::
              Touches(w.log[x], i, f.items[i][k].pos) && !w.log[x].lost && w.log[x].pending == {}
  {
    assert SafeLane(f, w, i) && SlotBehind(f.items[i], w.slot, w.saved[i]);
    assert Covered(w.log, i, f.items[i][k].pos, {});
  }

  /** `body` is the JSON array of `s[lo..hi]`, every element of which has the shape `cols`. */
  ghost predicate Renders(s: seq<Item>, lo: nat, hi: nat, cols: string, body: string) {
    && lo < hi <= |s|
    && body == ArrayText(s[lo..hi])
    && forall k | lo <= k < hi :: s[k].cols == cols
  }

  /** An entry was rendered from the JSON array of exactly the elements it accounts for, under
      the shape each of them was captured with. */
  ghost predicate TrueText(f: Feed, e: Entry) {
    && e.lane < |f.items|
    && var s := f.items[e.lane];
       Renders(s, Upto(s, e.after), Upto(s, Some(e.last)), e.cols, e.body)
  }

  /** Whatever partitions it went to. */
  lemma TextOnly(f: Feed, e: Entry, ps: set<Partition>)
    requires TrueText(f, e)
    ensures TrueText(f, e.(pending := ps))
  {
    hide Renders, Upto;
  }

  ghost predicate TrueTexts(f: Feed, log: seq<Entry>) {
    forall x | 0 <= x < |log| :: TrueText(f, log[x])
  }

  /** Every table change of every transaction ending at or before `end` has been produced. */
  ghost predicate TablesProduced(f: Feed, log: seq<Entry>, end: nat)
    requires |f.summary| == |f.items|
  {
    forall j, k | 0 <= j < |f.items| && !f.summary[j] && 0 <= k < |f.items[j]| ::
      f.items[j][k].pos.end <= end ==> Produced(log, j, f.items[j][k].pos)
  }

  /** No summary precedes a change of its transaction, on any table mapping. */
  ghost predicate SummariesFollow(f: Feed, log: seq<Entry>)
    requires |f.summary| == |f.items|
  {
    forall x | 0 <= x < |log| ::
      log[x].lane < |f.items| && f.summary[log[x].lane] ==> TablesProduced(f, log[..x], log[x].last.end)
  }

  /** The elements a lane handled, in the order it handled them. */
  ghost function Handled(s: seq<Item>, log: seq<Entry>, lane: nat): seq<Item> {
    if log == [] then []
    else
      var e := log[|log| - 1];
      var rest := Handled(s, log[..|log| - 1], lane);
      var lo, hi := Upto(s, e.after), Upto(s, Some(e.last));
      if e.lane == lane && lo <= hi then rest + s[lo..hi] else rest
  }

  /** Until something fails, each lane has handled a prefix of its stream: in commit order,
      nothing skipped and nothing repeated. */
  ghost predicate Prefixes(f: Feed, w: World) {
    w.clean ==> forall i | 0 <= i < |f.items| :: Handled(f.items[i], w.log, i) <= f.items[i]
  }

  /** What holds at every instant, including the instant before a crash. */
  ghost predicate StateOK(f: Feed, w: World) {
    && GoodFeed(f)
    && |w.saved| == |f.items|
    && Safe(f, w)
    && TrueTexts(f, w.log)
    && SummariesFollow(f, w.log)
    && Prefixes(f, w)
  }

  /** A lane whose delivered position is `p` has handled exactly what `p` stands for, and `p` is
      the position of the last of it. */
  ghost predicate HandledTo(s: seq<Item>, log: seq<Entry>, lane: nat, p: Option<Pos>) {
    && Handled(s, log, lane) == s[..Upto(s, p)]
    && (Upto(s, p) == 0 ==> p == None)
    && (Upto(s, p) > 0 ==> p == Some(s[Upto(s, p) - 1].pos))
  }

  /** Between drains the saved positions are the handled prefixes. */
  ghost predicate AtRest(f: Feed, w: World) {
    && StateOK(f, w)
    && (w.clean ==> forall i | 0 <= i < |f.items| :: HandledTo(f.items[i], w.log, i, w.saved[i]))
  }

  /** Every table change of every transaction a summary entry reaches was produced by an entry
      before it. */
  lemma SummaryComesAfter(f: Feed, w: World, x: nat, j: nat, k: nat)
    requires StateOK(f, w) && x < |w.log| && TrueText(f, w.log[x]) && f.summary[w.log[x].lane]
    requires j < |f.items| && !f.summary[j] && k < |f.items[j]|
    requires f.items[j][k].pos.end <= w.log[x].last.end
    ensures exists y | 0 <= y < x :: Touches(w.log[y], j, f.items[j][k].pos)
  {
  }

  // ---- crash

  /** An entry with something unsynced may be lost; anything else stays as it was. */
  predicate SurvivesAs(e: Entry, e': Entry) {
    && e'.lane == e.lane && e'.after == e.after && e'.last == e.last
    && e'.cols == e.cols && e'.body == e.body
    && e'.pending <= e.pending
    && (e.lost ==> e'.lost)
    && (e.pending == {} ==> e'.lost == e.lost)
  }

  predicate SurvivesLog(log: seq<Entry>, log': seq<Entry>) {
    |log'| == |log| && forall x | 0 <= x < |log| :: SurvivesAs(log[x], log'[x])
  }

  /** The catalog keeps what it committed; unsynced appends may go, and the slot may be found where
      an earlier checkpoint left it. */
  predicate CrashOf(w: World, w': World) {
    w'.slot <= w.slot && w'.saved == w.saved && !w'.clean && SurvivesLog(w.log, w'.log)
  }

  lemma SurvivorsCover(log: seq<Entry>, log': seq<Entry>, lane: nat, q: Pos)
    requires SurvivesLog(log, log')
    ensures Covered(log, lane, q, {}) ==> Covered(log', lane, q, {})
    ensures Produced(log, lane, q) ==> Produced(log', lane, q)
  {
  }

  /** Order and text are facts about what was produced, so a crash cannot change them. */
  lemma SurvivorsKeepOrder(f: Feed, log: seq<Entry>, log': seq<Entry>)
    requires |f.summary| == |f.items| && SurvivesLog(log, log')
    requires SummariesFollow(f, log) && TrueTexts(f, log)
    ensures SummariesFollow(f, log') && TrueTexts(f, log')
  {
    forall x | 0 <= x < |log'|
      ensures TrueText(f, log'[x])
      ensures f.summary[log'[x].lane] ==> TablesProduced(f, log'[..x], log'[x].last.end)
    {
      assert SurvivesAs(log[x], log'[x]) && TrueText(f, log[x]);
      if f.summary[log'[x].lane] {
        assert TablesProduced(f, log[..x], log[x].last.end);
        forall j, k | 0 <= j < |f.items| && !f.summary[j] && 0 <= k < |f.items[j]|
                      && f.items[j][k].pos.end <= log[x].last.end
          ensures Produced(log'[..x], j, f.items[j][k].pos)
        {
          assert Produced(log[..x], j, f.items[j][k].pos);
          SurvivorsCover(log[..x], log'[..x], j, f.items[j][k].pos);
        }
      }
    }
  }

  /** A crash, whenever it comes, leaves a good state at rest. */
  lemma CrashKeeps(f: Feed, w: World, w': World)
    requires StateOK(f, w) && CrashOf(w, w')
    ensures AtRest(f, w')
  {
    forall i, k | 0 <= i < |f.items| && 0 <= k < |f.items[i]|
                  && Delivered(w'.saved[i], f.items[i][k].pos)
      ensures Covered(w'.log, i, f.items[i][k].pos, {})
    {
      assert SafeLane(f, w, i);
      assert Covered(w.log, i, f.items[i][k].pos, {});
      SurvivorsCover(w.log, w'.log, i, f.items[i][k].pos);
    }
    forall i | 0 <= i < |f.items|
      ensures SafeLane(f, w', i) && SlotBehind(f.items[i], w'.slot, w'.saved[i])
    {
      assert SlotBehind(f.items[i], w.slot, w.saved[i]);
    }
    SurvivorsKeepOrder(f, w.log, w'.log);
  }

  // ---- append

  lemma AppendCovers(log: seq<Entry>, e: Entry, lane: nat, q: Pos, atRisk: set<Partition>)
    ensures Covered(log, lane, q, atRisk) ==> Covered(log + [e], lane, q, atRisk)
    ensures Produced(log, lane, q) ==> Produced(log + [e], lane, q)
    ensures Touches(e, lane, q) && !e.lost && e.pending <= atRisk ==> Covered(log + [e], lane, q, atRisk)
  {
    var log' := log + [e];
    if Produced(log, lane, q) {
      var x :| 0 <= x < |log| && Touches(log[x], lane, q);
      assert Touches(log'[x], lane, q);
    }
    if Covered(log, lane, q, atRisk) {
      var x :| 0 <= x < |log| && Touches(log[x], lane, q) && !log[x].lost && log[x].pending <= atRisk;
      assert Touches(log'[x], lane, q);
    }
    assert log'[|log|] == e;
  }

  lemma AppendHandled(s: seq<Item>, log: seq<Entry>, e: Entry, lane: nat)
    ensures e.lane != lane ==> Handled(s, log + [e], lane) == Handled(s, log, lane)
    ensures e.lane == lane && Sorted(s) && Upto(s, e.after) <= Upto(s, Some(e.last))
              && Handled(s, log, lane) == s[..Upto(s, e.after)]
            ==> Handled(s, log + [e], lane) == s[..Upto(s, Some(e.last))]
  {
  }

  /** Appending the next stretch of a lane keeps a good state good, provided a summary only
      follows its transactions' table changes. */
  lemma AppendKeeps(f: Feed, w: World, e: Entry)
    requires StateOK(f, w) && TrueText(f, e)
    requires f.summary[e.lane] ==> TablesProduced(f, w.log, e.last.end)
    requires w.clean ==> Handled(f.items[e.lane], w.log, e.lane)
                         == f.items[e.lane][..Upto(f.items[e.lane], e.after)]
    ensures StateOK(f, w.(log := w.log + [e]))
  {
    var w' := w.(log := w.log + [e]);
    forall i, k | 0 <= i < |f.items| && 0 <= k < |f.items[i]|
                  && Delivered(w'.saved[i], f.items[i][k].pos)
      ensures Covered(w'.log, i, f.items[i][k].pos, {})
    {
      assert SafeLane(f, w, i);
      assert Covered(w.log, i, f.items[i][k].pos, {});
      AppendCovers(w.log, e, i, f.items[i][k].pos, {});
    }
    forall x | 0 <= x < |w'.log| && f.summary[w'.log[x].lane]
      ensures TablesProduced(f, w'.log[..x], w'.log[x].last.end)
    {
      if x < |w.log| {
        assert w'.log[..x] == w.log[..x] && w'.log[x] == w.log[x];
        assert TablesProduced(f, w.log[..x], w.log[x].last.end);
      } else {
        assert w'.log[..x] == w.log;
      }
    }
    forall i | 0 <= i < |f.items| && w.clean
      ensures Handled(f.items[i], w'.log, i) <= f.items[i]
    {
      AppendHandled(f.items[i], w.log, e, i);
    }
  }

  // ---- sync

  /** The log once every partition of `ps` has been made durable. */
  function SyncedLog(log: seq<Entry>, ps: set<Partition>): (log': seq<Entry>)
    ensures |log'| == |log|
    ensures forall x | 0 <= x < |log| :: log'[x] == log[x].(pending := log[x].pending - ps)
  {
    seq(|log|, x requires 0 <= x < |log| => log[x].(pending := log[x].pending - ps))
  }

  lemma SyncedTwice(log: seq<Entry>, a: set<Partition>, b: set<Partition>)
    ensures SyncedLog(SyncedLog(log, a), b) == SyncedLog(log, a + b)
  {
    forall x | 0 <= x < |log| ensures SyncedLog(SyncedLog(log, a), b)[x] == SyncedLog(log, a + b)[x] {
      assert log[x].pending - a - b == log[x].pending - (a + b);
    }
  }

  lemma SyncedNothing(log: seq<Entry>)
    ensures SyncedLog(log, {}) == log
  {
    forall x | 0 <= x < |log| ensures SyncedLog(log, {})[x] == log[x] {
      assert log[x].pending - {} == log[x].pending;
    }
  }

  lemma SyncSurvives(log: seq<Entry>, ps: set<Partition>)
    ensures SurvivesLog(log, SyncedLog(log, ps))
  {
  }

  lemma SyncCovers(log: seq<Entry>, ps: set<Partition>, lane: nat, q: Pos, atRisk: set<Partition>)
    requires Covered(log, lane, q, atRisk)
    ensures Covered(SyncedLog(log, ps), lane, q, atRisk - ps)
    ensures Covered(SyncedLog(log, ps), lane, q, atRisk)
  {
  }

  lemma {:induction false} SyncHandled(s: seq<Item>, log: seq<Entry>, ps: set<Partition>, lane: nat)
    ensures Handled(s, SyncedLog(log, ps), lane) == Handled(s, log, lane)
  {
    if log != [] {
      var n := |log| - 1;
      assert SyncedLog(log, ps)[..n] == SyncedLog(log[..n], ps);
      SyncHandled(s, log[..n], ps, lane);
    }
  }

  lemma SyncKeeps(f: Feed, w: World, ps: set<Partition>)
    requires StateOK(f, w)
    ensures StateOK(f, w.(log := SyncedLog(w.log, ps)))
  {
    var w' := w.(log := SyncedLog(w.log, ps));
    SyncSurvives(w.log, ps);
    SurvivorsKeepOrder(f, w.log, w'.log);
    forall i, k | 0 <= i < |f.items| && 0 <= k < |f.items[i]|
                  && Delivered(w'.saved[i], f.items[i][k].pos)
      ensures Covered(w'.log, i, f.items[i][k].pos, {})
    {
      assert SafeLane(f, w, i);
      assert Covered(w.log, i, f.items[i][k].pos, {});
      SurvivorsCover(w.log, w'.log, i, f.items[i][k].pos);
    }
    forall i | 0 <= i < |f.items| && w.clean
      ensures Handled(f.items[i], w'.log, i) <= f.items[i]
    {
      SyncHandled(f.items[i], w.log, ps, i);
    }
  }
}
