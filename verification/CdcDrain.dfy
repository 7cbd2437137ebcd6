/** The drain: offers changes to lanes, flushes their runs through the database, and stops a
    lane that cannot go on. */
module CdcDrain {
  import opened Common
  import opened CdcStream
  import opened CdcWorld
  import opened CdcDb
  import opened CdcRuns

  datatype Outcome = Done | RenderFailed | PersistFailed

  /** A lane's memory against the world: what it counts as delivered is in the log, at risk only
      in partitions still to be synced, and is recorded exactly unless the lane has moved since. */
  ghost predicate LaneWorld(f: Feed, w: World, i: nat, l: Lane, appended: set<Partition>)
    requires |w.saved| == |f.items| && i < |f.items|
  {
    var s := f.items[i];
    && (forall k | 0 <= k < |s| :: Delivered(l.delivered, s[k].pos) ==> Covered(w.log, i, s[k].pos, appended))
    && SlotBehind(s, w.slot, l.delivered)
    && (!l.moved ==> w.saved[i] == l.delivered)
    && (l.moved ==> Upto(s, w.saved[i]) < Upto(s, l.delivered))
    && (w.clean ==> HandledTo(s, w.log, i, l.delivered))
  }

  ghost predicate LanesWorld(f: Feed, w: World, lanes: seq<Lane>, appended: set<Partition>) {
    && |w.saved| == |f.items| == |lanes|
    && forall i | 0 <= i < |lanes| :: LaneWorld(f, w, i, lanes[i], appended)
  }

  lemma LaneWorldSync(f: Feed, w: World, i: nat, l: Lane, appended: set<Partition>, ps: set<Partition>)
    requires |w.saved| == |f.items| && i < |f.items|
    requires LaneWorld(f, w, i, l, appended)
    ensures LaneWorld(f, w.(log := SyncedLog(w.log, ps)), i, l, appended)
    ensures LaneWorld(f, w.(log := SyncedLog(w.log, ps)), i, l, appended - ps)
  {
    var s := f.items[i];
    forall k | 0 <= k < |s| && Delivered(l.delivered, s[k].pos)
      ensures Covered(SyncedLog(w.log, ps), i, s[k].pos, appended)
      ensures Covered(SyncedLog(w.log, ps), i, s[k].pos, appended - ps)
    {
      SyncCovers(w.log, ps, i, s[k].pos, appended);
    }
    SyncHandled(s, w.log, ps, i);
  }

  lemma LaneWorldRisk(f: Feed, w: World, i: nat, l: Lane, appended: set<Partition>, more: set<Partition>)
    requires |w.saved| == |f.items| && i < |f.items|
    requires LaneWorld(f, w, i, l, appended)
    ensures LaneWorld(f, w, i, l, appended + more)
  {
  }

  /** Another lane's append leaves this one as it was. */
  lemma LaneWorldAppend(f: Feed, w: World, i: nat, l: Lane, appended: set<Partition>, e: Entry)
    requires |w.saved| == |f.items| && i < |f.items| && e.lane != i
    requires LaneWorld(f, w, i, l, appended)
    ensures LaneWorld(f, w.(log := w.log + [e]), i, l, appended)
  {
    var s := f.items[i];
    forall k | 0 <= k < |s| && Delivered(l.delivered, s[k].pos)
      ensures Covered(w.log + [e], i, s[k].pos, appended)
    {
      AppendCovers(w.log, e, i, s[k].pos, appended);
    }
    AppendHandled(s, w.log, e, i);
  }

  /** A lane's own append carries it to the end of what was appended. */
  lemma LaneWorldMoves(f: Feed, w: World, i: nat, l: Lane, appended: set<Partition>, e: Entry)
    requires GoodFeed(f) && |w.saved| == |f.items| && i < |f.items|
    requires LaneWorld(f, w, i, l, appended)
    requires e.lane == i && e.after == l.delivered && !e.lost && TrueText(f, e)
    requires f.items[i][Upto(f.items[i], Some(e.last)) - 1].pos == e.last
    ensures LaneWorld(f, w.(log := w.log + [e]), i, l.(delivered := Some(e.last), moved := true),
                      appended + e.pending)
  {
    hide Covered, Handled, Upto;
    var s := f.items[i];
    var lo, hi := Upto(s, l.delivered), Upto(s, Some(e.last));
    assert lo < hi by { TextLength(f, e); }
    UptoSplits(s, Some(e.last));
    UptoSplits(s, l.delivered);
    forall k | 0 <= k < |s| && Delivered(Some(e.last), s[k].pos)
      ensures Covered(w.log + [e], i, s[k].pos, appended + e.pending)
    {
      MoveCovers(f, w, i, l, appended, e, k);
    }
    forall k | 0 <= k < |s| && s[k].pos.end <= w.slot ensures Delivered(Some(e.last), s[k].pos) {
      assert Delivered(l.delivered, s[k].pos);
    }
    AppendHandled(s, w.log, e, i);
  }

  lemma TextLength(f: Feed, e: Entry)
    requires TrueText(f, e)
    ensures Upto(f.items[e.lane], e.after) < Upto(f.items[e.lane], Some(e.last))
  {
    hide Upto, ArrayText;
  }

  lemma MoveCovers(f: Feed, w: World, i: nat, l: Lane, appended: set<Partition>, e: Entry, k: nat)
    requires |w.saved| == |f.items| && i < |f.items| && k < |f.items[i]| && LaneWorld(f, w, i, l, appended)
    requires e.lane == i && e.after == l.delivered && !e.lost && Delivered(Some(e.last), f.items[i][k].pos)
    ensures Covered(w.log + [e], i, f.items[i][k].pos, appended + e.pending)
  {
    hide Handled, Upto;
    var q := f.items[i][k].pos;
    if Delivered(l.delivered, q) {
      LaneWorldRisk(f, w, i, l, appended, e.pending);
    }
    AppendCovers(w.log, e, i, q, appended + e.pending);
  }

  class Drain {
    const db: Db
    /** Per mapping: whether it carries summaries, and whether a render error stalls it. */
    const summary: seq<bool>
    const stall: seq<bool>
    /** How much text all lanes' runs may hold between them. */
    const chunkBytes: nat
    var buffered: nat
    var lanes: seq<Lane>
    var appended: set<Partition>
    /** Whether rows are still being read: until then each flush is made durable and saved at once. */
    var streaming: bool
    /** How much of its stream each lane has been offered or had delivered before. */
    ghost var got: seq<nat>

    ghost predicate Shape()
      reads this, db
    {
      && db.Valid()
      && summary == db.feed.summary
      && |db.feed.items| == |lanes| == |got| == |stall|
      && forall i | 0 <= i < |got| :: got[i] <= |db.feed.items[i]|
    }

    /** The drain's invariant, of every lane's run but that of `busy`. */
    ghost predicate ValidBut(busy: int)
      reads this, db
    {
      && Shape()
      && (forall i | 0 <= i < |lanes| && i != busy :: LaneOK(db.feed, got, i, lanes[i]))
      && LanesWorld(db.feed, db.world, lanes, appended)
      && (streaming ==> forall i | 0 <= i < |lanes| :: !lanes[i].moved)
      && SummaryScanned(db.feed, got)
      && buffered == Bodies(lanes)
    }

    ghost predicate Valid()
      reads this, db
    {
      ValidBut(-1)
    }

    /** Every partition in turn; on success all are durable, and at the first failure none after
        it is tried. */
    method SyncAll(ps: set<Partition>) returns (ok: bool, ghost done: set<Partition>)
      requires db.Valid()
      modifies db
      ensures db.Valid() && old(db.trace) <= db.trace
      ensures db.world.log == SyncedLog(old(db.world).log, done) && done <= ps
      ensures db.world.slot == old(db.world).slot && db.world.saved == old(db.world).saved
      ensures ok ==> done == ps && db.world.clean == old(db.world).clean && db.failures == old(db.failures)
      ensures !ok ==> !db.world.clean && db.failures > old(db.failures)
    {
      done := {};
      SyncedNothing(db.world.log);
      var left := ps;
      while left != {}
        invariant db.Valid() && old(db.trace) <= db.trace
        invariant done == ps - left && left <= ps
        invariant db.world == old(db.world).(log := SyncedLog(old(db.world).log, done))
        invariant db.failures == old(db.failures)
        decreases |left|
      {
        var p :| p in left;
        var synced := db.SyncPartition(p);
        if !synced {
          return false, done;
        }
        SyncedTwice(old(db.world).log, done, {p});
        left := left - {p};
        done := done + {p};
      }
      ok := true;
    }

    constructor (db: Db, summary: seq<bool>, stall: seq<bool>, chunkBytes: nat, ghost got: seq<nat>)
      requires db.Valid() && AtRest(db.feed, db.world)
      requires summary == db.feed.summary && |summary| == |stall| == |got|
      requires forall i | 0 <= i < |got| :: got[i] <= Upto(db.feed.items[i], db.world.saved[i])
      requires SummaryScanned(db.feed, got)
      ensures Valid() && this.db == db && this.got == got && streaming && appended == {} && buffered == 0
      ensures this.summary == summary && this.stall == stall && this.chunkBytes == chunkBytes
      ensures forall i | 0 <= i < |lanes| :: lanes[i].stopped.None? && lanes[i].run.None?
    {
      this.db := db;
      this.summary := summary;
      this.stall := stall;
      this.chunkBytes := chunkBytes;
      this.got := got;
      streaming := true;
      appended := {};
      buffered := 0;
      lanes := seq(|db.world.saved|, i requires 0 <= i < |db.world.saved| reads db =>
                     Lane(db.world.saved[i], false, None, None));
      new;
      NoBodies(lanes);
      forall i | 0 <= i < |lanes| ensures LaneWorld(db.feed, db.world, i, lanes[i], appended) {
        assert SafeLane(db.feed, db.world, i);
      }
    }

    /** Makes one lane's appends durable, then records its position. */
    method Persist(lane: nat, last: Pos, partitions: set<Partition>) returns (ok: bool, ghost done: set<Partition>)
      requires db.Valid() && lane < |db.feed.items|
      requires LaneWorld(db.feed, db.world, lane, Lane(Some(last), true, None, None), partitions)
      modifies db
      ensures db.Valid() && old(db.trace) <= db.trace
      ensures db.world.log == SyncedLog(old(db.world).log, done) && db.world.slot == old(db.world).slot
      ensures ok ==> db.world.clean == old(db.world).clean && db.failures == old(db.failures)
                     && db.world.saved == old(db.world).saved[lane := Some(last)]
      ensures !ok ==> !db.world.clean && db.world.saved == old(db.world).saved && db.failures > old(db.failures)
    {
      ghost var w := db.world;
      ok, done := SyncAll(partitions);
      if !ok {
        return;
      }
      LaneWorldSync(db.feed, w, lane, Lane(Some(last), true, None, None), partitions, partitions);
      assert partitions - partitions == {};
      assert db.world == w.(log := SyncedLog(w.log, done));
      var saved := db.world.saved[lane := Some(last)];
      forall i | 0 <= i < |saved| ensures SafeLane(db.feed, db.world.(saved := saved), i) {
        assert SafeLane(db.feed, db.world, i);
      }
      ok := db.SavePositions(saved);
    }

    /** Everything an append changes outside the lane that made it. */
    twostate predicate Kept()
      reads this, db
    {
      && old(db.trace) <= db.trace
      && got == old(got) && streaming == old(streaming) && buffered == old(buffered)
      && ProducedKept(old(db.world).log, db.world.log)
    }

    /** While the peek is read an append is synced and recorded at once; after that its
        partitions join those the end of the drain will sync. */
    method Record(lane: nat, last: Pos, partitions: set<Partition>, ghost w: World, ghost e: Entry) returns (ok: bool)
      requires db.Valid() && lane < |lanes| && StateOK(db.feed, w)
      requires LanesWorld(db.feed, w, lanes, appended)
      requires db.world == w.(log := w.log + [e])
      requires e.lane == lane && e.after == lanes[lane].delivered && e.last == last
      requires e.pending == partitions && !e.lost && TrueText(db.feed, e)
      requires db.feed.items[lane][Upto(db.feed.items[lane], Some(last)) - 1].pos == last
      requires streaming ==> !lanes[lane].moved
      modifies this`appended, db
      ensures db.Valid() && old(db.trace) <= db.trace && ProducedKept(old(db.world).log, db.world.log)
      ensures ok ==> db.failures == old(db.failures)
                     && LanesWorld(db.feed, db.world,
                                   lanes[lane := lanes[lane].(delivered := Some(last), moved := !streaming)], appended)
      ensures !ok ==> db.failures > old(db.failures) && !db.world.clean && LanesWorld(db.feed, db.world, lanes, appended)
    {
      hide LaneWorld, StateOK;
      ghost var w1 := db.world;
      Standing(db.feed, w, lane, lanes[lane], appended);
      AppendedLanes(db.feed, w, lanes, lane, appended, e);
      SyncedNothing(w1.log);
      if !streaming {
        appended := appended + partitions;
        return true;
      }
      OwnAppend(db.feed, w, lane, lanes[lane], appended, e);
      ghost var done;
      ok, done := Persist(lane, last, partitions);
      SyncProduces(w1.log, done);
      if ok {
        PersistedLanes(db.feed, w1, db.world, lanes, lane, last, appended, partitions, done);
      } else {
        PersistFailedLanes(db.feed, w, db.world, lanes, appended, e, done);
        appended := appended + partitions;
      }
    }

    /** Renders and appends one stretch, after which the lane has delivered up to `last`. */
    method Produce(lane: nat, cols: string, body: string, last: Pos) returns (r: Outcome)
      requires ValidBut(lane) && lane < |lanes|
      requires var s := db.feed.items[lane];
               Renders(s, Upto(s, lanes[lane].delivered), Upto(s, Some(last)), cols, body)
               && s[Upto(s, Some(last)) - 1].pos == last
      requires summary[lane] ==> TablesProduced(db.feed, db.world.log, last.end)
      modifies this, db
      ensures ValidBut(lane) && Kept()
      ensures r.Done? ==> db.failures == old(db.failures)
                          && lanes == old(lanes)[lane := old(lanes)[lane].(delivered := Some(last), moved := !streaming)]
      ensures !r.Done? ==> lanes == old(lanes) && db.failures > old(db.failures)
      ensures r.RenderFailed? ==> db.refused == Some(Refusal(lane, lanes[lane].delivered, last))
      ensures r.PersistFailed? ==> !db.world.clean
    {
      hide LaneOK, LaneWorld, StateOK, SummaryScanned, TablesProduced, Renders, Bodies, Handled;
      ghost var w := db.world;
      var l := lanes[lane];
      Standing(db.feed, w, lane, l, appended);
      var rendered := db.RenderAndProduce(lane, l.delivered, last, cols, body);
      if rendered.None? {
        return RenderFailed;
      }
      ghost var e := Entry(lane, l.delivered, last, cols, body, rendered.value, false);
      AppendProduces(w.log, e);
      var recorded := Record(lane, last, rendered.value, w, e);
      if !recorded {
        return PersistFailed;
      }
      var l' := l.(delivered := Some(last), moved := !streaming);
      BodiesUpdate(lanes, lane, l');
      lanes := lanes[lane := l'];
      return Done;
    }

    /** Only the busy lane's delivered position may have moved. */
    twostate predicate OnlyDelivered(lane: nat)
      reads this
    {
      && |lanes| == |old(lanes)| && lane < |lanes|
      && lanes == old(lanes)[lane := old(lanes)[lane].(delivered := lanes[lane].delivered, moved := lanes[lane].moved)]
    }

    /** One transaction at a time, in order, to the first that fails; the slot is then to be held
        where it keeps that one. */
    method Retry(lane: nat, run: Run, ghost lo: nat, ghost hi: nat) returns (failed: Option<Stop>)
      requires ValidBut(lane) && lane < |lanes|
      requires RunOK(db.feed, got, db.feed.items[lane], run, lo, hi)
      requires lo == Upto(db.feed.items[lane], lanes[lane].delivered)
      requires summary[lane] ==> TablesProduced(db.feed, db.world.log, run.last.end)
      modifies this, db
      ensures ValidBut(lane) && Kept() && OnlyDelivered(lane)
      ensures failed.None? ==> lanes[lane].delivered == Some(run.last)
      ensures Upto(db.feed.items[lane], lanes[lane].delivered) <= hi
      ensures failed.Some? ==> HoldOK(db.feed, got, db.feed.items[lane], failed.value.hold,
                                      Upto(db.feed.items[lane], lanes[lane].delivered))
      ensures db.failures >= old(db.failures)
      ensures failed.Some? ==> db.failures > old(db.failures)
      ensures failed.Some? && db.world.clean
              ==> HeldAtRefused(db.feed.items[lane], run.ends, lo, lane, lanes[lane].delivered, failed.value.hold, db.refused)
    {
      hide LaneOK, LanesWorld, StateOK, SummaryScanned, Bodies, EndOK, RunOK, Renders, TablesProduced, HoldOK, Upto;
      ghost var f, s := db.feed, db.feed.items[lane];
      GoodState(f, db.world);
      var parts := Transactions(run, f, got, s, lo, hi);
      LastCut(f, got, s, run, lo, hi);
      for x := 0 to |parts|
        invariant ValidBut(lane) && Kept() && OnlyDelivered(lane)
        invariant db.failures >= old(db.failures)
        invariant Upto(s, lanes[lane].delivered) == CutBefore(s, run.ends, x, lo)
        invariant x > 0 ==> lanes[lane].delivered == Some(run.ends[x - 1].last)
        invariant Upto(s, lanes[lane].delivered) <= hi
      {
        PartRenders(f, got, s, run, lo, hi, x, parts[x]);
        if summary[lane] {
          EarlierTables(f, old(db.world).log, db.world.log, parts[x].last.end, run.last.end);
        }
        var r := Produce(lane, run.cols, parts[x].text, parts[x].last);
        if !r.Done? {
          assert r.RenderFailed? ==> RefusedAt(s, run.ends, lo, lane, lanes[lane].delivered, parts[x].hold, db.refused, x);
          return Some(Stop(parts[x].hold));
        }
      }
      failed := None;
    }

    /** Produces a run, falling back to one transaction at a time when a stalling mapping fails
        to render several at once. */
    method Deliver(lane: nat, run: Run, ghost lo: nat, ghost hi: nat) returns (failed: Option<Stop>)
      requires ValidBut(lane) && lane < |lanes|
      requires RunOK(db.feed, got, db.feed.items[lane], run, lo, hi)
      requires lo == Upto(db.feed.items[lane], lanes[lane].delivered)
      requires summary[lane] ==> TablesProduced(db.feed, db.world.log, run.last.end)
      modifies this, db
      ensures ValidBut(lane) && Kept() && OnlyDelivered(lane)
      ensures failed.None? ==> lanes[lane].delivered == Some(run.last)
      ensures Upto(db.feed.items[lane], lanes[lane].delivered) <= hi
      ensures failed.Some? ==> HoldOK(db.feed, got, db.feed.items[lane], failed.value.hold,
                                      Upto(db.feed.items[lane], lanes[lane].delivered))
      ensures db.failures >= old(db.failures)
      ensures failed.Some? ==> db.failures > old(db.failures)
      ensures failed.Some? && stall[lane] && |run.ends| > 1 && db.world.clean && db.refused.Some?
              ==> HeldAtRefused(db.feed.items[lane], run.ends, lo, lane, lanes[lane].delivered, failed.value.hold, db.refused)
    {
      hide LaneOK, LanesWorld, StateOK, SummaryScanned, Bodies, Body;
      ghost var f, s := db.feed, db.feed.items[lane];
      GoodState(f, db.world);
      var readable := db.Step();
      if !readable {
        return Some(Stop(run.hold));
      }
      UptoAt(s, hi);
      RunRenders(f, got, s, run, lo, hi);
      var r := Produce(lane, run.cols, run.body + "]", run.last);
      if r.Done? {
        return None;
      }
      failed := Some(Stop(run.hold));
      if r.RenderFailed? && stall[lane] && |run.ends| > 1 {
        if summary[lane] {
          EarlierTables(f, old(db.world).log, db.world.log, run.last.end, run.last.end);
        }
        failed := Retry(lane, run, lo, hi);
      }
    }

    /** What flushing `lane` may do to the others: table runs may go out before a summary, and
        nothing else moves. */
    twostate predicate Flushed(lane: nat)
      reads this, db
    {
      && old(db.trace) <= db.trace
      && got == old(got) && streaming == old(streaming) && |lanes| == |old(lanes)| == |summary|
      && buffered <= old(buffered)
      && ProducedKept(old(db.world).log, db.world.log)
      && db.failures >= old(db.failures)
      && NoFurther(db.feed, got, old(lanes), lanes)
      && (NoRuns(old(lanes)) ==> lanes == old(lanes) && db.world == old(db.world))
      && (forall j | 0 <= j < |lanes| :: lanes[j].run == old(lanes)[j].run || lanes[j].run.None?)
      && (forall j | 0 <= j < |lanes| :: old(lanes)[j].stopped.Some? ==> lanes[j] == old(lanes)[j])
      && (forall j | 0 <= j < |lanes| && j != lane ::
            summary[j] || lane >= |lanes| || !summary[lane] ==> lanes[j] == old(lanes)[j])
      && (db.failures == old(db.failures) && (forall j | 0 <= j < |lanes| :: old(lanes)[j].stopped.None?)
          ==> forall j | 0 <= j < |lanes| :: lanes[j].stopped.None?)
    }

    /** Where each stopped table mapping holds the slot. */
    method HeldTables() returns (holds: seq<Option<Lsn>>)
      requires |summary| == |lanes|
      ensures forall j | 0 <= j < |lanes| && !summary[j] && lanes[j].stopped.Some? :: lanes[j].stopped.value.hold in holds
      ensures forall h | h in holds :: exists j | 0 <= j < |lanes| :: lanes[j].stopped == Some(Stop(h))
    {
      holds := [];
      for other := 0 to |lanes|
        invariant forall j | 0 <= j < other && !summary[j] && lanes[j].stopped.Some? :: lanes[j].stopped.value.hold in holds
        invariant forall h | h in holds :: exists j | 0 <= j < |lanes| :: lanes[j].stopped == Some(Stop(h))
      {
        if !summary[other] && lanes[other].stopped.Some? {
          holds := holds + [lanes[other].stopped.value.hold];
        }
      }
    }

    method FlushTables(ghost lane: nat)
      requires Valid() && lane < |lanes| && summary[lane]
      modifies this, db
      ensures Valid() && Flushed(lane) && lanes[lane] == old(lanes)[lane]
      ensures TablesOut(lanes, summary)
      decreases 1
    {
      hide LaneOK, LanesWorld, StateOK, SummaryScanned, Bodies;
      GoodState(db.feed, db.world);
      for other := 0 to |lanes|
        invariant Valid() && Flushed(lane) && lanes[lane] == old(lanes)[lane]
        invariant forall j | 0 <= j < other && !summary[j] :: lanes[j].run.None?
      {
        if !summary[other] {
          Flush(other);
        }
      }
    }

    /** Sends out every table run ahead of a summary's, and says where the slot is held, and so
        how far a summary may go, when some table lane has stopped. */
    method ChangesFirst(lane: nat) returns (held: Option<Stop>)
      requires Valid() && lane < |lanes| && summary[lane]
      modifies this, db
      ensures Valid() && Flushed(lane) && lanes[lane] == old(lanes)[lane]
      ensures TablesOut(lanes, summary)
      ensures held.None? ==> TablesRunning(lanes, summary)
      ensures held.Some? ==> HeldBefore(db.feed, got, lanes, summary, held.value.hold)
      ensures held.Some? ==> exists j | 0 <= j < |lanes| :: lanes[j].stopped.Some?
      decreases 2
    {
      hide LaneOK, LanesWorld, StateOK, SummaryScanned, Bodies;
      GoodState(db.feed, db.world);
      FlushTables(lane);
      var holds := HeldTables();
      if holds == [] {
        return None;
      }
      var hold := AdvanceTarget(None, holds);
      EarliestHeld(db.feed, got, lanes, summary, holds, hold);
      assert holds[0] in holds;
      held := Some(Stop(hold));
    }

    /** Stops a lane: the slot is to be held at `stop`. */
    method Halt(lane: nat, stop: Stop)
      requires ValidBut(lane) && lane < |lanes| && lanes[lane].run.None?
      requires HoldOK(db.feed, got, db.feed.items[lane], stop.hold, Upto(db.feed.items[lane], lanes[lane].delivered))
      modifies this`lanes
      ensures Valid() && lanes == old(lanes)[lane := old(lanes)[lane].(stopped := Some(stop))]
    {
      hide StateOK, SummaryScanned, Bodies;
      BodiesUpdate(lanes, lane, lanes[lane].(stopped := Some(stop)));
      lanes := lanes[lane := lanes[lane].(stopped := Some(stop))];
    }

    /** Takes a lane's run out of its hands and off the budget. */
    method Take(lane: nat) returns (run: Run)
      requires Valid() && lane < |lanes| && lanes[lane].run.Some?
      modifies this`lanes, this`buffered
      ensures ValidBut(lane) && lanes == old(lanes)[lane := old(lanes)[lane].(run := None)]
      ensures Some(run) == old(lanes)[lane].run && lanes[lane].stopped.None?
      ensures RunOK(db.feed, got, db.feed.items[lane], run, Upto(db.feed.items[lane], lanes[lane].delivered), got[lane])
      ensures buffered + |run.body| == old(buffered)
    {
      hide StateOK, SummaryScanned, Bodies, RunOK;
      assert LaneOK(db.feed, got, lane, lanes[lane]);
      run := lanes[lane].run.value;
      BodiesUpdate(lanes, lane, lanes[lane].(run := None));
      buffered := buffered - |run.body|;
      lanes := lanes[lane := lanes[lane].(run := None)];
    }

    /** Takes a lane's run and cuts from it what must wait for a stopped table lane; `None` when
        all of it must, and the lane stops. */
    method Trim(lane: nat, held: Option<Stop>) returns (run: Option<Run>, ghost hi: nat)
      requires Valid() && lane < |lanes| && lanes[lane].run.Some?
      requires held.Some? ==> summary[lane] && HeldBefore(db.feed, got, lanes, summary, held.value.hold)
      requires summary[lane] ==> TablesOut(lanes, summary) && (held.None? ==> TablesRunning(lanes, summary))
      modifies this`lanes, this`buffered
      ensures buffered + BodyLen(old(lanes)[lane]) == old(buffered)
      ensures |lanes| == |old(lanes)| && lanes == old(lanes)[lane := lanes[lane]] && lanes[lane].run.None?
      ensures run.None? ==> Valid() && held.Some?
      ensures lanes[lane].delivered == old(lanes)[lane].delivered
      ensures run.Some? ==> ValidBut(lane) && lanes[lane].stopped.None? && hi <= got[lane]
      ensures run.Some? ==> RunOK(db.feed, got, db.feed.items[lane], run.value,
                                  Upto(db.feed.items[lane], lanes[lane].delivered), hi)
      ensures run.Some? ==> if held.Some? then HoldOK(db.feed, got, db.feed.items[lane], held.value.hold, hi)
                            else hi == got[lane]
      ensures run.Some? && summary[lane] ==> TablesProduced(db.feed, db.world.log, run.value.last.end)
    {
      hide LaneOK, StateOK, Bodies, RunOK, HoldOK, TablesProduced, SummaryScanned, Upto;
      ghost var f, s, before := db.feed, db.feed.items[lane], lanes;
      GoodState(f, db.world);
      var whole := Take(lane);
      ghost var lo := Upto(s, lanes[lane].delivered);
      hi := got[lane];
      var kept := whole;
      if held.Some? {
        var d := Deliverable(whole.ends, held.value.hold);
        if d.None? {
          RunHold(f, got, s, whole, lo, hi);
          Halt(lane, Stop(whole.hold));
          return None, 0;
        }
        kept := CutAt(whole, d.value);
        hi := HeldCut(f, got, lane, whole, lo, before, summary, held.value.hold, d.value);
      }
      if summary[lane] {
        TablesBefore(f, db.world, got, before, summary, appended, lane, kept, lo, hi, held);
      }
      run := Some(kept);
    }

    /** Sends out a lane's run, or the part of it `held` lets go, and stops the lane when it
        cannot go on. */
    method FlushRun(lane: nat, held: Option<Stop>)
      requires Valid() && lane < |lanes| && lanes[lane].run.Some?
      requires held.Some? ==> summary[lane] && HeldBefore(db.feed, got, lanes, summary, held.value.hold)
      requires summary[lane] ==> TablesOut(lanes, summary) && (held.None? ==> TablesRunning(lanes, summary))
      modifies this, db
      ensures Valid() && old(db.trace) <= db.trace && got == old(got) && streaming == old(streaming)
      ensures ProducedKept(old(db.world).log, db.world.log)
      ensures buffered + BodyLen(old(lanes)[lane]) == old(buffered)
      ensures |lanes| == |old(lanes)| && lanes == old(lanes)[lane := lanes[lane]] && lanes[lane].run.None?
      ensures db.failures >= old(db.failures)
      ensures lanes[lane].stopped.Some? ==> held.Some? || db.failures > old(db.failures)
      ensures NoFurther(db.feed, got, old(lanes), lanes)
    {
      hide LaneOK, LanesWorld, StateOK, SummaryScanned, Bodies, RunOK, HoldOK, TablesProduced, HeldBefore, ProducedKept, Upto;
      ghost var f, s := db.feed, db.feed.items[lane];
      GoodState(f, db.world);
      KeptAlways(db.world.log);
      var run, hi := Trim(lane, held);
      if run.None? {
        return;
      }
      ghost var lo := Upto(s, lanes[lane].delivered);
      var failed := Deliver(lane, run.value, lo, hi);
      if failed.Some? {
        Halt(lane, failed.value);
      } else {
        RunRenders(f, got, s, run.value, lo, hi);
        if held.Some? {
          Halt(lane, held.value);
        } else {
          AllOut(f, got, lane, lanes[lane]);
        }
      }
    }

    /** Sends out a lane's run, the table lanes' first when it carries summaries. */
    method Flush(lane: nat)
      requires Valid() && lane < |lanes|
      modifies this, db
      ensures Valid() && Flushed(lane)
      ensures lanes[lane].run.None?
      ensures buffered + BodyLen(old(lanes)[lane]) <= old(buffered)
      decreases if summary[lane] then 3 else 0
    {
      hide LaneOK, LanesWorld, StateOK, SummaryScanned, Bodies, HeldBefore;
      GoodState(db.feed, db.world);
      var held := None;
      if summary[lane] {
        held := ChangesFirst(lane);
      }
      if lanes[lane].run.None? {
        return;
      }
      assert lanes[lane].stopped.None? by {
        NotBoth(db.feed, got, lane, lanes[lane]);
      }
      FlushRun(lane, held);
    }

    /** The lane with the longest body, the last of them if several are as long. */
    method Largest() returns (largest: nat)
      requires |lanes| > 0
      ensures largest < |lanes|
      ensures forall j | 0 <= j < |lanes| :: BodyLen(lanes[j]) <= BodyLen(lanes[largest])
      ensures forall j | largest < j < |lanes| :: BodyLen(lanes[j]) < BodyLen(lanes[largest])
    {
      largest := 0;
      for i := 1 to |lanes|
        invariant largest < i
        invariant forall j | 0 <= j < i :: BodyLen(lanes[j]) <= BodyLen(lanes[largest])
        invariant forall j | largest < j < i :: BodyLen(lanes[j]) < BodyLen(lanes[largest])
      {
        if BodyLen(lanes[largest]) <= BodyLen(lanes[i]) {
          largest := i;
        }
      }
    }

    /** What making room may do: send runs out, in whatever lanes. */
    twostate predicate Drained()
      reads this, db
    {
      && old(db.trace) <= db.trace
      && got == old(got) && streaming == old(streaming) && |lanes| == |old(lanes)|
      && db.failures >= old(db.failures)
      && NoFurther(db.feed, got, old(lanes), lanes)
      && (forall j | 0 <= j < |lanes| :: lanes[j].run == old(lanes)[j].run || lanes[j].run.None?)
      && (db.failures == old(db.failures) && (forall j | 0 <= j < |lanes| :: old(lanes)[j].stopped.None?)
          ==> forall j | 0 <= j < |lanes| :: lanes[j].stopped.None?)
    }

    /** Flushes the largest runs until an element of `need` bytes fits, or nothing is buffered. */
    method MakeRoom(need: nat)
      requires Valid() && |lanes| > 0
      modifies this, db
      ensures Valid() && Drained()
      ensures buffered == 0 || buffered + need + 2 <= chunkBytes
    {
      hide LaneOK, LanesWorld, StateOK, SummaryScanned, ProducedKept;
      while buffered > 0 && buffered + need + 2 > chunkBytes
        invariant Valid() && Drained()
        decreases buffered
      {
        var largest := Largest();
        BufferedSomewhere(lanes);
        if lanes[largest].run.None? {
          assert false;
          break;
        }
        Flush(largest);
      }
    }

    /** Adds one element to a lane's run, starting one if it has none. */
    method Append(lane: nat, hold: Option<Lsn>, cols: string, element: string, pos: Pos)
      requires Valid() && lane < |lanes| && lanes[lane].stopped.None?
      requires got[lane] < |db.feed.items[lane]| && db.feed.items[lane][got[lane]] == Item(pos, cols, element)
      requires !Delivered(lanes[lane].delivered, pos)
      requires lanes[lane].run.Some? ==> lanes[lane].run.value.cols == cols
      requires HoldOK(db.feed, got, db.feed.items[lane], hold, got[lane])
      requires summary[lane] ==> TablesScanned(db.feed, got, pos.end)
      modifies this`lanes, this`buffered, this`got
      ensures Valid() && got == old(got)[lane := old(got)[lane] + 1]
      ensures lanes == old(lanes)[lane := lanes[lane]] && lanes[lane].stopped.None?
      ensures lanes[lane].run.Some? && buffered == old(buffered) + |element| + 1
    {
      hide LanesWorld, StateOK, RunOK, HoldOK, Bodies, Upto, SummaryScanned, TablesScanned, LaneOK, Added, Delivered;
      ghost var f, n := db.feed, got[lane];
      var l := lanes[lane];
      var run := if l.run.Some? then l.run.value else Run(cols, "[", hold, pos, []);
      var run' := Added(run, pos, hold, element);
      AddedLane(f, db.world, got, lane, l, run, hold);
      AddedLength(run, pos, hold, element);
      BodiesUpdate(lanes, lane, l.(run := Some(run')));
      GoodState(f, db.world);
      ScanGrows(f, got, lane);
      OthersKept(f, got, lane, lanes);
      RunOnly(f, db.world, lanes, appended, lane, Some(run'));
      buffered := buffered + |run'.body| - |run.body| + (if |run.body| == 1 then 1 else 0);
      lanes := lanes[lane := l.(run := Some(run'))];
      got := got[lane := n + 1];
    }

    /** A lane passes a change by. */
    ghost method Pass(lane: nat)
      requires Valid() && lane < |lanes| && got[lane] < |db.feed.items[lane]|
      requires lanes[lane].stopped.Some? || Delivered(lanes[lane].delivered, db.feed.items[lane][got[lane]].pos)
      requires summary[lane] ==> TablesScanned(db.feed, got, db.feed.items[lane][got[lane]].pos.end)
      modifies this`got
      ensures Valid() && got == old(got)[lane := old(got)[lane] + 1]
    {
      hide LanesWorld, StateOK, SummaryScanned, Bodies, RunOK, HoldOK, Upto;
      GoodState(db.feed, db.world);
      ScanGrows(db.feed, got, lane);
      OthersKept(db.feed, got, lane, lanes);
      assert LaneOK(db.feed, got, lane, lanes[lane]);
      PassedLane(db.feed, got, lane, lanes[lane]);
      got := got[lane := got[lane] + 1];
    }

    /** A shape change closes a lane's run for good; then room is made for the new element. */
    method Prepare(lane: nat, cols: string, need: nat)
      requires Valid() && lane < |lanes|
      modifies this, db
      ensures Valid() && Drained()
      ensures buffered == 0 || buffered + need + 2 <= chunkBytes
      ensures lanes[lane].run.Some? ==> lanes[lane].run.value.cols == cols
    {
      hide LaneOK, LanesWorld, StateOK, SummaryScanned, Bodies, Upto, ProducedKept;
      if lanes[lane].run.Some? && lanes[lane].run.value.cols != cols {
        Flush(lane);
      }
      MakeRoom(need);
    }

    /** The next change of a lane's stream. A lane that is stopped, or has delivered it before,
        passes it by; any other takes it into its run. */
    method Offer(lane: nat, pos: Pos, hold: Option<Lsn>, cols: string, element: string) returns (ghost taken: bool)
      requires Valid() && lane < |lanes|
      requires got[lane] < |db.feed.items[lane]| && db.feed.items[lane][got[lane]] == Item(pos, cols, element)
      requires HoldOK(db.feed, got, db.feed.items[lane], hold, got[lane])
      requires summary[lane] ==> TablesScanned(db.feed, got, pos.end)
      modifies this, db
      ensures Valid() && old(db.trace) <= db.trace && streaming == old(streaming)
      ensures got == old(got)[lane := old(got)[lane] + 1] && |lanes| == |old(lanes)|
      ensures db.failures >= old(db.failures)
      ensures db.failures == old(db.failures) && (forall j | 0 <= j < |lanes| :: old(lanes)[j].stopped.None?)
              ==> forall j | 0 <= j < |lanes| :: lanes[j].stopped.None?
      ensures taken ==> lanes[lane].run.Some? && buffered <= (if chunkBytes > |element| + 1 then chunkBytes else |element| + 1)
      ensures !taken ==> lanes[lane].stopped.Some? || Delivered(old(lanes)[lane].delivered, pos)
    {
      hide LaneOK, LanesWorld, StateOK, SummaryScanned, HoldOK, Bodies, Upto, NoFurther, TablesScanned;
      GoodState(db.feed, db.world);
      if lanes[lane].stopped.Some? || Delivered(lanes[lane].delivered, pos) {
        Pass(lane);
        return false;
      }
      Prepare(lane, cols, |element|);
      if lanes[lane].stopped.Some? {
        Pass(lane);
        return false;
      }
      NotYet(db.feed, got, old(lanes), lanes, lane);
      Append(lane, hold, cols, element, pos);
      taken := true;
    }

    /** The peek is read: what is left goes out, tables before summaries, to be synced and
        recorded all together. */
    method Finish()
      requires Valid()
      modifies this, db
      ensures Valid() && old(db.trace) <= db.trace && got == old(got)
      ensures |lanes| == |old(lanes)| && NoRuns(lanes)
      ensures NoRuns(old(lanes)) ==> lanes == old(lanes) && db.world == old(db.world)
      ensures db.failures >= old(db.failures)
      ensures db.failures == old(db.failures) && (forall j | 0 <= j < |lanes| :: old(lanes)[j].stopped.None?)
              ==> forall j | 0 <= j < |lanes| :: lanes[j].stopped.None?
    {
      hide LaneOK, LanesWorld, StateOK, SummaryScanned, Bodies, ProducedKept, NoFurther;
      GoodState(db.feed, db.world);
      streaming := false;
      for lane := 0 to |lanes|
        invariant Valid() && Sent(old(lanes), old(db.failures)) && old(db.trace) <= db.trace && got == old(got)
        invariant NoRuns(old(lanes)) ==> lanes == old(lanes) && db.world == old(db.world)
        invariant forall j | 0 <= j < lane && !summary[j] :: lanes[j].run.None?
      {
        if !summary[lane] {
          Flush(lane);
        }
      }
      for lane := 0 to |lanes|
        invariant Valid() && Sent(old(lanes), old(db.failures)) && old(db.trace) <= db.trace && got == old(got)
        invariant NoRuns(old(lanes)) ==> lanes == old(lanes) && db.world == old(db.world)
        invariant TablesOut(lanes, summary)
        invariant forall j | 0 <= j < lane :: lanes[j].run.None?
      {
        if summary[lane] {
          Flush(lane);
        }
      }
    }

    ghost predicate Sent(before: seq<Lane>, failures: nat)
      reads this, db
    {
      && |lanes| == |before| == |summary|
      && db.failures >= failures
      && (db.failures == failures && (forall j | 0 <= j < |lanes| :: before[j].stopped.None?)
          ==> forall j | 0 <= j < |lanes| :: lanes[j].stopped.None?)
    }

    /** What the lanes are stopped at. */
    method Holds() returns (holds: seq<Option<Lsn>>)
      ensures forall j | 0 <= j < |lanes| && lanes[j].stopped.Some? :: lanes[j].stopped.value.hold in holds
      ensures forall h | h in holds :: exists j | 0 <= j < |lanes| :: lanes[j].stopped == Some(Stop(h))
    {
      holds := [];
      for i := 0 to |lanes|
        invariant forall j | 0 <= j < i && lanes[j].stopped.Some? :: lanes[j].stopped.value.hold in holds
        invariant forall h | h in holds :: exists j | 0 <= j < |lanes| :: lanes[j].stopped == Some(Stop(h))
      {
        if lanes[i].stopped.Some? {
          holds := holds + [lanes[i].stopped.value.hold];
        }
      }
    }

    /** Syncs what was appended, then records what moved. */
    method Settle() returns (ok: bool)
      requires Valid()
      modifies db
      ensures db.Valid() && old(db.trace) <= db.trace && AtRest(db.feed, db.world)
      ensures ok ==> Recorded(lanes, db.world.saved) && db.failures == old(db.failures)
      ensures !ok ==> db.failures > old(db.failures)
    {
      hide LanesWorld, StateOK, SummaryScanned, Bodies, LaneOK, HandledTo, AtRest, Recorded, SlotBehind, SafeLane;
      ghost var f, w := db.feed, db.world;
      GoodState(f, w);
      ghost var done;
      ok, done := SyncAll(appended);
      if !ok {
        SpoiltRest(f, db.world);
        return;
      }
      SyncedLanes(f, w, lanes, appended);
      ghost var w1 := w.(log := SyncedLog(w.log, appended));
      assert db.world == w1;
      if exists j | 0 <= j < |lanes| :: lanes[j].moved {
        var before := db.world.saved;
        var ls := lanes;
        var saved := seq(|ls|, j requires 0 <= j < |ls| => if ls[j].moved || j >= |before| then ls[j].delivered else before[j]);
        AllSafe(f, w1, lanes, saved);
        ok := db.SavePositions(saved);
        if !ok {
          SpoiltRest(f, db.world);
          return;
        }
      }
      SavedRest(f, w1, db.world, lanes);
    }

    /** Syncs what was appended, then records what moved, then moves the slot, in that order. */
    method Commit(high: Lsn) returns (ok: bool)
      requires Valid() && NoRuns(lanes)
      requires ScannedTo(db.feed, got, high)
      modifies db
      ensures db.Valid() && old(db.trace) <= db.trace && AtRest(db.feed, db.world)
      ensures db.failures >= old(db.failures)
      ensures db.failures == old(db.failures) && (forall j | 0 <= j < |lanes| :: lanes[j].stopped.None?)
              ==> db.world.slot == high && Recorded(lanes, db.world.saved)
    {
      hide LanesWorld, StateOK, SummaryScanned, Bodies, LaneOK, AtRest, SlotBehind, ScannedTo;
      ghost var f, w := db.feed, db.world;
      GoodState(f, w);
      var holds := Holds();
      ok := Settle();
      if !ok {
        return;
      }
      NoHolds(lanes, holds);
      var target := AdvanceTarget(Some(high), holds);
      if target.Some? {
        TargetSafe(f, got, lanes, holds, high, target.value);
        ghost var w2 := db.world;
        ok := db.Advance(target.value);
        SlotMoved(f, w2, db.world);
      }
    }
  }

  lemma {:induction false} NoBodies(lanes: seq<Lane>)
    requires forall i | 0 <= i < |lanes| :: lanes[i].run.None?
    ensures Bodies(lanes) == 0
  {
    if lanes != [] {
      NoBodies(lanes[..|lanes| - 1]);
    }
  }

  lemma Standing(f: Feed, w: World, i: nat, l: Lane, appended: set<Partition>)
    requires StateOK(f, w) && i < |f.items| && LaneWorld(f, w, i, l, appended)
    ensures GoodFeed(f)
    ensures w.clean ==> Handled(f.items[i], w.log, i) == f.items[i][..Upto(f.items[i], l.delivered)]
  {
  }

  ghost predicate ProducedKept(log: seq<Entry>, log': seq<Entry>) {
    forall i: nat, q :: Produced(log, i, q) ==> Produced(log', i, q)
  }

  lemma GoodState(f: Feed, w: World)
    requires StateOK(f, w)
    ensures GoodFeed(f) && |w.saved| == |f.items|
  {
  }

  /** A run's last transaction ends where the run does. */
  lemma LastCut(f: Feed, got: seq<nat>, s: seq<Item>, run: Run, lo: nat, hi: nat)
    requires |got| == |f.items| && RunOK(f, got, s, run, lo, hi)
    ensures |run.ends| > 0 && lo < hi <= |s|
    ensures Cut(s, run.ends[|run.ends| - 1]) == hi && run.ends[|run.ends| - 1].last == run.last
  {
    assert EndOK(f, got, s, run.ends, |run.ends| - 1, lo, hi);
  }

  lemma RunRenders(f: Feed, got: seq<nat>, s: seq<Item>, run: Run, lo: nat, hi: nat)
    requires |got| == |f.items| && Sorted(s) && RunOK(f, got, s, run, lo, hi)
    ensures Upto(s, Some(run.last)) == hi
    ensures Renders(s, lo, hi, run.cols, run.body + "]")
  {
    UptoAt(s, hi);
  }

  /** No table lane has a run in hand. */
  ghost predicate TablesOut(lanes: seq<Lane>, summary: seq<bool>) {
    |lanes| == |summary| && forall j | 0 <= j < |lanes| && !summary[j] :: lanes[j].run.None?
  }

  ghost predicate TablesRunning(lanes: seq<Lane>, summary: seq<bool>) {
    |lanes| == |summary| && forall j | 0 <= j < |lanes| && !summary[j] :: lanes[j].stopped.None?
  }

  /** `hold` is one of the positions the lanes are held at, and no stopped table lane is held
      before it. */
  ghost predicate HeldBefore(f: Feed, got: seq<nat>, lanes: seq<Lane>, summary: seq<bool>, hold: Option<Lsn>)
    requires |got| == |f.items|
  {
    && |lanes| == |summary| == |f.items|
    && (hold.Some? ==>
          && ScannedTo(f, got, hold.value)
          && forall j | 0 <= j < |lanes| && !summary[j] && lanes[j].stopped.Some? ::
               lanes[j].stopped.value.hold.Some? && hold.value <= lanes[j].stopped.value.hold.value)
  }

  lemma EarliestHeld(f: Feed, got: seq<nat>, lanes: seq<Lane>, summary: seq<bool>,
                     holds: seq<Option<Lsn>>, hold: Option<Lsn>)
    requires |got| == |f.items| == |lanes| == |summary|
    requires holds != [] && hold == AdvanceTarget(None, holds)
    requires forall j | 0 <= j < |lanes| :: LaneOK(f, got, j, lanes[j])
    requires forall j | 0 <= j < |lanes| && !summary[j] && lanes[j].stopped.Some? :: lanes[j].stopped.value.hold in holds
    requires forall h | h in holds :: exists j | 0 <= j < |lanes| :: lanes[j].stopped == Some(Stop(h))
    ensures HeldBefore(f, got, lanes, summary, hold)
  {
  }

  lemma RunHold(f: Feed, got: seq<nat>, s: seq<Item>, run: Run, lo: nat, hi: nat)
    requires |got| == |f.items| && RunOK(f, got, s, run, lo, hi)
    ensures HoldOK(f, got, s, run.hold, lo)
  {
  }

  /** No lane has delivered anything it was not offered, beyond what it had before. */
  ghost predicate NoFurther(f: Feed, got: seq<nat>, lanes: seq<Lane>, lanes': seq<Lane>) {
    && |lanes| == |lanes'| == |got| == |f.items|
    && forall j | 0 <= j < |lanes| ::
         lanes'[j].delivered == lanes[j].delivered || Upto(f.items[j], lanes'[j].delivered) <= got[j]
  }

  /** A change a lane had not delivered before making room is still to be delivered. */
  lemma NotYet(f: Feed, got: seq<nat>, lanes: seq<Lane>, lanes': seq<Lane>, lane: nat)
    requires GoodFeed(f) && NoFurther(f, got, lanes, lanes') && lane < |lanes|
    requires got[lane] < |f.items[lane]| && !Delivered(lanes[lane].delivered, f.items[lane][got[lane]].pos)
    ensures !Delivered(lanes'[lane].delivered, f.items[lane][got[lane]].pos)
  {
    UptoSplits(f.items[lane], lanes'[lane].delivered);
  }

  ghost predicate NoRuns(lanes: seq<Lane>) {
    forall j | 0 <= j < |lanes| :: lanes[j].run.None?
  }

  lemma NotBoth(f: Feed, got: seq<nat>, i: nat, l: Lane)
    requires |got| == |f.items| && i < |f.items| && LaneOK(f, got, i, l) && l.run.Some?
    ensures l.stopped.None?
  {
  }

  /** A lane that delivered all it was offered is idle. */
  lemma AllOut(f: Feed, got: seq<nat>, i: nat, l: Lane)
    requires |got| == |f.items| && i < |f.items|
    requires l.run.None? && l.stopped.None? && got[i] <= Upto(f.items[i], l.delivered)
    ensures LaneOK(f, got, i, l)
  {
  }

  /** A summary run cut after the transaction `d`. */
  function CutAt(run: Run, d: End): Run {
    run.(body := if d.len <= |run.body| then run.body[..d.len] else run.body,
         ends := Retained(run.ends, d.last.end),
         last := d.last)
  }

  /** Cut at the last transaction ending by `hold`, a run is still a run, and holding the slot
      at `hold` keeps everything the lane has not delivered once the cut run is out. */
  lemma HeldCut(f: Feed, got: seq<nat>, lane: nat, run: Run, lo: nat, lanes: seq<Lane>, summary: seq<bool>,
                hold: Option<Lsn>, d: End) returns (hi: nat)
    requires GoodFeed(f) && |got| == |f.items| && lane < |got| && got[lane] <= |f.items[lane]|
    requires RunOK(f, got, f.items[lane], run, lo, got[lane])
    requires HeldBefore(f, got, lanes, summary, hold)
    requires Deliverable(run.ends, hold) == Some(d)
    ensures hi <= got[lane] && RunOK(f, got, f.items[lane], CutAt(run, d), lo, hi)
    ensures d.last.end <= hold.value
    ensures HoldOK(f, got, f.items[lane], hold, hi)
  {
    hide Body, Deliverable;
    var s := f.items[lane];
    assert exists x | 0 <= x < |run.ends| :: LastWithin(run.ends, hold.value, x) && d == run.ends[x];
    var x :| 0 <= x < |run.ends| && LastWithin(run.ends, hold.value, x) && d == run.ends[x];
    hi := Cut(s, d);
    CutRun(f, got, s, run, lo, got[lane], x);
    forall a, b | 0 <= a < b < |run.ends| ensures run.ends[a].last.end < run.ends[b].last.end {
      EndsAscend(f, got, s, run, lo, got[lane], a, b);
    }
    RetainedIsPrefix(run.ends, x);
    HoldAfterCut(f, got, lane, run, lo, hold.value, x);
  }

  lemma HoldAfterCut(f: Feed, got: seq<nat>, lane: nat, run: Run, lo: nat, h: Lsn, x: nat)
    requires GoodFeed(f) && |got| == |f.items| && lane < |got| && got[lane] <= |f.items[lane]|
    requires RunOK(f, got, f.items[lane], run, lo, got[lane])
    requires LastWithin(run.ends, h, x) && ScannedTo(f, got, h)
    ensures HoldOK(f, got, f.items[lane], Some(h), Cut(f.items[lane], run.ends[x]))
  {
    hide Body, Upto;
    var s, n := f.items[lane], got[lane];
    var c := Cut(s, run.ends[x]);
    assert EndOK(f, got, s, run.ends, x, lo, n);
    forall k | 0 <= k < |s| && s[k].pos.end <= h ensures k < c {
      assert k < n;
      if k >= c {
        assert x + 1 < |run.ends| && EndOK(f, got, s, run.ends, x + 1, lo, n);
        assert k == c || Le(s[c].pos, s[k].pos);
        NextEndsLater(f, got, s, run, lo, n, x);
      }
    }
  }

  /** The first element after a transaction of a run belongs to the run's next transaction. */
  lemma NextEndsLater(f: Feed, got: seq<nat>, s: seq<Item>, run: Run, lo: nat, hi: nat, x: nat)
    requires |got| == |f.items| && Sorted(s) && RunOK(f, got, s, run, lo, hi)
    requires x + 1 < |run.ends|
    ensures Cut(s, run.ends[x]) < hi
    ensures s[Cut(s, run.ends[x])].pos.end >= run.ends[x + 1].last.end
  {
    assert EndOK(f, got, s, run.ends, x, lo, hi) && EndOK(f, got, s, run.ends, x + 1, lo, hi);
  }

  /** Once the table runs are out, everything a summary run sums up has been produced. */
  lemma TablesBefore(f: Feed, w: World, got: seq<nat>, lanes: seq<Lane>, summary: seq<bool>,
                     appended: set<Partition>, lane: nat, run: Run, lo: nat, hi: nat, held: Option<Stop>)
    requires GoodFeed(f) && |got| == |f.items| && lane < |got| && summary == f.summary && summary[lane]
    requires LanesWorld(f, w, lanes, appended) && SummaryScanned(f, got)
    requires forall j | 0 <= j < |lanes| :: LaneOK(f, got, j, lanes[j])
    requires RunOK(f, got, f.items[lane], run, lo, hi) && hi <= got[lane] <= |f.items[lane]|
    requires TablesOut(lanes, summary)
    requires held.None? ==> TablesRunning(lanes, summary)
    requires held.Some? ==> HeldBefore(f, got, lanes, summary, held.value.hold)
                            && held.value.hold.Some? && run.last.end <= held.value.hold.value
    ensures TablesProduced(f, w.log, run.last.end)
  {
    hide EndOK, Body;
    var end := run.last.end;
    assert TablesScanned(f, got, f.items[lane][hi - 1].pos.end);
    forall j, k | 0 <= j < |f.items| && !f.summary[j] && 0 <= k < |f.items[j]| && f.items[j][k].pos.end <= end
      ensures Produced(w.log, j, f.items[j][k].pos)
    {
      assert k < got[j];
      assert LaneOK(f, got, j, lanes[j]);
      assert k < Upto(f.items[j], lanes[j].delivered);
      UptoSplits(f.items[j], lanes[j].delivered);
      assert LaneWorld(f, w, j, lanes[j], appended);
      assert Covered(w.log, j, f.items[j][k].pos, appended);
    }
  }

  lemma AddedLane(f: Feed, w: World, got: seq<nat>, lane: nat, l: Lane, run: Run, hold: Option<Lsn>)
    requires StateOK(f, w) && |got| == |f.items| && lane < |got| && got[lane] < |f.items[lane]|
    requires LaneOK(f, got, lane, l) && l.stopped.None?
    requires HoldOK(f, got, f.items[lane], hold, got[lane])
    requires !Delivered(l.delivered, f.items[lane][got[lane]].pos)
    requires l.run.Some? ==> run == l.run.value && run.cols == f.items[lane][got[lane]].cols
    requires l.run.None? ==> run == Run(f.items[lane][got[lane]].cols, "[", hold, f.items[lane][got[lane]].pos, [])
    ensures var x := f.items[lane][got[lane]];
            LaneOK(f, got[lane := got[lane] + 1], lane, l.(run := Some(Added(run, x.pos, hold, x.text))))
    ensures |run.body| >= 1 && (|run.body| == 1 <==> l.run.None?)
  {
    hide RunOK, HoldOK, StateOK, Upto, Added;
    GoodState(f, w);
    var s := f.items[lane];
    var n := Upto(s, l.delivered);
    assert Sorted(s) && Written(s);
    if l.run.Some? {
      NextElement(f, got, lane, run, n, hold);
      RunLonger(f, got, s, run, n, got[lane]);
    } else {
      AtNext(s, l.delivered, got[lane]);
      FirstElement(f, got, lane, hold);
    }
  }

  /** A lane without a run that has not delivered the next element has delivered all before it. */
  lemma AtNext(s: seq<Item>, p: Option<Pos>, n: nat)
    requires Sorted(s) && n < |s| && n <= Upto(s, p) && !Delivered(p, s[n].pos)
    ensures Upto(s, p) == n
  {
    hide Upto;
    UptoSplits(s, p);
  }

  lemma RunLonger(f: Feed, got: seq<nat>, s: seq<Item>, run: Run, lo: nat, hi: nat)
    requires |got| == |f.items| && Written(s) && RunOK(f, got, s, run, lo, hi)
    ensures |run.body| > 1
  {
    hide Upto, HoldOK, EndOK, Join;
    assert Written(s[lo..hi]);
    BodyLonger(s[lo..hi]);
  }

  lemma RunOnly(f: Feed, w: World, lanes: seq<Lane>, appended: set<Partition>, lane: nat, run: Option<Run>)
    requires LanesWorld(f, w, lanes, appended) && lane < |lanes|
    ensures LanesWorld(f, w, lanes[lane := lanes[lane].(run := run)], appended)
  {
  }

  lemma OthersKept(f: Feed, got: seq<nat>, lane: nat, lanes: seq<Lane>)
    requires |got| == |f.items| == |lanes| && lane < |got|
    requires forall i | 0 <= i < |lanes| && i != lane :: LaneOK(f, got, i, lanes[i])
    ensures forall i | 0 <= i < |lanes| && i != lane :: LaneOK(f, got[lane := got[lane] + 1], i, lanes[i])
  {
    forall i | 0 <= i < |lanes| && i != lane ensures LaneOK(f, got[lane := got[lane] + 1], i, lanes[i]) {
      OthersGrow(f, got, lane, i, lanes[i]);
    }
  }

  lemma PassedLane(f: Feed, got: seq<nat>, lane: nat, l: Lane)
    requires GoodFeed(f) && |got| == |f.items| && lane < |got| && got[lane] < |f.items[lane]|
    requires LaneOK(f, got, lane, l)
    requires l.stopped.Some? || Delivered(l.delivered, f.items[lane][got[lane]].pos)
    ensures LaneOK(f, got[lane := got[lane] + 1], lane, l)
  {
    hide EndOK;
    var s := f.items[lane];
    UptoSplits(s, l.delivered);
    if l.stopped.Some? {
      HoldGrows(f, got, got[lane := got[lane] + 1], s, l.stopped.value.hold, Upto(s, l.delivered));
    }
  }

  lemma ScanGrows(f: Feed, got: seq<nat>, lane: nat)
    requires |got| == |f.items| == |f.summary| && lane < |got| && got[lane] < |f.items[lane]|
    requires SummaryScanned(f, got)
    requires f.summary[lane] ==> TablesScanned(f, got, f.items[lane][got[lane]].pos.end)
    ensures SummaryScanned(f, got[lane := got[lane] + 1])
  {
  }

  /** Every lane's position is the saved one. */
  ghost predicate Recorded(lanes: seq<Lane>, saved: seq<Option<Pos>>) {
    |lanes| == |saved| && forall j | 0 <= j < |lanes| :: saved[j] == lanes[j].delivered
  }

  lemma SpoiltRest(f: Feed, w: World)
    requires StateOK(f, w) && !w.clean
    ensures AtRest(f, w)
  {
  }

  lemma SyncedLanes(f: Feed, w: World, lanes: seq<Lane>, appended: set<Partition>)
    requires LanesWorld(f, w, lanes, appended)
    ensures LanesWorld(f, w.(log := SyncedLog(w.log, appended)), lanes, {})
  {
    assert appended - appended == {};
    forall i | 0 <= i < |lanes| ensures LaneWorld(f, w.(log := SyncedLog(w.log, appended)), i, lanes[i], {}) {
      LaneWorldSync(f, w, i, lanes[i], appended, appended);
    }
  }

  lemma AllSafe(f: Feed, w: World, lanes: seq<Lane>, saved: seq<Option<Pos>>)
    requires LanesWorld(f, w, lanes, {}) && |saved| == |lanes|
    requires forall j | 0 <= j < |lanes| :: saved[j] == if lanes[j].moved then lanes[j].delivered else w.saved[j]
    ensures Recorded(lanes, saved)
    ensures forall i | 0 <= i < |saved| :: SafeLane(f, w.(saved := saved), i) && SlotBehind(f.items[i], w.slot, saved[i])
  {
  }

  lemma SavedRest(f: Feed, w: World, w': World, lanes: seq<Lane>)
    requires LanesWorld(f, w, lanes, {}) && StateOK(f, w')
    requires w' == w.(saved := w'.saved)
    requires Recorded(lanes, w'.saved) || (w'.saved == w.saved && forall j | 0 <= j < |lanes| :: !lanes[j].moved)
    ensures AtRest(f, w') && Recorded(lanes, w'.saved)
  {
    hide StateOK, Covered, SlotBehind, HandledTo, Upto;
    forall i | 0 <= i < |lanes| ensures w'.saved[i] == lanes[i].delivered {
      assert LaneWorld(f, w, i, lanes[i], {});
    }
    forall i | 0 <= i < |f.items| && w'.clean ensures HandledTo(f.items[i], w'.log, i, w'.saved[i]) {
      assert LaneWorld(f, w, i, lanes[i], {});
    }
  }

  lemma SlotMoved(f: Feed, w: World, w': World)
    requires AtRest(f, w) && StateOK(f, w') && w' == w.(slot := w'.slot)
    ensures AtRest(f, w')
  {
  }

  lemma NoHolds(lanes: seq<Lane>, holds: seq<Option<Lsn>>)
    requires forall h | h in holds :: exists j | 0 <= j < |lanes| :: lanes[j].stopped == Some(Stop(h))
    ensures (forall j | 0 <= j < |lanes| :: lanes[j].stopped.None?) ==> holds == []
  {
    if holds != [] {
      assert holds[0] in holds;
    }
  }

  /** Nothing a lane has still to deliver ends by the position the slot moves to. */
  lemma TargetSafe(f: Feed, got: seq<nat>, lanes: seq<Lane>, holds: seq<Option<Lsn>>, high: Lsn, target: Lsn)
    requires GoodFeed(f) && |got| == |f.items| == |lanes|
    requires forall j | 0 <= j < |lanes| :: LaneOK(f, got, j, lanes[j]) && lanes[j].run.None?
    requires ScannedTo(f, got, high) && AdvanceTarget(Some(high), holds) == Some(target)
    requires forall j | 0 <= j < |lanes| && lanes[j].stopped.Some? :: lanes[j].stopped.value.hold in holds
    requires forall h | h in holds :: exists j | 0 <= j < |lanes| :: lanes[j].stopped == Some(Stop(h))
    ensures forall i | 0 <= i < |lanes| :: SlotBehind(f.items[i], target, lanes[i].delivered)
  {
    assert ScannedTo(f, got, target) by {
      if holds != [] {
        assert Some(target) in holds;
        var j :| 0 <= j < |lanes| && lanes[j].stopped == Some(Stop(Some(target)));
        assert LaneOK(f, got, j, lanes[j]);
      }
    }
    forall i | 0 <= i < |lanes| ensures SlotBehind(f.items[i], target, lanes[i].delivered) {
      assert LaneOK(f, got, i, lanes[i]);
      UptoSplits(f.items[i], lanes[i].delivered);
    }
  }

  /** A lane stopped at one transaction of its run: all before it delivered, the slot held where
      it keeps that one, and that one, alone, the last to be refused. */
  ghost predicate HeldAtRefused(s: seq<Item>, ends: seq<End>, lo: nat, lane: nat, delivered: Option<Pos>,
                                hold: Option<Lsn>, refused: Option<Refusal>) {
    exists x: nat :: RefusedAt(s, ends, lo, lane, delivered, hold, refused, x)
  }

  ghost predicate RefusedAt(s: seq<Item>, ends: seq<End>, lo: nat, lane: nat, delivered: Option<Pos>,
                            hold: Option<Lsn>, refused: Option<Refusal>, x: nat) {
    && x < |ends|
    && Upto(s, delivered) == CutBefore(s, ends, x, lo)
    && hold == ends[x].hold
    && refused == Some(Refusal(lane, delivered, ends[x].last))
  }

  lemma PartRenders(f: Feed, got: seq<nat>, s: seq<Item>, run: Run, lo: nat, hi: nat, x: nat, p: Part)
    requires |got| == |f.items| && Sorted(s) && RunOK(f, got, s, run, lo, hi)
    requires x < |run.ends| && PartOK(s, run.ends, x, lo, p)
    ensures Renders(s, CutBefore(s, run.ends, x, lo), Upto(s, Some(p.last)), run.cols, p.text)
    ensures s[Upto(s, Some(p.last)) - 1].pos == p.last
    ensures HoldOK(f, got, s, p.hold, CutBefore(s, run.ends, x, lo))
    ensures Cut(s, run.ends[x]) <= hi
    ensures p.last.end <= run.last.end
  {
    hide Body, ArrayText, HoldOK, Upto;
    assert EndOK(f, got, s, run.ends, x, lo, hi);
    var m := |run.ends| - 1;
    LastCut(f, got, s, run, lo, hi);
    if x > 0 {
      assert EndOK(f, got, s, run.ends, x - 1, lo, hi);
    }
    if x < m {
      EndsAscend(f, got, s, run, lo, hi, x, m);
    }
  }

  lemma EarlierTables(f: Feed, log: seq<Entry>, log': seq<Entry>, end: Lsn, end': Lsn)
    requires |f.summary| == |f.items| && end <= end'
    requires TablesProduced(f, log, end') && ProducedKept(log, log')
    ensures TablesProduced(f, log', end)
  {
  }

  lemma KeptAlways(log: seq<Entry>)
    ensures ProducedKept(log, log)
  {
  }

  lemma AppendProduces(log: seq<Entry>, e: Entry)
    ensures ProducedKept(log, log + [e])
  {
    forall i: nat, q | Produced(log, i, q) ensures Produced(log + [e], i, q) {
      AppendCovers(log, e, i, q, {});
    }
  }

  lemma SyncProduces(log: seq<Entry>, ps: set<Partition>)
    ensures ProducedKept(log, SyncedLog(log, ps))
  {
  }

  /** What a lane has recorded is durable already. */
  lemma RecordedLane(f: Feed, w: World, i: nat, l: Lane, appended: set<Partition>)
    requires StateOK(f, w) && i < |f.items| && !l.moved
    requires LaneWorld(f, w, i, l, appended)
    ensures LaneWorld(f, w, i, l, {})
  {
  }

  lemma OwnAppend(f: Feed, w: World, lane: nat, l: Lane, appended: set<Partition>, e: Entry)
    requires StateOK(f, w) && lane < |f.items| && !l.moved
    requires LaneWorld(f, w, lane, l, appended)
    requires e.lane == lane && e.after == l.delivered && !e.lost && TrueText(f, e)
    requires f.items[lane][Upto(f.items[lane], Some(e.last)) - 1].pos == e.last
    ensures LaneWorld(f, w.(log := w.log + [e]), lane, Lane(Some(e.last), true, None, None), e.pending)
  {
    RecordedLane(f, w, lane, l, appended);
    LaneWorldMoves(f, w, lane, l, {}, e);
    assert {} + e.pending == e.pending;
  }

  /** After an append that is yet to be synced and recorded. */
  lemma AppendedLanes(f: Feed, w: World, lanes: seq<Lane>, lane: nat, appended: set<Partition>, e: Entry)
    requires GoodFeed(f) && LanesWorld(f, w, lanes, appended) && lane < |lanes|
    requires e.lane == lane && e.after == lanes[lane].delivered && !e.lost && TrueText(f, e)
    requires f.items[lane][Upto(f.items[lane], Some(e.last)) - 1].pos == e.last
    ensures var w' := w.(log := w.log + [e]);
            && LanesWorld(f, w', lanes[lane := lanes[lane].(delivered := Some(e.last), moved := true)],
                          appended + e.pending)
            && forall i | 0 <= i < |lanes| && i != lane :: LaneWorld(f, w', i, lanes[i], appended)
  {
    var w' := w.(log := w.log + [e]);
    LaneWorldMoves(f, w, lane, lanes[lane], appended, e);
    forall i | 0 <= i < |lanes| && i != lane
      ensures LaneWorld(f, w', i, lanes[i], appended) && LaneWorld(f, w', i, lanes[i], appended + e.pending)
    {
      LaneWorldAppend(f, w, i, lanes[i], appended, e);
      LaneWorldRisk(f, w', i, lanes[i], appended, e.pending);
    }
  }

  /** After an append that was synced and recorded. */
  lemma PersistedLanes(f: Feed, w: World, w': World, lanes: seq<Lane>, lane: nat, last: Pos,
                       appended: set<Partition>, partitions: set<Partition>, done: set<Partition>)
    requires |w.saved| == |f.items| == |lanes| && lane < |lanes|
    requires forall i | 0 <= i < |lanes| && i != lane :: LaneWorld(f, w, i, lanes[i], appended)
    requires LaneWorld(f, w, lane, Lane(Some(last), true, None, None), partitions) && StateOK(f, w')
    requires w' == w.(log := SyncedLog(w.log, done), saved := w.saved[lane := Some(last)])
    ensures LanesWorld(f, w', lanes[lane := lanes[lane].(delivered := Some(last), moved := false)], appended)
  {
    var l' := lanes[lane].(delivered := Some(last), moved := false);
    LaneWorldSync(f, w, lane, Lane(Some(last), true, None, None), partitions, done);
    assert SafeLane(f, w', lane);
    assert LaneWorld(f, w', lane, l', {});
    LaneWorldRisk(f, w', lane, l', {}, appended);
    assert {} + appended == appended;
    forall i | 0 <= i < |lanes| && i != lane ensures LaneWorld(f, w', i, lanes[i], appended) {
      LaneWorldSync(f, w, i, lanes[i], appended, done);
    }
  }

  /** A persist that failed leaves every lane where it was, and the log spoiled. */
  lemma PersistFailedLanes(f: Feed, w: World, w': World, lanes: seq<Lane>,
                           appended: set<Partition>, e: Entry, done: set<Partition>)
    requires LanesWorld(f, w, lanes, appended)
    requires w'.log == SyncedLog(w.log + [e], done) && w'.saved == w.saved && w'.slot == w.slot && !w'.clean
    ensures LanesWorld(f, w', lanes, appended + e.pending)
  {
    var risk := appended + e.pending;
    forall i | 0 <= i < |lanes| ensures LaneWorld(f, w', i, lanes[i], risk) {
      var s := f.items[i];
      LaneWorldRisk(f, w, i, lanes[i], appended, e.pending);
      forall k | 0 <= k < |s| && Delivered(lanes[i].delivered, s[k].pos)
        ensures Covered(w'.log, i, s[k].pos, risk)
      {
        AppendCovers(w.log, e, i, s[k].pos, risk);
        SyncCovers(w.log + [e], done, i, s[k].pos, risk);
      }
    }
  }
}
