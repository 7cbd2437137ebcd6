/** The database and the storage engine as the worker sees them: each method is one transaction
    of its own, and whether it succeeds is not the drain's to choose. */
module CdcDb {
  import opened Common
  import opened CdcStream
  import opened CdcWorld

  /** A render-and-append that was refused: what it would have carried its lane from and to. */
  datatype Refusal = Refusal(lane: nat, after: Option<Pos>, last: Pos)

  class Db {
    ghost const feed: Feed
    var world: World
    /** Every state the world has been in, oldest first. */
    var trace: seq<World>
    /** Steps that have failed so far. */
    ghost var failures: nat
    /** What the last failed step was, if it was a render-and-append. */
    ghost var refused: Option<Refusal>

    ghost predicate Valid()
      reads this
    {
      && |trace| > 0
      && trace[|trace| - 1] == world
      && forall x | 0 <= x < |trace| :: StateOK(feed, trace[x])
    }

    constructor (ghost f: Feed, w: World)
      requires StateOK(f, w)
      ensures Valid() && feed == f && world == w && trace == [w]
    {
      feed := f;
      world := w;
      trace := [w];
      refused := None;
    }

    method Enter(w: World)
      requires Valid() && StateOK(feed, w)
      modifies this`world, this`trace
      ensures Valid() && world == w && trace == old(trace) + [w] && failures == old(failures)
    {
      world := w;
      trace := trace + [w];
    }

    /** A step failed. `spoil` when something appended is left unrecorded by it. */
    method Fail(spoil: bool)
      requires Valid()
      modifies this
      ensures Valid() && old(trace) <= trace && failures == old(failures) + 1 && refused == None
      ensures world == if spoil then old(world).(clean := false) else old(world)
    {
      failures := failures + 1;
      refused := None;
      if spoil {
        Enter(world.(clean := false));
      }
    }

    /** A step that neither reads nor changes the world. */
    method Step() returns (ok: bool)
      requires Valid()
      modifies this
      ensures Valid() && world == old(world) && trace == old(trace)
      ensures failures == if ok then old(failures) else old(failures) + 1
      ensures refused == if ok then old(refused) else None
    {
      ok := *;
      if !ok {
        failures := failures + 1;
        refused := None;
      }
    }

    /** Renders and appends in one transaction; `None` when nothing was appended. */
    method RenderAndProduce(lane: nat, after: Option<Pos>, last: Pos, cols: string, body: string)
      returns (r: Option<set<Partition>>)
      requires Valid() && lane < |feed.items|
      requires TrueText(feed, Entry(lane, after, last, cols, body, {}, false))
      requires feed.summary[lane] ==> TablesProduced(feed, world.log, last.end)
      requires world.clean ==> Handled(feed.items[lane], world.log, lane)
                               == feed.items[lane][..Upto(feed.items[lane], after)]
      modifies this
      ensures Valid() && old(trace) <= trace
      ensures r.None? ==> world == old(world) && failures == old(failures) + 1
                          && refused == Some(Refusal(lane, after, last))
      ensures r.Some? ==> failures == old(failures)
                          && world == old(world).(
                                        log := old(world).log
                                               + [Entry(lane, after, last, cols, body, r.value, false)])
    {
      hide StateOK, TrueText, TablesProduced, Handled, Upto;
      r := *;
      if r.Some? {
        var e := Entry(lane, after, last, cols, body, r.value, false);
        TextOnly(feed, Entry(lane, after, last, cols, body, {}, false), r.value);
        AppendKeeps(feed, world, e);
        Enter(world.(log := world.log + [e]));
      } else {
        Fail(false);
        refused := Some(Refusal(lane, after, last));
      }
    }

    method SyncPartition(p: Partition) returns (ok: bool)
      requires Valid()
      modifies this
      ensures Valid() && old(trace) <= trace
      ensures ok ==> failures == old(failures) && world == old(world).(log := SyncedLog(old(world).log, {p}))
      ensures !ok ==> failures == old(failures) + 1 && world == old(world).(clean := false)
    {
      ok := *;
      if ok {
        SyncKeeps(feed, world, {p});
        Enter(world.(log := SyncedLog(world.log, {p})));
      } else {
        Fail(true);
      }
    }

    /** Every named position in one transaction. */
    method SavePositions(saved: seq<Option<Pos>>) returns (ok: bool)
      requires Valid() && |saved| == |feed.items|
      requires forall i | 0 <= i < |saved| ::
                 SafeLane(feed, world.(saved := saved), i) && SlotBehind(feed.items[i], world.slot, saved[i])
      modifies this
      ensures Valid() && old(trace) <= trace
      ensures ok ==> failures == old(failures) && world == old(world).(saved := saved)
      ensures !ok ==> failures == old(failures) + 1 && world == old(world).(clean := false)
    {
      ok := *;
      if ok {
        Enter(world.(saved := saved));
      } else {
        Fail(true);
      }
    }

    method Advance(target: Lsn) returns (ok: bool)
      requires Valid()
      requires forall i | 0 <= i < |feed.items| :: SlotBehind(feed.items[i], target, world.saved[i])
      modifies this
      ensures Valid() && old(trace) <= trace
      ensures world == if ok then old(world).(slot := target) else old(world)
      ensures failures == if ok then old(failures) else old(failures) + 1
    {
      ok := *;
      if ok {
        forall i | 0 <= i < |feed.items| ensures SafeLane(feed, world.(slot := target), i) {
          assert SafeLane(feed, world, i);
        }
        Enter(world.(slot := target));
      } else {
        Fail(false);
      }
    }

    /** The process dies in the state it was in at `moment`; `left` is what is found afterwards. */
    method Crash(moment: nat, left: World)
      requires Valid() && moment < |trace| && CrashOf(trace[moment], left)
      modifies this
      ensures Valid() && world == left && trace == old(trace)[..moment + 1] + [left]
      ensures AtRest(feed, world)
    {
      CrashKeeps(feed, trace[moment], left);
      world := left;
      trace := trace[..moment + 1] + [left];
    }
  }
}
