/** The producer ids of batches appended from SQL: one id a transaction, and another after each
    rolled-back savepoint that produced. */
module SqlProducer {
  import opened Common

  const TWO40 := 0x100_0000_0000
  const TWO62 := 0x4000_0000_0000_0000
  const MAX_GENERATION := 0x3f_ffff

  // ---- ids. The three fields of a tagged id share no bits, so "or" is a sum.

  function SqlProducerId(xid: nat, generation: nat): Option<nat> {
    if generation == 0 then Some(xid)
    else if xid / TWO40 != 0 || generation > MAX_GENERATION then None
    else Some(TWO62 + generation * TWO40 + xid)
  }

  lemma FieldsAreDisjoint(generation: bv64, xid: bv64)
    requires generation <= 0x3f_ffff && xid >> 40 == 0
    ensures 0x4000_0000_0000_0000 | (generation << 40) | xid == 0x4000_0000_0000_0000 + (generation << 40) + xid
  {
  }

  /** Bit 62 tells a tagged id. */
  predicate Tagged(id: nat) {
    (id / TWO62) % 2 == 1
  }

  function XidOf(id: nat): nat {
    if Tagged(id) then id % TWO40 else id
  }

  /** An id decodes to its xid exactly when the xid could not be taken for a tagged id. */
  lemma IdDecodes(xid: nat, generation: nat)
    requires xid < 2 * TWO62 && SqlProducerId(xid, generation).Some?
    ensures XidOf(SqlProducerId(xid, generation).value) == xid <==> generation > 0 || xid < TWO62
  {
  }

  /** The first xid that could be: its untagged id decodes to another transaction. */
  lemma LargeXidIsMisread()
    ensures SqlProducerId(TWO62, 0) == Some(TWO62) && XidOf(TWO62) == 0
  {
    assert TWO62 == TWO40 * 0x40_0000;
  }

  /** One id, one transaction, one generation. */
  lemma IdsAreDistinct(xid: nat, generation: nat, xid': nat, generation': nat)
    requires xid < TWO62 && xid' < TWO62
    requires SqlProducerId(xid, generation).Some? && SqlProducerId(xid, generation) == SqlProducerId(xid', generation')
    ensures xid == xid' && generation == generation'
  {
  }

  // ---- a session

  type Part = (nat, int)

  /** `pins` when the batch reserved its partition's stable offset. */
  datatype Batch = Batch(id: nat, xid: nat, generation: nat, sub: nat, part: Part, pins: bool, live: bool)

  ghost predicate Encoded(log: seq<Batch>) {
    forall b | b in log :: b.xid < TWO62 && SqlProducerId(b.xid, b.generation) == Some(b.id)
  }

  /** No batch that is still live follows a rolled-back one with its id. */
  ghost predicate OrphansAreLast(log: seq<Batch>) {
    forall i, j | 0 <= i < j < |log| && log[i].id == log[j].id && !log[i].live :: !log[j].live
  }

  predicate Before(b: Batch, xid: nat, s: nat) {
    b.xid == xid && b.sub >= s
  }

  /** Whatever is produced while `s` is open is produced under it. */
  ghost predicate Nested(log: seq<Batch>, xid: nat, s: nat) {
    forall i, j | 0 <= i < j < |log| && log[i].xid == xid && log[j].xid == xid && log[i].sub >= s :: log[j].sub >= s
  }

  /** Rolling back `s` takes every batch of it and of what nested in it. */
  function Orphaned(log: seq<Batch>, xid: nat, s: nat): (r: seq<Batch>)
    ensures |r| == |log|
  {
    seq(|log|, i requires 0 <= i < |log| => if Before(log[i], xid, s) then log[i].(live := false) else log[i])
  }

  lemma OrphanKeeps(log: seq<Batch>, xid: nat, s: nat)
    requires Encoded(log) && OrphansAreLast(log) && Nested(log, xid, s)
    ensures Encoded(Orphaned(log, xid, s)) && OrphansAreLast(Orphaned(log, xid, s))
  {
    var r := Orphaned(log, xid, s);
    forall b | b in r
      ensures b.xid < TWO62 && SqlProducerId(b.xid, b.generation) == Some(b.id)
    {
      var i :| 0 <= i < |r| && r[i] == b;
      assert log[i] in log;
    }
    forall i, j | 0 <= i < j < |r| && r[i].id == r[j].id && !r[i].live
      ensures !r[j].live
    {
      assert log[i] in log && log[j] in log;
      IdsAreDistinct(log[i].xid, log[i].generation, log[j].xid, log[j].generation);
    }
  }

  /** The partitions a transaction has appended to. */
  ghost function Parts(log: seq<Batch>, xid: nat): set<Part> {
    set b | b in log && b.xid == xid :: b.part
  }

  /** A transaction reserves each partition once, at its first batch there. */
  ghost predicate PinnedOnce(log: seq<Batch>) {
    forall j | 0 <= j < |log| :: log[j].pins <==> log[j].part !in Parts(log[..j], log[j].xid)
  }

  lemma OrphanParts(log: seq<Batch>, xid: nat, s: nat, other: nat)
    ensures Parts(Orphaned(log, xid, s), other) == Parts(log, other)
  {
    var r := Orphaned(log, xid, s);
    forall p | p in Parts(log, other)
      ensures p in Parts(r, other)
    {
      var b :| b in log && b.xid == other && b.part == p;
      var i :| 0 <= i < |log| && log[i] == b;
      assert r[i] in r && r[i].part == p;
    }
    forall p | p in Parts(r, other)
      ensures p in Parts(log, other)
    {
      var b :| b in r && b.xid == other && b.part == p;
      var i :| 0 <= i < |r| && r[i] == b;
      assert log[i] in log;
    }
  }

  lemma OrphanPins(log: seq<Batch>, xid: nat, s: nat)
    requires PinnedOnce(log)
    ensures PinnedOnce(Orphaned(log, xid, s))
  {
    hide Parts;
    var r := Orphaned(log, xid, s);
    forall j | 0 <= j < |r|
      ensures r[j].pins <==> r[j].part !in Parts(r[..j], r[j].xid)
    {
      assert r[..j] == Orphaned(log[..j], xid, s);
      OrphanParts(log[..j], xid, s, r[j].xid);
    }
  }

  lemma ProducePins(log: seq<Batch>, b: Batch, reserved: set<Part>)
    requires PinnedOnce(log) && reserved == Parts(log, b.xid) && (b.pins <==> b.part !in reserved)
    ensures PinnedOnce(log + [b]) && Parts(log + [b], b.xid) == reserved + {b.part}
  {
    var more := log + [b];
    forall j | 0 <= j < |more|
      ensures more[j].pins <==> more[j].part !in Parts(more[..j], more[j].xid)
    {
      assert more[..j] == log[..j];
      assert log[..|log|] == log;
    }
    assert b in more;
    forall p | p in reserved
      ensures p in Parts(more, b.xid)
    {
      var x :| x in log && x.xid == b.xid && x.part == p;
      assert x in more;
    }
  }

  ghost predicate Rising(stack: seq<nat>) {
    forall a, b | 0 <= a < b < |stack| :: stack[a] < stack[b]
  }

  /** The current transaction's batches, as its produce state knows them. */
  ghost predicate Known(log: seq<Batch>, xid: nat, generation: nat, maxSubid: nat) {
    forall b | b in log && b.xid == xid ::
      b.generation <= generation && (b.generation == generation ==> b.live && b.sub <= maxSubid)
  }

  ghost predicate SubsUpTo(log: seq<Batch>, xid: nat, started: nat) {
    forall b | b in log && b.xid == xid :: b.sub <= started
  }

  ghost predicate Fresh(log: seq<Batch>, xid: nat) {
    forall b | b in log :: b.xid != xid
  }

  // ---- what each step keeps

  lemma NothingNested(log: seq<Batch>, xid: nat, s: nat)
    requires forall b | b in log && b.xid == xid :: b.sub < s
    ensures Nested(log, xid, s)
  {
  }

  lemma OrphansNest(log: seq<Batch>, xid: nat, s: nat, t: nat)
    requires Nested(log, xid, t)
    ensures Nested(Orphaned(log, xid, s), xid, t)
  {
  }

  /** Where the rolled-back savepoint produced, the next generation has nothing yet. */
  lemma OrphanState(log: seq<Batch>, xid: nat, s: nat, generation: nat, maxSubid: nat, started: nat)
    ensures SubsUpTo(log, xid, started) ==> SubsUpTo(Orphaned(log, xid, s), xid, started)
    ensures Fresh(log, xid) ==> Fresh(Orphaned(log, xid, s), xid)
    ensures Known(log, xid, generation, maxSubid) ==>
              if maxSubid >= s then Known(Orphaned(log, xid, s), xid, generation + 1, 0)
              else Known(Orphaned(log, xid, s), xid, generation, maxSubid)
  {
  }

  lemma NewIsKnown(log: seq<Batch>, xid: nat, generation: nat, maxSubid: nat)
    ensures Fresh(log, xid) ==> Known(log, xid, generation, maxSubid)
  {
  }

  lemma KnownGrows(log: seq<Batch>, xid: nat, generation: nat, maxSubid: nat, sub: nat)
    requires Known(log, xid, generation, maxSubid)
    ensures Known(log, xid, generation, if maxSubid >= sub then maxSubid else sub)
  {
  }

  lemma ProduceKeeps(log: seq<Batch>, b: Batch, maxSubid: nat)
    requires Encoded(log) && OrphansAreLast(log) && Known(log, b.xid, b.generation, maxSubid)
    requires b.live && b.sub <= maxSubid && b.xid < TWO62 && SqlProducerId(b.xid, b.generation) == Some(b.id)
    ensures Encoded(log + [b]) && OrphansAreLast(log + [b]) && Known(log + [b], b.xid, b.generation, maxSubid)
  {
  }

  lemma ProduceNests(log: seq<Batch>, b: Batch, s: nat)
    requires Nested(log, b.xid, s) && b.sub >= s
    ensures Nested(log + [b], b.xid, s)
  {
  }

  lemma SubsGrow(log: seq<Batch>, b: Batch, started: nat)
    requires SubsUpTo(log, b.xid, started) && b.sub <= started
    ensures SubsUpTo(log + [b], b.xid, started)
  {
  }

  lemma FreshParts(log: seq<Batch>, xid: nat)
    requires Fresh(log, xid)
    ensures Parts(log, xid) == {}
  {
  }

  class Session {
    // the produce state of the backend
    var xid: nat
    var reserved: set<Part>
    var generation: nat
    var maxSubid: nat
    var hooked: bool

    // Postgres: the open transaction, its open subtransactions, the highest id given out, and
    // whether the rollback callback is registered
    var top: Option<nat>
    var stack: seq<nat>
    var started: nat
    var hook: bool

    var log: seq<Batch>

    ghost predicate Valid()
      reads this
    {
      && Encoded(log) && OrphansAreLast(log) && PinnedOnce(log)
      && (top.None? ==> stack == [])
      && (top.Some? ==>
            && top.value < TWO62
            && stack != [] && stack[0] > 0 && Rising(stack) && stack[|stack| - 1] <= started
            && SubsUpTo(log, top.value, started)
            && (forall s | s in stack :: Nested(log, top.value, s))
            && (if xid == top.value then hook && hooked && Known(log, xid, generation, maxSubid) && maxSubid <= started && reserved == Parts(log, xid)
                else Fresh(log, top.value) && !hook))
    }

    constructor ()
      ensures Valid() && top == None && log == []
    {
      xid, reserved, generation, maxSubid, hooked := 0, {}, 0, 0, false;
      top, stack, started, hook, log := None, [], 0, false, [];
    }

    /** Gives a call its id, and asks for a reservation where there is none yet. */
    method EnterProduce(current: nat, subid: nat, topic: nat, partition: int) returns (id: Option<nat>, reserve: bool)
      modifies this`xid, this`reserved, this`generation, this`maxSubid, this`hooked, this`hook
      ensures xid == current && hooked
      ensures old(xid) == current ==>
                generation == old(generation) && reserved == old(reserved) && maxSubid == (if old(maxSubid) >= subid then old(maxSubid) else subid)
      ensures old(xid) != current ==> generation == 0 && reserved == {} && maxSubid == subid
      ensures hook == (old(hook) || old(xid) != current || !old(hooked))
      ensures id == SqlProducerId(current, generation)
      ensures reserve <==> (topic, partition) !in reserved
    {
      if xid != current {
        xid, reserved, generation, maxSubid, hooked := current, {}, 0, 0, false;
      }
      maxSubid := if maxSubid >= subid then maxSubid else subid;
      var register := !hooked;
      hooked := true;
      reserve := (topic, partition) !in reserved;
      if register {
        hook := true;
      }
      id := SqlProducerId(current, generation);
    }

    method RolledBack(current: nat, subid: nat)
      modifies this`generation, this`maxSubid
      ensures xid == current && old(maxSubid) >= subid ==> generation == old(generation) + 1 && maxSubid == 0
      ensures !(xid == current && old(maxSubid) >= subid) ==> generation == old(generation) && maxSubid == old(maxSubid)
    {
      if xid == current && maxSubid >= subid {
        generation := generation + 1;
        maxSubid := 0;
      }
    }

    // ---- the steps of a run

    method Start(newXid: nat)
      requires Valid() && top == None && newXid < TWO62 && Fresh(log, newXid) && newXid != xid
      modifies this
      ensures Valid() && top == Some(newXid) && stack == [1] && log == old(log)
    {
      top, stack, started, hook := Some(newXid), [1], 1, false;
    }

    method Savepoint()
      requires Valid() && top.Some?
      modifies this
      ensures Valid() && top == old(top) && stack == old(stack) + [old(started) + 1] && log == old(log)
    {
      NothingNested(log, top.value, started + 1);
      started := started + 1;
      stack := stack + [started];
    }

    method Release()
      requires Valid() && top.Some? && |stack| > 1
      modifies this
      ensures Valid() && top == old(top) && stack == old(stack)[..|old(stack)| - 1] && log == old(log)
    {
      stack := stack[..|stack| - 1];
    }

    /** The innermost savepoint rolls back; an outer one does once those inside it have. */
    method Rollback()
      requires Valid() && top.Some? && |stack| > 1
      modifies this
      ensures Valid() && top == old(top) && stack == old(stack)[..|old(stack)| - 1]
      ensures log == Orphaned(old(log), old(top).value, old(stack)[|old(stack)| - 1])
    {
      hide OrphansAreLast, Encoded, Nested, Known, Orphaned, Fresh, SubsUpTo, PinnedOnce, Parts;
      var s := stack[|stack| - 1];
      assert s in stack;
      OrphanKeeps(log, top.value, s);
      forall t | t in stack
        ensures Nested(Orphaned(log, top.value, s), top.value, t)
      {
        OrphansNest(log, top.value, s, t);
      }
      OrphanState(log, top.value, s, generation, maxSubid, started);
      OrphanPins(log, top.value, s);
      OrphanParts(log, top.value, s, xid);
      log := Orphaned(log, top.value, s);
      stack := stack[..|stack| - 1];
      if hook {
        RolledBack(top.value, s);
      }
    }

    /** A batch appended in the innermost open subtransaction, unless there are no ids left or the
        append fails. It reserves its partition if the transaction has not yet. */
    method Produce(topic: nat, partition: int, appended: bool) returns (id: Option<nat>, reserve: bool)
      requires Valid() && top.Some?
      modifies this
      ensures Valid() && top == old(top) && stack == old(stack)
      ensures id.None? || !appended ==> log == old(log)
      ensures id.Some? && appended ==>
                log == old(log) + [Batch(id.value, old(top).value, generation, stack[|stack| - 1], (topic, partition), reserve, true)]
      ensures reserve <==> (topic, partition) !in Parts(old(log), old(top).value)
    {
      hide OrphansAreLast, Encoded, Nested, Known, Fresh, SubsUpTo, PinnedOnce, Parts;
      var sub := stack[|stack| - 1];
      if xid != top.value {
        NewIsKnown(log, top.value, 0, sub);
      } else {
        KnownGrows(log, xid, generation, maxSubid, sub);
      }
      if xid != top.value {
        FreshParts(log, top.value);
      }
      id, reserve := EnterProduce(top.value, sub, topic, partition);
      if id.Some? && appended {
        var b := Batch(id.value, top.value, generation, sub, (topic, partition), reserve, true);
        ProducePins(log, b, reserved);
        if reserve {
          reserved := reserved + {(topic, partition)};
        }
        ProduceKeeps(log, b, maxSubid);
        forall s | s in stack
          ensures Nested(log + [b], top.value, s)
        {
          ProduceNests(log, b, s);
        }
        SubsGrow(log, b, started);
        log := log + [b];
      }
    }

    /** Commit, or abort with every batch. */
    method End(commit: bool)
      requires Valid() && top.Some?
      modifies this
      ensures Valid() && top == None
      ensures log == if commit then old(log) else Orphaned(old(log), old(top).value, 0)
    {
      if !commit {
        OrphanKeeps(log, top.value, 0);
        OrphanPins(log, top.value, 0);
        log := Orphaned(log, top.value, 0);
      }
      top, stack, hook := None, [], false;
    }
  }
}
