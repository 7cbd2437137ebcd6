/** Every run of the group steps, over all groups at once. */
module Coordinator {
  import opened Common
  import opened Group

  type Groups = map<string, Group>

  ghost predicate AllSound(groups: Groups) {
    forall id | id in groups :: Sound(groups[id])
  }

  /** Generations never go back while a group exists. */
  ghost predicate NoGenerationBack(was: Groups, now: Groups) {
    forall id | id in was && id in now :: was[id].generation <= now[id].generation
  }

  /** A query's rows in member order: each row once. */
  predicate Lists(order: seq<string>, ms: map<string, Member>) {
    && (forall m | m in order :: m in ms) && (forall m | m in ms :: m in order)
    && forall a, b | 0 <= a < b < |order| :: order[a] != order[b]
  }

  function ProtocolsOf(order: seq<string>, ms: map<string, Member>): (r: seq<seq<string>>)
    requires forall m | m in order :: m in ms
    ensures |r| == |order|
  {
    seq(|order|, i requires 0 <= i < |order| => ms[order[i]].protocols)
  }

  predicate Dead(m: Member, now: int) {
    m.lastHeartbeat < now - m.sessionTimeout
  }

  function DeadOf(g: Group, now: int): set<string> {
    set m | m in g.members && Dead(g.members[m], now)
  }

  datatype DeleteOutcome = Deleted | NotFound | NotEmpty

  method Longest(ms: map<string, Member>) returns (timeout: int)
    ensures LongestTimeout(ms, timeout)
  {
    if ms == map[] {
      return 60_000;
    }
    var m :| m in ms;
    timeout := ms[m].rebalanceTimeout;
    var todo := ms.Keys - {m};
    ghost var top := m;
    while todo != {}
      invariant todo <= ms.Keys && top in ms && ms[top].rebalanceTimeout == timeout
      invariant forall k | k in ms && k !in todo :: ms[k].rebalanceTimeout <= timeout
      decreases |todo|
    {
      var k :| k in todo;
      if ms[k].rebalanceTimeout > timeout {
        timeout := ms[k].rebalanceTimeout;
        top := k;
      }
      todo := todo - {k};
    }
  }

  method Assign(ms: map<string, Member>, assignments: seq<(string, Blob)>) returns (r: map<string, Member>)
    ensures r == Given(ms, assignments)
  {
    r := ms;
    var i := 0;
    assert Given(ms, []) == ms && assignments[..0] == [];
    while i < |assignments|
      invariant 0 <= i <= |assignments|
      invariant r == Given(ms, assignments[..i])
    {
      GivenNext(ms, assignments, i);
      var (m, bytes) := assignments[i];
      if m in r {
        r := r[m := r[m].(assignment := Some(bytes))];
      }
      i := i + 1;
    }
    assert assignments[..|assignments|] == assignments;
  }

  class Coordinator {
    var groups: Groups
    /** Groups that have committed offsets. */
    var offsets: set<string>

    ghost predicate Valid()
      reads this
    {
      AllSound(groups)
    }

    constructor ()
      ensures Valid() && groups == map[]
    {
      groups, offsets := map[], {};
    }

    method Join(id: string, member: string, j: Joining, delay: int, now: int)
      requires Valid()
      modifies this`groups
      ensures Valid() && NoGenerationBack(old(groups), groups)
      ensures var g := if id in old(groups) then old(groups)[id] else NEW_GROUP;
              groups == old(groups)[id := Joined(g, member, j, delay, now)]
    {
      hide Sound, Joined;
      if id !in groups {
        NewIsSound();
        groups := groups[id := NEW_GROUP];
      }
      var g := groups[id];
      JoinKeeps(g, member, j, delay, now);
      JoinGeneration(g, member, j, delay, now);
      groups := groups[id := Joined(g, member, j, delay, now)];
    }

    /** Puts off a member's session timeout, and changes nothing else. */
    method TouchHeartbeat(id: string, member: string, now: int)
      requires Valid()
      modifies this`groups
      ensures Valid() && NoGenerationBack(old(groups), groups)
      ensures id in old(groups) && member in old(groups)[id].members ==>
                && id in groups && groups == old(groups)[id := groups[id]]
                && groups[id] == old(groups)[id].(members := groups[id].members)
                && groups[id].members == old(groups)[id].members[member := old(groups)[id].members[member].(lastHeartbeat := now)]
      ensures !(id in old(groups) && member in old(groups)[id].members) ==> groups == old(groups)
    {
      hide Sound;
      if id in groups && member in groups[id].members {
        var g := groups[id];
        var touched := g.(members := g.members[member := g.members[member].(lastHeartbeat := now)]);
        TouchKeeps(g, member, now);
        groups := groups[id := touched];
      }
    }

    /** `order` is the order of the member query over those who rejoined. */
    method CompleteJoin(id: string, order: seq<string>) returns (common: bool)
      requires Valid() && id in groups && groups[id].state.PreparingRebalance?
      requires Lists(order, Rejoined(groups[id]))
      modifies this`groups
      ensures Valid() && NoGenerationBack(old(groups), groups)
      ensures common <==> order == [] || exists p :: OfferedByAll(p, ProtocolsOf(order, Rejoined(old(groups)[id])))
      ensures !common ==> groups == old(groups)[id := old(groups)[id].(members := Rejoined(old(groups)[id]))]
      ensures common && order == [] ==> groups == old(groups)[id := Vacated(old(groups)[id])]
      ensures common && order != [] ==>
                exists p :: Preferred(p, ProtocolsOf(order, Rejoined(old(groups)[id])))
                         && groups == old(groups)[id := Completed(old(groups)[id], p, order[0])]
    {
      hide Sound, Completed, Vacated, Rejoined;
      var g := groups[id];
      var remaining := Rejoined(g);
      if order == [] {
        VacateKeeps(g);
        groups := groups[id := Vacated(g)];
        return true;
      }
      var lists := ProtocolsOf(order, remaining);
      var protocol := CommonProtocol(lists);
      assert order[0] in order;
      if protocol.None? {
        EvictKeeps(g);
        groups := groups[id := g.(members := remaining)];
        return false;
      }
      ChosenByAll(g, order, protocol.value);
      CompleteKeeps(g, protocol.value, order[0]);
      CompleteGeneration(g, protocol.value, order[0]);
      groups := groups[id := Completed(g, protocol.value, order[0])];
      return true;
    }

    method ApplyAssignments(id: string, assignments: seq<(string, Blob)>)
      requires Valid() && id in groups && (groups[id].state.CompletingRebalance? || groups[id].state.Stable?)
      modifies this`groups
      ensures Valid() && NoGenerationBack(old(groups), groups)
      ensures groups == old(groups)[id := AssignedGroup(old(groups)[id], assignments)]
    {
      hide Sound, Given, Settled;
      var g := groups[id];
      AssignKeeps(g, assignments);
      var ms := Assign(g.members, assignments);
      groups := groups[id := g.(state := Stable, members := Settled(ms))];
    }

    method OpenRebalance(id: string, now: int)
      modifies this`groups
      ensures id !in old(groups) ==> groups == old(groups)
      ensures id in old(groups) ==>
                groups.Keys == old(groups).Keys && Reopening(old(groups)[id], groups[id], now) && groups == old(groups)[id := groups[id]]
    {
      hide LongestTimeout, Reopened;
      if id in groups {
        var g := groups[id];
        var t := Longest(g.members);
        groups := groups[id := Reopened(g, now + t)];
      }
    }

    method Leave(id: string, member: string, now: int) returns (removed: bool)
      requires Valid()
      modifies this`groups
      ensures Valid() && NoGenerationBack(old(groups), groups)
      ensures removed <==> id in old(groups) && member in old(groups)[id].members
      ensures !removed ==> groups == old(groups)
      ensures removed ==>
                id in groups && Reopening(Without(old(groups)[id], {member}), groups[id], now) && groups == old(groups)[id := groups[id]]
    {
      hide Sound, Reopening;
      removed := id in groups && member in groups[id].members;
      if removed {
        ghost var g := groups[id];
        groups := groups[id := Without(groups[id], {member})];
        OpenRebalance(id, now);
        ReopenKeeps(g, {member}, groups[id], now);
      }
    }

    /** Members past their session timeout go, and the groups that lost one reopen. */
    method Sweep(now: int) returns (changed: set<string>)
      requires Valid()
      modifies this`groups
      ensures Valid() && NoGenerationBack(old(groups), groups)
      ensures changed == set id | id in old(groups) && DeadOf(old(groups)[id], now) != {}
      ensures groups.Keys == old(groups).Keys
      ensures forall id | id in groups ::
                if id in changed then Reopening(Without(old(groups)[id], DeadOf(old(groups)[id], now)), groups[id], now)
                else groups[id] == old(groups)[id]
    {
      hide Sound, Reopening, DeadOf, Without;
      ghost var was := groups;
      changed := set id | id in groups && DeadOf(groups[id], now) != {};
      groups := map id | id in groups :: if id in changed then Without(groups[id], DeadOf(groups[id], now)) else groups[id];
      var todo := changed;
      while todo != {}
        invariant todo <= changed && groups.Keys == was.Keys
        invariant forall id | id in todo :: groups[id] == Without(was[id], DeadOf(was[id], now))
        invariant forall id | id in was && id !in changed :: groups[id] == was[id]
        invariant forall id | id in changed && id !in todo :: Reopening(Without(was[id], DeadOf(was[id], now)), groups[id], now)
        decreases |todo|
      {
        var id :| id in todo;
        OpenRebalance(id, now);
        todo := todo - {id};
      }
      forall id | id in groups
        ensures Sound(groups[id]) && was[id].generation <= groups[id].generation
      {
        if id in changed {
          ReopenKeeps(was[id], DeadOf(was[id], now), groups[id], now);
        }
      }
    }

    method Delete(id: string) returns (r: DeleteOutcome)
      requires Valid()
      modifies this
      ensures Valid() && NoGenerationBack(old(groups), groups)
      ensures r == NotFound <==> id !in old(groups) && id !in old(offsets)
      ensures r == NotEmpty <==> id in old(groups) && !old(groups)[id].state.Empty?
      ensures if r == Deleted then groups == old(groups) - {id} && offsets == old(offsets) - {id}
              else groups == old(groups) && offsets == old(offsets)
    {
      if id !in groups && id !in offsets {
        return NotFound;
      }
      if id in groups && groups[id].members != map[] {
        return NotEmpty;
      }
      offsets := offsets - {id};
      groups := groups - {id};
      return Deleted;
    }
  }

  // ---- what the steps rely on

  lemma NewIsSound()
    ensures Sound(NEW_GROUP)
  {
  }

  lemma JoinGeneration(g: Group, id: string, j: Joining, delay: int, now: int)
    ensures Joined(g, id, j, delay, now).generation == g.generation
  {
  }

  lemma TouchKeeps(g: Group, member: string, now: int)
    requires Sound(g) && member in g.members
    ensures Sound(g.(members := g.members[member := g.members[member].(lastHeartbeat := now)]))
  {
  }

  lemma CompleteGeneration(g: Group, p: string, leader: string)
    ensures Completed(g, p, leader).generation == g.generation + 1
  {
  }

  lemma VacateKeeps(g: Group)
    ensures Sound(Vacated(g)) && Vacated(g).generation == g.generation + 1
  {
  }

  lemma ChosenByAll(g: Group, order: seq<string>, p: string)
    requires Lists(order, Rejoined(g)) && OfferedByAll(p, ProtocolsOf(order, Rejoined(g)))
    ensures forall m | m in Rejoined(g) :: p in g.members[m].protocols
  {
    forall m | m in Rejoined(g)
      ensures p in g.members[m].protocols
    {
      assert m in order;
      var k :| 0 <= k < |order| && order[k] == m;
      assert p in ProtocolsOf(order, Rejoined(g))[k];
    }
  }

  lemma GivenNext(ms: map<string, Member>, assignments: seq<(string, Blob)>, i: nat)
    requires i < |assignments|
    ensures var (m, bytes) := assignments[i];
            var given := Given(ms, assignments[..i]);
            Given(ms, assignments[..i + 1]) == if m in ms then given[m := given[m].(assignment := Some(bytes))] else given
  {
    var next := assignments[..i + 1];
    assert next[..|next| - 1] == assignments[..i];
  }
}
