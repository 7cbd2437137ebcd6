/** The classic group coordinator: groups, their members, and the steps that move them. The member
    rows of a group are kept with it, as the foreign key between the two tables keeps them. */
module Group {
  import opened Common

  type Blob = seq<nat>

  datatype GroupState = Empty | PreparingRebalance | CompletingRebalance | Stable

  datatype Member = Member(
    instanceId: Option<string>, metadata: Blob, assignment: Option<Blob>, joinedGeneration: int, protocols: seq<string>,
    sessionTimeout: int, rebalanceTimeout: int, lastHeartbeat: int)

  /** `deadline` and `window` are the rebalance deadline and the end of the join window. */
  datatype Group = Group(
    generation: int, state: GroupState, protocolType: Option<string>, protocolName: Option<string>, leader: Option<string>,
    deadline: Option<int>, window: Option<int>, members: map<string, Member>)

  const MIN_SESSION_TIMEOUT_MS := 1_000
  const MAX_SESSION_TIMEOUT_MS := 300_000
  const MAX_REBALANCE_TIMEOUT_MS := 300_000

  function ClampSessionTimeout(ms: int): int {
    if ms < MIN_SESSION_TIMEOUT_MS then MIN_SESSION_TIMEOUT_MS
    else if ms > MAX_SESSION_TIMEOUT_MS then MAX_SESSION_TIMEOUT_MS else ms
  }

  function ClampRebalanceTimeout(ms: int): int {
    if ms <= 0 then 60_000 else if ms < MAX_REBALANCE_TIMEOUT_MS then ms else MAX_REBALANCE_TIMEOUT_MS
  }

  function Min(a: int, b: int): int {
    if a <= b then a else b
  }

  // ---- what holds of a group between any two steps

  ghost predicate Unassigned(ms: map<string, Member>) {
    forall m | m in ms :: ms[m].assignment.None?
  }

  ghost predicate Assigned(ms: map<string, Member>) {
    forall m | m in ms :: ms[m].assignment.Some?
  }

  /** Every member joined this generation, leads it or is led by one of them, and offers the
      protocol that was chosen. */
  ghost predicate Formed(g: Group) {
    && (forall m | m in g.members :: g.members[m].joinedGeneration == g.generation)
    && g.leader.Some? && g.leader.value in g.members
    && g.protocolName.Some? && forall m | m in g.members :: g.protocolName.value in g.members[m].protocols
  }

  ghost predicate NotAhead(g: Group) {
    forall m | m in g.members :: g.members[m].joinedGeneration <= g.generation + 1
  }

  ghost predicate Sound(g: Group) {
    && (g.state.Empty? <==> g.members == map[])
    && NotAhead(g)
    && (g.state.PreparingRebalance? || g.state.CompletingRebalance? ==> Unassigned(g.members))
    && (g.state.Stable? ==> Assigned(g.members))
    && (g.state.CompletingRebalance? || g.state.Stable? ==> Formed(g))
    && (g.state.PreparingRebalance? ==> g.deadline.Some?)
    && (g.window.Some? ==> g.state.PreparingRebalance? && g.window.value <= g.deadline.value)
  }

  // ---- the statements, on one group

  const NEW_GROUP := Group(0, Empty, None, None, None, None, None, map[])

  function ClearAssignments(ms: map<string, Member>): map<string, Member> {
    map m | m in ms :: ms[m].(assignment := None)
  }

  datatype Joining = Joining(
    instanceId: Option<string>, sessionTimeout: int, rebalanceTimeout: int, protocolType: string, protocols: seq<string>,
    metadata: Blob)

  /** The row an arrival inserts, or writes over the one it had; an assignment stays. */
  function Arrival(g: Group, id: string, j: Joining, now: int): Member {
    Member(j.instanceId, j.metadata, if id in g.members then g.members[id].assignment else None, g.generation + 1, j.protocols,
           ClampSessionTimeout(j.sessionTimeout), ClampRebalanceTimeout(j.rebalanceTimeout), now)
  }

  function Joined(g: Group, id: string, j: Joining, delay: int, now: int): Group {
    var arrived := g.members[id := Arrival(g, id, j, now)];
    var timeout := ClampRebalanceTimeout(j.rebalanceTimeout);
    if !g.state.PreparingRebalance? then
      g.(state := PreparingRebalance,
         protocolType := if j.protocolType != "" then Some(j.protocolType) else g.protocolType,
         deadline := Some(now + timeout),
         window := if delay > 0 && g.state.Empty? then Some(now + Min(delay, timeout)) else None,
         members := ClearAssignments(arrived))
    else if delay > 0 && g.window.Some? then
      g.(members := arrived,
         window := Some(if g.deadline.Some? then Min(now + delay, g.deadline.value) else now + delay))
    else g.(members := arrived)
  }

  predicate WindowClosed(g: Group, now: int) {
    || ((forall m | m in g.members :: g.members[m].joinedGeneration > g.generation)
        && (g.window.None? || now >= g.window.value))
    || (g.deadline.Some? && g.deadline.value < now)
  }

  function Rejoined(g: Group): map<string, Member> {
    map m | m in g.members && g.members[m].joinedGeneration > g.generation :: g.members[m]
  }

  function Vacated(g: Group): Group {
    g.(state := Empty, leader := None, protocolName := None, generation := g.generation + 1, deadline := None, window := None,
       members := map[])
  }

  function Completed(g: Group, protocol: string, leader: string): Group {
    g.(generation := g.generation + 1, state := CompletingRebalance, protocolName := Some(protocol), leader := Some(leader),
       deadline := None, window := None, members := Rejoined(g))
  }

  /** Sixty seconds where there is nobody. */
  ghost predicate LongestTimeout(ms: map<string, Member>, timeout: int) {
    if ms == map[] then timeout == 60_000
    else (exists m | m in ms :: ms[m].rebalanceTimeout == timeout) && forall m | m in ms :: ms[m].rebalanceTimeout <= timeout
  }

  function Reopened(g: Group, deadline: int): Group {
    g.(state := if g.members == map[] then Empty else PreparingRebalance, deadline := Some(deadline), window := None,
       members := ClearAssignments(g.members))
  }

  /** `g` reopened now, with the longest of its members' rebalance timeouts to run. */
  ghost predicate Reopening(g: Group, r: Group, now: int) {
    exists t :: LongestTimeout(g.members, t) && r == Reopened(g, now + t)
  }

  function Without(g: Group, ids: set<string>): Group {
    g.(members := g.members - ids)
  }

  /** What a member is assigned: the last word on it, else what it had, else nothing but not null. */
  function AssignmentOf(had: Option<Blob>, id: string, assignments: seq<(string, Blob)>): Option<Blob> {
    if assignments == [] then had
    else
      var last := assignments[|assignments| - 1];
      if last.0 == id then Some(last.1) else AssignmentOf(had, id, assignments[..|assignments| - 1])
  }

  function Given(ms: map<string, Member>, assignments: seq<(string, Blob)>): map<string, Member> {
    map m | m in ms :: ms[m].(assignment := AssignmentOf(ms[m].assignment, m, assignments))
  }

  function Settled(ms: map<string, Member>): map<string, Member> {
    map m | m in ms :: if ms[m].assignment.None? then ms[m].(assignment := Some([])) else ms[m]
  }

  function AssignedGroup(g: Group, assignments: seq<(string, Blob)>): Group {
    g.(state := Stable, members := Settled(Given(g.members, assignments)))
  }

  // ---- each statement keeps a group sound

  lemma JoinKeeps(g: Group, id: string, j: Joining, delay: int, now: int)
    requires Sound(g)
    ensures Sound(Joined(g, id, j, delay, now))
  {
    assert id in Joined(g, id, j, delay, now).members;
  }

  lemma CompleteKeeps(g: Group, protocol: string, leader: string)
    requires Sound(g) && g.state.PreparingRebalance? && leader in Rejoined(g)
    requires forall m | m in Rejoined(g) :: protocol in g.members[m].protocols
    ensures Sound(Completed(g, protocol, leader))
  {
  }

  /** Those the rebalance left behind go even when no protocol is common. */
  lemma EvictKeeps(g: Group)
    requires Sound(g) && g.state.PreparingRebalance? && Rejoined(g) != map[]
    ensures Sound(g.(members := Rejoined(g)))
  {
  }

  lemma AssignKeeps(g: Group, assignments: seq<(string, Blob)>)
    requires Sound(g) && (g.state.CompletingRebalance? || g.state.Stable?)
    ensures Sound(AssignedGroup(g, assignments))
  {
    assert g.leader.value in AssignedGroup(g, assignments).members;
  }

  lemma ReopenKeeps(g: Group, gone: set<string>, r: Group, now: int)
    requires Sound(g) && Reopening(Without(g, gone), r, now)
    ensures Sound(r) && r.generation == g.generation
  {
  }

  /** A rebalance that closes before its deadline leaves nobody behind; one past it always closes. */
  lemma ClosedEarlyKeepsAll(g: Group, now: int)
    requires Sound(g) && g.state.PreparingRebalance?
    ensures WindowClosed(g, now) && now <= g.deadline.value ==> Rejoined(g) == g.members
    ensures now > g.deadline.value ==> WindowClosed(g, now)
  {
  }

  // ---- the common protocol

  predicate OfferedByAll(p: string, lists: seq<seq<string>>) {
    forall k | 0 <= k < |lists| :: p in lists[k]
  }

  /** Those of `list` that all of `lists` offer, in `list`'s order. */
  function Offered(list: seq<string>, lists: seq<seq<string>>): (r: seq<string>)
    ensures forall p :: p in r <==> p in list && OfferedByAll(p, lists)
  {
    if list == [] then []
    else (if OfferedByAll(list[0], lists) then [list[0]] else []) + Offered(list[1..], lists)
  }

  lemma {:induction false} OfferedNext(list: seq<string>, lists: seq<seq<string>>, next: seq<string>)
    ensures Offered(Offered(list, lists), [next]) == Offered(list, lists + [next])
  {
    if list != [] {
      OfferedNext(list[1..], lists, next);
      var p := list[0];
      assert OfferedByAll(p, lists + [next]) <==> OfferedByAll(p, lists) && OfferedByAll(p, [next]) by {
        if OfferedByAll(p, lists + [next]) {
          assert forall k | 0 <= k < |lists| :: (lists + [next])[k] == lists[k];
          assert (lists + [next])[|lists|] == next;
        }
      }
      var tail := Offered(list[1..], lists);
      if OfferedByAll(p, lists) {
        assert ([p] + tail)[1..] == tail;
      } else {
        assert [] + tail == tail;
      }
    }
  }

  lemma {:induction false} OfferedFirst(list: seq<string>, lists: seq<seq<string>>) returns (k: nat)
    requires Offered(list, lists) != []
    ensures k < |list| && list[k] == Offered(list, lists)[0]
    ensures forall i | 0 <= i < k :: !OfferedByAll(list[i], lists)
  {
    if OfferedByAll(list[0], lists) {
      k := 0;
    } else {
      var j := OfferedFirst(list[1..], lists);
      k := j + 1;
    }
  }

  /** The first protocol of the first member that every member offers. */
  ghost predicate Preferred(p: string, lists: seq<seq<string>>) {
    && lists != [] && OfferedByAll(p, lists)
    && exists k :: 0 <= k < |lists[0]| && lists[0][k] == p && forall i | 0 <= i < k :: !OfferedByAll(lists[0][i], lists)
  }

  lemma InFirst(lists: seq<seq<string>>)
    requires lists != []
    ensures forall p | OfferedByAll(p, lists) :: p in lists[0]
  {
  }

  method CommonProtocol(lists: seq<seq<string>>) returns (r: Option<string>)
    requires lists != []
    ensures r.Some? ==> Preferred(r.value, lists)
    ensures r.None? ==> forall p :: !OfferedByAll(p, lists)
  {
    hide Offered, OfferedByAll;
    var acc := lists[0];
    var i := 1;
    OfferedSelf(lists[0], lists[0]);
    assert lists[..1] == [lists[0]];
    while i < |lists|
      invariant 1 <= i <= |lists|
      invariant acc == Offered(lists[0], lists[..i])
    {
      OfferedNext(lists[0], lists[..i], lists[i]);
      assert lists[..i + 1] == lists[..i] + [lists[i]];
      acc := Offered(acc, [lists[i]]);
      i := i + 1;
    }
    assert lists[..|lists|] == lists;
    InFirst(lists);
    if acc == [] {
      r := None;
    } else {
      r := Some(acc[0]);
      ghost var k := OfferedFirst(lists[0], lists);
      assert acc[0] in acc;
    }
  }

  lemma {:induction false} OfferedSelf(list: seq<string>, whole: seq<string>)
    requires forall p | p in list :: p in whole
    ensures Offered(list, [whole]) == list
  {
    if list != [] {
      OfferedSelf(list[1..], whole);
    }
  }
}
