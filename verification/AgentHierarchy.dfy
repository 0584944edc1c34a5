/** The parent relation between agents: a forest inside each organisation, guarded by an ancestor query that
    ends only because it is one. */
module AgentHierarchy {
  import opened Options

  datatype Agent = Agent(org: nat, parent: Option<nat>)

  type Table = map<nat, Agent>

  // ---- ancestors ----

  /** The `k`-th agent up from `id`, itself at zero; None beyond the root. */
  function Climb(t: Table, id: nat, k: nat): Option<nat>
    decreases k
  {
    if k == 0 then Some(id)
    else if id in t && t[id].parent.Some? then Climb(t, t[id].parent.value, k - 1)
    else None
  }

  ghost predicate IsAncestorOrSelf(t: Table, ancestor: nat, id: nat) {
    exists k: nat :: Climb(t, id, k) == Some(ancestor)
  }

  /** The chain above `id` ends. */
  ghost predicate Rooted(t: Table, id: nat) {
    exists k: nat :: Climb(t, id, k) == None
  }

  ghost predicate Forest(t: Table) {
    forall id :: id in t ==> Rooted(t, id)
  }

  /** Parents exist and belong to the same organisation. */
  ghost predicate OrgLocal(t: Table) {
    forall id :: id in t && t[id].parent.Some? ==> t[id].parent.value in t && t[t[id].parent.value].org == t[id].org
  }

  lemma {:induction false} ClimbFurther(t: Table, id: nat, j: nat, k: nat)
    ensures Climb(t, id, j + k) == if Climb(t, id, j).Some? then Climb(t, Climb(t, id, j).value, k) else None
    decreases j
  {
    if j > 0 && id in t && t[id].parent.Some? { ClimbFurther(t, t[id].parent.value, j - 1, k); }
  }

  // ---- moving one agent under a new parent ----

  function Moved(t: Table, agent: nat, parent: Option<nat>): Table
    requires agent in t
  {
    t[agent := t[agent].(parent := parent)]
  }

  /** Below the agent that moves, nothing changes. */
  lemma {:induction false} ClimbUnmoved(t: Table, agent: nat, parent: Option<nat>, id: nat, k: nat)
    requires agent in t && forall j: nat :: j < k ==> Climb(t, id, j) != Some(agent)
    ensures Climb(Moved(t, agent, parent), id, k) == Climb(t, id, k)
    decreases k
  {
    if k > 0 {
      assert Climb(t, id, 0) == Some(id);
      if id in t && t[id].parent.Some? {
        var up := t[id].parent.value;
        forall j: nat | j < k - 1 ensures Climb(t, up, j) != Some(agent) {
          assert Climb(t, id, j + 1) == Climb(t, up, j);
        }
        ClimbUnmoved(t, agent, parent, up, k - 1);
      }
    }
  }

  lemma {:induction false} FirstMeeting(t: Table, id: nat, agent: nat, k: nat) returns (first: nat)
    requires Climb(t, id, k) == Some(agent)
    ensures first <= k && Climb(t, id, first) == Some(agent) && forall j: nat :: j < first ==> Climb(t, id, j) != Some(agent)
  {
    if j: nat :| j < k && Climb(t, id, j) == Some(agent) {
      first := FirstMeeting(t, id, agent, j);
    } else {
      first := k;
    }
  }

  /** A chain that avoids the moved agent still ends. */
  lemma {:induction false} AvoidingRooted(t: Table, agent: nat, parent: Option<nat>, id: nat)
    requires agent in t && Rooted(t, id) && !IsAncestorOrSelf(t, agent, id)
    ensures Rooted(Moved(t, agent, parent), id)
  {
    var k: nat :| Climb(t, id, k) == None;
    ClimbUnmoved(t, agent, parent, id, k);
  }

  /** The moved agent's own chain ends if its new parent's does. */
  lemma {:induction false} MovedRooted(t: Table, agent: nat, parent: Option<nat>)
    requires agent in t && (parent.Some? ==> Rooted(Moved(t, agent, parent), parent.value))
    ensures Rooted(Moved(t, agent, parent), agent)
  {
    var u := Moved(t, agent, parent);
    if parent.Some? {
      var k: nat :| Climb(u, parent.value, k) == None;
      assert Climb(u, agent, k + 1) == None;
    } else {
      assert Climb(u, agent, 1) == None;
    }
  }

  lemma {:induction false} MeetingRooted(t: Table, agent: nat, parent: Option<nat>, id: nat)
    requires agent in t && IsAncestorOrSelf(t, agent, id) && Rooted(Moved(t, agent, parent), agent)
    ensures Rooted(Moved(t, agent, parent), id)
  {
    var u := Moved(t, agent, parent);
    var k: nat :| Climb(t, id, k) == Some(agent);
    var first := FirstMeeting(t, id, agent, k);
    ClimbUnmoved(t, agent, parent, id, first);
    var n: nat :| Climb(u, agent, n) == None;
    ClimbFurther(u, id, first, n);
  }

  /** No cycle arises when the new parent is not below the agent. */
  lemma {:induction false} MoveKeepsForest(t: Table, agent: nat, parent: Option<nat>)
    requires Forest(t) && agent in t && (parent.Some? ==> parent.value in t && !IsAncestorOrSelf(t, agent, parent.value))
    ensures Forest(Moved(t, agent, parent))
  {
    if parent.Some? { AvoidingRooted(t, agent, parent, parent.value); }
    MovedRooted(t, agent, parent);
    forall id | id in t ensures Rooted(Moved(t, agent, parent), id) {
      if IsAncestorOrSelf(t, agent, id) {
        MeetingRooted(t, agent, parent, id);
      } else {
        AvoidingRooted(t, agent, parent, id);
      }
    }
  }

  /** An agent met again after `period` steps is met for ever. */
  lemma {:induction false} RoundAndRound(t: Table, id: nat, period: nat, rounds: nat)
    requires Climb(t, id, period) == Some(id)
    ensures Climb(t, id, rounds * period) == Some(id)
  {
    if rounds > 0 {
      RoundAndRound(t, id, period, rounds - 1);
      ClimbFurther(t, id, (rounds - 1) * period, period);
      assert rounds * period == (rounds - 1) * period + period;
    }
  }

  lemma {:induction false} CycleNotRooted(t: Table, id: nat, period: nat)
    requires period > 0 && Climb(t, id, period) == Some(id)
    ensures !Rooted(t, id)
  {
    forall k: nat ensures Climb(t, id, k) != None {
      RoundAndRound(t, id, period, k);
      assert k * period == k + k * (period - 1);
      ClimbFurther(t, id, k, k * (period - 1));
    }
  }

  /** Moving an agent under `parent` breaks the forest if and only if the agent is among the parent's
      ancestors or is the parent itself. */
  lemma {:induction false} CycleExactly(t: Table, agent: nat, parent: nat)
    requires Forest(t) && agent in t && parent in t
    ensures IsAncestorOrSelf(t, agent, parent) <==> !Forest(Moved(t, agent, Some(parent)))
  {
    if IsAncestorOrSelf(t, agent, parent) {
      var u := Moved(t, agent, Some(parent));
      var k: nat :| Climb(t, parent, k) == Some(agent);
      var first := FirstMeeting(t, parent, agent, k);
      ClimbUnmoved(t, agent, Some(parent), parent, first);
      assert Climb(u, agent, first + 1) == Some(agent);
      CycleNotRooted(u, agent, first + 1);
    } else {
      MoveKeepsForest(t, agent, Some(parent));
    }
  }

  // ---- the operations ----

  datatype Result = Done | NotFound | ParentCycle

  /** `undefined` leaves the parent as it is; `null` clears it. */
  datatype ParentInput = Unchanged | Set(parent: Option<nat>)

  predicate InOrg(t: Table, org: nat, id: nat) {
    id in t && t[id].org == org
  }

  predicate ParentInOrg(t: Table, org: nat, parent: Option<nat>) {
    parent.None? || InOrg(t, org, parent.value)
  }

  function ChosenParent(t: Table, id: nat, input: ParentInput): Option<nat>
    requires id in t
  {
    if input.Unchanged? then t[id].parent else input.parent
  }

  ghost function Update(t: Table, org: nat, id: nat, input: ParentInput): (Table, Result) {
    if !InOrg(t, org, id) then (t, NotFound)
    else
      var parent := ChosenParent(t, id, input);
      if !ParentInOrg(t, org, parent) then (t, NotFound)
      else if parent.Some? && IsAncestorOrSelf(t, id, parent.value) then (t, ParentCycle)
      else (Moved(t, id, parent), Done)
  }

  /** `id` is the new agent's random id. */
  function Create(t: Table, org: nat, id: nat, parent: Option<nat>): (Table, Result) {
    if !ParentInOrg(t, org, parent) then (t, NotFound) else (t[id := Agent(org, parent)], Done)
  }

  class AgentStore {
    var agents: Table

    constructor ()
      ensures agents == map[]
    {
      agents := map[];
    }

    method CreateAgent(org: nat, id: nat, parentAgentId: Option<nat>) returns (r: Result)
      requires id !in agents
      modifies this
      ensures (agents, r) == Create(old(agents), org, id, parentAgentId)
    {
      if parentAgentId.Some? && !InOrg(agents, org, parentAgentId.value) { return NotFound; }
      agents := agents[id := Agent(org, parentAgentId)];
      r := Done;
    }

    /** The recursive query: from the parent upwards, one row of the organisation at a time. */
    method WouldCreateParentCycle(org: nat, agentId: nat, parentAgentId: Option<nat>) returns (cycle: bool)
      requires Forest(agents) && OrgLocal(agents) && ParentInOrg(agents, org, parentAgentId)
      ensures cycle <==> parentAgentId.Some? && IsAncestorOrSelf(agents, agentId, parentAgentId.value)
    {
      if parentAgentId.None? { return false; }
      var start := parentAgentId.value;
      ghost var height: nat :| Climb(agents, start, height) == None;
      ghost var climbed: nat := 0;
      var working := Some(start);
      while working.Some?
        invariant working == Climb(agents, start, climbed) && climbed <= height
        invariant working.Some? ==> InOrg(agents, org, working.value)
        invariant forall j: nat :: j < climbed ==> Climb(agents, start, j) != Some(agentId)
        decreases height - climbed
      {
        if working.value == agentId { return true; }
        if climbed < height { ClimbFurther(agents, start, climbed, 1); }
        ClimbFurther(agents, start, height, 1);
        var row := agents[working.value];
        working := if row.parent.Some? && InOrg(agents, org, row.parent.value) then row.parent else None;
        climbed := climbed + 1;
      }
      forall k: nat ensures Climb(agents, start, k) != Some(agentId) {
        if k >= climbed { ClimbFurther(agents, start, climbed, k - climbed); }
      }
      cycle := false;
    }

    method UpdateAgent(org: nat, agentId: nat, input: ParentInput) returns (r: Result)
      requires Forest(agents) && OrgLocal(agents)
      modifies this
      ensures (agents, r) == Update(old(agents), org, agentId, input)
    {
      if !InOrg(agents, org, agentId) { return NotFound; }
      var parent := ChosenParent(agents, agentId, input);
      if !ParentInOrg(agents, org, parent) { return NotFound; }
      var cycle := WouldCreateParentCycle(org, agentId, parent);
      if cycle { return ParentCycle; }
      agents := Moved(agents, agentId, parent);
      r := Done;
    }
  }

  // ---- every run ----

  lemma {:induction false} CreateKeepsForest(t: Table, org: nat, id: nat, parent: Option<nat>)
    requires Forest(t) && OrgLocal(t) && id !in t
    ensures Forest(Create(t, org, id, parent).0) && OrgLocal(Create(t, org, id, parent).0)
  {
    if ParentInOrg(t, org, parent) {
      var u := t[id := Agent(org, parent)];
      forall other | other in t ensures Rooted(u, other) {
        var k: nat :| Climb(t, other, k) == None;
        ClimbAround(t, id, Agent(org, parent), other, k);
      }
      if parent.Some? {
        var k: nat :| Climb(u, parent.value, k) == None;
        assert Climb(u, id, k + 1) == None;
      } else {
        assert Climb(u, id, 1) == None;
      }
    }
  }

  /** Nobody's chain leads to an id that is not in the table yet. */
  lemma {:induction false} ClimbAround(t: Table, id: nat, row: Agent, other: nat, k: nat)
    requires OrgLocal(t) && id !in t && other in t
    ensures Climb(t[id := row], other, k) == Climb(t, other, k)
    decreases k
  {
    if k > 0 && t[other].parent.Some? { ClimbAround(t, id, row, t[other].parent.value, k - 1); }
  }

  lemma {:induction false} UpdateKeepsForest(t: Table, org: nat, id: nat, input: ParentInput)
    requires Forest(t) && OrgLocal(t)
    ensures Forest(Update(t, org, id, input).0) && OrgLocal(Update(t, org, id, input).0)
  {
    if Update(t, org, id, input).1 == Done { MoveKeepsForest(t, id, ChosenParent(t, id, input)); }
  }

  /** An update is refused as a cycle exactly when carrying it out would break the forest. */
  lemma {:induction false} RefusedExactly(t: Table, org: nat, id: nat, input: ParentInput)
    requires Forest(t) && OrgLocal(t) && InOrg(t, org, id) && ParentInOrg(t, org, ChosenParent(t, id, input))
    ensures Update(t, org, id, input).1 == ParentCycle <==> !Forest(Moved(t, id, ChosenParent(t, id, input)))
  {
    var parent := ChosenParent(t, id, input);
    if parent.Some? { CycleExactly(t, id, parent.value); } else { MoveKeepsForest(t, id, parent); }
  }

  /** An update that leaves the parent alone is never refused. */
  lemma {:induction false} UnchangedAccepted(t: Table, org: nat, id: nat)
    requires Forest(t) && OrgLocal(t) && InOrg(t, org, id)
    ensures Update(t, org, id, Unchanged) == (t, Done)
  {
    assert Moved(t, id, t[id].parent) == t;
    RefusedExactly(t, org, id, Unchanged);
  }

  datatype Step = CreateStep(org: nat, id: nat, parent: Option<nat>) | UpdateStep(org: nat, id: nat, input: ParentInput)

  ghost function Next(t: Table, step: Step): Table {
    match step
    case CreateStep(org, id, parent) => if id in t then t else Create(t, org, id, parent).0
    case UpdateStep(org, id, input) => Update(t, org, id, input).0
  }

  ghost function Run(steps: seq<Step>): Table {
    if steps == [] then map[] else Next(Run(steps[..|steps| - 1]), steps[|steps| - 1])
  }

  lemma {:induction false} EveryRunForest(steps: seq<Step>)
    ensures Forest(Run(steps)) && OrgLocal(Run(steps))
  {
    if steps != [] {
      var t, step := Run(steps[..|steps| - 1]), steps[|steps| - 1];
      EveryRunForest(steps[..|steps| - 1]);
      match step
      case CreateStep(org, id, parent) => if id !in t { CreateKeepsForest(t, org, id, parent); }
      case UpdateStep(org, id, input) => UpdateKeepsForest(t, org, id, input);
    }
  }

  // ---- two updates whose checks both run before either write ----

  /** Both checks pass on `t`, then both writes land. The forest survives exactly when the second check would
      also pass on the table the first write left. */
  lemma {:induction false} ConcurrentMovesExactly(t: Table, a: nat, p: nat, b: nat, q: nat)
    requires Forest(t) && a in t && p in t && b in t && q in t
    requires !IsAncestorOrSelf(t, a, p) && !IsAncestorOrSelf(t, b, q)
    ensures Forest(Moved(Moved(t, a, Some(p)), b, Some(q))) <==> !IsAncestorOrSelf(Moved(t, a, Some(p)), b, q)
  {
    MoveKeepsForest(t, a, Some(p));
    CycleExactly(Moved(t, a, Some(p)), b, q);
  }

  /** Two roots moved under each other: both checks pass, and the result is a cycle. */
  lemma {:induction false} ConcurrentMovesCanCycle()
    ensures var t: Table := map[1 := Agent(0, None), 2 := Agent(0, None)];
      Forest(t) && !IsAncestorOrSelf(t, 1, 2) && !IsAncestorOrSelf(t, 2, 1)
      && !Forest(Moved(Moved(t, 1, Some(2)), 2, Some(1)))
  {
    var t: Table := map[1 := Agent(0, None), 2 := Agent(0, None)];
    assert Climb(t, 1, 1) == None && Climb(t, 2, 1) == None;
    var u := Moved(Moved(t, 1, Some(2)), 2, Some(1));
    assert Climb(u, 2, 1) == Climb(u, 1, 0) == Some(1);
    assert Climb(u, 1, 2) == Some(1);
    CycleNotRooted(u, 1, 2);
  }
}
