/** Runs of the governed-execution services in any interleaving, with a queue that may lose, repeat, reorder or
    forge messages and deliver them before the row they speak of is committed. */
module GovernanceRuns {
  import opened Options
  import opened CodeUnits
  import opened GovernanceEntities
  import opened GovernanceServices

  /** `open` holds the requests that have made their first commit and not their second. */
  datatype System = System(db: Db, clock: nat, open: map<nat, Request>)

  datatype Step =
    | RegisterAgent(org: Text, cap: int, at: nat)
    | GrantTool(agentId: nat, tool: Text, maxSpend: int, risk: RiskLevel)
    | CreatePolicy(name: Text, org: Text, maxRisk: RiskLevel, threshold: int, multiSig: bool)
    | SuspendAgent(agentId: nat)
    | ActivateAgent(agentId: nat)
    | BeginRequest(request: Request)
    | FinishRequest(session: nat, first: nat, second: nat, third: nat)
    | SubmitDecision(workflow: nat, approved: bool, check: nat)
    | Deliver(message: Message, readings: Readings)

  const INITIAL: System := System(Db([], [], [], [], [], [], []), 0, map[])

  /** The clock is monotone, a cap is not negative, a request is finished once. */
  predicate Enabled(sys: System, step: Step) {
    match step
    case RegisterAgent(_, cap, at) => cap >= 0 && sys.clock <= at
    case FinishRequest(s, first, second, third) =>
      s in sys.open && s < |sys.db.sessions| && s < |sys.db.actions| && sys.clock <= first <= second <= third
    case SubmitDecision(_, _, check) => sys.clock <= check
    case Deliver(_, r) => sys.clock <= r.now <= r.first <= r.second <= r.third <= r.fourth
    case _ => true
  }

  function ChangeAgent(db: Db, id: nat, change: Agent -> Agent): Db {
    if id < |db.agents| then db.(agents := db.agents[id := change(db.agents[id])]) else db
  }

  function NextDb(sys: System, step: Step): Db
    requires Enabled(sys, step)
  {
    var db := sys.db;
    match step
    case RegisterAgent(org, cap, at) => db.(agents := db.agents + [Agent(org, Active, cap, 0, Day(at), [])])
    case GrantTool(id, tool, maxSpend, risk) =>
      ChangeAgent(db, id, (a: Agent) => a.(permissions := Grant(a.permissions, tool, maxSpend, risk)))
    case CreatePolicy(name, org, maxRisk, threshold, multiSig) =>
      db.(policies := db.policies + [Policy(name, org, maxRisk, threshold, multiSig, true)])
    case SuspendAgent(id) => ChangeAgent(db, id, (a: Agent) => a.(status := Suspended))
    case ActivateAgent(id) => ChangeAgent(db, id, (a: Agent) => a.(status := Active))
    case BeginRequest(request) => Begin(db, request)
    case FinishRequest(s, first, second, third) => Finish(db, sys.open[s], s, s, first, second, third)
    case SubmitDecision(id, approved, check) => Decide(db, id, approved, check)
    case Deliver(m, r) => Reconcile(db, m, r).0
  }

  function NextClock(sys: System, step: Step): nat {
    match step
    case RegisterAgent(_, _, at) => at
    case FinishRequest(_, _, _, third) => third
    case SubmitDecision(_, _, check) => check
    case Deliver(_, r) => r.fourth
    case _ => sys.clock
  }

  function NextOpen(sys: System, step: Step): map<nat, Request> {
    match step
    case BeginRequest(request) => sys.open[|sys.db.sessions| := request]
    case FinishRequest(s, _, _, _) => sys.open - {s}
    case _ => sys.open
  }

  function Next(sys: System, step: Step): System {
    if Enabled(sys, step) then System(NextDb(sys, step), NextClock(sys, step), NextOpen(sys, step)) else sys
  }

  function Run(steps: seq<Step>): System {
    if steps == [] then INITIAL else Next(Run(steps[..|steps| - 1]), steps[|steps| - 1])
  }

  // ---- rows that belong together ----

  /** The only combinations of session, action and workflow states that are ever committed. */
  predicate InTable(session: ExecutionStatus, action: ExecutionStatus, workflow: Option<ApprovalState>) {
    match session
    case EvaluatingPolicy => action == Queued && workflow == None
    case AwaitingApproval => action == Queued && workflow == Some(Pending)
    case Executing => action == Executing && workflow in {None, Some(Approved)}
    case Completed => action == Completed && workflow in {None, Some(Approved)}
    case Failed => action == BlockedByPolicy && workflow != Some(Pending)
    case _ => false
  }

  /** Session `s` plans action `s` and no other. */
  ghost predicate Linked(db: Db) {
    && |db.sessions| == |db.actions|
    && forall s :: 0 <= s < |db.sessions| ==> db.sessions[s].actionIds == [s] && db.actions[s].sessionId == s
  }

  ghost predicate WorkflowLinked(db: Db, w: nat)
    requires w < |db.workflows|
  {
    var row := db.workflows[w];
    row.actionId == row.sessionId < |db.sessions| && row.sessionId < |db.actions| && row.amount == db.actions[row.sessionId].amount
  }

  ghost predicate WorkflowsLinked(db: Db) {
    && (forall w :: 0 <= w < |db.workflows| ==> WorkflowLinked(db, w))
    && (forall v, w :: 0 <= v < w < |db.workflows| ==> db.workflows[v].sessionId != db.workflows[w].sessionId)
  }

  ghost predicate NoWorkflow(db: Db, s: nat) {
    forall w :: 0 <= w < |db.workflows| ==> db.workflows[w].sessionId != s
  }

  ghost predicate CoupledWith(db: Db, s: nat, workflow: Option<ApprovalState>) {
    s < |db.sessions| && s < |db.actions| && InTable(db.sessions[s].status, db.actions[s].status, workflow)
  }

  ghost predicate Coupled(db: Db) {
    && (forall w :: 0 <= w < |db.workflows| ==> CoupledWith(db, db.workflows[w].sessionId, Some(db.workflows[w].state)))
    && (forall s :: 0 <= s < |db.sessions| && NoWorkflow(db, s) ==> CoupledWith(db, s, None))
  }

  /** An open request's rows are as its first commit left them. */
  ghost predicate OpenUntouched(sys: System) {
    forall s :: s in sys.open ==>
      && s < |sys.db.sessions| && s < |sys.db.actions| && NoWorkflow(sys.db, s)
      && sys.db.sessions[s].status == EvaluatingPolicy && sys.db.sessions[s].agentId == sys.open[s].agentId
      && sys.db.actions[s] == Action(s, sys.open[s].tool, sys.open[s].amount, sys.open[s].risk, Queued)
  }

  ghost predicate Sound(sys: System) {
    Linked(sys.db) && WorkflowsLinked(sys.db) && Coupled(sys.db) && OpenUntouched(sys)
  }

  /** What a step leaves alone: everything but session and action `s`. */
  ghost predicate OnlyTouches(db: Db, after: Db, s: nat) {
    && |after.sessions| == |db.sessions| && |after.actions| == |db.actions| && s < |db.sessions| && s < |db.actions|
    && (forall t :: 0 <= t < |db.sessions| && t != s ==> after.sessions[t] == db.sessions[t])
    && (forall t :: 0 <= t < |db.actions| && t != s ==> after.actions[t] == db.actions[t])
    && after.sessions[s].actionIds == db.sessions[s].actionIds && after.sessions[s].agentId == db.sessions[s].agentId
    && after.actions[s].(status := Queued) == db.actions[s].(status := Queued)
  }

  // ---- three ways rows move, each keeping a system sound ----

  /** Session and action `s` change status, the workflows stay. */
  lemma {:induction false} StatusMoves(sys: System, next: System, s: nat)
    requires Sound(sys) && OnlyTouches(sys.db, next.db, s) && next.db.workflows == sys.db.workflows
    requires forall state :: CoupledWith(sys.db, s, state) ==> CoupledWith(next.db, s, state)
    requires next.open == sys.open - {s}
    ensures Sound(next)
  {
    forall w | 0 <= w < |next.db.workflows|
      ensures WorkflowLinked(next.db, w) && CoupledWith(next.db, next.db.workflows[w].sessionId, Some(next.db.workflows[w].state))
    {
      assert WorkflowLinked(sys.db, w);
      assert CoupledWith(sys.db, sys.db.workflows[w].sessionId, Some(sys.db.workflows[w].state));
    }
    forall t | 0 <= t < |next.db.sessions| && NoWorkflow(next.db, t) ensures CoupledWith(next.db, t, None) {
      assert NoWorkflow(sys.db, t);
      assert CoupledWith(sys.db, t, None);
    }
    OpenStays(sys, next, s);
  }

  lemma {:induction false} OpenStays(sys: System, next: System, s: nat)
    requires OpenUntouched(sys) && OnlyTouches(sys.db, next.db, s) && next.open == sys.open - {s}
    requires forall t :: t in next.open && NoWorkflow(sys.db, t) ==> NoWorkflow(next.db, t)
    ensures OpenUntouched(next)
  {
  }

  /** A workflow is opened for `s`, which had none. */
  lemma {:induction false} WorkflowOpens(sys: System, next: System, s: nat, w: Workflow)
    requires Sound(sys) && OnlyTouches(sys.db, next.db, s) && NoWorkflow(sys.db, s)
    requires next.db.workflows == sys.db.workflows + [w] && w.sessionId == w.actionId == s && w.amount == sys.db.actions[s].amount
    requires CoupledWith(next.db, s, Some(w.state)) && next.open == sys.open - {s}
    ensures Sound(next)
  {
    var n := |sys.db.workflows|;
    forall i | 0 <= i < |next.db.workflows|
      ensures WorkflowLinked(next.db, i) && CoupledWith(next.db, next.db.workflows[i].sessionId, Some(next.db.workflows[i].state))
    {
      if i < n {
        assert WorkflowLinked(sys.db, i);
        assert CoupledWith(sys.db, sys.db.workflows[i].sessionId, Some(sys.db.workflows[i].state));
      }
    }
    forall t | 0 <= t < |next.db.sessions| && NoWorkflow(next.db, t) ensures CoupledWith(next.db, t, None) {
      assert next.db.workflows[n].sessionId != t;
      NoWorkflowBefore(sys.db, next.db, t);
      assert CoupledWith(sys.db, t, None);
    }
    forall t | t in next.open && NoWorkflow(sys.db, t) ensures NoWorkflow(next.db, t) {
    }
    OpenStays(sys, next, s);
  }

  lemma {:induction false} NoWorkflowBefore(db: Db, after: Db, t: nat)
    requires NoWorkflow(after, t) && |db.workflows| <= |after.workflows|
    requires forall i :: 0 <= i < |db.workflows| ==> db.workflows[i].sessionId == after.workflows[i].sessionId
    ensures NoWorkflow(db, t)
  {
    forall i | 0 <= i < |db.workflows| ensures db.workflows[i].sessionId != t {
      assert after.workflows[i].sessionId != t;
    }
  }

  /** The workflow of `s` is decided. */
  lemma {:induction false} WorkflowDecided(sys: System, next: System, id: nat, state: ApprovalState)
    requires Sound(sys) && id < |sys.db.workflows| && OnlyTouches(sys.db, next.db, sys.db.workflows[id].sessionId)
    requires next.db.workflows == sys.db.workflows[id := sys.db.workflows[id].(state := state)]
    requires CoupledWith(next.db, sys.db.workflows[id].sessionId, Some(state)) && next.open == sys.open
    ensures Sound(next)
  {
    var s := sys.db.workflows[id].sessionId;
    assert s !in sys.open by { assert s in sys.open ==> NoWorkflow(sys.db, s); }
    assert next.open == sys.open - {s};
    forall i | 0 <= i < |next.db.workflows|
      ensures WorkflowLinked(next.db, i) && CoupledWith(next.db, next.db.workflows[i].sessionId, Some(next.db.workflows[i].state))
    {
      assert WorkflowLinked(sys.db, i);
      assert CoupledWith(sys.db, sys.db.workflows[i].sessionId, Some(sys.db.workflows[i].state));
    }
    forall t | 0 <= t < |next.db.sessions| && NoWorkflow(next.db, t) ensures CoupledWith(next.db, t, None) {
      NoWorkflowBefore(sys.db, next.db, t);
      assert CoupledWith(sys.db, t, None);
      assert next.db.workflows[id].sessionId != t;
    }
    forall t | t in next.open && NoWorkflow(sys.db, t) ensures NoWorkflow(next.db, t) {
      forall i | 0 <= i < |next.db.workflows| ensures next.db.workflows[i].sessionId != t {
        assert sys.db.workflows[i].sessionId != t;
      }
    }
    OpenStays(sys, next, s);
  }

  // ---- every step ----

  lemma {:induction false} FinishSound(sys: System, s: nat, first: nat, second: nat, third: nat)
    requires Sound(sys) && s in sys.open && s < |sys.db.sessions| && s < |sys.db.actions|
    ensures Sound(System(Finish(sys.db, sys.open[s], s, s, first, second, third), third, sys.open - {s}))
  {
    var request := sys.open[s];
    var next := System(Finish(sys.db, request, s, s, first, second, third), third, sys.open - {s});
    var verdict := Evaluate(sys.db.agents, sys.db.policies, request, Day(first), Day(second)).0;
    assert NoWorkflow(sys.db, s);
    if verdict.action == Allow || verdict.action == Deny {
      StatusMoves(sys, next, s);
    } else {
      WorkflowOpens(sys, next, s, Workflow(s, s, request.amount, Pending, third + APPROVAL_WINDOW));
    }
  }

  /** A further decision on a workflow that is closed, expired ones included, changes no row. */
  lemma {:induction false} ClosedUnchanged(sys: System, id: nat, approved: bool, check: nat)
    requires Sound(sys) && id < |sys.db.workflows| && sys.db.workflows[id].state != Pending
    ensures Decide(sys.db, id, approved, check) == sys.db
  {
    assert WorkflowLinked(sys.db, id);
    assert CoupledWith(sys.db, sys.db.workflows[id].sessionId, Some(sys.db.workflows[id].state));
  }

  lemma {:induction false} DecideSound(sys: System, id: nat, approved: bool, check: nat, clock: nat)
    requires Sound(sys)
    ensures Sound(System(Decide(sys.db, id, approved, check), clock, sys.open))
  {
    var next := System(Decide(sys.db, id, approved, check), clock, sys.open);
    if id < |sys.db.workflows| && sys.db.workflows[id].state == Pending {
      assert WorkflowLinked(sys.db, id);
      assert CoupledWith(sys.db, sys.db.workflows[id].sessionId, Some(sys.db.workflows[id].state));
      WorkflowDecided(sys, next, id, next.db.workflows[id].state);
    } else if id < |sys.db.workflows| {
      ClosedUnchanged(sys, id, approved, check);
    }
  }

  lemma {:induction false} OneSettled(actions: seq<Action>, s: nat)
    requires s < |actions|
    ensures SettledSum(actions, [s]) == if actions[s].status == Completed then actions[s].amount else 0
    ensures AllSettled(actions, [s]) <==> Settling(actions[s].status)
  {
    assert [s][1..] == [];
    assert SettledSum(actions, []) == 0;
    assert [s][0] == s;
  }

  lemma {:induction false} ReconcileSound(sys: System, m: Message, r: Readings, clock: nat)
    requires Sound(sys)
    ensures Sound(System(Reconcile(sys.db, m, r).0, clock, sys.open))
  {
    var db := sys.db;
    var next := System(Reconcile(db, m, r).0, clock, sys.open);
    if next.db != db {
      assert db.sessions[m.sessionId].actionIds == [m.sessionId] && m.actionId == m.sessionId;
      var s := m.sessionId;
      OneSettled(db.actions[s := db.actions[s].(status := Completed)], s);
      assert s !in sys.open && next.open == sys.open - {s};
      StatusMoves(sys, next, s);
    }
  }

  lemma {:induction false} BeginSound(sys: System, request: Request)
    requires Sound(sys)
    ensures Sound(System(Begin(sys.db, request), sys.clock, sys.open[|sys.db.sessions| := request]))
  {
    var n := |sys.db.sessions|;
    var next := System(Begin(sys.db, request), sys.clock, sys.open[n := request]);
    assert next.db.sessions[n].actionIds == [n];
    forall w | 0 <= w < |next.db.workflows|
      ensures WorkflowLinked(next.db, w) && CoupledWith(next.db, next.db.workflows[w].sessionId, Some(next.db.workflows[w].state))
    {
      assert WorkflowLinked(sys.db, w);
      assert CoupledWith(sys.db, sys.db.workflows[w].sessionId, Some(sys.db.workflows[w].state));
    }
    forall t | 0 <= t < |next.db.sessions| && NoWorkflow(next.db, t) ensures CoupledWith(next.db, t, None) {
      NoWorkflowBefore(sys.db, next.db, t);
      if t < n { assert CoupledWith(sys.db, t, None); }
    }
    assert NoWorkflow(next.db, n) by {
      forall w | 0 <= w < |next.db.workflows| ensures next.db.workflows[w].sessionId != n { assert WorkflowLinked(sys.db, w); }
    }
    forall s | s in sys.open ensures NoWorkflow(next.db, s) { assert NoWorkflow(sys.db, s); }
  }

  /** Steps that change no session, action or workflow. */
  lemma {:induction false} SameRowsSound(sys: System, next: System)
    requires Sound(sys) && next.open == sys.open
    requires next.db.sessions == sys.db.sessions && next.db.actions == sys.db.actions && next.db.workflows == sys.db.workflows
    ensures Sound(next)
  {
    forall w | 0 <= w < |next.db.workflows|
      ensures WorkflowLinked(next.db, w) && CoupledWith(next.db, next.db.workflows[w].sessionId, Some(next.db.workflows[w].state))
    {
      assert WorkflowLinked(sys.db, w);
      assert CoupledWith(sys.db, sys.db.workflows[w].sessionId, Some(sys.db.workflows[w].state));
    }
    forall t | 0 <= t < |next.db.sessions| && NoWorkflow(next.db, t) ensures CoupledWith(next.db, t, None) {
      NoWorkflowBefore(sys.db, next.db, t);
      assert CoupledWith(sys.db, t, None);
    }
    forall s | s in sys.open ensures NoWorkflow(next.db, s) { assert NoWorkflow(sys.db, s); }
  }

  lemma {:induction false} NextSound(sys: System, step: Step)
    requires Sound(sys)
    ensures Sound(Next(sys, step))
  {
    if Enabled(sys, step) {
      match step
      case BeginRequest(request) => BeginSound(sys, request);
      case FinishRequest(s, first, second, third) => FinishSound(sys, s, first, second, third);
      case SubmitDecision(id, approved, check) => DecideSound(sys, id, approved, check, check);
      case Deliver(m, r) => ReconcileSound(sys, m, r, r.fourth);
      case _ => SameRowsSound(sys, Next(sys, step));
    }
  }

  /** In every committed state of every run, session, action and workflow are in one of the rows of the table. */
  lemma {:induction false} EveryRunSound(steps: seq<Step>)
    ensures Sound(Run(steps))
  {
    if steps != [] {
      EveryRunSound(steps[..|steps| - 1]);
      NextSound(Run(steps[..|steps| - 1]), steps[|steps| - 1]);
    }
  }
}
