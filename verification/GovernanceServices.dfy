/** The services over those entities. Each call loads the rows it needs, changes them and saves them back as
    one committed step; a request commits twice, and anything may happen between its two commits. */
module GovernanceServices {
  import opened Options
  import opened CodeUnits
  import opened GovernanceEntities

  datatype Request = Request(agentId: nat, tool: Text, amount: int, risk: RiskLevel)

  datatype AuditKind = ExecutionDenied | SettlementBlocked | ExecutionSettled

  datatype Audit = Audit(kind: AuditKind, agentId: nat, org: Text, sessionId: nat, tool: Text, policy: Text, capital: int, at: nat)

  datatype Message = Message(sessionId: nat, actionId: nat)

  /** The tables, a row's key being its index, and the messages that have been sent. */
  datatype Db = Db(
    agents: seq<Agent>, policies: seq<Policy>, sessions: seq<Session>, actions: seq<Action>,
    workflows: seq<Workflow>, audits: seq<Audit>, sent: seq<Message>)

  // ---- the guards, in order ----

  datatype Evaluation = Evaluation(action: PolicyAction, policyName: Text)

  function FindPermission(permissions: seq<Permission>, tool: Text): Option<Permission> {
    if permissions == [] then None
    else if permissions[0].tool == tool && permissions[0].enabled then Some(permissions[0])
    else FindPermission(permissions[1..], tool)
  }

  /** The newest active policy of the organisation; rows stand in order of creation. */
  function NewestPolicy(policies: seq<Policy>, org: Text): Option<Policy> {
    if policies == [] then None
    else
      var last := policies[|policies| - 1];
      if last.org == org && last.active then Some(last) else NewestPolicy(policies[..|policies| - 1], org)
  }

  /** The checks before the budget: None when all of them pass. */
  function Refusal(a: Agent, request: Request): Option<Text> {
    if a.status != Active then Some(Ascii("AgentSuspended"))
    else
      var permission := FindPermission(a.permissions, request.tool);
      if permission.None? then Some(Ascii("ToolNotPermitted"))
      else if request.risk > permission.value.risk then Some(Ascii("ToolRiskCeilingExceeded"))
      else if request.amount > permission.value.maxSpend then Some(Ascii("SpendPerCallExceeded"))
      else None
  }

  /** `a` is the agent after `CanSpend` has had its chance to reset the budget. */
  function EvaluateBudget(policies: seq<Policy>, a: Agent, request: Request): Evaluation {
    if !WithinBudget(a, request.amount) then Evaluation(Deny, Ascii("DailyBudgetExceeded"))
    else
      var policy := NewestPolicy(policies, a.org);
      if policy.None? then Evaluation(Deny, Ascii("NoActivePolicy"))
      else Evaluation(EvaluateSpend(policy.value, request.amount, request.risk), policy.value.name)
  }

  /** The verdict and the agents afterwards; `first` and `second` are the two dates `CanSpend` may read. */
  function Evaluate(agents: seq<Agent>, policies: seq<Policy>, request: Request, first: nat, second: nat): (Evaluation, seq<Agent>) {
    if request.agentId >= |agents| then (Evaluation(Deny, Ascii("AgentNotFound")), agents)
    else
      var a := agents[request.agentId];
      var refusal := Refusal(a, request);
      if refusal.Some? then (Evaluation(Deny, refusal.value), agents)
      else
        var reset := Reset(a, first, second);
        (EvaluateBudget(policies, reset, request), agents[request.agentId := reset])
  }

  // ---- the committed steps ----

  function Begin(db: Db, request: Request): Db {
    var s := |db.sessions|;
    db.(sessions := db.sessions + [Session(request.agentId, EvaluatingPolicy, 0, [|db.actions|])],
        actions := db.actions + [Action(s, request.tool, request.amount, request.risk, Queued)])
  }

  function OrgOf(agents: seq<Agent>, id: nat): Text {
    if id < |agents| then agents[id].org else Ascii("unknown")
  }

  /** The second commit of a request. `third` is read when the workflow is opened or the denial is dated. */
  function Finish(db: Db, request: Request, s: nat, act: nat, first: nat, second: nat, third: nat): Db
    requires s < |db.sessions| && act < |db.actions|
  {
    var (verdict, agents) := Evaluate(db.agents, db.policies, request, Day(first), Day(second));
    var session, action := db.sessions[s], db.actions[act];
    match verdict.action
    case Allow =>
      db.(agents := agents,
          sessions := db.sessions[s := session.(status := Executing)],
          actions := db.actions[act := action.(status := Executing)],
          sent := db.sent + [Message(s, act)])
    case Deny =>
      db.(agents := agents,
          sessions := db.sessions[s := session.(status := Failed)],
          actions := db.actions[act := action.(status := BlockedByPolicy)],
          audits := db.audits + [Audit(ExecutionDenied, request.agentId, OrgOf(db.agents, request.agentId), s, request.tool, verdict.policyName, 0, third)])
    case _ =>
      db.(agents := agents,
          sessions := db.sessions[s := session.(status := AwaitingApproval)],
          workflows := db.workflows + [Workflow(s, act, request.amount, Pending, third + APPROVAL_WINDOW)])
  }

  /** Changes the status of a session and an action, where they exist. */
  function WithStatus(db: Db, s: nat, session: ExecutionStatus, act: nat, action: ExecutionStatus): Db {
    db.(sessions := if s < |db.sessions| then db.sessions[s := db.sessions[s].(status := session)] else db.sessions,
        actions := if act < |db.actions| then db.actions[act := db.actions[act].(status := action)] else db.actions)
  }

  /** What is refused on an expired workflow fails session and action, every time. */
  function Decide(db: Db, id: nat, approved: bool, check: nat): Db {
    if id >= |db.workflows| then db
    else
      var w := db.workflows[id];
      var (next, decision) := if approved then Approve(w, check) else Reject(w);
      var saved := db.(workflows := db.workflows[id := next]);
      if decision == Decided && approved then
        WithStatus(saved, w.sessionId, Executing, w.actionId, Executing).(sent := db.sent + [Message(w.sessionId, w.actionId)])
      else if decision == Decided || next.state == Expired then WithStatus(saved, w.sessionId, Failed, w.actionId, BlockedByPolicy)
      else db
  }

  predicate Settling(status: ExecutionStatus) {
    status == Completed || status == BlockedByPolicy || status == Failed
  }

  predicate AllSettled(actions: seq<Action>, ids: seq<nat>) {
    forall i :: 0 <= i < |ids| && ids[i] < |actions| ==> Settling(actions[ids[i]].status)
  }

  function SettledSum(actions: seq<Action>, ids: seq<nat>): int {
    if ids == [] then 0
    else (if ids[0] < |actions| && actions[ids[0]].status == Completed then actions[ids[0]].amount else 0) + SettledSum(actions, ids[1..])
  }

  datatype Outcome = Settled | BlockedOverBudget | AlreadyReconciled | NotFound

  /** A settlement's clock readings: the audit time, then two dates for each budget check. */
  datatype Readings = Readings(now: nat, first: nat, second: nat, third: nat, fourth: nat)

  /** Some delivered message; it may be stale, repeated or made up. */
  predicate Deliverable(db: Db, m: Message) {
    && m.sessionId < |db.sessions| && m.actionId < |db.actions|
    && m.actionId in db.sessions[m.sessionId].actionIds
  }

  function Blocked(db: Db, m: Message, agent: Agent, now: nat): Db
    requires Deliverable(db, m)
  {
    var session, action := db.sessions[m.sessionId], db.actions[m.actionId];
    if session.agentId >= |db.agents| then db
    else
      db.(agents := db.agents[session.agentId := agent],
          sessions := db.sessions[m.sessionId := session.(status := Failed)],
          actions := db.actions[m.actionId := action.(status := BlockedByPolicy)],
          audits := db.audits + [Audit(SettlementBlocked, session.agentId, agent.org, m.sessionId, action.tool, Ascii("DailyBudgetExceeded"), 0, now)])
  }

  function SettledDb(db: Db, m: Message, agent: Agent, now: nat): Db
    requires Deliverable(db, m)
  {
    var session, action := db.sessions[m.sessionId], db.actions[m.actionId];
    var actions := db.actions[m.actionId := action.(status := Completed)];
    if session.agentId >= |db.agents| then db
    else
      db.(agents := db.agents[session.agentId := agent],
          sessions :=
            if AllSettled(actions, session.actionIds) then
              db.sessions[m.sessionId := session.(status := Completed, total := SettledSum(actions, session.actionIds))]
            else db.sessions,
          actions := actions,
          audits := db.audits + [Audit(ExecutionSettled, session.agentId, agent.org, m.sessionId, action.tool, Ascii("Settled"), action.amount, now)])
  }

  function Reconcile(db: Db, m: Message, r: Readings): (Db, Outcome) {
    if !Deliverable(db, m) then (db, NotFound)
    else if db.actions[m.actionId].status != Executing then (db, AlreadyReconciled)
    else
      var id, amount := db.sessions[m.sessionId].agentId, db.actions[m.actionId].amount;
      if id >= |db.agents| then (db, NotFound)
      else
        var checked := Reset(db.agents[id], Day(r.first), Day(r.second));
        if !WithinBudget(checked, amount) then (Blocked(db, m, checked, r.now), BlockedOverBudget)
        else (SettledDb(db, m, Charge(Reset(checked, Day(r.third), Day(r.fourth)), amount), r.now), Settled)
  }

  // ---- the services ----

  method CheckGrant(agent: Agent, request: Request) returns (refusal: Option<Text>)
    ensures refusal == Refusal(agent, request)
  {
    if agent.status != Active { return Some(Ascii("AgentSuspended")); }
    var permission := FindPermission(agent.permissions, request.tool);
    if permission.None? { return Some(Ascii("ToolNotPermitted")); }
    if request.risk > permission.value.risk { return Some(Ascii("ToolRiskCeilingExceeded")); }
    if request.amount > permission.value.maxSpend { return Some(Ascii("SpendPerCallExceeded")); }
    refusal := None;
  }

  class AgentOpsContext {
    var agents: seq<Agent>
    var policies: seq<Policy>
    var sessions: seq<Session>
    var actions: seq<Action>
    var workflows: seq<Workflow>
    var audits: seq<Audit>
    var sent: seq<Message>

    constructor ()
      ensures Tables() == Db([], [], [], [], [], [], [])
    {
      agents, policies, sessions, actions, workflows, audits, sent := [], [], [], [], [], [], [];
    }

    function Tables(): Db
      reads this
    {
      Db(agents, policies, sessions, actions, workflows, audits, sent)
    }

    method BeginRequest(request: Request) returns (s: nat, act: nat)
      modifies this
      ensures s == old(|sessions|) && act == old(|actions|) && Tables() == Begin(old(Tables()), request)
    {
      s, act := |sessions|, |actions|;
      var session := new ExecutionSession(request.agentId);
      var action := session.PlanAction(act, s, request.tool, request.amount, request.risk);
      session.MarkEvaluating();
      assert session.Row() == Session(request.agentId, EvaluatingPolicy, 0, [act]);
      sessions := sessions + [session.Row()];
      actions := actions + [action];
    }

    /** The ordered guards; a row is only saved back when `CanSpend` has looked at it. */
    method EvaluateExecution(clock: Clock, request: Request) returns (e: Evaluation, ghost first: nat, ghost second: nat)
      modifies this`agents, clock
      ensures old(clock.now) <= first <= second <= clock.now
      ensures (e, agents) == Evaluate(old(agents), policies, request, Day(first), Day(second))
    {
      first, second := clock.now, clock.now;
      if request.agentId >= |agents| { return Evaluation(Deny, Ascii("AgentNotFound")), first, second; }
      var refusal := CheckGrant(agents[request.agentId], request);
      if refusal.Some? { return Evaluation(Deny, refusal.value), first, second; }
      var agent := new AgentIdentity.Load(agents[request.agentId]);
      var ok;
      ok, first, second := agent.CanSpend(clock, request.amount);
      agents := agents[request.agentId := agent.Row()];
      if !ok { return Evaluation(Deny, Ascii("DailyBudgetExceeded")), first, second; }
      var policy := NewestPolicy(policies, agent.organizationId);
      if policy.None? { return Evaluation(Deny, Ascii("NoActivePolicy")), first, second; }
      e := Evaluation(EvaluateSpend(policy.value, request.amount, request.risk), policy.value.name);
    }

    method FinishRequest(clock: Clock, request: Request, s: nat, act: nat)
      returns (ghost first: nat, ghost second: nat, ghost third: nat)
      requires s < |sessions| && act < |actions|
      modifies this, clock
      ensures old(clock.now) <= first <= second <= third <= clock.now
      ensures Tables() == Finish(old(Tables()), request, s, act, first, second, third)
    {
      ghost var was := agents;
      var verdict;
      verdict, first, second := EvaluateExecution(clock, request);
      third := clock.now;
      var session := new ExecutionSession.Load(sessions[s]);
      match verdict.action {
        case Allow =>
          session.MarkExecuting();
          actions := actions[act := actions[act].(status := Executing)];
          sent := sent + [Message(s, act)];
        case Deny =>
          session.Fail();
          third := SaveDenial(clock, request, s, act, verdict.policyName);
          assert OrgOf(agents, request.agentId) == OrgOf(was, request.agentId);
        case _ =>
          session.MarkAwaitingApproval();
          var start := clock.UtcNow();
          third := start;
          workflows := workflows + [Workflow(s, act, request.amount, Pending, start + APPROVAL_WINDOW)];
      }
      sessions := sessions[s := session.Row()];
    }

    method SaveDenial(clock: Clock, request: Request, s: nat, act: nat, policyName: Text) returns (ghost at: nat)
      requires act < |actions|
      modifies this`actions, this`audits, clock
      ensures old(clock.now) <= at <= clock.now && actions == old(actions)[act := old(actions)[act].(status := BlockedByPolicy)]
      ensures audits == old(audits) + [Audit(ExecutionDenied, request.agentId, OrgOf(agents, request.agentId), s, request.tool, policyName, 0, at)]
    {
      actions := actions[act := actions[act].(status := BlockedByPolicy)];
      var now := clock.UtcNow();
      at := now;
      var org := if request.agentId < |agents| then agents[request.agentId].org else Ascii("unknown");
      audits := audits + [Audit(ExecutionDenied, request.agentId, org, s, request.tool, policyName, 0, now)];
    }

    method SubmitDecision(clock: Clock, id: nat, approved: bool) returns (ok: bool, ghost check: nat)
      modifies this, clock
      ensures old(clock.now) <= check <= clock.now
      ensures Tables() == Decide(old(Tables()), id, approved, check)
      ensures ok == (id < old(|workflows|) && old(workflows)[id].state == Pending && (approved ==> check <= old(workflows)[id].expiresAt))
    {
      check := clock.now;
      if id >= |workflows| { return false, check; }
      var workflow := new ApprovalWorkflow.Load(workflows[id]);
      var decision;
      if approved {
        decision, check := workflow.ApproveBy(clock);
      } else {
        decision := workflow.RejectBy();
      }
      ok := decision == Decided;
      if !ok && workflow.state != Expired { return; }
      workflows := workflows[id := workflow.Row()];
      if ok && approved {
        SetStatuses(workflow.sessionId, Executing, workflow.actionId, Executing);
        sent := sent + [Message(workflow.sessionId, workflow.actionId)];
      } else {
        SetStatuses(workflow.sessionId, Failed, workflow.actionId, BlockedByPolicy);
      }
    }

    /** `session?.…` and `action?.…` */
    method SetStatuses(s: nat, session: ExecutionStatus, act: nat, action: ExecutionStatus)
      modifies this`sessions, this`actions
      ensures Tables() == WithStatus(old(Tables()), s, session, act, action)
    {
      if s < |sessions| { sessions := sessions[s := sessions[s].(status := session)]; }
      if act < |actions| { actions := actions[act := actions[act].(status := action)]; }
    }

    method ReconcileMessage(clock: Clock, m: Message) returns (o: Outcome, ghost r: Readings)
      modifies this, clock
      ensures old(clock.now) <= r.now <= r.first <= r.second <= r.third <= r.fourth <= clock.now
      ensures (Tables(), o) == Reconcile(old(Tables()), m, r)
    {
      r := Readings(clock.now, clock.now, clock.now, clock.now, clock.now);
      if !Deliverable(Tables(), m) { return NotFound, r; }
      if actions[m.actionId].status != Executing { return AlreadyReconciled, r; }
      var session := new ExecutionSession.Load(sessions[m.sessionId]);
      if session.agentId >= |agents| { return NotFound, r; }
      var agent := new AgentIdentity.Load(agents[session.agentId]);
      var action := actions[m.actionId];
      var now := clock.UtcNow();
      var ok, first, second := agent.CanSpend(clock, action.amount);
      if !ok {
        SaveBlocked(m, agent.Row(), now);
        return BlockedOverBudget, Readings(now, first, second, second, second);
      }
      ghost var third, fourth := agent.RecordSpend(clock, action.amount);
      SaveSettled(m, agent.Row(), now);
      return Settled, Readings(now, first, second, third, fourth);
    }

    method SaveBlocked(m: Message, agent: Agent, now: nat)
      requires Deliverable(Tables(), m) && sessions[m.sessionId].agentId < |agents|
      modifies this
      ensures Tables() == Blocked(old(Tables()), m, agent, now)
    {
      var session := new ExecutionSession.Load(sessions[m.sessionId]);
      var action := actions[m.actionId];
      session.Fail();
      agents := agents[session.agentId := agent];
      actions := actions[m.actionId := action.(status := BlockedByPolicy)];
      sessions := sessions[m.sessionId := session.Row()];
      audits := audits + [Audit(SettlementBlocked, session.agentId, agent.org, m.sessionId, action.tool, Ascii("DailyBudgetExceeded"), 0, now)];
    }

    method SaveSettled(m: Message, agent: Agent, now: nat)
      requires Deliverable(Tables(), m) && sessions[m.sessionId].agentId < |agents|
      modifies this
      ensures Tables() == SettledDb(old(Tables()), m, agent, now)
    {
      var session := new ExecutionSession.Load(sessions[m.sessionId]);
      var action := actions[m.actionId];
      agents := agents[session.agentId := agent];
      actions := actions[m.actionId := action.(status := Completed)];
      if AllSettled(actions, session.actionIds) {
        session.Complete(SettledSum(actions, session.actionIds));
        sessions := sessions[m.sessionId := session.Row()];
      }
      audits := audits + [Audit(ExecutionSettled, session.agentId, agent.org, m.sessionId, action.tool, Ascii("Settled"), action.amount, now)];
    }
  }
}
