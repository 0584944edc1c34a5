/** The entities of governed execution: agents, sessions, actions, approval workflows and policies.
    Money is counted in the smallest unit; time in ticks. */
module GovernanceEntities {
  import opened CodeUnits

  const TICKS_PER_DAY: nat := 864_000_000_000
  const APPROVAL_WINDOW: nat := 24 * 36_000_000_000

  /** The UTC date of an instant. */
  function Day(t: nat): nat {
    t / TICKS_PER_DAY
  }

  type RiskLevel = r: nat | r <= 3

  datatype AgentStatus = PendingRegistration | Active | Suspended | Decommissioned | Revoked

  datatype ExecutionStatus = Queued | EvaluatingPolicy | AwaitingApproval | Executing | Completed | Failed | BlockedByPolicy

  datatype ApprovalState = Pending | Approved | Rejected | Expired

  datatype PolicyAction = Allow | RequireHumanApproval | RequireMultiSig | Deny

  /** Tool names are compared without regard to case; `tool` is the folded name. */
  datatype Permission = Permission(tool: Text, maxSpend: int, risk: RiskLevel, enabled: bool)

  datatype Agent = Agent(org: Text, status: AgentStatus, cap: int, spent: int, resetDay: nat, permissions: seq<Permission>)

  datatype Session = Session(agentId: nat, status: ExecutionStatus, total: int, actionIds: seq<nat>)

  datatype Action = Action(sessionId: nat, tool: Text, amount: int, risk: RiskLevel, status: ExecutionStatus)

  datatype Workflow = Workflow(sessionId: nat, actionId: nat, amount: int, state: ApprovalState, expiresAt: nat)

  datatype Policy = Policy(name: Text, org: Text, maxRisk: RiskLevel, threshold: int, multiSig: bool, active: bool)

  // ---- an agent's budget ----

  /** The reset check reads the clock on day `first` and, if the date has moved on, dates the new budget by
      a second reading on day `second`. */
  function Reset(a: Agent, first: nat, second: nat): Agent {
    if first > a.resetDay then a.(spent := 0, resetDay := second) else a
  }

  predicate WithinBudget(a: Agent, amount: int) {
    a.spent + amount <= a.cap && a.status.Active?
  }

  function Charge(a: Agent, amount: int): Agent {
    a.(spent := a.spent + amount)
  }

  function Grant(permissions: seq<Permission>, tool: Text, maxSpend: int, risk: RiskLevel): seq<Permission> {
    if permissions == [] then [Permission(tool, maxSpend, risk, true)]
    else if permissions[0].tool == tool then [permissions[0].(maxSpend := maxSpend, risk := risk)] + permissions[1..]
    else [permissions[0]] + Grant(permissions[1..], tool, maxSpend, risk)
  }

  lemma {:induction false} GrantUpdates(permissions: seq<Permission>, i: nat, tool: Text, maxSpend: int, risk: RiskLevel)
    requires i < |permissions| && permissions[i].tool == tool && forall k :: 0 <= k < i ==> permissions[k].tool != tool
    ensures Grant(permissions, tool, maxSpend, risk) == permissions[i := permissions[i].(maxSpend := maxSpend, risk := risk)]
  {
    if i > 0 { GrantUpdates(permissions[1..], i - 1, tool, maxSpend, risk); }
  }

  lemma {:induction false} GrantAppends(permissions: seq<Permission>, tool: Text, maxSpend: int, risk: RiskLevel)
    requires forall k :: 0 <= k < |permissions| ==> permissions[k].tool != tool
    ensures Grant(permissions, tool, maxSpend, risk) == permissions + [Permission(tool, maxSpend, risk, true)]
  {
    if permissions != [] { GrantAppends(permissions[1..], tool, maxSpend, risk); }
  }

  /** A clock that never runs backwards. */
  class Clock {
    var now: nat

    method UtcNow() returns (t: nat)
      modifies this
      ensures old(now) <= t == now
    {
      t :| now <= t;
      now := t;
    }
  }

  class AgentIdentity {
    var organizationId: Text
    var status: AgentStatus
    var dailyBudgetCapUsd: int
    var spentTodayUsd: int
    var budgetResetDay: nat
    var toolPermissions: seq<Permission>

    constructor Load(row: Agent)
      ensures Row() == row
    {
      organizationId, status, dailyBudgetCapUsd := row.org, row.status, row.cap;
      spentTodayUsd, budgetResetDay, toolPermissions := row.spent, row.resetDay, row.permissions;
    }

    function Row(): Agent
      reads this
    {
      Agent(organizationId, status, dailyBudgetCapUsd, spentTodayUsd, budgetResetDay, toolPermissions)
    }

    method ResetDailyBudgetIfExpired(clock: Clock) returns (ghost first: nat, ghost second: nat)
      modifies this, clock
      ensures old(clock.now) <= first <= second == clock.now
      ensures Row() == Reset(old(Row()), Day(first), Day(second))
    {
      var now := clock.UtcNow();
      first, second := now, now;
      if Day(now) > budgetResetDay {
        spentTodayUsd := 0;
        var today := clock.UtcNow();
        budgetResetDay := Day(today);
        second := today;
      }
    }

    method CanSpend(clock: Clock, amountUsd: int) returns (ok: bool, ghost first: nat, ghost second: nat)
      modifies this, clock
      ensures old(clock.now) <= first <= second == clock.now
      ensures Row() == Reset(old(Row()), Day(first), Day(second)) && ok == WithinBudget(Row(), amountUsd)
    {
      first, second := ResetDailyBudgetIfExpired(clock);
      ok := spentTodayUsd + amountUsd <= dailyBudgetCapUsd && status == Active;
    }

    method RecordSpend(clock: Clock, amountUsd: int) returns (ghost first: nat, ghost second: nat)
      modifies this, clock
      ensures old(clock.now) <= first <= second == clock.now
      ensures Row() == Charge(Reset(old(Row()), Day(first), Day(second)), amountUsd)
    {
      first, second := ResetDailyBudgetIfExpired(clock);
      spentTodayUsd := spentTodayUsd + amountUsd;
    }

    method Suspend()
      modifies this
      ensures Row() == old(Row()).(status := Suspended)
    {
      status := Suspended;
    }

    method Activate()
      modifies this
      ensures Row() == old(Row()).(status := Active)
    {
      status := Active;
    }

    method AddToolPermission(tool: Text, maxSpend: int, risk: RiskLevel)
      modifies this
      ensures Row() == old(Row()).(permissions := Grant(old(toolPermissions), tool, maxSpend, risk))
    {
      for i := 0 to |toolPermissions|
        invariant unchanged(this)
        invariant forall k :: 0 <= k < i ==> toolPermissions[k].tool != tool
      {
        if toolPermissions[i].tool == tool {
          GrantUpdates(toolPermissions, i, tool, maxSpend, risk);
          toolPermissions := toolPermissions[i := toolPermissions[i].(maxSpend := maxSpend, risk := risk)];
          return;
        }
      }
      GrantAppends(toolPermissions, tool, maxSpend, risk);
      toolPermissions := toolPermissions + [Permission(tool, maxSpend, risk, true)];
    }
  }

  // ---- sessions and actions ----

  class ExecutionSession {
    var agentId: nat
    var status: ExecutionStatus
    var totalExecutedSpendUsd: int
    var actionIds: seq<nat>

    constructor (agentId: nat)
      ensures Row() == Session(agentId, Queued, 0, [])
    {
      this.agentId, status, totalExecutedSpendUsd, actionIds := agentId, Queued, 0, [];
    }

    constructor Load(row: Session)
      ensures Row() == row
    {
      agentId, status, totalExecutedSpendUsd, actionIds := row.agentId, row.status, row.total, row.actionIds;
    }

    function Row(): Session
      reads this
    {
      Session(agentId, status, totalExecutedSpendUsd, actionIds)
    }

    /** The new action's row; `id` and `sessionId` are the keys the two rows get. */
    method PlanAction(id: nat, sessionId: nat, tool: Text, amountUsd: int, risk: RiskLevel) returns (action: Action)
      modifies this
      ensures action == Action(sessionId, tool, amountUsd, risk, Queued)
      ensures Row() == old(Row()).(actionIds := old(actionIds) + [id])
    {
      action := Action(sessionId, tool, amountUsd, risk, Queued);
      actionIds := actionIds + [id];
    }

    method MarkEvaluating()
      modifies this
      ensures Row() == old(Row()).(status := EvaluatingPolicy)
    {
      status := EvaluatingPolicy;
    }

    method MarkAwaitingApproval()
      modifies this
      ensures Row() == old(Row()).(status := AwaitingApproval)
    {
      status := AwaitingApproval;
    }

    method MarkExecuting()
      modifies this
      ensures Row() == old(Row()).(status := Executing)
    {
      status := Executing;
    }

    method Complete(finalSpendUsd: int)
      modifies this
      ensures Row() == old(Row()).(status := Completed, total := finalSpendUsd)
    {
      status := Completed;
      totalExecutedSpendUsd := finalSpendUsd;
    }

    method Fail()
      modifies this
      ensures Row() == old(Row()).(status := Failed)
    {
      status := Failed;
    }
  }

  // ---- approval workflows ----

  datatype Decision = Decided | NotPending | WindowExpired

  /** `check` is the clock reading that the window is checked against. */
  function Approve(w: Workflow, check: nat): (Workflow, Decision) {
    if w.state != Pending then (w, NotPending)
    else if check > w.expiresAt then (w.(state := Expired), WindowExpired)
    else (w.(state := Approved), Decided)
  }

  function Reject(w: Workflow): (Workflow, Decision) {
    if w.state != Pending then (w, NotPending) else (w.(state := Rejected), Decided)
  }

  class ApprovalWorkflow {
    const sessionId: nat
    const actionId: nat
    const requestedAmountUsd: int
    var state: ApprovalState
    var expiresAtUtc: nat

    constructor Load(row: Workflow)
      ensures Row() == row
    {
      sessionId, actionId, requestedAmountUsd := row.sessionId, row.actionId, row.amount;
      state, expiresAtUtc := row.state, row.expiresAt;
    }

    function Row(): Workflow
      reads this
    {
      Workflow(sessionId, actionId, requestedAmountUsd, state, expiresAtUtc)
    }

    method ApproveBy(clock: Clock) returns (d: Decision, ghost check: nat)
      modifies this, clock
      ensures old(clock.now) <= check <= clock.now
      ensures (Row(), d) == Approve(old(Row()), check)
    {
      check := clock.now;
      if state != Pending { return NotPending, clock.now; }
      var now := clock.UtcNow();
      check := now;
      if now > expiresAtUtc {
        state := Expired;
        return WindowExpired, check;
      }
      state := Approved;
      d := Decided;
    }

    method RejectBy() returns (d: Decision)
      modifies this
      ensures (Row(), d) == Reject(old(Row()))
    {
      if state != Pending { return NotPending; }
      state := Rejected;
      d := Decided;
    }
  }

  // ---- policies ----

  function EvaluateSpend(p: Policy, spend: int, risk: RiskLevel): PolicyAction {
    if !p.active then Deny
    else if risk > p.maxRisk then Deny
    else if spend > p.threshold then (if p.multiSig then RequireMultiSig else RequireHumanApproval)
    else Allow
  }
}
