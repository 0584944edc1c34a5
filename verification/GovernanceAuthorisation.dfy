/** No action runs unless every guard let it through or a person approved it in time. */
module GovernanceAuthorisation {
  import opened Options
  import opened CodeUnits
  import opened GovernanceEntities
  import opened GovernanceServices
  import opened GovernanceRuns

  // ---- the guards, stated without their order ----

  ghost predicate UniqueTools(permissions: seq<Permission>) {
    forall i, j :: 0 <= i < j < |permissions| ==> permissions[i].tool != permissions[j].tool
  }

  lemma {:induction false} FindPermissionExactly(permissions: seq<Permission>, tool: Text, p: Permission)
    requires UniqueTools(permissions)
    ensures FindPermission(permissions, tool) == Some(p) <==> p in permissions && p.tool == tool && p.enabled
  {
    if permissions != [] {
      FindPermissionExactly(permissions[1..], tool, p);
      assert permissions == [permissions[0]] + permissions[1..];
      forall i | 0 <= i < |permissions[1..]| ensures permissions[1..][i].tool != permissions[0].tool {
        assert permissions[1..][i] == permissions[i + 1];
      }
    }
  }

  lemma {:induction false} GrantKeepsUnique(permissions: seq<Permission>, tool: Text, maxSpend: int, risk: RiskLevel)
    requires UniqueTools(permissions)
    ensures UniqueTools(Grant(permissions, tool, maxSpend, risk))
    ensures forall i :: 0 <= i < |Grant(permissions, tool, maxSpend, risk)| ==>
      var t := Grant(permissions, tool, maxSpend, risk)[i].tool;
      t == tool || exists k :: 0 <= k < |permissions| && permissions[k].tool == t
  {
    if permissions != [] && permissions[0].tool != tool {
      var rest := permissions[1..];
      GrantKeepsUnique(rest, tool, maxSpend, risk);
      var granted := Grant(rest, tool, maxSpend, risk);
      forall i | 0 <= i < |granted|
        ensures granted[i].tool != permissions[0].tool && (granted[i].tool == tool || exists k :: 0 <= k < |permissions| && permissions[k].tool == granted[i].tool)
      {
        if granted[i].tool != tool {
          var k :| 0 <= k < |rest| && rest[k].tool == granted[i].tool;
          assert permissions[k + 1] == rest[k];
        }
      }
    }
  }

  /** Policy `k` is the organisation's newest active one. */
  ghost predicate Newest(policies: seq<Policy>, org: Text, k: int) {
    && 0 <= k < |policies| && policies[k].org == org && policies[k].active
    && forall later :: k < later < |policies| ==> !(policies[later].org == org && policies[later].active)
  }

  lemma {:induction false} NewestPolicyExactly(policies: seq<Policy>, org: Text)
    ensures NewestPolicy(policies, org).Some? ==>
      exists k :: Newest(policies, org, k) && NewestPolicy(policies, org) == Some(policies[k])
    ensures NewestPolicy(policies, org).None? ==> forall k :: !Newest(policies, org, k)
  {
    if policies != [] {
      var n := |policies| - 1;
      if policies[n].org == org && policies[n].active {
        assert Newest(policies, org, n);
      } else {
        NewestPolicyExactly(policies[..n], org);
        if NewestPolicy(policies[..n], org).Some? {
          var k :| Newest(policies[..n], org, k) && NewestPolicy(policies[..n], org) == Some(policies[..n][k]);
          assert Newest(policies, org, k);
        } else {
          forall k ensures !Newest(policies, org, k) {
            assert !Newest(policies[..n], org, k);
          }
        }
      }
    }
  }

  lemma {:induction false} NewestUnique(policies: seq<Policy>, org: Text, j: int, k: int)
    requires Newest(policies, org, j) && Newest(policies, org, k)
    ensures j == k
  {
  }

  /** What has been spent on date `today`, whether or not the agent's row has noticed the new date. */
  function SpentOn(a: Agent, today: nat): int {
    if today > a.resetDay then 0 else a.spent
  }

  /** Every guard at once: an active agent, an enabled grant for the tool that covers risk and amount, room in
      the day's budget, and a newest active policy that covers risk and amount. */
  ghost predicate GuardsPass(agents: seq<Agent>, policies: seq<Policy>, request: Request, today: nat) {
    && request.agentId < |agents|
    && var a := agents[request.agentId];
    && a.status == Active
    && (exists p :: p in a.permissions && p.tool == request.tool && p.enabled && request.risk <= p.risk && request.amount <= p.maxSpend)
    && SpentOn(a, today) + request.amount <= a.cap
    && (exists k :: Newest(policies, a.org, k) && request.risk <= policies[k].maxRisk && request.amount <= policies[k].threshold)
  }

  lemma {:induction false} RefusalExactly(a: Agent, request: Request)
    requires UniqueTools(a.permissions)
    ensures Refusal(a, request).None? <==>
      a.status == Active
      && exists p :: p in a.permissions && p.tool == request.tool && p.enabled && request.risk <= p.risk && request.amount <= p.maxSpend
  {
    var found := FindPermission(a.permissions, request.tool);
    if found.Some? { FindPermissionExactly(a.permissions, request.tool, found.value); }
    forall p | p in a.permissions && p.tool == request.tool && p.enabled ensures found == Some(p) {
      FindPermissionExactly(a.permissions, request.tool, p);
    }
  }

  lemma {:induction false} BudgetExactly(policies: seq<Policy>, a: Agent, request: Request)
    ensures EvaluateBudget(policies, a, request).action == Allow <==>
      WithinBudget(a, request.amount)
      && exists k :: Newest(policies, a.org, k) && request.risk <= policies[k].maxRisk && request.amount <= policies[k].threshold
  {
    NewestPolicyExactly(policies, a.org);
    if NewestPolicy(policies, a.org).Some? {
      var k :| Newest(policies, a.org, k) && NewestPolicy(policies, a.org) == Some(policies[k]);
      forall j | Newest(policies, a.org, j) ensures j == k { NewestUnique(policies, a.org, j, k); }
    }
  }

  /** The evaluation allows exactly the requests that pass every guard. */
  lemma {:induction false} AllowedExactly(agents: seq<Agent>, policies: seq<Policy>, request: Request, first: nat, second: nat)
    requires request.agentId < |agents| ==> UniqueTools(agents[request.agentId].permissions)
    ensures Evaluate(agents, policies, request, first, second).0.action == Allow <==> GuardsPass(agents, policies, request, first)
  {
    if request.agentId < |agents| {
      var a := agents[request.agentId];
      RefusalExactly(a, request);
      BudgetExactly(policies, Reset(a, first, second), request);
    }
  }

  // ---- over runs ----

  ghost predicate ToolsUnique(sys: System) {
    forall a :: 0 <= a < |sys.db.agents| ==> UniqueTools(sys.db.agents[a].permissions)
  }

  ghost predicate Permits(db: Db, after: Db) {
    && |after.agents| >= |db.agents|
    && (forall a :: 0 <= a < |db.agents| ==> after.agents[a].permissions == db.agents[a].permissions)
    && (forall a :: |db.agents| <= a < |after.agents| ==> after.agents[a].permissions == [])
  }

  lemma {:induction false} OtherStepPermits(sys: System, step: Step)
    requires Enabled(sys, step) && !step.GrantTool?
    ensures Permits(sys.db, Next(sys, step).db)
  {
  }

  lemma {:induction false} NextToolsUnique(sys: System, step: Step)
    requires ToolsUnique(sys)
    ensures ToolsUnique(Next(sys, step))
  {
    var next := Next(sys, step);
    if Enabled(sys, step) && step.GrantTool? {
      if step.agentId < |sys.db.agents| {
        GrantKeepsUnique(sys.db.agents[step.agentId].permissions, step.tool, step.maxSpend, step.risk);
      }
    } else if Enabled(sys, step) {
      OtherStepPermits(sys, step);
    }
  }

  lemma {:induction false} EveryRunToolsUnique(steps: seq<Step>)
    ensures ToolsUnique(Run(steps))
  {
    if steps != [] {
      EveryRunToolsUnique(steps[..|steps| - 1]);
      NextToolsUnique(Run(steps[..|steps| - 1]), steps[|steps| - 1]);
    }
  }

  /** This step, taken in this state, lets action `s` run: its request passes every guard, or its pending
      workflow, for exactly its own amount, is approved with the window still open. */
  ghost predicate Authorises(sys: System, step: Step, s: nat) {
    && Enabled(sys, step)
    && s < |sys.db.actions|
    && match step
       case FinishRequest(t, first, _, _) =>
         && t == s && sys.open[s].amount == sys.db.actions[s].amount && sys.open[s].tool == sys.db.actions[s].tool
         && GuardsPass(sys.db.agents, sys.db.policies, sys.open[s], Day(first))
       case SubmitDecision(id, approved, check) =>
         && approved && id < |sys.db.workflows|
         && var w := sys.db.workflows[id];
         && w.actionId == s && w.state == Pending && check <= w.expiresAt && w.amount == sys.db.actions[s].amount
       case _ => false
  }

  predicate Running(status: ExecutionStatus) {
    status == Executing || status == Completed
  }

  predicate ActionRuns(sys: System, s: nat) {
    s < |sys.db.actions| && Running(sys.db.actions[s].status)
  }

  predicate Starts(sys: System, step: Step, act: nat) {
    ActionRuns(Next(sys, step), act) && !ActionRuns(sys, act)
  }

  lemma {:induction false} FinishStartsExactly(sys: System, s: nat, first: nat, second: nat, third: nat, act: nat)
    requires Sound(sys) && ToolsUnique(sys)
    ensures Starts(sys, FinishRequest(s, first, second, third), act) <==> Authorises(sys, FinishRequest(s, first, second, third), act)
  {
    if s in sys.open { AllowedExactly(sys.db.agents, sys.db.policies, sys.open[s], Day(first), Day(second)); }
  }

  lemma {:induction false} DecideStartsExactly(sys: System, id: nat, approved: bool, check: nat, act: nat)
    requires Sound(sys)
    ensures Starts(sys, SubmitDecision(id, approved, check), act) <==> Authorises(sys, SubmitDecision(id, approved, check), act)
  {
    if id < |sys.db.workflows| && sys.db.workflows[id].state != Pending {
      ClosedUnchanged(sys, id, approved, check);
    } else if id < |sys.db.workflows| {
      assert WorkflowLinked(sys.db, id);
      assert CoupledWith(sys.db, sys.db.workflows[id].sessionId, Some(Pending));
    }
  }

  lemma {:induction false} DeliverStartsNothing(sys: System, m: Message, r: Readings, act: nat)
    requires Sound(sys) && ActionRuns(Next(sys, Deliver(m, r)), act)
    ensures ActionRuns(sys, act)
  {
  }

  /** In a sound state a step starts an action if and only if it authorises it. */
  lemma {:induction false} StartsExactly(sys: System, step: Step, act: nat)
    requires Sound(sys) && ToolsUnique(sys)
    ensures Starts(sys, step, act) <==> Authorises(sys, step, act)
  {
    match step
    case FinishRequest(s, first, second, third) => FinishStartsExactly(sys, s, first, second, third, act);
    case SubmitDecision(id, approved, check) => DecideStartsExactly(sys, id, approved, check, act);
    case Deliver(m, r) => if Starts(sys, step, act) { DeliverStartsNothing(sys, m, r, act); }
    case _ =>
  }

  /** A delivery settles exactly when it names an executing action of a session whose agent is active and has
      room for the amount on the day of the check; otherwise it charges nothing. */
  lemma {:induction false} SettlesExactly(sys: System, m: Message, r: Readings)
    requires Sound(sys)
    ensures Reconcile(sys.db, m, r).1 == Settled <==>
      && m.actionId == m.sessionId < |sys.db.sessions| && sys.db.actions[m.actionId].status == Executing
      && sys.db.sessions[m.sessionId].agentId < |sys.db.agents|
      && var a := sys.db.agents[sys.db.sessions[m.sessionId].agentId];
      a.status == Active && SpentOn(a, Day(r.first)) + sys.db.actions[m.actionId].amount <= a.cap
    ensures Reconcile(sys.db, m, r).1 in {AlreadyReconciled, NotFound} ==> Reconcile(sys.db, m, r).0 == sys.db
  {
  }

  /** Over every run: an action that is executing or completed was authorised by some earlier step. */
  lemma {:induction false} RunsOnlyAuthorised(steps: seq<Step>, act: nat) returns (i: nat)
    requires ActionRuns(Run(steps), act)
    ensures i < |steps| && Authorises(Run(steps[..i]), steps[i], act)
  {
    var n := |steps| - 1;
    EveryRunSound(steps[..n]);
    EveryRunToolsUnique(steps[..n]);
    if ActionRuns(Run(steps[..n]), act) {
      i := RunsOnlyAuthorised(steps[..n], act);
      assert steps[..n][..i] == steps[..i];
    } else {
      i := n;
      StartsExactly(Run(steps[..n]), steps[n], act);
    }
  }
}
