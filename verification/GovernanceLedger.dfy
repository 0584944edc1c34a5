/** Exactly-once settlement, and the audited capital equals what the sessions executed. */
module GovernanceLedger {
  import opened Options
  import opened CodeUnits
  import opened GovernanceEntities
  import opened GovernanceServices
  import opened GovernanceRuns

  function SettlementsOf(audits: seq<Audit>, s: nat): nat {
    if audits == [] then 0
    else
      var last := audits[|audits| - 1];
      SettlementsOf(audits[..|audits| - 1], s) + if last.kind == ExecutionSettled && last.sessionId == s then 1 else 0
  }

  function AuditedCapital(audits: seq<Audit>, org: Text): int {
    if audits == [] then 0
    else
      var last := audits[|audits| - 1];
      AuditedCapital(audits[..|audits| - 1], org) + if last.org == org then last.capital else 0
  }

  function Contribution(agents: seq<Agent>, session: Session, org: Text): int {
    if session.agentId < |agents| && agents[session.agentId].org == org then session.total else 0
  }

  /** TotalExecutedSpendUsd summed over the sessions of the organisation's agents. */
  function ExecutedSpend(agents: seq<Agent>, sessions: seq<Session>, org: Text): int {
    if sessions == [] then 0
    else ExecutedSpend(agents, sessions[..|sessions| - 1], org) + Contribution(agents, sessions[|sessions| - 1], org)
  }

  lemma {:induction false} SameSpend(agents: seq<Agent>, sessions: seq<Session>, others: seq<Agent>, changed: seq<Session>, org: Text)
    requires |sessions| == |changed|
    requires forall s :: 0 <= s < |sessions| ==> Contribution(agents, sessions[s], org) == Contribution(others, changed[s], org)
    ensures ExecutedSpend(agents, sessions, org) == ExecutedSpend(others, changed, org)
  {
    if sessions != [] {
      var n := |sessions| - 1;
      SameSpend(agents, sessions[..n], others, changed[..n], org);
    }
  }

  lemma {:induction false} SpendChanges(agents: seq<Agent>, sessions: seq<Session>, s: nat, session: Session, org: Text)
    requires s < |sessions|
    ensures ExecutedSpend(agents, sessions[s := session], org) ==
      ExecutedSpend(agents, sessions, org) - Contribution(agents, sessions[s], org) + Contribution(agents, session, org)
  {
    var n := |sessions| - 1;
    if s == n {
      assert sessions[s := session][..n] == sessions[..n];
    } else {
      SpendChanges(agents, sessions[..n], s, session, org);
      assert sessions[s := session][..n] == sessions[..n][s := session];
    }
  }

  ghost predicate SettledOnce(db: Db) {
    forall s: nat :: SettlementsOf(db.audits, s) == if s < |db.actions| && db.actions[s].status == Completed then 1 else 0
  }

  /** A session's total is the amount of its action once that is completed, and nothing before. */
  ghost predicate TotalsExact(db: Db) {
    |db.sessions| == |db.actions| && forall s :: 0 <= s < |db.sessions| ==>
      db.sessions[s].total == if db.actions[s].status == Completed then db.actions[s].amount else 0
  }

  /** A running action belongs to a registered agent. */
  ghost predicate AgentsKnown(db: Db) {
    |db.sessions| == |db.actions| && forall s :: 0 <= s < |db.sessions| ==>
      db.actions[s].status in {Executing, Completed} || db.sessions[s].status == AwaitingApproval ==> db.sessions[s].agentId < |db.agents|
  }

  ghost predicate Conserved(db: Db) {
    forall org :: AuditedCapital(db.audits, org) == ExecutedSpend(db.agents, db.sessions, org)
  }

  ghost predicate Balanced(db: Db) {
    SettledOnce(db) && TotalsExact(db) && AgentsKnown(db) && Conserved(db)
  }

  /** Agents keep their organisations; rows may be added. */
  ghost predicate OrgsKept(agents: seq<Agent>, after: seq<Agent>) {
    |agents| <= |after| && forall a :: 0 <= a < |agents| ==> after[a].org == agents[a].org
  }

  // ---- steps that settle nothing ----

  /** One audit event without capital at most, and no action becomes or stops being completed. */
  ghost predicate SettlesNothing(db: Db, after: Db) {
    && OrgsKept(db.agents, after.agents)
    && |db.actions| <= |after.actions| && |db.sessions| <= |after.sessions| == |after.actions|
    && (forall s :: 0 <= s < |db.actions| ==> after.actions[s].amount == db.actions[s].amount)
    && (forall s :: 0 <= s < |db.actions| ==> (after.actions[s].status == Completed <==> db.actions[s].status == Completed))
    && (forall s :: 0 <= s < |db.sessions| ==> after.sessions[s].agentId == db.sessions[s].agentId && after.sessions[s].total == db.sessions[s].total)
    && (forall s :: |db.sessions| <= s < |after.sessions| ==> after.sessions[s].total == 0 && after.actions[s].status == Queued)
  }

  ghost predicate NoCapital(db: Db, after: Db) {
    after.audits == db.audits
    || (|after.audits| == |db.audits| + 1 && after.audits[..|db.audits|] == db.audits
        && after.audits[|db.audits|].capital == 0 && after.audits[|db.audits|].kind != ExecutionSettled)
  }

  lemma {:induction false} QuietKeepsBalance(db: Db, after: Db)
    requires Balanced(db) && SettlesNothing(db, after) && NoCapital(db, after) && AgentsKnown(after)
    ensures Balanced(after)
  {
    forall s: nat ensures SettlementsOf(after.audits, s) == if s < |after.actions| && after.actions[s].status == Completed then 1 else 0 {
      assert SettlementsOf(after.audits, s) == SettlementsOf(db.audits, s);
    }
    forall org ensures AuditedCapital(after.audits, org) == ExecutedSpend(after.agents, after.sessions, org) {
      assert AuditedCapital(after.audits, org) == AuditedCapital(db.audits, org);
      QuietSpend(db, after, org);
    }
  }

  lemma {:induction false} QuietSpend(db: Db, after: Db, org: Text)
    requires TotalsExact(db) && AgentsKnown(db) && SettlesNothing(db, after)
    ensures ExecutedSpend(after.agents, after.sessions, org) == ExecutedSpend(db.agents, db.sessions, org)
  {
    var n := |db.sessions|;
    forall s | 0 <= s < n
      ensures Contribution(db.agents, db.sessions[s], org) == Contribution(after.agents, after.sessions[..n][s], org)
    {
      assert db.sessions[s].total != 0 ==> db.sessions[s].agentId < |db.agents|;
    }
    SameSpend(db.agents, db.sessions, after.agents, after.sessions[..n], org);
    NothingAdded(after.agents, after.sessions, n, org);
  }

  lemma {:induction false} NothingAdded(agents: seq<Agent>, sessions: seq<Session>, n: nat, org: Text)
    requires n <= |sessions| && forall s :: n <= s < |sessions| ==> sessions[s].total == 0
    ensures ExecutedSpend(agents, sessions, org) == ExecutedSpend(agents, sessions[..n], org)
  {
    if n < |sessions| {
      NothingAdded(agents, sessions[..|sessions| - 1], n, org);
      assert sessions[..|sessions| - 1][..n] == sessions[..n];
    } else {
      assert sessions[..n] == sessions;
    }
  }

  // ---- a settlement ----

  /** What a settlement of action `s` does to the tables the sums are taken over. */
  ghost predicate SettlesOne(db: Db, after: Db, s: nat) {
    && s < |db.sessions| == |db.actions| && db.actions[s].status == Executing && db.sessions[s].agentId < |db.agents|
    && after.sessions == db.sessions[s := db.sessions[s].(status := Completed, total := db.actions[s].amount)]
    && after.actions == db.actions[s := db.actions[s].(status := Completed)]
    && |after.agents| == |db.agents| && OrgsKept(db.agents, after.agents)
    && |after.audits| == |db.audits| + 1 && after.audits[..|db.audits|] == db.audits
    && var e := after.audits[|db.audits|];
    && e.kind == ExecutionSettled && e.sessionId == s && e.capital == db.actions[s].amount
    && e.org == db.agents[db.sessions[s].agentId].org
  }

  lemma {:induction false} SettledOnceKept(db: Db, after: Db, s: nat)
    requires SettledOnce(db) && SettlesOne(db, after, s)
    ensures SettledOnce(after)
  {
    forall t: nat ensures SettlementsOf(after.audits, t) == if t < |after.actions| && after.actions[t].status == Completed then 1 else 0 {
      assert SettlementsOf(after.audits, t) == SettlementsOf(db.audits, t) + if t == s then 1 else 0;
    }
  }

  lemma {:induction false} TotalsKept(db: Db, after: Db, s: nat)
    requires TotalsExact(db) && SettlesOne(db, after, s)
    ensures TotalsExact(after)
  {
  }

  lemma {:induction false} KnownKept(db: Db, after: Db, s: nat)
    requires AgentsKnown(db) && SettlesOne(db, after, s)
    ensures AgentsKnown(after)
  {
  }

  lemma {:induction false} CapitalConserved(db: Db, after: Db, s: nat, org: Text)
    requires TotalsExact(db) && SettlesOne(db, after, s)
    requires AuditedCapital(db.audits, org) == ExecutedSpend(db.agents, db.sessions, org)
    ensures AuditedCapital(after.audits, org) == ExecutedSpend(after.agents, after.sessions, org)
  {
    SpendChanges(db.agents, db.sessions, s, after.sessions[s], org);
    SameSpend(db.agents, after.sessions, after.agents, after.sessions, org);
  }

  lemma {:induction false} SettlementBalances(db: Db, after: Db, s: nat)
    requires Balanced(db) && SettlesOne(db, after, s)
    ensures Balanced(after)
  {
    SettledOnceKept(db, after, s);
    TotalsKept(db, after, s);
    KnownKept(db, after, s);
    forall org ensures AuditedCapital(after.audits, org) == ExecutedSpend(after.agents, after.sessions, org) {
      CapitalConserved(db, after, s, org);
    }
  }

  /** A settlement of an executing action does just that. */
  lemma {:induction false} SettledRow(db: Db, s: nat, agent: Agent, now: nat)
    requires Linked(db) && s < |db.sessions| && db.actions[s].status == Executing
    requires db.sessions[s].agentId < |db.agents| && agent.org == db.agents[db.sessions[s].agentId].org
    ensures Deliverable(db, Message(s, s)) && SettlesOne(db, SettledDb(db, Message(s, s), agent, now), s)
  {
    assert db.sessions[s].actionIds == [s] && s in [s];
    OneSettled(db.actions[s := db.actions[s].(status := Completed)], s);
  }

  // ---- every step ----

  lemma {:induction false} ReconcileBalanced(sys: System, m: Message, r: Readings)
    requires Sound(sys) && Balanced(sys.db)
    ensures Balanced(Reconcile(sys.db, m, r).0)
  {
    var db := sys.db;
    var (after, outcome) := Reconcile(db, m, r);
    if outcome == Settled || outcome == BlockedOverBudget {
      assert db.sessions[m.sessionId].actionIds == [m.sessionId] && m == Message(m.sessionId, m.sessionId);
      if outcome == Settled {
        SettledRow(db, m.sessionId, after.agents[db.sessions[m.sessionId].agentId], r.now);
        SettlementBalances(db, after, m.sessionId);
      } else {
        QuietKeepsBalance(db, after);
      }
    }
  }

  lemma {:induction false} DecideBalanced(sys: System, id: nat, approved: bool, check: nat)
    requires Sound(sys) && Balanced(sys.db)
    ensures Balanced(Decide(sys.db, id, approved, check))
  {
    if id < |sys.db.workflows| && sys.db.workflows[id].state != Pending {
      ClosedUnchanged(sys, id, approved, check);
    } else if id < |sys.db.workflows| {
      assert WorkflowLinked(sys.db, id);
      assert CoupledWith(sys.db, sys.db.workflows[id].sessionId, Some(Pending));
      QuietKeepsBalance(sys.db, Decide(sys.db, id, approved, check));
    }
  }

  lemma {:induction false} EvaluateKeepsOrgs(agents: seq<Agent>, policies: seq<Policy>, request: Request, first: nat, second: nat)
    ensures OrgsKept(agents, Evaluate(agents, policies, request, first, second).1)
  {
  }

  /** Session and action `s` get a status that is not completed. */
  lemma {:induction false} StatusQuiet(db: Db, after: Db, s: nat)
    requires Linked(db) && s < |db.sessions| && db.actions[s].status == Queued && OrgsKept(db.agents, after.agents)
    requires exists status :: after.sessions == db.sessions[s := db.sessions[s].(status := status)]
    requires exists status :: status != Completed && after.actions == db.actions[s := db.actions[s].(status := status)]
    ensures SettlesNothing(db, after)
  {
  }

  lemma {:induction false} FinishQuiet(sys: System, s: nat, first: nat, second: nat, third: nat)
    requires Sound(sys) && s in sys.open && s < |sys.db.sessions| && s < |sys.db.actions|
    ensures SettlesNothing(sys.db, Finish(sys.db, sys.open[s], s, s, first, second, third))
  {
    var db, after := sys.db, Finish(sys.db, sys.open[s], s, s, first, second, third);
    EvaluateKeepsOrgs(db.agents, db.policies, sys.open[s], Day(first), Day(second));
    assert after.sessions == db.sessions[s := db.sessions[s].(status := after.sessions[s].status)];
    assert after.actions == db.actions[s := db.actions[s].(status := after.actions[s].status)];
    StatusQuiet(db, after, s);
  }

  lemma {:induction false} FinishNoCapital(sys: System, s: nat, first: nat, second: nat, third: nat)
    requires s in sys.open && s < |sys.db.sessions| && s < |sys.db.actions|
    ensures NoCapital(sys.db, Finish(sys.db, sys.open[s], s, s, first, second, third))
  {
  }

  lemma {:induction false} FinishKnown(sys: System, s: nat, first: nat, second: nat, third: nat)
    requires Sound(sys) && AgentsKnown(sys.db) && s in sys.open && s < |sys.db.sessions| && s < |sys.db.actions|
    ensures AgentsKnown(Finish(sys.db, sys.open[s], s, s, first, second, third))
  {
    var request := sys.open[s];
    assert request.agentId >= |sys.db.agents| ==>
      Evaluate(sys.db.agents, sys.db.policies, request, Day(first), Day(second)).0.action == Deny;
  }

  lemma {:induction false} FinishBalanced(sys: System, s: nat, first: nat, second: nat, third: nat)
    requires Sound(sys) && Balanced(sys.db) && s in sys.open && s < |sys.db.sessions| && s < |sys.db.actions|
    ensures Balanced(Finish(sys.db, sys.open[s], s, s, first, second, third))
  {
    FinishQuiet(sys, s, first, second, third);
    FinishNoCapital(sys, s, first, second, third);
    FinishKnown(sys, s, first, second, third);
    QuietKeepsBalance(sys.db, Finish(sys.db, sys.open[s], s, s, first, second, third));
  }

  lemma {:induction false} OtherStepBalanced(sys: System, step: Step)
    requires Sound(sys) && Balanced(sys.db) && Enabled(sys, step)
    requires !step.FinishRequest? && !step.SubmitDecision? && !step.Deliver?
    ensures Balanced(NextDb(sys, step))
  {
    QuietKeepsBalance(sys.db, NextDb(sys, step));
  }

  lemma {:induction false} NextBalanced(sys: System, step: Step)
    requires Sound(sys) && Balanced(sys.db)
    ensures Balanced(Next(sys, step).db)
  {
    if Enabled(sys, step) {
      match step
      case FinishRequest(s, first, second, third) => FinishBalanced(sys, s, first, second, third);
      case SubmitDecision(id, approved, check) => DecideBalanced(sys, id, approved, check);
      case Deliver(m, r) => ReconcileBalanced(sys, m, r);
      case _ => OtherStepBalanced(sys, step);
    }
  }

  /** After every run an action has one settlement event if it is completed and none otherwise, and every
      organisation's audited capital is the sum of what its agents' sessions executed. */
  lemma {:induction false} EveryRunBalanced(steps: seq<Step>)
    ensures Balanced(Run(steps).db)
  {
    if steps != [] {
      EveryRunBalanced(steps[..|steps| - 1]);
      EveryRunSound(steps[..|steps| - 1]);
      NextBalanced(Run(steps[..|steps| - 1]), steps[|steps| - 1]);
    }
  }
}
