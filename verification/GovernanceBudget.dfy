/** What is charged to an agent on one UTC day, over every run. */
module GovernanceBudget {
  import opened Options
  import opened CodeUnits
  import opened GovernanceEntities
  import opened GovernanceServices
  import opened GovernanceRuns

  // ---- one settlement ----

  /** `CanSpend` then `RecordSpend`, each free to find that the date has moved on. None when refused. */
  function Settle(a: Agent, amount: int, first: nat, second: nat, third: nat, fourth: nat): Option<Agent> {
    var checked := Reset(a, first, second);
    if WithinBudget(checked, amount) then Some(Charge(Reset(checked, third, fourth), amount)) else None
  }

  /** Midnight falls between the check and the charge. */
  predicate MidnightBetween(a: Agent, first: nat, second: nat, third: nat) {
    third > Reset(a, first, second).resetDay
  }

  /** Exactly when a settlement keeps the day's charges within the cap, whatever was spent before. */
  lemma {:induction false} SettleKeepsCapExactly(a: Agent, amount: int, first: nat, second: nat, third: nat, fourth: nat)
    requires Settle(a, amount, first, second, third, fourth).Some?
    ensures Settle(a, amount, first, second, third, fourth).value.spent <= a.cap <==>
      !MidnightBetween(a, first, second, third) || amount <= a.cap
  {
  }

  // ---- the charges of a run ----

  datatype Charging = Charging(agentId: nat, day: nat, amount: int)

  /** What a step charges, dated by the budget it is charged to. */
  function ChargeOf(sys: System, step: Step): Option<Charging> {
    if !Enabled(sys, step) || !step.Deliver? || Reconcile(sys.db, step.message, step.readings).1 != Settled then None
    else
      var id := sys.db.sessions[step.message.sessionId].agentId;
      Some(Charging(id, Next(sys, step).db.agents[id].resetDay, sys.db.actions[step.message.actionId].amount))
  }

  function Charged(steps: seq<Step>, agentId: nat, day: nat): int {
    if steps == [] then 0
    else
      var n := |steps| - 1;
      var charge := ChargeOf(Run(steps[..n]), steps[n]);
      Charged(steps[..n], agentId, day) + if charge.Some? && charge.value.agentId == agentId && charge.value.day == day then charge.value.amount else 0
  }

  // ---- SpentTodayUsd is what was charged today ----

  /** Budgets are never dated ahead of the clock. */
  ghost predicate DatesPast(sys: System) {
    forall a :: 0 <= a < |sys.db.agents| ==> sys.db.agents[a].resetDay <= Day(sys.clock)
  }

  ghost predicate SpentIsCharged(steps: seq<Step>, a: nat) {
    var agents := Run(steps).db.agents;
    if a < |agents| then
      agents[a].spent == Charged(steps, a, agents[a].resetDay) && forall d: nat :: d > agents[a].resetDay ==> Charged(steps, a, d) == 0
    else forall d: nat :: Charged(steps, a, d) == 0
  }

  lemma {:induction false} DaysInOrder(t: nat, u: nat)
    requires t <= u
    ensures Day(t) <= Day(u)
  {
  }

  /** How a step may move agent `a`: not at all in its budget, through a reset, or through one settlement. */
  ghost predicate Moves(sys: System, step: Step, a: nat)
    requires a < |sys.db.agents|
  {
    var after, charge := Next(sys, step).db.agents, ChargeOf(sys, step);
    && a < |after| && after[a].cap == sys.db.agents[a].cap
    && if charge.Some? && charge.value.agentId == a then Settles(sys, step, a, after[a]) else Rests(sys, step, sys.db.agents[a], after[a])
  }

  ghost predicate Settles(sys: System, step: Step, a: nat, after: Agent)
    requires a < |sys.db.agents|
  {
    && step.Deliver? && Enabled(sys, step) && step.message.actionId < |sys.db.actions|
    && var r := step.readings;
    && Settle(sys.db.agents[a], sys.db.actions[step.message.actionId].amount, Day(r.first), Day(r.second), Day(r.third), Day(r.fourth)) == Some(after)
  }

  ghost predicate Rests(sys: System, step: Step, before: Agent, after: Agent) {
    || (after.spent == before.spent && after.resetDay == before.resetDay)
    || (after.spent == 0 && before.resetDay < after.resetDay <= Day(NextClock(sys, step)))
  }

  lemma {:induction false} FinishMoves(sys: System, s: nat, first: nat, second: nat, third: nat, a: nat)
    requires Enabled(sys, FinishRequest(s, first, second, third)) && a < |sys.db.agents|
    ensures Moves(sys, FinishRequest(s, first, second, third), a)
  {
    DaysInOrder(first, second);
    DaysInOrder(second, third);
  }

  lemma {:induction false} DeliverMoves(sys: System, m: Message, r: Readings, a: nat)
    requires Enabled(sys, Deliver(m, r)) && a < |sys.db.agents|
    ensures Moves(sys, Deliver(m, r), a)
  {
    DaysInOrder(r.first, r.second);
    DaysInOrder(r.second, r.fourth);
  }

  lemma {:induction false} EveryStepMoves(sys: System, step: Step, a: nat)
    requires a < |sys.db.agents|
    ensures Moves(sys, step, a)
  {
    match step
    case FinishRequest(s, first, second, third) => if Enabled(sys, step) { FinishMoves(sys, s, first, second, third, a); }
    case Deliver(m, r) => if Enabled(sys, step) { DeliverMoves(sys, m, r, a); }
    case _ =>
  }

  lemma {:induction false} NextDatesPast(sys: System, step: Step)
    requires DatesPast(sys)
    ensures DatesPast(Next(sys, step))
  {
    if Enabled(sys, step) {
      var after := Next(sys, step).db.agents;
      assert sys.clock <= NextClock(sys, step);
      DaysInOrder(sys.clock, NextClock(sys, step));
      forall a | 0 <= a < |after| ensures after[a].resetDay <= Day(NextClock(sys, step)) {
        if a < |sys.db.agents| {
          EveryStepMoves(sys, step, a);
          if step.Deliver? { SettleDates(sys, step, a); }
        }
      }
    }
  }

  lemma {:induction false} SettleDates(sys: System, step: Step, a: nat)
    requires Enabled(sys, step) && step.Deliver? && a < |sys.db.agents|
    ensures Day(step.readings.second) <= Day(step.readings.fourth) && Day(step.readings.first) <= Day(step.readings.fourth)
    ensures Day(sys.clock) <= Day(step.readings.first) <= Day(step.readings.second) <= Day(step.readings.third) <= Day(step.readings.fourth)
  {
  }

  lemma {:induction false} EveryRunDatesPast(steps: seq<Step>)
    ensures DatesPast(Run(steps))
  {
    if steps != [] {
      EveryRunDatesPast(steps[..|steps| - 1]);
      NextDatesPast(Run(steps[..|steps| - 1]), steps[|steps| - 1]);
    }
  }

  /** A charge is dated by the clock reading `RecordSpend` took last: the second if midnight passed since the
      check, else the first. */
  lemma {:induction false} ChargedOnItsDay(steps: seq<Step>, step: Step)
    requires ChargeOf(Run(steps), step).Some?
    ensures var charge, r := ChargeOf(Run(steps), step).value, step.readings;
      && charge.agentId < |Run(steps).db.agents|
      && charge.day ==
        if MidnightBetween(Run(steps).db.agents[charge.agentId], Day(r.first), Day(r.second), Day(r.third)) then Day(r.fourth)
        else Day(r.third)
  {
    var sys := Run(steps);
    var a := ChargeOf(sys, step).value.agentId;
    EveryRunDatesPast(steps);
    EveryStepMoves(sys, step, a);
    SettleDates(sys, step, a);
  }

  lemma {:induction false} ChargedStep(steps: seq<Step>, a: nat, day: nat)
    requires steps != []
    ensures var n := |steps| - 1;
      var charge := ChargeOf(Run(steps[..n]), steps[n]);
      Charged(steps, a, day) == Charged(steps[..n], a, day)
        + if charge.Some? && charge.value.agentId == a && charge.value.day == day then charge.value.amount else 0
  {
  }

  /** In every run, whatever the amounts, SpentTodayUsd is the sum of the charges on BudgetResetDateUtc. */
  lemma {:induction false} SpentTodayExact(steps: seq<Step>, a: nat)
    ensures SpentIsCharged(steps, a)
  {
    if steps != [] {
      var n := |steps| - 1;
      var sys, step := Run(steps[..n]), steps[n];
      SpentTodayExact(steps[..n], a);
      forall d: nat ensures Charged(steps, a, d) == Charged(steps[..n], a, d)
        + (var charge := ChargeOf(sys, step); if charge.Some? && charge.value.agentId == a && charge.value.day == d then charge.value.amount else 0)
      {
        ChargedStep(steps, a, d);
      }
      if a < |sys.db.agents| {
        EveryStepMoves(sys, step, a);
      } else {
        NewcomerUncharged(sys, step, a);
      }
    }
  }

  lemma {:induction false} NewcomerUncharged(sys: System, step: Step, a: nat)
    requires a >= |sys.db.agents|
    ensures ChargeOf(sys, step).Some? ==> ChargeOf(sys, step).value.agentId != a
    ensures a < |Next(sys, step).db.agents| ==> Next(sys, step).db.agents[a].spent == 0
  {
  }

  // ---- the cap ----

  /** No request asks for a negative amount. */
  ghost predicate NonNegative(steps: seq<Step>) {
    forall i :: 0 <= i < |steps| && steps[i].BeginRequest? ==> steps[i].request.amount >= 0
  }

  ghost predicate AmountsNonNegative(db: Db) {
    forall s :: 0 <= s < |db.actions| ==> db.actions[s].amount >= 0
  }

  lemma {:induction false} EveryRunNonNegative(steps: seq<Step>)
    requires NonNegative(steps)
    ensures AmountsNonNegative(Run(steps).db)
  {
    if steps != [] {
      var n := |steps| - 1;
      EveryRunNonNegative(steps[..n]);
      NextNonNegative(Run(steps[..n]), steps[n]);
    }
  }

  lemma {:induction false} NextNonNegative(sys: System, step: Step)
    requires AmountsNonNegative(sys.db) && (step.BeginRequest? ==> step.request.amount >= 0)
    ensures AmountsNonNegative(Next(sys, step).db)
  {
    var next := Next(sys, step);
    assert |next.db.actions| > |sys.db.actions| ==> step.BeginRequest?;
    assert forall s :: 0 <= s < |sys.db.actions| ==> next.db.actions[s].amount == sys.db.actions[s].amount;
  }

  ghost predicate CapKept(steps: seq<Step>, a: nat) {
    var agents := Run(steps).db.agents;
    && (a < |agents| ==> 0 <= agents[a].spent <= agents[a].cap)
    && (a < |agents| ==> forall d: nat :: Charged(steps, a, d) <= agents[a].cap)
  }

  /** Daily budget: with no negative amounts, under any interleaving of requests, approvals, suspensions and
      deliveries, and wherever midnight falls, what is charged to an agent on one day stays within its cap. */
  lemma {:induction false} DailyBudgetKept(steps: seq<Step>, a: nat)
    requires NonNegative(steps)
    ensures CapKept(steps, a)
  {
    if steps != [] {
      var n := |steps| - 1;
      var sys, step := Run(steps[..n]), steps[n];
      DailyBudgetKept(steps[..n], a);
      SpentTodayExact(steps[..n], a);
      EveryRunNonNegative(steps[..n]);
      if a < |sys.db.agents| {
        BudgetStep(steps, a);
      } else {
        NewcomerWithinCap(steps, a);
      }
    }
  }

  lemma {:induction false} NewcomerWithinCap(steps: seq<Step>, a: nat)
    requires steps != [] && SpentIsCharged(steps[..|steps| - 1], a) && a >= |Run(steps[..|steps| - 1]).db.agents|
    ensures CapKept(steps, a)
  {
    var n := |steps| - 1;
    NewcomerUncharged(Run(steps[..n]), steps[n], a);
    forall d: nat ensures Charged(steps, a, d) == 0 {
      ChargedStep(steps, a, d);
    }
  }

  lemma {:induction false} BudgetStep(steps: seq<Step>, a: nat)
    requires steps != []
    requires var before := steps[..|steps| - 1];
      a < |Run(before).db.agents| && CapKept(before, a) && SpentIsCharged(before, a) && AmountsNonNegative(Run(before).db)
    ensures CapKept(steps, a)
  {
    var n := |steps| - 1;
    var sys, step := Run(steps[..n]), steps[n];
    EveryStepMoves(sys, step, a);
    forall d: nat ensures Charged(steps, a, d) <= sys.db.agents[a].cap {
      ChargedStep(steps, a, d);
    }
  }

  // ---- the cap when amounts may be negative ----

  ghost predicate WithinCaps(sys: System) {
    forall a :: 0 <= a < |sys.db.agents| ==> sys.db.agents[a].spent <= sys.db.agents[a].cap
  }

  ghost predicate CapsNonNegative(sys: System) {
    forall a :: 0 <= a < |sys.db.agents| ==> sys.db.agents[a].cap >= 0
  }

  /** The step charges nothing, or no midnight falls between its check and its charge, or the amount alone fits the cap. */
  ghost predicate SafeCharge(sys: System, step: Step) {
    var charge := ChargeOf(sys, step);
    charge.Some? && charge.value.agentId < |sys.db.agents| ==>
      var a, r := sys.db.agents[charge.value.agentId], step.readings;
      !MidnightBetween(a, Day(r.first), Day(r.second), Day(r.third)) || charge.value.amount <= a.cap
  }

  lemma {:induction false} NextCapsNonNegative(sys: System, step: Step)
    requires CapsNonNegative(sys)
    ensures CapsNonNegative(Next(sys, step))
  {
    forall a | 0 <= a < |Next(sys, step).db.agents| ensures Next(sys, step).db.agents[a].cap >= 0 {
      if a < |sys.db.agents| { EveryStepMoves(sys, step, a); }
    }
  }

  lemma {:induction false} EveryRunCapsNonNegative(steps: seq<Step>)
    ensures CapsNonNegative(Run(steps))
  {
    if steps != [] {
      EveryRunCapsNonNegative(steps[..|steps| - 1]);
      NextCapsNonNegative(Run(steps[..|steps| - 1]), steps[|steps| - 1]);
    }
  }

  lemma {:induction false} AgentStaysWithinCapExactly(sys: System, step: Step, a: nat)
    requires CapsNonNegative(sys) && WithinCaps(sys) && a < |sys.db.agents|
    ensures a < |Next(sys, step).db.agents|
    ensures Next(sys, step).db.agents[a].spent <= Next(sys, step).db.agents[a].cap <==>
      (ChargeOf(sys, step).Some? && ChargeOf(sys, step).value.agentId == a ==> SafeCharge(sys, step))
  {
    EveryStepMoves(sys, step, a);
    var charge := ChargeOf(sys, step);
    if charge.Some? && charge.value.agentId == a {
      var r := step.readings;
      SettleKeepsCapExactly(sys.db.agents[a], charge.value.amount, Day(r.first), Day(r.second), Day(r.third), Day(r.fourth));
    }
  }

  lemma {:induction false} StepWithinCapsExactly(sys: System, step: Step)
    requires CapsNonNegative(sys) && WithinCaps(sys)
    ensures WithinCaps(Next(sys, step)) <==> SafeCharge(sys, step)
  {
    var next, charge := Next(sys, step), ChargeOf(sys, step);
    forall a: nat | a < |sys.db.agents|
      ensures a < |next.db.agents|
      ensures next.db.agents[a].spent <= next.db.agents[a].cap <==> (charge.Some? && charge.value.agentId == a ==> SafeCharge(sys, step))
    {
      AgentStaysWithinCapExactly(sys, step, a);
    }
    forall a: nat | |sys.db.agents| <= a < |next.db.agents| ensures next.db.agents[a].spent <= next.db.agents[a].cap {
      NewcomerUncharged(sys, step, a);
      NextCapsNonNegative(sys, step);
    }
    assert charge.Some? ==> charge.value.agentId < |sys.db.agents|;
  }

  /** Spending was within every cap after each step of the run. */
  ghost predicate AlwaysWithinCaps(steps: seq<Step>) {
    WithinCaps(Run(steps)) && (steps != [] ==> AlwaysWithinCaps(steps[..|steps| - 1]))
  }

  ghost predicate AlwaysSafeCharges(steps: seq<Step>) {
    steps != [] ==> SafeCharge(Run(steps[..|steps| - 1]), steps[|steps| - 1]) && AlwaysSafeCharges(steps[..|steps| - 1])
  }

  /** Over every run, with any amounts at all: no agent's spending ever passes its cap if and only if no
      settlement charges more than the cap across a midnight. */
  lemma {:induction false} CapsKeptExactly(steps: seq<Step>)
    ensures AlwaysWithinCaps(steps) <==> AlwaysSafeCharges(steps)
  {
    if steps != [] {
      var n := |steps| - 1;
      CapsKeptExactly(steps[..n]);
      EveryRunCapsNonNegative(steps[..n]);
      if WithinCaps(Run(steps[..n])) { StepWithinCapsExactly(Run(steps[..n]), steps[n]); }
    }
  }

  // ---- a concrete run that breaks the cap ----

  const ORG: Text := Ascii("org")
  const TOOL: Text := Ascii("transfer")
  const PERMISSION: Permission := Permission(TOOL, 200, 0, true)
  const POLICY: Policy := Policy(ORG, ORG, 0, 200, false, true)
  const EVENING: nat := 7 * TICKS_PER_DAY
  const MIDNIGHT: nat := 8 * TICKS_PER_DAY

  /** An agent with 100 to spend each day, a grant and a policy. */
  const SETUP: seq<Step> := [RegisterAgent(ORG, 100, EVENING)] + [GrantTool(0, TOOL, 200, 0)] + [CreatePolicy(ORG, ORG, 0, 200, false)]

  function Asking(amount: int): Step {
    BeginRequest(Request(0, TOOL, amount, 0))
  }

  function Answering(n: nat): Step {
    FinishRequest(n, EVENING, EVENING, EVENING)
  }

  /** Checked in the evening, charged at `charged`. */
  function Delivery(n: nat, charged: nat): Step {
    Deliver(Message(n, n), Readings(EVENING, EVENING, EVENING, charged, charged))
  }

  /** A refund of 50, then 120 charged on the next day. */
  const REFUND: seq<Step> := SETUP + [Asking(-50)] + [Answering(0)] + [Delivery(0, EVENING)]
  const REFUND_THEN_SPEND: seq<Step> := REFUND + [Asking(120)] + [Answering(1)] + [Delivery(1, MIDNIGHT)]

  /** `n` requests so far, `spent` on the day. */
  ghost predicate Ready(sys: System, n: nat, spent: int) {
    && sys.db.agents == [Agent(ORG, Active, 100, spent, 7, [PERMISSION])] && sys.db.policies == [POLICY]
    && |sys.db.sessions| == |sys.db.actions| == n && sys.clock == EVENING
  }

  /** Another request stands in status `session` and its action in `action`. */
  ghost predicate Standing(sys: System, n: nat, spent: int, amount: int, session: ExecutionStatus, action: ExecutionStatus) {
    && sys.db.agents == [Agent(ORG, Active, 100, spent, 7, [PERMISSION])] && sys.db.policies == [POLICY]
    && |sys.db.sessions| == |sys.db.actions| == n + 1 && sys.clock == EVENING
    && sys.db.sessions[n] == Session(0, session, 0, [n]) && sys.db.actions[n] == Action(n, TOOL, amount, 0, action)
  }

  lemma {:induction false} RunNext(steps: seq<Step>, step: Step)
    ensures Run(steps + [step]) == Next(Run(steps), step)
  {
    assert (steps + [step])[..|steps|] == steps;
  }

  lemma {:induction false} RegisterRuns()
    ensures var sys := Run([RegisterAgent(ORG, 100, EVENING)]);
      sys.db == INITIAL.db.(agents := [Agent(ORG, Active, 100, 0, 7, [])]) && sys.clock == EVENING
  {
    RunNext([], RegisterAgent(ORG, 100, EVENING));
    assert [] + [RegisterAgent(ORG, 100, EVENING)] == [RegisterAgent(ORG, 100, EVENING)];
    assert Run([]) == INITIAL && Day(EVENING) == 7;
  }

  lemma {:induction false} GrantRuns()
    ensures var sys := Run([RegisterAgent(ORG, 100, EVENING)] + [GrantTool(0, TOOL, 200, 0)]);
      sys.db == INITIAL.db.(agents := [Agent(ORG, Active, 100, 0, 7, [PERMISSION])]) && sys.clock == EVENING
  {
    RegisterRuns();
    RunNext([RegisterAgent(ORG, 100, EVENING)], GrantTool(0, TOOL, 200, 0));
    assert Grant([], TOOL, 200, 0) == [PERMISSION];
  }

  lemma {:induction false} SetupReady()
    ensures Ready(Run(SETUP), 0, 0)
  {
    GrantRuns();
    RunNext([RegisterAgent(ORG, 100, EVENING)] + [GrantTool(0, TOOL, 200, 0)], CreatePolicy(ORG, ORG, 0, 200, false));
  }

  lemma {:induction false} AskingRuns(steps: seq<Step>, n: nat, spent: int, amount: int)
    requires Ready(Run(steps), n, spent)
    ensures var sys := Run(steps + [Asking(amount)]);
      Standing(sys, n, spent, amount, EvaluatingPolicy, Queued) && n in sys.open && sys.open[n] == Request(0, TOOL, amount, 0)
  {
    RunNext(steps, Asking(amount));
    var next := Run(steps + [Asking(amount)]);
    assert next.db.sessions[n] == Session(0, EvaluatingPolicy, 0, [n]);
    assert next.open == Run(steps).open[n := Request(0, TOOL, amount, 0)];
  }

  lemma {:induction false} Allowed(spent: int, amount: int)
    requires spent + amount <= 100 && amount <= 200
    ensures var agents := [Agent(ORG, Active, 100, spent, 7, [PERMISSION])];
      Evaluate(agents, [POLICY], Request(0, TOOL, amount, 0), 7, 7) == (Evaluation(Allow, ORG), agents)
  {
    var a, request := Agent(ORG, Active, 100, spent, 7, [PERMISSION]), Request(0, TOOL, amount, 0);
    assert FindPermission([PERMISSION], TOOL) == Some(PERMISSION);
    assert Refusal(a, request).None?;
    assert NewestPolicy([POLICY], ORG) == Some(POLICY);
    assert EvaluateBudget([POLICY], a, request) == Evaluation(Allow, ORG);
    assert [a][0 := a] == [a];
  }

  lemma {:induction false} AnsweringRuns(steps: seq<Step>, n: nat, spent: int, amount: int)
    requires Standing(Run(steps), n, spent, amount, EvaluatingPolicy, Queued) && n in Run(steps).open
    requires Run(steps).open[n] == Request(0, TOOL, amount, 0) && spent + amount <= 100 && amount <= 200
    ensures Standing(Run(steps + [Answering(n)]), n, spent, amount, Executing, Executing)
  {
    RunNext(steps, Answering(n));
    assert Day(EVENING) == 7;
    Allowed(spent, amount);
  }

  lemma {:induction false} DeliveryRuns(steps: seq<Step>, n: nat, spent: int, amount: int, charged: nat)
    requires Standing(Run(steps), n, spent, amount, Executing, Executing) && spent + amount <= 100 && charged in {EVENING, MIDNIGHT}
    ensures var after := Run(steps + [Delivery(n, charged)]);
      if charged == EVENING then Ready(after, n + 1, spent + amount)
      else |after.db.agents| == 1 && after.db.agents[0].spent == amount && after.db.agents[0].cap == 100
  {
    RunNext(steps, Delivery(n, charged));
    assert Day(EVENING) == 7 && Day(MIDNIGHT) == 8;
    assert n in [n] && Deliverable(Run(steps).db, Message(n, n));
  }

  lemma {:induction false} RefundReady()
    ensures Ready(Run(REFUND), 1, -50)
  {
    SetupReady();
    AskingRuns(SETUP, 0, 0, -50);
    AnsweringRuns(SETUP + [Asking(-50)], 0, 0, -50);
    DeliveryRuns(SETUP + [Asking(-50)] + [Answering(0)], 0, 0, -50, EVENING);
  }

  /** A negative amount is accepted everywhere, and then midnight breaks the cap: after a refund of 50, 120 fits the
      100 of the evening it is checked on, and is charged whole to the day that follows. */
  lemma {:induction false} RefundBreaksCap()
    ensures !AlwaysWithinCaps(REFUND_THEN_SPEND)
  {
    RefundReady();
    AskingRuns(REFUND, 1, -50, 120);
    AnsweringRuns(REFUND + [Asking(120)], 1, -50, 120);
    DeliveryRuns(REFUND + [Asking(120)] + [Answering(1)], 1, -50, 120, MIDNIGHT);
    assert !WithinCaps(Run(REFUND_THEN_SPEND));
  }
}
