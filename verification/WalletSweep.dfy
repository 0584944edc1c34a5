/** Revoking an agent and sweeping its wallets back to the treasury. Amounts are in millionths of a USDC. */
module WalletSweep {
  import opened Options
  import opened CodeUnits

  // ---- amounts and their text ----

  const MICROS: nat := 1_000_000

  function SweepAmount(balance: int, gasNeeded: int): (amount: nat)
  {
    if balance - gasNeeded > 0 then balance - gasNeeded else 0
  }

  /** What stays behind is the smaller of balance and reserve: the sweep never overdraws and never leaves more. */
  lemma {:induction false} SweepLeavesSmaller(balance: nat, gasNeeded: nat)
    ensures balance - SweepAmount(balance, gasNeeded) == if balance <= gasNeeded then balance else gasNeeded
  {
  }

  function PadStart(t: Text, width: nat): Text
    decreases width - |t|
  {
    if |t| >= width then t else PadStart([48] + t, width)
  }

  function FormatUsdc(micros: nat): Text {
    Decimal(micros / MICROS) + [46] + PadStart(Decimal(micros % MICROS), 6)
  }

  /** A decimal numeral with six places, with or without a minus sign, as a number of micros. */
  function ReadUsdc(t: Text): Option<int> {
    if |t| > 0 && t[0] == 45 then
      var size := ReadUnsigned(t[1..]);
      if size.Some? then Some(-size.value) else None
    else ReadUnsigned(t)
  }

  function ReadUnsigned(t: Text): Option<int> {
    var point := |t| - 7;
    if point >= 1 && t[point] == 46 && AllDigits(t[..point]) && AllDigits(t[point + 1..]) then
      Some(DecimalValue(t[..point]) * MICROS + DecimalValue(t[point + 1..]))
    else None
  }

  lemma {:induction false} LeadingZero(t: Text)
    requires AllDigits(t)
    ensures AllDigits([48] + t) && DecimalValue([48] + t) == DecimalValue(t)
  {
    if t != [] {
      var n := |t| - 1;
      LeadingZero(t[..n]);
      assert ([48] + t)[..n + 1] == [48] + t[..n];
    } else {
      assert [48] + t == [48] && ([48] + t)[..0] == [];
    }
  }

  lemma {:induction false} PadKeepsValue(t: Text, width: nat)
    requires AllDigits(t) && |t| <= width
    ensures AllDigits(PadStart(t, width)) && |PadStart(t, width)| == width && DecimalValue(PadStart(t, width)) == DecimalValue(t)
    decreases width - |t|
  {
    if |t| < width {
      LeadingZero(t);
      PadKeepsValue([48] + t, width);
    }
  }

  function Power10(k: nat): nat {
    if k == 0 then 1 else 10 * Power10(k - 1)
  }

  lemma {:induction false} DecimalFits(n: nat, k: nat)
    requires k >= 1 && n < Power10(k)
    ensures |Decimal(n)| <= k
  {
    if n >= 10 { DecimalFits(n / 10, k - 1); }
  }

  /** Read back as six-place fixed point, the text is exactly the micros. */
  lemma {:induction false} UsdcReadsBack(micros: nat)
    ensures ReadUsdc(FormatUsdc(micros)).Some? && ReadUsdc(FormatUsdc(micros)).value == micros
    ensures ReadUsdc([45] + FormatUsdc(micros)).Some? && ReadUsdc([45] + FormatUsdc(micros)).value == 0 - micros as int
  {
    var whole, part := Decimal(micros / MICROS), Decimal(micros % MICROS);
    assert Power10(6) == MICROS by { assert Power10(3) == 1000; }
    DecimalFits(micros % MICROS, 6);
    PadKeepsValue(part, 6);
    DecimalReadsBack(micros / MICROS);
    DecimalReadsBack(micros % MICROS);
    var t := FormatUsdc(micros);
    assert t[..|t| - 7] == whole && t[|t| - 7] == 46 && t[|t| - 6..] == PadStart(part, 6);
    assert IsDigit(t[0]);
    assert ([45] + t)[1..] == t;
  }

  // ---- the tables ----

  datatype WalletStatus = Active | Swept

  /** `balance` is on the chain; the rest is the row of `agent_chain_wallets`. */
  datatype Wallet = Wallet(agent: nat, mode: nat, chain: nat, status: WalletStatus, balance: nat)

  datatype JobStatus = Queued | Complete | FailedJob

  /** A sweep job; its metadata may name no agent. */
  datatype Job = Job(agent: Option<nat>, mode: nat, chain: Option<nat>, status: JobStatus)

  datatype Posting = Posting(wallet: nat, job: nat, amount: Text)

  /** What the audit writer hashes for a revocation. */
  datatype Revocation = Revocation(actor: nat, reason: Text, chains: seq<nat>)

  /** A transfer on the chain, and how many of the three writes that follow it succeeded. */
  datatype Payment = Payment(wallet: nat, amount: nat, writes: nat)

  /** Wallets, jobs by index; agents by id, with whether they are suspended. */
  datatype System = System(
    agents: map<nat, bool>, wallets: seq<Wallet>, jobs: seq<Job>, postings: seq<Posting>,
    revocations: map<nat, Revocation>, payments: seq<Payment>)

  predicate Holds(w: Wallet, agent: nat, mode: nat, chain: nat) {
    w.agent == agent && w.mode == mode && w.chain == chain
  }

  /** UNIQUE (agent_id, mode, chain). */
  ghost predicate UniqueWallets(wallets: seq<Wallet>) {
    forall i, j :: 0 <= i < j < |wallets| ==> !Holds(wallets[j], wallets[i].agent, wallets[i].mode, wallets[i].chain)
  }

  // ---- revocation ----

  predicate Listed(wallets: seq<Wallet>, agent: nat, mode: nat, chains: seq<nat>) {
    multiset(chains) == multiset(ActiveChains(wallets, agent, mode))
  }

  function ActiveChains(wallets: seq<Wallet>, agent: nat, mode: nat): seq<nat> {
    if wallets == [] then []
    else
      var n := |wallets| - 1;
      ActiveChains(wallets[..n], agent, mode)
        + if wallets[n].agent == agent && wallets[n].mode == mode && wallets[n].status == Active then [wallets[n].chain] else []
  }

  function SweepJobs(agent: nat, mode: nat, chains: seq<nat>): seq<Job> {
    seq(|chains|, i requires 0 <= i < |chains| => Job(Some(agent), mode, Some(chains[i]), Queued))
  }

  datatype RevokeResult = Revoked | AgentNotFound | IdempotencyConflict

  /** `chains` is what the query for the active wallets returned, in no particular order. */
  function Revoke(sys: System, actor: nat, agent: nat, mode: nat, reason: Text, chains: seq<nat>): (System, RevokeResult) {
    if agent !in sys.agents then (sys, AgentNotFound)
    else
      var body := Revocation(actor, reason, chains);
      if agent in sys.revocations && sys.revocations[agent] != body then (sys, IdempotencyConflict)
      else
        (sys.(agents := sys.agents[agent := true], jobs := sys.jobs + SweepJobs(agent, mode, chains),
              revocations := sys.revocations[agent := body]), Revoked)
  }

  // ---- a sweep job ----

  /** How the world answers one run of the job: `ready` unless a wallet is missing or the balance cannot be
      read, `transfers` unless the provider throws, then the number of later writes that succeed. */
  datatype World = World(ready: bool, transfers: bool, writes: nat)

  function FindWallet(wallets: seq<Wallet>, agent: nat, mode: nat, chain: nat): (found: Option<nat>)
    ensures found.Some? ==> found.value < |wallets|
    ensures found.Some? ==> wallets[found.value].status == Active && Holds(wallets[found.value], agent, mode, chain)
    ensures found.None? ==> forall w :: 0 <= w < |wallets| && wallets[w].status == Active ==> !Holds(wallets[w], agent, mode, chain)
  {
    if wallets == [] then None
    else
      var n := |wallets| - 1;
      if Holds(wallets[n], agent, mode, chain) && wallets[n].status == Active then Some(n)
      else FindWallet(wallets[..n], agent, mode, chain)
  }

  function WithJob(sys: System, job: nat, status: JobStatus): System
    requires job < |sys.jobs|
  {
    sys.(jobs := sys.jobs[job := sys.jobs[job].(status := status)])
  }

  /** The transfer, when there is anything to transfer. */
  function Transferred(sys: System, w: nat, amount: nat, writes: nat): System
    requires w < |sys.wallets| && amount <= sys.wallets[w].balance
  {
    if amount == 0 then sys
    else
      sys.(wallets := sys.wallets[w := sys.wallets[w].(balance := sys.wallets[w].balance - amount)],
           payments := sys.payments + [Payment(w, amount, writes)])
  }

  /** The writes after the transfer: the wallet, the job, the posting. One that fails stops the rest and fails
      the job. */
  function Written(sys: System, w: nat, job: nat, amount: nat, writes: nat): System
    requires w < |sys.wallets| && job < |sys.jobs|
  {
    var marked := if writes >= 1 then sys.(wallets := sys.wallets[w := sys.wallets[w].(status := Swept)]) else sys;
    if writes >= 3 then
      WithJob(marked, job, Complete).(postings := sys.postings + [Posting(w, job, [45] + FormatUsdc(amount))])
    else WithJob(marked, job, FailedJob)
  }

  function ProcessJob(sys: System, job: nat, gasNeeded: nat, world: World): System {
    if job >= |sys.jobs| then sys
    else
      var row := sys.jobs[job];
      if row.agent.None? || row.chain.None? then WithJob(sys, job, FailedJob)
      else
        var found := FindWallet(sys.wallets, row.agent.value, row.mode, row.chain.value);
        if found.None? || !world.ready then WithJob(sys, job, FailedJob)
        else
          var amount := SweepAmount(sys.wallets[found.value].balance, gasNeeded);
          if amount > 0 && !world.transfers then WithJob(sys, job, FailedJob)
          else Written(Transferred(sys, found.value, amount, world.writes), found.value, job, amount, world.writes)
  }

  // ---- the store ----

  class SweepStore {
    var agents: map<nat, bool>
    var wallets: seq<Wallet>
    var jobs: seq<Job>
    var postings: seq<Posting>
    var revocations: map<nat, Revocation>
    var payments: seq<Payment>

    constructor ()
      ensures Contents() == System(map[], [], [], [], map[], [])
    {
      agents, wallets, jobs, postings, revocations, payments := map[], [], [], [], map[], [];
    }

    function Contents(): System
      reads this
    {
      System(agents, wallets, jobs, postings, revocations, payments)
    }

    /** `chains`: the rows of the wallet query, in the order it returns them. */
    method RevokeAgent(actor: nat, agent: nat, mode: nat, reason: Text, chains: seq<nat>) returns (r: RevokeResult)
      requires Listed(wallets, agent, mode, chains)
      modifies this
      ensures (Contents(), r) == Revoke(old(Contents()), actor, agent, mode, reason, chains)
    {
      if agent !in agents { return AgentNotFound; }
      var agentsBefore, jobsBefore := agents, jobs;
      agents := agents[agent := true];
      for i := 0 to |chains|
        invariant jobs == jobsBefore + SweepJobs(agent, mode, chains[..i])
        invariant agents == agentsBefore[agent := true] && jobsBefore == old(jobs) && agentsBefore == old(agents)
        invariant wallets == old(wallets) && postings == old(postings) && revocations == old(revocations) && payments == old(payments)
      {
        jobs := jobs + [Job(Some(agent), mode, Some(chains[i]), Queued)];
        assert SweepJobs(agent, mode, chains[..i + 1]) == SweepJobs(agent, mode, chains[..i]) + [Job(Some(agent), mode, Some(chains[i]), Queued)];
      }
      assert chains[..|chains|] == chains;
      var body := Revocation(actor, reason, chains);
      if agent in revocations && revocations[agent] != body {
        agents, jobs := agentsBefore, jobsBefore;
        return IdempotencyConflict;
      }
      revocations := revocations[agent := body];
      r := Revoked;
    }

    method ProcessSweepJob(job: nat, gasNeeded: nat, world: World)
      modifies this
      ensures Contents() == ProcessJob(old(Contents()), job, gasNeeded, world)
    {
      if job >= |jobs| { return; }
      var row := jobs[job];
      var found := None;
      if row.agent.Some? && row.chain.Some? && world.ready {
        found := FindWallet(wallets, row.agent.value, row.mode, row.chain.value);
      }
      if found.None? {
        jobs := jobs[job := row.(status := FailedJob)];
        return;
      }
      var w := found.value;
      var amount := SweepAmount(wallets[w].balance, gasNeeded);
      if amount > 0 {
        if !world.transfers {
          jobs := jobs[job := row.(status := FailedJob)];
          return;
        }
        wallets := wallets[w := wallets[w].(balance := wallets[w].balance - amount)];
        payments := payments + [Payment(w, amount, world.writes)];
      }
      if world.writes >= 1 { wallets := wallets[w := wallets[w].(status := Swept)]; }
      if world.writes >= 2 { jobs := jobs[job := row.(status := Complete)]; }
      if world.writes >= 3 {
        postings := postings + [Posting(w, job, [45] + FormatUsdc(amount))];
      } else {
        jobs := jobs[job := row.(status := FailedJob)];
      }
    }
  }

  // ---- runs ----

  datatype Step =
    | RegisterStep(agent: nat)
    | ActivateStep(agent: nat)
    | ProvisionStep(agent: nat, mode: nat, chain: nat)
    /** Deposits and the agent's own payments. */
    | BalanceStep(wallet: nat, balance: nat)
    | RevokeStep(actor: nat, agent: nat, mode: nat, reason: Text, chains: seq<nat>)
    | SweepStep(job: nat, gasNeeded: nat, world: World)

  predicate Known(wallets: seq<Wallet>, agent: nat, mode: nat, chain: nat) {
    exists w :: 0 <= w < |wallets| && Holds(wallets[w], agent, mode, chain)
  }

  function Next(sys: System, step: Step): System {
    match step
    case RegisterStep(agent) => if agent in sys.agents then sys else sys.(agents := sys.agents[agent := false])
    case ActivateStep(agent) => if agent in sys.agents then sys.(agents := sys.agents[agent := false]) else sys
    case ProvisionStep(agent, mode, chain) =>
      if Known(sys.wallets, agent, mode, chain) then sys else sys.(wallets := sys.wallets + [Wallet(agent, mode, chain, Active, 0)])
    case BalanceStep(w, balance) =>
      if w < |sys.wallets| then sys.(wallets := sys.wallets[w := sys.wallets[w].(balance := balance)]) else sys
    case RevokeStep(actor, agent, mode, reason, chains) =>
      if Listed(sys.wallets, agent, mode, chains) then Revoke(sys, actor, agent, mode, reason, chains).0 else sys
    case SweepStep(job, gasNeeded, world) => ProcessJob(sys, job, gasNeeded, world)
  }

  function Run(steps: seq<Step>): System {
    if steps == [] then System(map[], [], [], [], map[], []) else Next(Run(steps[..|steps| - 1]), steps[|steps| - 1])
  }

  // ---- what is paid and what is posted ----

  function Received(payments: seq<Payment>): nat {
    if payments == [] then 0 else Received(payments[..|payments| - 1]) + payments[|payments| - 1].amount
  }

  /** Paid, but the posting was never written. */
  function Unposted(payments: seq<Payment>): nat {
    if payments == [] then 0
    else Unposted(payments[..|payments| - 1]) + if payments[|payments| - 1].writes < 3 then payments[|payments| - 1].amount else 0
  }

  /** The sum of the postings, read from their text. */
  function Posted(postings: seq<Posting>): int {
    if postings == [] then 0
    else
      var last := ReadUsdc(postings[|postings| - 1].amount);
      Posted(postings[..|postings| - 1]) + if last.Some? then last.value else 0
  }

  /** A wallet that has been marked as swept is paid from no more; only an unmarked sweep can be repeated. */
  ghost predicate PaidOnce(sys: System) {
    && (forall i :: 0 <= i < |sys.payments| ==> sys.payments[i].wallet < |sys.wallets|)
    && (forall i :: 0 <= i < |sys.payments| && sys.wallets[sys.payments[i].wallet].status == Active ==> sys.payments[i].writes == 0)
    && (forall i, j :: 0 <= i < j < |sys.payments| && sys.payments[i].wallet == sys.payments[j].wallet ==> sys.payments[i].writes == 0)
  }

  ghost predicate PostedOnce(sys: System) {
    && (forall i :: 0 <= i < |sys.postings| ==>
          sys.postings[i].wallet < |sys.wallets| && sys.wallets[sys.postings[i].wallet].status == Swept)
    && (forall i, j :: 0 <= i < j < |sys.postings| ==> sys.postings[i].wallet != sys.postings[j].wallet)
  }

  ghost predicate Conserved(sys: System) {
    Received(sys.payments) == Unposted(sys.payments) - Posted(sys.postings)
  }

  ghost predicate Sound(sys: System) {
    PaidOnce(sys) && PostedOnce(sys) && Conserved(sys)
  }

  lemma {:induction false} PaymentAppended(payments: seq<Payment>, p: Payment)
    ensures Received(payments + [p]) == Received(payments) + p.amount
    ensures Unposted(payments + [p]) == Unposted(payments) + if p.writes < 3 then p.amount else 0
  {
  }

  lemma {:induction false} PostingAppended(postings: seq<Posting>, w: nat, job: nat, amount: nat)
    ensures Posted(postings + [Posting(w, job, [45] + FormatUsdc(amount))]) == Posted(postings) - amount
  {
    var p := Posting(w, job, [45] + FormatUsdc(amount));
    assert (postings + [p])[..|postings|] == postings;
    UsdcReadsBack(amount);
  }

  /** One complete sweep of an active wallet. */
  ghost predicate Sweeps(sys: System, next: System, w: nat, job: nat, amount: nat, writes: nat) {
    && w < |sys.wallets| == |next.wallets| && sys.wallets[w].status == Active
    && (forall v :: 0 <= v < |sys.wallets| && v != w ==> next.wallets[v] == sys.wallets[v])
    && (next.wallets[w].status == Active <==> writes == 0)
    && next.payments == (if amount == 0 then sys.payments else sys.payments + [Payment(w, amount, writes)])
    && next.postings == (if writes >= 3 then sys.postings + [Posting(w, job, [45] + FormatUsdc(amount))] else sys.postings)
  }

  lemma {:induction false} SweepPaidOnce(sys: System, next: System, w: nat, job: nat, amount: nat, writes: nat)
    requires PaidOnce(sys) && Sweeps(sys, next, w, job, amount, writes)
    ensures PaidOnce(next)
  {
  }

  lemma {:induction false} SweepPostedOnce(sys: System, next: System, w: nat, job: nat, amount: nat, writes: nat)
    requires PostedOnce(sys) && Sweeps(sys, next, w, job, amount, writes)
    ensures PostedOnce(next)
  {
  }

  lemma {:induction false} ProcessSweeps(sys: System, job: nat, gasNeeded: nat, world: World)
    ensures var next := ProcessJob(sys, job, gasNeeded, world);
      || (next.wallets == sys.wallets && next.payments == sys.payments && next.postings == sys.postings)
      || exists w: nat, amount: nat :: Sweeps(sys, next, w, job, amount, world.writes)
  {
    if job < |sys.jobs| && sys.jobs[job].agent.Some? && sys.jobs[job].chain.Some? {
      var found := FindWallet(sys.wallets, sys.jobs[job].agent.value, sys.jobs[job].mode, sys.jobs[job].chain.value);
      if found.Some? {
        var amount := SweepAmount(sys.wallets[found.value].balance, gasNeeded);
        if world.ready && (amount == 0 || world.transfers) {
          assert Sweeps(sys, ProcessJob(sys, job, gasNeeded, world), found.value, job, amount, world.writes);
        }
      }
    }
  }

  /** Steps that move no money out of a wallet by a sweep and reopen none. */
  lemma {:induction false} QuietSound(sys: System, next: System)
    requires Sound(sys) && next.payments == sys.payments && next.postings == sys.postings && |sys.wallets| <= |next.wallets|
    requires forall w :: 0 <= w < |sys.wallets| ==> next.wallets[w].status == sys.wallets[w].status
    ensures Sound(next)
  {
  }

  lemma {:induction false} ProcessSound(sys: System, job: nat, gasNeeded: nat, world: World)
    requires Sound(sys)
    ensures Sound(ProcessJob(sys, job, gasNeeded, world))
  {
    var next := ProcessJob(sys, job, gasNeeded, world);
    ProcessSweeps(sys, job, gasNeeded, world);
    if w: nat, amount: nat :| Sweeps(sys, next, w, job, amount, world.writes) {
      PaymentAppended(sys.payments, Payment(w, amount, world.writes));
      PostingAppended(sys.postings, w, job, amount);
      SweepPaidOnce(sys, next, w, job, amount, world.writes);
      SweepPostedOnce(sys, next, w, job, amount, world.writes);
    } else {
      QuietSound(sys, next);
    }
  }

  lemma {:induction false} NextSound(sys: System, step: Step)
    requires Sound(sys)
    ensures Sound(Next(sys, step))
  {
    if step.SweepStep? {
      ProcessSound(sys, step.job, step.gasNeeded, step.world);
    } else {
      QuietSound(sys, Next(sys, step));
    }
  }

  lemma {:induction false} EveryRunSound(steps: seq<Step>)
    ensures Sound(Run(steps))
  {
    if steps != [] {
      EveryRunSound(steps[..|steps| - 1]);
      NextSound(Run(steps[..|steps| - 1]), steps[|steps| - 1]);
    }
  }

  ghost predicate AllWritten(payments: seq<Payment>) {
    forall i :: 0 <= i < |payments| ==> payments[i].writes >= 3
  }

  lemma {:induction false} NothingUnposted(payments: seq<Payment>)
    ensures AllWritten(payments) ==> Unposted(payments) == 0
  {
    if payments != [] { NothingUnposted(payments[..|payments| - 1]); }
  }

  /** Over every run the treasury has received exactly the negated sum of the sweep postings plus what was paid
      and never posted; when the writes after every transfer succeed, that is the postings alone and no wallet
      has paid twice. */
  lemma {:induction false} SweepsConserve(steps: seq<Step>)
    ensures var sys := Run(steps);
      && Received(sys.payments) == Unposted(sys.payments) - Posted(sys.postings)
      && (AllWritten(sys.payments) ==> Received(sys.payments) == -Posted(sys.postings))
      && (AllWritten(sys.payments) ==>
            forall i, j :: 0 <= i < j < |sys.payments| ==> sys.payments[i].wallet != sys.payments[j].wallet)
  {
    EveryRunSound(steps);
    NothingUnposted(Run(steps).payments);
  }

  /** A sweep that transfers leaves the wallet the smaller of its balance and the gas reserve, touches no other
      wallet and pays the difference. */
  lemma {:induction false} SweepTakesTheRest(sys: System, job: nat, gasNeeded: nat, world: World)
    requires job < |sys.jobs| && |ProcessJob(sys, job, gasNeeded, world).payments| > |sys.payments|
    ensures var next := ProcessJob(sys, job, gasNeeded, world);
      var p := next.payments[|sys.payments|];
      && next.payments == sys.payments + [p] && p.wallet < |sys.wallets| == |next.wallets|
      && var before, after := sys.wallets[p.wallet], next.wallets[p.wallet];
      && after.balance == (if before.balance <= gasNeeded then before.balance else gasNeeded)
      && p.amount == before.balance - after.balance
      && forall v :: 0 <= v < |sys.wallets| && v != p.wallet ==> next.wallets[v] == sys.wallets[v]
  {
    var row := sys.jobs[job];
    var w := FindWallet(sys.wallets, row.agent.value, row.mode, row.chain.value).value;
    SweepLeavesSmaller(sys.wallets[w].balance, gasNeeded);
  }

  /** Once its wallet is swept, running a job again moves no money; it only marks the job as failed. */
  lemma {:induction false} RerunPaysNothing(sys: System, job: nat, gasNeeded: nat, world: World)
    requires job < |sys.jobs| && sys.jobs[job].agent.Some? && sys.jobs[job].chain.Some?
    requires forall w :: 0 <= w < |sys.wallets| && Holds(sys.wallets[w], sys.jobs[job].agent.value, sys.jobs[job].mode, sys.jobs[job].chain.value) ==>
      sys.wallets[w].status == Swept
    ensures ProcessJob(sys, job, gasNeeded, world) == WithJob(sys, job, FailedJob)
  {
  }

  /** A run of a job completes it exactly when it writes a posting; otherwise the job fails. No other job changes. */
  lemma {:induction false} CompletesExactly(sys: System, job: nat, gasNeeded: nat, world: World)
    requires job < |sys.jobs|
    ensures var next := ProcessJob(sys, job, gasNeeded, world);
      && |next.jobs| == |sys.jobs| && (forall j :: 0 <= j < |sys.jobs| && j != job ==> next.jobs[j] == sys.jobs[j])
      && next.jobs[job].status == if |next.postings| > |sys.postings| then Complete else FailedJob
  {
  }

  /** A sweep that posts, posts exactly what it paid. */
  lemma {:induction false} PostsWhatItPays(sys: System, next: System, w: nat, job: nat, amount: nat, writes: nat)
    requires Sweeps(sys, next, w, job, amount, writes) && writes >= 3
    ensures Received(next.payments) - Received(sys.payments) == Posted(sys.postings) - Posted(next.postings)
  {
    PaymentAppended(sys.payments, Payment(w, amount, writes));
    PostingAppended(sys.postings, w, job, amount);
  }

  // ---- revoking again ----

  function BodyOf(step: Step): Revocation
    requires step.RevokeStep?
  {
    Revocation(step.actor, step.reason, step.chains)
  }

  predicate Revokes(sys: System, step: Step, agent: nat) {
    && step.RevokeStep? && step.agent == agent && Listed(sys.wallets, agent, step.mode, step.chains)
    && Revoke(sys, step.actor, agent, step.mode, step.reason, step.chains).1 == Revoked
  }

  /** Step `i` of the run revoked the agent, with this body for the audit. */
  predicate RevokedAs(steps: seq<Step>, i: nat, agent: nat, body: Revocation) {
    i < |steps| && Revokes(Run(steps[..i]), steps[i], agent) && BodyOf(steps[i]) == body
  }

  lemma {:induction false} RevocationStays(sys: System, step: Step, agent: nat)
    ensures agent in sys.revocations ==>
      agent in Next(sys, step).revocations && Next(sys, step).revocations[agent] == sys.revocations[agent]
    ensures agent !in sys.revocations && !Revokes(sys, step, agent) ==> agent !in Next(sys, step).revocations
    ensures Revokes(sys, step, agent) ==> agent in Next(sys, step).revocations && Next(sys, step).revocations[agent] == BodyOf(step)
  {
  }

  /** What is recorded for an agent is the body of its first revocation, and every later one that succeeded had
      the same. */
  lemma {:induction false} RecordedIsRevoked(steps: seq<Step>, agent: nat)
    ensures forall i: nat, body :: RevokedAs(steps, i, agent, body) ==> agent in Run(steps).revocations && Run(steps).revocations[agent] == body
    ensures agent in Run(steps).revocations ==> exists i: nat :: RevokedAs(steps, i, agent, Run(steps).revocations[agent])
  {
    if steps != [] {
      var n := |steps| - 1;
      var sys := Run(steps[..n]);
      RecordedIsRevoked(steps[..n], agent);
      RevocationStays(sys, steps[n], agent);
      forall i: nat, body | RevokedAs(steps, i, agent, body)
        ensures agent in Run(steps).revocations && Run(steps).revocations[agent] == body
      {
        if i < n { EarlierRevoked(steps, i, agent, body); }
      }
      if agent in sys.revocations {
        var i: nat :| RevokedAs(steps[..n], i, agent, sys.revocations[agent]);
        EarlierRevoked(steps, i, agent, sys.revocations[agent]);
      } else if agent in Run(steps).revocations {
        assert RevokedAs(steps, n, agent, Run(steps).revocations[agent]);
      }
    }
  }

  lemma {:induction false} EarlierRevoked(steps: seq<Step>, i: nat, agent: nat, body: Revocation)
    requires i < |steps| - 1
    ensures RevokedAs(steps[..|steps| - 1], i, agent, body) <==> RevokedAs(steps, i, agent, body)
  {
    assert steps[..|steps| - 1][..i] == steps[..i];
  }

  /** Over every run: a revocation is refused exactly when an earlier one of the agent succeeded with another actor,
      reason or list of chains; then nothing changes. Otherwise the agent ends suspended, with one job for each
      active wallet. */
  lemma {:induction false} RevokeConflictsExactly(steps: seq<Step>, step: Step)
    requires step.RevokeStep? && step.agent in Run(steps).agents && Listed(Run(steps).wallets, step.agent, step.mode, step.chains)
    ensures var next := Run(steps + [step]);
      && (Revokes(Run(steps), step, step.agent) <==> !exists i: nat, body :: RevokedAs(steps, i, step.agent, body) && body != BodyOf(step))
      && (!Revokes(Run(steps), step, step.agent) ==> next == Run(steps))
      && (Revokes(Run(steps), step, step.agent) ==>
            step.agent in next.agents && next.agents[step.agent] && next.jobs == Run(steps).jobs + SweepJobs(step.agent, step.mode, step.chains))
  {
    RunNext(steps, step);
    RecordedIsRevoked(steps, step.agent);
  }

  lemma {:induction false} RunNext(steps: seq<Step>, step: Step)
    ensures Run(steps + [step]) == Next(Run(steps), step)
  {
    assert (steps + [step])[..|steps|] == steps;
  }

  predicate ActiveOn(w: Wallet, agent: nat, mode: nat, chain: nat) {
    Holds(w, agent, mode, chain) && w.status == Active
  }

  ghost predicate SomeActive(wallets: seq<Wallet>, agent: nat, mode: nat, chain: nat) {
    exists w :: 0 <= w < |wallets| && ActiveOn(wallets[w], agent, mode, chain)
  }

  lemma {:induction false} SomeActiveStep(wallets: seq<Wallet>, agent: nat, mode: nat, chain: nat)
    requires wallets != []
    ensures var n := |wallets| - 1;
      SomeActive(wallets, agent, mode, chain) <==> SomeActive(wallets[..n], agent, mode, chain) || ActiveOn(wallets[n], agent, mode, chain)
  {
    var n := |wallets| - 1;
    if w :| 0 <= w < n && ActiveOn(wallets[w], agent, mode, chain) { assert ActiveOn(wallets[..n][w], agent, mode, chain); }
  }

  lemma {:induction false} ActiveChainsExactly(wallets: seq<Wallet>, agent: nat, mode: nat, chain: nat)
    ensures chain in ActiveChains(wallets, agent, mode) <==> SomeActive(wallets, agent, mode, chain)
  {
    if wallets != [] {
      ActiveChainsExactly(wallets[..|wallets| - 1], agent, mode, chain);
      SomeActiveStep(wallets, agent, mode, chain);
    }
  }

  /** A job pays exactly when it names an active wallet with more than the gas reserve and the world lets it. */
  lemma {:induction false} PaysExactly(sys: System, job: nat, gasNeeded: nat, world: World)
    requires UniqueWallets(sys.wallets)
    ensures |ProcessJob(sys, job, gasNeeded, world).payments| > |sys.payments| <==>
      && job < |sys.jobs| && sys.jobs[job].agent.Some? && sys.jobs[job].chain.Some? && world.ready && world.transfers
      && exists w :: 0 <= w < |sys.wallets| && sys.wallets[w].balance > gasNeeded
           && ActiveOn(sys.wallets[w], sys.jobs[job].agent.value, sys.jobs[job].mode, sys.jobs[job].chain.value)
  {
  }

  // ---- concrete runs ----

  const EMPTY: System := System(map[], [], [], [], map[], [])

  lemma {:induction false} RunThree(a: Step, b: Step, c: Step)
    ensures Run([a, b, c]) == Next(Next(Next(EMPTY, a), b), c)
  {
    assert Run([]) == EMPTY;
    assert [] + [a] == [a] && [a] + [b] == [a, b] && [a, b] + [c] == [a, b, c];
    RunNext([], a);
    RunNext([a], b);
    RunNext([a, b], c);
  }

  /** Revoke, activate, revoke by someone else: the second revocation is rolled back and the agent stays active. */
  lemma {:induction false} SecondRevocationCanFail()
    ensures var sys := Run([RegisterStep(7), RevokeStep(1, 7, 0, [], []), ActivateStep(7)]);
      Revoke(sys, 2, 7, 0, [], []) == (sys, IdempotencyConflict) && 7 in sys.agents && !sys.agents[7]
  {
    RunThree(RegisterStep(7), RevokeStep(1, 7, 0, [], []), ActivateStep(7));
  }

  const TWO_WALLETS: seq<Step> := [RegisterStep(7), ProvisionStep(7, 0, 1), ProvisionStep(7, 0, 2)]
  const TWO_WALLETS_HELD: System := System(map[7 := false], [Wallet(7, 0, 1, Active, 0), Wallet(7, 0, 2, Active, 0)], [], [], map[], [])

  lemma {:induction false} TwoWalletsReached()
    ensures Run(TWO_WALLETS) == TWO_WALLETS_HELD
  {
    RunThree(TWO_WALLETS[0], TWO_WALLETS[1], TWO_WALLETS[2]);
    var one := Next(Next(EMPTY, TWO_WALLETS[0]), TWO_WALLETS[1]);
    assert one.wallets == [Wallet(7, 0, 1, Active, 0)];
    assert !Known(one.wallets, 7, 0, 2);
  }

  lemma {:induction false} TwoChains(wallets: seq<Wallet>)
    requires wallets == [Wallet(7, 0, 1, Active, 0), Wallet(7, 0, 2, Active, 0)]
    ensures Listed(wallets, 7, 0, [1, 2]) && Listed(wallets, 7, 0, [2, 1])
  {
    assert wallets[..1][..0] == [];
    assert ActiveChains(wallets[..1], 7, 0) == [1];
    assert ActiveChains(wallets, 7, 0) == [1, 2];
  }

  lemma {:induction false} OtherOrderConflicts(sys: System)
    requires 7 in sys.agents && 7 !in sys.revocations
    ensures var next := Revoke(sys, 1, 7, 0, [], [1, 2]).0;
      next.wallets == sys.wallets && Revoke(next, 1, 7, 0, [], [1, 2]).1 == Revoked && Revoke(next, 1, 7, 0, [], [2, 1]).1 == IdempotencyConflict
  {
    assert [1, 2][0] != [2, 1][0];
  }

  ghost predicate RetryConflicts(sys: System) {
    && Listed(sys.wallets, 7, 0, [1, 2]) && Listed(sys.wallets, 7, 0, [2, 1])
    && Revoke(sys, 1, 7, 0, [], [1, 2]).1 == Revoked && Revoke(sys, 1, 7, 0, [], [2, 1]).1 == IdempotencyConflict
  }

  lemma {:induction false} RunRevokes(steps: seq<Step>, step: Step)
    requires step.RevokeStep? && Listed(Run(steps).wallets, step.agent, step.mode, step.chains)
    ensures Run(steps + [step]) == Revoke(Run(steps), step.actor, step.agent, step.mode, step.reason, step.chains).0
  {
    RunNext(steps, step);
  }

  lemma {:induction false} HeldConflicts()
    ensures RetryConflicts(Revoke(TWO_WALLETS_HELD, 1, 7, 0, [], [1, 2]).0)
  {
    OtherOrderConflicts(TWO_WALLETS_HELD);
    TwoChains(TWO_WALLETS_HELD.wallets);
  }

  /** The very same revocation again is refused when the query lists the same two wallets the other way round. */
  lemma {:induction false} RetryCanConflict()
    ensures RetryConflicts(Run(TWO_WALLETS + [RevokeStep(1, 7, 0, [], [1, 2])]))
  {
    TwoWalletsReached();
    TwoChains(TWO_WALLETS_HELD.wallets);
    RunRevokes(TWO_WALLETS, RevokeStep(1, 7, 0, [], [1, 2]));
    HeldConflicts();
  }

  /** A wallet with 10 to pay and nothing kept for gas, of an agent with one queued job. */
  const ONE_JOB: System := System(map[7 := true], [Wallet(7, 0, 1, Active, 10)], [Job(Some(7), 0, Some(1), Queued)], [], map[7 := Revocation(1, [], [1])], [])

  lemma {:induction false} OneJobReached()
    ensures Run([RegisterStep(7), ProvisionStep(7, 0, 1), BalanceStep(0, 10)] + [RevokeStep(1, 7, 0, [], [1])]) == ONE_JOB
  {
    RunThree(RegisterStep(7), ProvisionStep(7, 0, 1), BalanceStep(0, 10));
    RunNext([RegisterStep(7), ProvisionStep(7, 0, 1), BalanceStep(0, 10)], RevokeStep(1, 7, 0, [], [1]));
    var wallets := [Wallet(7, 0, 1, Active, 10)];
    assert Next(Next(Next(EMPTY, RegisterStep(7)), ProvisionStep(7, 0, 1)), BalanceStep(0, 10)).wallets == wallets;
    assert ActiveChains(wallets[..0], 7, 0) == [];
    assert ActiveChains(wallets, 7, 0) == [1];
  }

  /** A sweep that pays and then cannot mark the wallet: the 10 are gone, nothing is posted, the job has failed. */
  lemma {:induction false} SweepCanLosePosting()
    ensures var steps := [RegisterStep(7), ProvisionStep(7, 0, 1), BalanceStep(0, 10)] + [RevokeStep(1, 7, 0, [], [1])];
      var sys := Run(steps + [SweepStep(0, 0, World(true, true, 0))]);
      && sys.payments == [Payment(0, 10, 0)] && sys.wallets == [Wallet(7, 0, 1, Active, 0)]
      && sys.postings == [] && sys.jobs == [Job(Some(7), 0, Some(1), FailedJob)]
  {
    OneJobReached();
    RunNext([RegisterStep(7), ProvisionStep(7, 0, 1), BalanceStep(0, 10)] + [RevokeStep(1, 7, 0, [], [1])], SweepStep(0, 0, World(true, true, 0)));
    assert FindWallet(ONE_JOB.wallets, 7, 0, 1) == Some(0);
  }
}
