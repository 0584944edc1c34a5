/** Every interleaving of the approval transactions, with any number of consumers between check and commit. */
module ApprovalRuns {
  import opened CodeUnits
  import opened JsonDocuments
  import opened JsValues
  import opened AuditRecords
  import opened Approvals

  /** A consumer that has passed its checks and not yet committed. */
  datatype Ticket = Ticket(caller: Consumer, approvalId: nat, contextHash: Text)

  datatype System = System(store: Store, clock: nat, tickets: seq<Ticket>)

  datatype Step =
    | CreateStep(subject: Subject, now: nat)
    | VoteStep(org: Text, actor: Text, approvalId: nat, now: nat)
    | DenyStep(org: Text, actor: Text, approvalId: nat, now: nat)
    | CheckStep(caller: Consumer, approvalId: nat, now: nat, denied: bool)
    /** The consumer holding this ticket commits, if it ever does. */
    | CommitStep(ticket: nat, now: nat)

  const INITIAL: System := System(Store([], [], [], []), 0, [])

  predicate Enabled(sys: System, step: Step) {
    sys.clock <= step.now && (step.CommitStep? ==> step.ticket < |sys.tickets|)
  }

  predicate Passes(sys: System, step: Step) {
    Enabled(sys, step) && step.CheckStep? && CheckConsume(sys.store, step.caller, step.approvalId, step.now, step.denied) == Done
  }

  function NextStore(h: Hasher, sys: System, step: Step): Store
    requires Enabled(sys, step)
  {
    match step
    case CreateStep(subject, now) => Create(h, sys.store, subject, now).0
    case VoteStep(org, actor, id, now) => Approve(sys.store, org, actor, id, now).0
    case DenyStep(org, actor, id, now) => Deny(sys.store, org, actor, id, now).0
    case CheckStep(_, _, _, _) => sys.store
    case CommitStep(t, _) =>
      var ticket := sys.tickets[t];
      CommitConsume(sys.store, ticket.caller, ticket.approvalId, ticket.contextHash).0
  }

  function NextTickets(sys: System, step: Step): seq<Ticket> {
    if Passes(sys, step) then sys.tickets + [Ticket(step.caller, step.approvalId, sys.store.approvals[step.approvalId].contextHash)]
    else sys.tickets
  }

  function Next(h: Hasher, sys: System, step: Step): System {
    if Enabled(sys, step) then System(NextStore(h, sys, step), step.now, NextTickets(sys, step)) else sys
  }

  function Run(h: Hasher, steps: seq<Step>): System {
    if steps == [] then INITIAL else Next(h, Run(h, steps[..|steps| - 1]), steps[|steps| - 1])
  }

  // ---- what every run keeps, approval by approval ----

  /** Votes come from different operators, none of them the requester, each cast before the window closed. */
  ghost predicate VotesFair(row: Approval, votes: seq<Vote>) {
    && (forall i, j :: 0 <= i < j < |votes| ==> votes[i].actor != votes[j].actor)
    && (forall i :: 0 <= i < |votes| ==> votes[i].actor != row.subject.connection && votes[i].at < row.expiresAt)
  }

  predicate Reached(status: Status) {
    status == Approved || status == Consumed
  }

  ghost predicate QuorumExact(row: Approval, count: nat) {
    && row.subject.required >= 1
    && (Reached(row.status) ==> count == row.subject.required)
    && (!Reached(row.status) ==> count < row.subject.required)
    && row.status != Expired
  }

  /** The audit keys an approval in this state has used. */
  predicate KeyUsed(row: Approval, kind: AuditKind) {
    match kind
    case Requested => true
    case Granted => Reached(row.status)
    case Refused => row.status == Denied
    case Used => row.status == Consumed
  }

  ghost predicate HashFixed(h: Hasher, row: Approval) {
    && Supported(row.subject.context)
    && row.contextHash == h.sha(ContextText(h, row.subject.action, row.subject.target, row.subject.context))
  }

  ghost predicate RowSound(h: Hasher, store: Store, id: nat)
    requires id < |store.approvals|
  {
    var row := store.approvals[id];
    && VotesFair(row, VotesFor(store.votes, id)) && QuorumExact(row, |VotesFor(store.votes, id)|)
    && ConsumptionsFor(store.consumptions, id) == (if row.status == Consumed then 1 else 0)
    && (forall kind :: AuditKey(kind, id) in store.auditKeys <==> KeyUsed(row, kind))
    && HashFixed(h, row)
  }

  /** Nothing is recorded yet about an approval that does not exist. */
  ghost predicate Blank(store: Store, id: nat) {
    && VotesFor(store.votes, id) == [] && ConsumptionsFor(store.consumptions, id) == 0
    && forall kind :: AuditKey(kind, id) !in store.auditKeys
  }

  ghost predicate KeysOnce(store: Store) {
    forall i, j :: 0 <= i < j < |store.auditKeys| ==> store.auditKeys[i] != store.auditKeys[j]
  }

  ghost predicate StoreSound(h: Hasher, store: Store) {
    && (forall id: nat :: id < |store.approvals| ==> RowSound(h, store, id))
    && (forall id: nat :: id >= |store.approvals| ==> Blank(store, id))
    && KeysOnce(store)
  }

  // ---- a transaction changes one approval and its records ----

  ghost predicate OthersKept(before: Store, after: Store, id: nat) {
    forall other: nat :: other != id ==>
      && (other < |before.approvals| <==> other < |after.approvals|)
      && (other < |before.approvals| ==> after.approvals[other] == before.approvals[other])
      && VotesFor(after.votes, other) == VotesFor(before.votes, other)
      && ConsumptionsFor(after.consumptions, other) == ConsumptionsFor(before.consumptions, other)
      && (forall kind :: AuditKey(kind, other) in after.auditKeys <==> AuditKey(kind, other) in before.auditKeys)
  }

  lemma {:induction false} OneRowSound(h: Hasher, before: Store, after: Store, id: nat)
    requires StoreSound(h, before) && OthersKept(before, after, id) && KeysOnce(after)
    requires id < |after.approvals| && RowSound(h, after, id)
    ensures StoreSound(h, after)
  {
    forall other: nat | other < |after.approvals| && other != id ensures RowSound(h, after, other) {
      assert VotesFor(after.votes, other) == VotesFor(before.votes, other);
      assert RowSound(h, before, other);
    }
    forall other: nat | other >= |after.approvals| ensures Blank(after, other) {
      assert VotesFor(after.votes, other) == VotesFor(before.votes, other);
      assert Blank(before, other);
    }
  }

  lemma {:induction false} KeysStayOnce(keys: seq<AuditKey>, key: AuditKey)
    requires key !in keys && forall i, j :: 0 <= i < j < |keys| ==> keys[i] != keys[j]
    ensures forall i, j :: 0 <= i < j < |keys + [key]| ==> (keys + [key])[i] != (keys + [key])[j]
  {
  }

  lemma {:induction false} CreateSound(h: Hasher, store: Store, subject: Subject, now: nat)
    requires StoreSound(h, store)
    ensures StoreSound(h, Create(h, store, subject, now).0)
    ensures Create(h, store, subject, now).1 == Done <==> Supported(subject.context) && subject.required >= 1
  {
    var id := |store.approvals|;
    assert Blank(store, id);
    assert AuditKey(Requested, id) !in store.auditKeys;
    if Supported(subject.context) && subject.required >= 1 {
      var after := Create(h, store, subject, now).0;
      KeysStayOnce(store.auditKeys, AuditKey(Requested, id));
      assert RowSound(h, after, id);
      OneRowSound(h, store, after, id);
    }
  }

  lemma {:induction false} VoteAppended(votes: seq<Vote>, v: Vote, id: nat)
    ensures VotesFor(votes + [v], id) == VotesFor(votes, id) + if v.approvalId == id then [v] else []
  {
  }

  lemma {:induction false} VotesAreVotes(votes: seq<Vote>, id: nat, i: nat)
    requires i < |VotesFor(votes, id)|
    ensures VotesFor(votes, id)[i] in votes && VotesFor(votes, id)[i].approvalId == id
  {
    var n := |votes| - 1;
    if i < |VotesFor(votes[..n], id)| { VotesAreVotes(votes[..n], id, i); }
  }

  lemma {:induction false} NewVoteFair(store: Store, row: Approval, actor: Text, id: nat, now: nat)
    requires VotesFair(row, VotesFor(store.votes, id)) && !HasVoted(store.votes, id, actor)
    requires actor != row.subject.connection && now < row.expiresAt
    ensures VotesFair(row, VotesFor(store.votes + [Vote(id, actor, now)], id))
  {
    VoteAppended(store.votes, Vote(id, actor, now), id);
    var votes := VotesFor(store.votes, id);
    forall i | 0 <= i < |votes| ensures votes[i].actor != actor {
      VotesAreVotes(store.votes, id, i);
    }
  }

  lemma {:induction false} VoteOthers(store: Store, after: Store, id: nat, actor: Text, now: nat)
    requires id < |store.approvals| == |after.approvals| && after.votes == store.votes + [Vote(id, actor, now)]
    requires forall other :: 0 <= other < |store.approvals| && other != id ==> after.approvals[other] == store.approvals[other]
    requires after.consumptions == store.consumptions
    requires after.auditKeys == store.auditKeys || after.auditKeys == store.auditKeys + [AuditKey(Granted, id)]
    ensures OthersKept(store, after, id)
  {
  }

  /** A vote keeps the store sound; a vote that completes the quorum never meets a used audit key. */
  lemma {:induction false} VoteSound(h: Hasher, store: Store, org: Text, actor: Text, id: nat, now: nat)
    requires StoreSound(h, store)
    ensures StoreSound(h, Approve(store, org, actor, id, now).0) && Approve(store, org, actor, id, now).1 != Failed
  {
    var (after, result) := Approve(store, org, actor, id, now);
    if after != store || result == Failed {
      assert RowSound(h, store, id);
      assert AuditKey(Granted, id) !in store.auditKeys;
      NewVoteFair(store, store.approvals[id], actor, id, now);
      VoteAppended(store.votes, Vote(id, actor, now), id);
      VoteOthers(store, after, id, actor, now);
      VotedRowSound(h, store, after, id, actor, now);
      OneRowSound(h, store, after, id);
    }
  }

  lemma {:induction false} VotedRowSound(h: Hasher, store: Store, after: Store, id: nat, actor: Text, now: nat)
    requires id < |store.approvals| && RowSound(h, store, id) && KeysOnce(store) && store.approvals[id].status == Pending
    requires after.votes == store.votes + [Vote(id, actor, now)] && VotesFair(store.approvals[id], VotesFor(after.votes, id))
    requires |VotesFor(after.votes, id)| == |VotesFor(store.votes, id)| + 1 && after.consumptions == store.consumptions
    requires if |VotesFor(store.votes, id)| + 1 < store.approvals[id].subject.required
      then after.approvals == store.approvals && after.auditKeys == store.auditKeys
      else after.approvals == store.approvals[id := store.approvals[id].(status := Approved)]
           && after.auditKeys == store.auditKeys + [AuditKey(Granted, id)]
    ensures RowSound(h, after, id) && KeysOnce(after)
  {
    assert AuditKey(Granted, id) !in store.auditKeys;
    KeysStayOnce(store.auditKeys, AuditKey(Granted, id));
  }

  lemma {:induction false} DenySound(h: Hasher, store: Store, org: Text, actor: Text, id: nat, now: nat)
    requires StoreSound(h, store)
    ensures StoreSound(h, Deny(store, org, actor, id, now).0) && Deny(store, org, actor, id, now).1 != Failed
  {
    var (after, result) := Deny(store, org, actor, id, now);
    if after != store || result == Failed {
      assert RowSound(h, store, id);
      assert AuditKey(Refused, id) !in store.auditKeys;
      KeysStayOnce(store.auditKeys, AuditKey(Refused, id));
      assert RowSound(h, after, id);
      OneRowSound(h, store, after, id);
    }
  }

  lemma {:induction false} ConsumptionAppended(consumptions: seq<Consumption>, c: Consumption, id: nat)
    ensures ConsumptionsFor(consumptions + [c], id) == ConsumptionsFor(consumptions, id) + if c.approvalId == id then 1 else 0
  {
  }

  lemma {:induction false} UsedOthers(store: Store, after: Store, id: nat, c: Consumption)
    requires id < |store.approvals| && c.approvalId == id && after.votes == store.votes
    requires after.approvals == store.approvals[id := store.approvals[id].(status := Consumed)]
    requires after.consumptions == store.consumptions + [c] && after.auditKeys == store.auditKeys + [AuditKey(Used, id)]
    ensures OthersKept(store, after, id)
  {
    forall other: nat | other != id ensures ConsumptionsFor(after.consumptions, other) == ConsumptionsFor(store.consumptions, other) {
      ConsumptionAppended(store.consumptions, c, other);
    }
  }

  lemma {:induction false} UsedRowSound(h: Hasher, store: Store, after: Store, id: nat, c: Consumption)
    requires id < |store.approvals| && RowSound(h, store, id) && KeysOnce(store) && store.approvals[id].status == Approved
    requires c.approvalId == id && after.votes == store.votes
    requires after.approvals == store.approvals[id := store.approvals[id].(status := Consumed)]
    requires after.consumptions == store.consumptions + [c] && after.auditKeys == store.auditKeys + [AuditKey(Used, id)]
    ensures RowSound(h, after, id) && KeysOnce(after)
  {
    assert AuditKey(Used, id) !in store.auditKeys;
    KeysStayOnce(store.auditKeys, AuditKey(Used, id));
    ConsumptionAppended(store.consumptions, c, id);
  }

  lemma {:induction false} CommitSound(h: Hasher, store: Store, caller: Consumer, id: nat, contextHash: Text)
    requires StoreSound(h, store)
    ensures StoreSound(h, CommitConsume(store, caller, id, contextHash).0) && CommitConsume(store, caller, id, contextHash).1 != Failed
  {
    var (after, result) := CommitConsume(store, caller, id, contextHash);
    if after != store || result == Failed {
      var c := Consumption(id, caller.decision, caller.connection, contextHash);
      assert RowSound(h, store, id);
      assert AuditKey(Used, id) !in store.auditKeys;
      UsedOthers(store, after, id, c);
      UsedRowSound(h, store, after, id, c);
      OneRowSound(h, store, after, id);
    }
  }

  lemma {:induction false} NextSound(h: Hasher, sys: System, step: Step)
    requires StoreSound(h, sys.store)
    ensures StoreSound(h, Next(h, sys, step).store)
  {
    if Enabled(sys, step) {
      match step
      case CreateStep(subject, now) => CreateSound(h, sys.store, subject, now);
      case VoteStep(org, actor, id, now) => VoteSound(h, sys.store, org, actor, id, now);
      case DenyStep(org, actor, id, now) => DenySound(h, sys.store, org, actor, id, now);
      case CheckStep(_, _, _, _) =>
      case CommitStep(t, _) => CommitSound(h, sys.store, sys.tickets[t].caller, sys.tickets[t].approvalId, sys.tickets[t].contextHash);
    }
  }

  /** Quorum, one-time consumption and single-use audit keys in every reachable state. */
  lemma {:induction false} EveryRunSound(h: Hasher, steps: seq<Step>)
    ensures StoreSound(h, Run(h, steps).store)
  {
    if steps != [] {
      EveryRunSound(h, steps[..|steps| - 1]);
      NextSound(h, Run(h, steps[..|steps| - 1]), steps[|steps| - 1]);
    }
  }

  // ---- quorum as a set of operators ----

  function Voters(votes: seq<Vote>): set<Text> {
    set i | 0 <= i < |votes| :: votes[i].actor
  }

  lemma {:induction false} DistinctVoters(votes: seq<Vote>)
    requires forall i, j :: 0 <= i < j < |votes| ==> votes[i].actor != votes[j].actor
    ensures |Voters(votes)| == |votes|
  {
    if votes != [] {
      var n := |votes| - 1;
      DistinctVoters(votes[..n]);
      assert Voters(votes) == Voters(votes[..n]) + {votes[n].actor};
      assert votes[n].actor !in Voters(votes[..n]);
    }
  }

  /** An approved or consumed approval was voted for, before its window closed, by exactly as many different
      operators as it requires, the requester not among them; a pending or denied one by fewer. */
  lemma {:induction false} QuorumOverRuns(h: Hasher, steps: seq<Step>, id: nat)
    requires id < |Run(h, steps).store.approvals|
    ensures var store := Run(h, steps).store;
      var row, votes := store.approvals[id], VotesFor(store.votes, id);
      && row.subject.connection !in Voters(votes)
      && (forall i :: 0 <= i < |votes| ==> votes[i].at < row.expiresAt)
      && (if Reached(row.status) then |Voters(votes)| == row.subject.required >= 1 else |Voters(votes)| < row.subject.required)
  {
    EveryRunSound(h, steps);
    assert RowSound(h, Run(h, steps).store, id);
    DistinctVoters(VotesFor(Run(h, steps).store.votes, id));
  }

  // ---- what never changes ----

  predicate MayBecome(before: Status, after: Status) {
    before == after || (before == Pending && (after == Approved || after == Denied)) || (before == Approved && after == Consumed)
  }

  lemma {:induction false} StepMoves(h: Hasher, sys: System, step: Step, id: nat)
    requires id < |sys.store.approvals|
    ensures var next := Next(h, sys, step).store;
      && id < |next.approvals| && MayBecome(sys.store.approvals[id].status, next.approvals[id].status)
      && next.approvals[id].(status := Pending) == sys.store.approvals[id].(status := Pending)
  {
  }

  /** Over a run a denied approval stays denied, a consumed one consumed, an approved one approved or consumed;
      requester, quorum, window, subject and context hash never change. */
  lemma {:induction false} StatusAbsorbs(h: Hasher, steps: seq<Step>, i: nat, id: nat)
    requires i <= |steps| && id < |Run(h, steps[..i]).store.approvals|
    ensures var earlier, later := Run(h, steps[..i]).store, Run(h, steps).store;
      && id < |later.approvals| && later.approvals[id].(status := Pending) == earlier.approvals[id].(status := Pending)
      && (earlier.approvals[id].status in {Denied, Consumed} ==> later.approvals[id].status == earlier.approvals[id].status)
      && (Reached(earlier.approvals[id].status) ==> Reached(later.approvals[id].status))
    decreases |steps|
  {
    if i == |steps| {
      assert steps[..i] == steps;
    } else {
      var n := |steps| - 1;
      assert steps[..n][..i] == steps[..i];
      StatusAbsorbs(h, steps[..n], i, id);
      StepMoves(h, Run(h, steps[..n]), steps[n], id);
    }
  }

  // ---- where a consumption comes from ----

  /** This check passed, and this is what it was about. */
  ghost predicate CheckedBy(h: Hasher, steps: seq<Step>, i: nat, id: nat, decision: Text, connection: Text, contextHash: Text) {
    && i < |steps| && Passes(Run(h, steps[..i]), steps[i]) && steps[i].approvalId == id
    && var row := Run(h, steps[..i]).store.approvals[id];
    && row.status == Approved && steps[i].now < row.expiresAt
    && row.subject.connection == connection == steps[i].caller.connection
    && row.subject.decision == decision == steps[i].caller.decision && row.contextHash == contextHash
  }

  lemma {:induction false} CheckedEarlier(h: Hasher, steps: seq<Step>, i: nat, id: nat, decision: Text, connection: Text, contextHash: Text)
    requires steps != [] && CheckedBy(h, steps[..|steps| - 1], i, id, decision, connection, contextHash)
    ensures CheckedBy(h, steps, i, id, decision, connection, contextHash)
  {
    assert steps[..|steps| - 1][..i] == steps[..i];
  }

  lemma {:induction false} TicketWasChecked(h: Hasher, steps: seq<Step>, t: nat) returns (i: nat)
    requires t < |Run(h, steps).tickets|
    ensures var ticket := Run(h, steps).tickets[t];
      CheckedBy(h, steps, i, ticket.approvalId, ticket.caller.decision, ticket.caller.connection, ticket.contextHash)
  {
    var n := |steps| - 1;
    if t < |Run(h, steps[..n]).tickets| {
      var ticket := Run(h, steps[..n]).tickets[t];
      i := TicketWasChecked(h, steps[..n], t);
      CheckedEarlier(h, steps, i, ticket.approvalId, ticket.caller.decision, ticket.caller.connection, ticket.contextHash);
    } else {
      i := n;
    }
  }

  lemma {:induction false} ConsumptionAdded(h: Hasher, sys: System, step: Step, k: nat)
    requires k < |Next(h, sys, step).store.consumptions|
    ensures var c := Next(h, sys, step).store.consumptions[k];
      if k < |sys.store.consumptions| then c == sys.store.consumptions[k]
      else step.CommitStep? && step.ticket < |sys.tickets|
           && var t := sys.tickets[step.ticket]; c == Consumption(t.approvalId, t.caller.decision, t.caller.connection, t.contextHash)
  {
  }

  /** Behind every consumption row stands a check that saw the approval approved and unexpired, for the same
      connection and decision, with the context hash the row records. */
  lemma {:induction false} ConsumptionWasChecked(h: Hasher, steps: seq<Step>, k: nat) returns (i: nat)
    requires k < |Run(h, steps).store.consumptions|
    ensures var c := Run(h, steps).store.consumptions[k];
      CheckedBy(h, steps, i, c.approvalId, c.decision, c.connection, c.contextHash)
  {
    var n := |steps| - 1;
    var sys := Run(h, steps[..n]);
    ConsumptionAdded(h, sys, steps[n], k);
    if k < |sys.store.consumptions| {
      var c := sys.store.consumptions[k];
      i := ConsumptionWasChecked(h, steps[..n], k);
      CheckedEarlier(h, steps, i, c.approvalId, c.decision, c.connection, c.contextHash);
    } else {
      var ticket := sys.tickets[steps[n].ticket];
      i := TicketWasChecked(h, steps[..n], steps[n].ticket);
      CheckedEarlier(h, steps, i, ticket.approvalId, ticket.caller.decision, ticket.caller.connection, ticket.contextHash);
    }
  }

  /** However many consumers interleave, an approval is consumed at most once. */
  lemma {:induction false} ConsumedOnce(h: Hasher, steps: seq<Step>, j: nat, k: nat)
    requires j < |Run(h, steps).store.consumptions| && k < |Run(h, steps).store.consumptions|
    requires Run(h, steps).store.consumptions[j].approvalId == Run(h, steps).store.consumptions[k].approvalId
    ensures j == k
  {
    var store := Run(h, steps).store;
    EveryRunSound(h, steps);
    var id := store.consumptions[j].approvalId;
    CountedTwice(store.consumptions, id, j, k);
    if id < |store.approvals| { assert RowSound(h, store, id); } else { assert Blank(store, id); }
  }

  lemma {:induction false} CountedTwice(consumptions: seq<Consumption>, id: nat, j: nat, k: nat)
    requires j < |consumptions| && k < |consumptions| && consumptions[j].approvalId == consumptions[k].approvalId == id
    ensures ConsumptionsFor(consumptions, id) >= if j == k then 1 else 2
  {
    var n := |consumptions| - 1;
    if j < n && k < n {
      CountedTwice(consumptions[..n], id, j, k);
    } else if j < n {
      CountedTwice(consumptions[..n], id, j, j);
    } else if k < n {
      CountedTwice(consumptions[..n], id, k, k);
    }
  }

  ghost predicate NoCollision(h: Hasher, a: Subject, b: Subject) {
    Supported(a.context) && Supported(b.context)
    && h.sha(ContextText(h, a.action, a.target, a.context)) == h.sha(ContextText(h, b.action, b.target, b.context)) ==>
      ContextText(h, a.action, a.target, a.context) == ContextText(h, b.action, b.target, b.context)
  }

  /** The context hash of a consumption fixes what was consumed: any request with that hash, short of a
      collision on these two texts, has the same action, target and context up to property order. */
  lemma {:induction false} ConsumptionFixesContext(h: Hasher, steps: seq<Step>, k: nat, other: Subject)
    requires k < |Run(h, steps).store.consumptions| && Supported(other.context) && WellFormedValue(other.context)
    requires var store := Run(h, steps).store;
      var id := store.consumptions[k].approvalId;
      && store.consumptions[k].contextHash == h.sha(ContextText(h, other.action, other.target, other.context))
      && (id < |store.approvals| ==> WellFormedValue(store.approvals[id].subject.context) && NoCollision(h, store.approvals[id].subject, other))
    ensures var store := Run(h, steps).store;
      var id := store.consumptions[k].approvalId;
      && id < |store.approvals| && var asked := store.approvals[id].subject;
      && asked.action == other.action && asked.target == other.target
      && Supported(asked.context) && Meaning(ToDoc(asked.context)) == Meaning(ToDoc(other.context))
  {
    var store := Run(h, steps).store;
    var id := store.consumptions[k].approvalId;
    var i := ConsumptionWasChecked(h, steps, k);
    StatusAbsorbs(h, steps, i, id);
    EveryRunSound(h, steps);
    assert RowSound(h, store, id);
    ContextTextFixes(h, store.approvals[id].subject, other);
  }

  // ---- what the transactions accept ----

  predicate OpenAt(store: Store, org: Text, id: nat, now: nat) {
    Exists(store, org, id) && store.approvals[id].status == Pending && now < store.approvals[id].expiresAt
  }

  ghost predicate MayVote(store: Store, org: Text, actor: Text, id: nat, now: nat) {
    OpenAt(store, org, id, now) && actor != store.approvals[id].subject.connection && actor !in Voters(VotesFor(store.votes, id))
  }

  lemma {:induction false} VotersAppended(votes: seq<Vote>, v: Vote)
    ensures Voters(votes + [v]) == Voters(votes) + {v.actor}
  {
    forall actor | actor in Voters(votes) + {v.actor} ensures actor in Voters(votes + [v]) {
      if actor == v.actor {
        assert (votes + [v])[|votes|].actor == actor;
      } else {
        var i :| 0 <= i < |votes| && votes[i].actor == actor;
        assert (votes + [v])[i].actor == actor;
      }
    }
  }

  lemma {:induction false} VoterHasVoted(votes: seq<Vote>, id: nat, actor: Text)
    ensures HasVoted(votes, id, actor) <==> actor in Voters(VotesFor(votes, id))
  {
    if votes != [] {
      var n := |votes| - 1;
      VoterHasVoted(votes[..n], id, actor);
      var before, after := VotesFor(votes[..n], id), VotesFor(votes, id);
      assert HasVoted(votes, id, actor) <==> HasVoted(votes[..n], id, actor) || (votes[n].approvalId == id && votes[n].actor == actor);
      if votes[n].approvalId == id {
        VotersAppended(before, votes[n]);
      } else {
        assert after == before;
      }
    }
  }

  /** A vote counts exactly when the approval is open and the operator is neither its requester nor among those
      who have voted; it approves exactly when it completes the quorum. */
  lemma {:induction false} VoteAcceptedExactly(h: Hasher, store: Store, org: Text, actor: Text, id: nat, now: nat)
    requires StoreSound(h, store)
    ensures var (after, result) := Approve(store, org, actor, id, now);
      && (result == Done <==> MayVote(store, org, actor, id, now))
      && (result != Done ==> after == store)
      && (result == Done ==> actor in Voters(VotesFor(after.votes, id)))
      && (result == Done ==>
            (after.approvals[id].status == Approved <==> |VotesFor(after.votes, id)| == store.approvals[id].subject.required))
  {
    VoteSound(h, store, org, actor, id, now);
    VoterHasVoted(store.votes, id, actor);
    var (after, result) := Approve(store, org, actor, id, now);
    if result == Done {
      assert RowSound(h, store, id) && RowSound(h, after, id);
      VoteAppended(store.votes, Vote(id, actor, now), id);
      VoterHasVoted(after.votes, id, actor);
      assert after.votes[|store.votes|] == Vote(id, actor, now);
    }
  }

  /** A denial takes effect exactly when the approval is open and the operator is not its requester. */
  lemma {:induction false} DenialAcceptedExactly(h: Hasher, store: Store, org: Text, actor: Text, id: nat, now: nat)
    requires StoreSound(h, store)
    ensures var (after, result) := Deny(store, org, actor, id, now);
      && (result == Done <==> OpenAt(store, org, id, now) && actor != store.approvals[id].subject.connection)
      && (if result == Done then after.approvals[id].status == Denied else after == store)
  {
    DenySound(h, store, org, actor, id, now);
  }

  /** Of the consumers that hold a ticket, the first to commit while the approval is approved succeeds, and the
      audit and consumption tables never stand in its way. */
  lemma {:induction false} CommitSucceedsExactly(h: Hasher, store: Store, caller: Consumer, id: nat, contextHash: Text)
    requires StoreSound(h, store)
    ensures var (after, result) := CommitConsume(store, caller, id, contextHash);
      && (result == Done <==> Exists(store, caller.org, id) && store.approvals[id].status == Approved)
      && (if result == Done then after.approvals[id].status == Consumed else after == store)
  {
    CommitSound(h, store, caller, id, contextHash);
  }
}
