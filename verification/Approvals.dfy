/** Approval requests: votes towards a quorum, denial, and consumption in two phases. */
module Approvals {
  import opened Options
  import opened CodeUnits
  import opened JsonDocuments
  import opened JsValues
  import opened CanonicalJson
  import opened AuditRecords

  /** Instants in milliseconds. */
  const APPROVAL_WINDOW: nat := 15 * 60 * 1000

  datatype Status = Pending | Approved | Denied | Consumed | Expired

  datatype Target = Target(kind: Text, id: Option<Text>)

  /** What is asked for; `agent` acts through `connection`, which becomes `requested_by`. */
  datatype Subject = Subject(
    org: Text, agent: Text, connection: Text, decision: Text, action: Text, target: Target, context: Value, required: nat)

  datatype Approval = Approval(subject: Subject, contextHash: Text, expiresAt: nat, status: Status)

  datatype Vote = Vote(approvalId: nat, actor: Text, at: nat)

  datatype Consumption = Consumption(approvalId: nat, decision: Text, connection: Text, contextHash: Text)

  datatype AuditKind = Requested | Granted | Refused | Used

  /** The idempotency key `approval.<kind>:<id>`. */
  datatype AuditKey = AuditKey(kind: AuditKind, approvalId: nat)

  /** The tables; an approval's id is its index. */
  datatype Store = Store(approvals: seq<Approval>, votes: seq<Vote>, consumptions: seq<Consumption>, auditKeys: seq<AuditKey>)

  datatype Result =
    | Done
    | NotFound
    | NotPending
    | SelfApproval
    | AlreadyVoted
    | Forbidden
    | DecisionMismatch
    | NotApproved
    | ApprovalExpired
    /** The store refused or the audit writer threw; the transaction was rolled back. */
    | Failed

  // ---- the context hash ----

  const ACTION: Text := Ascii("action")
  const CONTEXT: Text := Ascii("context")
  const TARGET: Text := Ascii("target")
  const ID: Text := Ascii("id")
  const TYPE: Text := Ascii("type")

  function TargetDoc(target: Target): Doc {
    DObject([Member(ID, HashDoc(target.id)), Member(TYPE, DString(target.kind))])
  }

  function ContextDoc(action: Text, target: Target, context: Value): Doc
    requires Supported(context)
  {
    DObject([Member(ACTION, DString(action)), Member(CONTEXT, ToDoc(context)), Member(TARGET, TargetDoc(target))])
  }

  function ContextText(h: Hasher, action: Text, target: Target, context: Value): Text
    requires Supported(context)
  {
    CanonicalText(h.leq, ContextDoc(action, target, context))
  }

  lemma {:induction false} ContextWellFormed(action: Text, target: Target, context: Value)
    requires Supported(context) && WellFormedValue(context)
    ensures WellFormed(ContextDoc(action, target, context)) && WellFormed(TargetDoc(target))
  {
    ToDocWellFormed(context);
    assert |ID| == 2 && |TYPE| == 4 && |ACTION| == 6 && |CONTEXT| == 7 && |TARGET| == 6 && ACTION[0] != TARGET[0];
  }

  lemma {:induction false} TargetDetermined(a: Target, b: Target)
    requires Meaning(TargetDoc(a)) == Meaning(TargetDoc(b)) && WellFormed(TargetDoc(a)) && WellFormed(TargetDoc(b))
    ensures a == b
  {
    forall i | 0 <= i < 2 ensures Meaning(TargetDoc(a).members[i].doc) == Meaning(TargetDoc(b).members[i].doc) {
      MemberHeld(TargetDoc(a).members, i);
      MemberHeld(TargetDoc(b).members, i);
    }
    assert TargetDoc(a).members[0].doc == HashDoc(a.id) && TargetDoc(b).members[0].doc == HashDoc(b.id);
    assert TargetDoc(a).members[1].doc == DString(a.kind) && TargetDoc(b).members[1].doc == DString(b.kind);
  }

  /** The hashed text fixes the action, the target and the context up to the order of its properties. */
  lemma {:induction false} ContextTextFixes(h: Hasher, a: Subject, b: Subject)
    requires Supported(a.context) && WellFormedValue(a.context) && Supported(b.context) && WellFormedValue(b.context)
    requires ContextText(h, a.action, a.target, a.context) == ContextText(h, b.action, b.target, b.context)
    ensures a.action == b.action && a.target == b.target && Meaning(ToDoc(a.context)) == Meaning(ToDoc(b.context))
  {
    var d, e := ContextDoc(a.action, a.target, a.context), ContextDoc(b.action, b.target, b.context);
    ContextWellFormed(a.action, a.target, a.context);
    ContextWellFormed(b.action, b.target, b.context);
    CanonicalTextDeterminesMeaning(h.leq, d, e);
    forall i | 0 <= i < 3 ensures Meaning(d.members[i].doc) == Meaning(e.members[i].doc) {
      MemberHeld(d.members, i);
      MemberHeld(e.members, i);
    }
    ContextParts(d.members, e.members, a, b);
  }

  lemma {:induction false} ContextParts(ms: seq<Member>, ns: seq<Member>, a: Subject, b: Subject)
    requires Supported(a.context) && Supported(b.context)
    requires ms == ContextDoc(a.action, a.target, a.context).members && ns == ContextDoc(b.action, b.target, b.context).members
    requires WellFormed(TargetDoc(a.target)) && WellFormed(TargetDoc(b.target))
    requires |ms| == |ns| == 3 && forall i :: 0 <= i < 3 ==> Meaning(ms[i].doc) == Meaning(ns[i].doc)
    ensures a.action == b.action && a.target == b.target && Meaning(ToDoc(a.context)) == Meaning(ToDoc(b.context))
  {
    assert ms[0].doc == DString(a.action) && ns[0].doc == DString(b.action);
    assert ms[1].doc == ToDoc(a.context) && ns[1].doc == ToDoc(b.context);
    assert ms[2].doc == TargetDoc(a.target) && ns[2].doc == TargetDoc(b.target);
    TargetDetermined(a.target, b.target);
  }

  // ---- reading ----

  function VotesFor(votes: seq<Vote>, id: nat): seq<Vote> {
    if votes == [] then []
    else
      var n := |votes| - 1;
      VotesFor(votes[..n], id) + if votes[n].approvalId == id then [votes[n]] else []
  }

  predicate HasVoted(votes: seq<Vote>, id: nat, actor: Text) {
    exists i :: 0 <= i < |votes| && votes[i].approvalId == id && votes[i].actor == actor
  }

  function ConsumptionsFor(consumptions: seq<Consumption>, id: nat): nat {
    if consumptions == [] then 0
    else
      var n := |consumptions| - 1;
      ConsumptionsFor(consumptions[..n], id) + if consumptions[n].approvalId == id then 1 else 0
  }

  predicate Exists(store: Store, org: Text, id: nat) {
    id < |store.approvals| && store.approvals[id].subject.org == org
  }

  // ---- the transactions ----

  /** An audit write under a key that is taken by another body throws, and the transaction is rolled back. */
  function Audited(before: Store, after: Store, key: AuditKey): (Store, Result) {
    if key in before.auditKeys then (before, Failed) else (after.(auditKeys := before.auditKeys + [key]), Done)
  }

  /** `required_approvals >= 1` is a check of the table. */
  function Create(h: Hasher, store: Store, subject: Subject, now: nat): (Store, Result) {
    if !Supported(subject.context) || subject.required < 1 then (store, Failed)
    else
      var hash := h.sha(ContextText(h, subject.action, subject.target, subject.context));
      var row := Approval(subject, hash, now + APPROVAL_WINDOW, Pending);
      Audited(store, store.(approvals := store.approvals + [row]), AuditKey(Requested, |store.approvals|))
  }

  function Approve(store: Store, org: Text, actor: Text, id: nat, now: nat): (Store, Result) {
    if !Exists(store, org, id) || store.approvals[id].status != Pending || store.approvals[id].expiresAt <= now then (store, NotPending)
    else if store.approvals[id].subject.connection == actor then (store, SelfApproval)
    else if HasVoted(store.votes, id, actor) then (store, AlreadyVoted)
    else
      var row := store.approvals[id];
      var voted := store.(votes := store.votes + [Vote(id, actor, now)]);
      if |VotesFor(store.votes, id)| + 1 < row.subject.required then (voted, Done)
      else Audited(store, voted.(approvals := store.approvals[id := row.(status := Approved)]), AuditKey(Granted, id))
  }

  function Deny(store: Store, org: Text, actor: Text, id: nat, now: nat): (Store, Result) {
    if !Exists(store, org, id) || store.approvals[id].status != Pending || store.approvals[id].expiresAt <= now then (store, NotPending)
    else if store.approvals[id].subject.connection == actor then (store, SelfApproval)
    else
      Audited(store, store.(approvals := store.approvals[id := store.approvals[id].(status := Denied)]), AuditKey(Refused, id))
  }

  /** Who calls `consumeApproval`, and for which decision. */
  datatype Consumer = Consumer(org: Text, connection: Text, agent: Text, decision: Text)

  function EffectiveStatus(row: Approval, now: nat): Status {
    if row.status == Pending && row.expiresAt <= now then Expired else row.status
  }

  /** The checks before the transaction; `denied` is what the policy says now. */
  function CheckConsume(store: Store, caller: Consumer, id: nat, now: nat, denied: bool): Result {
    if !Exists(store, caller.org, id) then NotFound
    else
      var row := store.approvals[id];
      if row.subject.connection != caller.connection || row.subject.agent != caller.agent then Forbidden
      else if row.subject.decision != caller.decision then DecisionMismatch
      else if EffectiveStatus(row, now) != Approved then NotApproved
      else if row.expiresAt <= now then ApprovalExpired
      else if denied then Forbidden
      else Done
  }

  /** The compare-and-set; `contextHash` is carried over from the check. */
  function CommitConsume(store: Store, caller: Consumer, id: nat, contextHash: Text): (Store, Result) {
    if !Exists(store, caller.org, id) || store.approvals[id].status != Approved then (store, NotApproved)
    else if ConsumptionsFor(store.consumptions, id) > 0 then (store, Failed)
    else
      Audited(store,
              store.(approvals := store.approvals[id := store.approvals[id].(status := Consumed)],
                     consumptions := store.consumptions + [Consumption(id, caller.decision, caller.connection, contextHash)]),
              AuditKey(Used, id))
  }

  // ---- the store ----

  class ApprovalStore {
    var approvals: seq<Approval>
    var votes: seq<Vote>
    var consumptions: seq<Consumption>
    var auditKeys: seq<AuditKey>

    constructor ()
      ensures Contents() == Store([], [], [], [])
    {
      approvals, votes, consumptions, auditKeys := [], [], [], [];
    }

    function Contents(): Store
      reads this
    {
      Store(approvals, votes, consumptions, auditKeys)
    }

    method Rollback(before: Store)
      modifies this
      ensures Contents() == before
    {
      approvals, votes, consumptions, auditKeys := before.approvals, before.votes, before.consumptions, before.auditKeys;
    }

    method RecordAudit(key: AuditKey) returns (ok: bool)
      modifies this`auditKeys
      ensures ok == (key !in old(auditKeys))
      ensures auditKeys == if ok then old(auditKeys) + [key] else old(auditKeys)
    {
      ok := key !in auditKeys;
      if ok { auditKeys := auditKeys + [key]; }
    }

    method CreateApprovalRequest(h: Hasher, subject: Subject, now: nat) returns (r: Result)
      modifies this
      ensures (Contents(), r) == Create(h, old(Contents()), subject, now)
    {
      if !Supported(subject.context) || subject.required < 1 { return Failed; }
      var before := Contents();
      var id := |approvals|;
      var hash := h.sha(ContextText(h, subject.action, subject.target, subject.context));
      approvals := approvals + [Approval(subject, hash, now + APPROVAL_WINDOW, Pending)];
      var ok := RecordAudit(AuditKey(Requested, id));
      if !ok {
        Rollback(before);
        return Failed;
      }
      r := Done;
    }

    method ApproveApproval(org: Text, actor: Text, id: nat, now: nat) returns (r: Result)
      modifies this
      ensures (Contents(), r) == Approve(old(Contents()), org, actor, id, now)
    {
      if !Exists(Contents(), org, id) || approvals[id].status != Pending || approvals[id].expiresAt <= now { return NotPending; }
      if approvals[id].subject.connection == actor { return SelfApproval; }
      if HasVoted(votes, id, actor) { return AlreadyVoted; }
      var before := Contents();
      var votesCount := |VotesFor(votes, id)| + 1;
      votes := votes + [Vote(id, actor, now)];
      var quorumReached := votesCount >= approvals[id].subject.required;
      if quorumReached {
        approvals := approvals[id := approvals[id].(status := Approved)];
        var ok := RecordAudit(AuditKey(Granted, id));
        if !ok {
          Rollback(before);
          return Failed;
        }
      }
      r := Done;
    }

    method DenyApproval(org: Text, actor: Text, id: nat, now: nat) returns (r: Result)
      modifies this
      ensures (Contents(), r) == Deny(old(Contents()), org, actor, id, now)
    {
      var before := Contents();
      if Exists(before, org, id) && approvals[id].status == Pending && approvals[id].expiresAt > now && approvals[id].subject.connection != actor {
        approvals := approvals[id := approvals[id].(status := Denied)];
        var ok := RecordAudit(AuditKey(Refused, id));
        if !ok {
          Rollback(before);
          return Failed;
        }
        return Done;
      }
      var selfDenial := Exists(before, org, id) && approvals[id].status == Pending && approvals[id].expiresAt > now;
      r := if selfDenial then SelfApproval else NotPending;
    }

    method ConsumeCommit(caller: Consumer, id: nat, contextHash: Text) returns (r: Result)
      modifies this
      ensures (Contents(), r) == CommitConsume(old(Contents()), caller, id, contextHash)
    {
      if !Exists(Contents(), caller.org, id) || approvals[id].status != Approved { return NotApproved; }
      var before := Contents();
      approvals := approvals[id := approvals[id].(status := Consumed)];
      if ConsumptionsFor(consumptions, id) > 0 {
        Rollback(before);
        return Failed;
      }
      consumptions := consumptions + [Consumption(id, caller.decision, caller.connection, contextHash)];
      var ok := RecordAudit(AuditKey(Used, id));
      if !ok {
        Rollback(before);
        return Failed;
      }
      r := Done;
    }
  }
}
