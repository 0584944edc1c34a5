# Verified model of AgentOps: evidence, governed execution, approvals and their smaller protocols

The project models the parts of AgentOps that keep state and promise something about whole runs, and proves
those promises for every input, every interleaving and every reachable state.

- **Evidence.** A payload is redacted, put into a canonical body, printed to canonical JSON and hashed; events are
  linked into one chain for each organisation; a verifier walks the chain page by page and compares it with a head
  row kept apart. `JsonText` prints documents and parses them back (RFC 8259, sections 3 to 7), `CanonicalJson` adds
  the key order, `ObjectGraph` and `GraphEncoding` treat the encoder on arbitrary object graphs, `Redaction*` the
  redaction, and `Audit*` the writer, the paged verifier and what each guarantees about the other.
- **Governed execution (.NET).** Agents with daily budgets request actions; ordered guards allow, deny or hand them to
  a person; a worker settles what a queue delivers. `GovernanceEntities` holds the entities as classes,
  `GovernanceServices` the services, `GovernanceRuns` every interleaving of them with an unreliable queue, and
  `GovernanceAuthorisation`, `GovernanceLedger` and `GovernanceBudget` the properties over runs.
- **Quorum approvals.** `Approvals` and `ApprovalRuns`: votes, denial, and consumption in two separate steps.
- **Agent hierarchy.** `AgentHierarchy`: the parent forest and the ancestor query that guards it.
- **Smaller protocols.** `JoinInvites`, `WalletSweep`, `FleetRun`, `HostAllowList` and `HostAgreement`.

Code that updates state is a class or a method with loops, proved against a specification function; the properties are
lemmas about that function. `dafny verify dfyconfig.toml` checks everything.

## Where the code does less than its documentation or its name suggests

Each of these is proved with the exact condition under which the code does keep the promise, and with a concrete case.

- Canonical JSON depends on insertion order when `localeCompare` ties two keys of one object, as it must the two
  spellings of an accented letter (`CanonicalJson.OrderIndependenceExact`, `CanonicalJson.AccentsCanDiffer`). A chain
  whose bodies hold such keys need not verify when the database returns them in another order
  (`AuditEvidence.AlwaysVerifiesExactly`).
- Redaction drops an own property named `__proto__`, and turns one that holds an object into a prototype; structure is
  kept, and a second pass changes nothing, exactly without such properties (`RedactionProperties.StructureKeptExactly`,
  `RedactionProperties.IdempotentExactly`, `RedactionProperties.ProtoDropped`, `RedactionProperties.ProtoNotStable`).
- A negative spend is accepted by every check of the .NET services, and then a charge that crosses midnight can pass the
  daily cap (`GovernanceBudget.CapsKeptExactly`, and a whole run of the services in `GovernanceBudget.RefundBreaksCap`).
- Two parent updates whose cycle checks both run before either write can close a cycle
  (`AgentHierarchy.ConcurrentMovesCanCycle`, `AgentHierarchy.ConcurrentMovesExactly`).
- Revoking an agent a second time under another actor, reason or list of chains is rolled back by the idempotency key;
  the list's order counts, and the query that makes it has none (`WalletSweep.RevokeConflictsExactly`,
  `WalletSweep.SecondRevocationCanFail`, `WalletSweep.RetryCanConflict`).
- A sweep whose later writes fail has paid without a posting; the books are off by exactly that amount
  (`WalletSweep.SweepsConserve`, `WalletSweep.SweepCanLosePosting`).
- A fleet run is marked failed with all eight items done exactly when the last item was stored as done and then the
  event with the brief, the completion of the row or the last event fails (`FleetRun.FleetRunExecution.ExecuteDone`,
  `FleetRun.DoneButFailed`).
- The receipts a fleet run reports are those of its own payments exactly when its second hop did not reuse a recent
  payment; else there is one more (`FleetRun.FleetRunExecution.ExecuteListing`, `FleetRun.ReusedHop`).

## Model

| member | source | states |
|---|---|---|
| JsonText.ParsePrint | apps/api/src/engines/evidence/canonical-json.ts:14-51 | a parser of RFC 8259 text reads back exactly the document that was printed, escapes included |
| JsonText.PrintInjective | apps/api/src/engines/evidence/canonical-json.ts:14-51 | two documents with the same text are the same document, member order included |
| JsonText.PrintWellFormed | apps/api/src/engines/evidence/canonical-json.ts:58-62 | the text has no unpaired surrogate, so encoding it as UTF-8 before hashing loses nothing |
| CanonicalJson.SortDocMeans | apps/api/src/engines/evidence/canonical-json.ts:45-48 | sorting the keys at every depth changes neither what a document means nor the uniqueness of its keys |
| CanonicalJson.CanonicalTextDeterminesMeaning | apps/api/src/engines/evidence/canonical-json.ts:12-52 | equal canonical texts mean documents equal up to member order, for any key order whatever |
| CanonicalJson.CanonicalInjectiveUpToOrder | apps/api/src/engines/evidence/canonical-json.ts:12-52 | when no object has two keys the comparator ties, canonical texts agree exactly when the documents agree up to member order at every depth |
| CanonicalJson.OrderIndependenceExact | apps/api/src/engines/evidence/canonical-json.ts:45-48 | the canonical text of a document ignores member order if and only if no object in it has two tied keys |
| CanonicalJson.AccentsCanDiffer | apps/api/src/engines/evidence/canonical-json.ts:45-48 | a concrete pair of keys that a comparator honouring canonical equivalence ties, and two insertion orders with different texts |
| ObjectGraph.EncodeCanonical | apps/api/src/engines/evidence/canonical-json.ts:12-52 | the recursive encoder over a heap, adding to and deleting from the seen set, terminates, computes the specified encoding and on success leaves the seen set as it found it |
| ObjectGraph.EncodeEachItem | apps/api/src/engines/evidence/canonical-json.ts:34-39 | the items of an array are encoded one after the other under the same seen set, or the first that throws ends it |
| ObjectGraph.EncodeEachProperty | apps/api/src/engines/evidence/canonical-json.ts:44-51 | the same for the sorted properties of an object |
| GraphEncoding.EncodesItsTree | apps/api/src/engines/evidence/canonical-json.ts:34-51 | from any object that unfolds to a finite tree, shared sub-objects included, the encoder returns the canonical text of that tree, or throws if the tree holds an unsupported value |
| GraphEncoding.RaisesExactly | apps/api/src/engines/evidence/canonical-json.ts:25-43 | the encoder throws exactly when a cycle or an unsupported value is reachable |
| GraphEncoding.EncodesExactly | apps/api/src/engines/evidence/canonical-json.ts:54-56 | the encoder returns a text exactly when the graph unfolds to a supported tree whose canonical text that is |
| GraphEncoding.EncodeFresh | apps/api/src/engines/evidence/canonical-json.ts:54-56 | the exported entry point starts from an empty seen set and meets that characterisation |
| Redaction.RedactValue | apps/api/src/engines/evidence/redaction.ts:45-78 | the flag-accumulating recursion computes the redaction of the value, or the marker under a sensitive parent key |
| Redaction.RedactArray | apps/api/src/engines/evidence/redaction.ts:54-62 | the array case: each item redacted in place, the flag up exactly when an item's is |
| Redaction.RedactObject | apps/api/src/engines/evidence/redaction.ts:64-75 | the object case: the property assignments in order, with the effect assigning to `__proto__` has |
| RedactionProperties.RedactClean | apps/api/src/engines/evidence/redaction.ts:45-82 | no sensitive string is left anywhere and every sensitive key carries the marker |
| RedactionProperties.FlagExact | apps/api/src/engines/evidence/redaction.ts:55-75 | `redacted` is reported exactly when a sensitive key or string was there |
| RedactionProperties.StructureKeptExactly | apps/api/src/engines/evidence/redaction.ts:64-75 | everything else is kept, in place and order, if and only if no reachable property is named `__proto__` |
| RedactionProperties.UnredactedExactly | apps/api/src/engines/evidence/redaction.ts:45-78 | with nothing sensitive the value comes back equal exactly if it has no `__proto__` property and only plain objects |
| RedactionProperties.IdempotentExactly | apps/api/src/engines/evidence/redaction.ts:80-82 | redacting twice is redacting once exactly when no `__proto__` property holds an object |
| RedactionProperties.ProtoDropped | apps/api/src/engines/evidence/redaction.ts:64-75 | a concrete harmless `__proto__` property that disappears |
| RedactionProperties.ProtoNotStable | apps/api/src/engines/evidence/redaction.ts:64-75 | a concrete object that a second pass changes again |
| Redaction.IsoNotSensitive | apps/api/src/engines/evidence/redaction.ts:64-64 | the ISO string of a Date, which redaction leaves alone, is never sensitive |
| RedactionOrder.RedactIgnoresOrder | apps/api/src/engines/evidence/redaction.ts:64-75 | listing properties in another order gives the same flag and a result that differs only in that order |
| RedactionOrder.ReorderedMeaning | apps/api/src/engines/evidence/canonical-json.ts:41-51 | values that differ only in property order are refused alike and, when accepted, mean the same document |
| AuditRecords.LinkTextDetermines | apps/api/src/engines/evidence/audit-query.ts:166-173 | the text under an event hash determines body hash, organisation, previous hash and sequence |
| AuditRecords.BodyTextDetermines | apps/api/src/engines/evidence/audit-query.ts:287-287 | the text under a body hash determines the body up to property order |
| AuditVerifier.VerifyAuditChain | apps/api/src/engines/evidence/audit-query.ts:263-338 | for every table and every page size of at least one the paged verification ends with the verdict, count and failing event of one pass over all rows with positive sequence |
| AuditVerifier.WalkPages | apps/api/src/engines/evidence/audit-query.ts:268-320 | the page loop, carrying hash, count and cursor across page boundaries, is the uninterrupted walk, also when the row count is a multiple of the page size |
| AuditVerifier.CheckPage | apps/api/src/engines/evidence/audit-query.ts:282-317 | walking one page continues the walk of the whole chain from where it stood |
| AuditVerifier.PageResumes | apps/api/src/engines/evidence/audit-query.ts:272-280 | the query after the last sequence seen returns exactly the rows not yet walked, in order |
| AuditVerifier.FirstFailure | apps/api/src/engines/evidence/audit-query.ts:287-313 | an invalid verdict names the first row that fails and the first of its checks to fail |
| AuditVerifier.ValidExactly | apps/api/src/engines/evidence/audit-query.ts:282-337 | valid means exactly that every row's hashes and link hold and the head, if present, counts the rows and names the last event |
| AuditWriter.AuditStore.RecordAuditEvent | apps/api/src/engines/evidence/audit-writer.ts:292-453 | one call: encoding, idempotency lookup, head row, append and head update, or no change at all |
| AuditWriter.AuditStore.AppendNext | apps/api/src/engines/evidence/audit-writer.ts:315-447 | the head is created if absent, the next event is linked to it and the head moves; a refused insert rolls everything back |
| AuditWriter.AuditStore.FindExisting | apps/api/src/engines/evidence/audit-writer.ts:299-313 | finds the organisation's event with the idempotency key, if there is one |
| AuditWriter.AuditStore.Verify | apps/api/src/engines/evidence/audit-query.ts:250-268 | verification of the live tables with the page size of the source |
| AuditWriter.OnlyOwnChainGrows | apps/api/src/engines/evidence/audit-writer.ts:299-345 | a replay, a conflict or an exception changes nothing; an append adds one row to its own chain and leaves the chains and heads of other organisations alone |
| AuditWriter.EveryRunIntact | apps/api/src/engines/evidence/audit-writer.ts:315-447 | after any calls in any interleaving each chain has sequences 1..n with its links, each head counts and names its chain's last event, and a key names at most one event |
| AuditEvidence.AcceptsExactly | apps/api/src/engines/evidence/audit-query.ts:282-337 | against the head the writer left, the verifier accepts a chain if and only if it is the written one, each body up to an order of its properties that keeps its canonical text; no assumption on the key order |
| AuditEvidence.TailDetermines | apps/api/src/engines/evidence/audit-query.ts:295-316 | backwards from the tail hash every earlier row is determined, absent a hash collision among the texts hashed |
| AuditEvidence.TamperEvident | apps/api/src/engines/evidence/audit-query.ts:252-262 | whatever is done to the event table after any run, verification with the untouched head succeeds exactly when nothing was dropped, inserted, altered or moved and every body keeps its canonical text; without tied keys the second condition holds by itself |
| AuditEvidence.WriterMeetsVerifier | apps/api/src/engines/evidence/audit-query.ts:322-337 | after any run whose bodies have no tied keys verification returns valid with the full count, however the database orders rows and properties |
| AuditEvidence.AlwaysVerifiesExactly | apps/api/src/engines/evidence/audit-query.ts:322-337 | absent a hash collision, verification succeeds however the database lists what a run wrote if and only if no body has tied keys |
| AuditEvidence.ReadBackChain | apps/api/src/engines/evidence/audit-query.ts:273-280 | sorting what was read back restores the chain as it was written |
| AuditEvidence.ReplayExactly | apps/api/src/engines/evidence/audit-writer.ts:299-313 | a call under a taken key never writes; it is a replay exactly when its body has the canonical text of the stored one, hence only for that body up to property order, and without tied keys exactly for that |
| AuditEvidence.BodyIgnoresOrder | apps/api/src/engines/evidence/audit-writer.ts:254-290 | reordering the properties of payload and envelope changes neither whether the body can be encoded nor what it means, and without tied keys not its hash |
| AuditEvidence.AppendsExactly | apps/api/src/engines/evidence/audit-writer.ts:344-438 | a call appends exactly when its body can be encoded, the columns take it and its key is new: no reachable table makes the insert clash |
| AuditEvidence.BodyRecords | apps/api/src/engines/evidence/audit-writer.ts:254-290 | the body keeps every envelope member, holds a clean payload and says `redacted` exactly when something sensitive was there |
| GovernanceEntities.AgentIdentity.ResetDailyBudgetIfExpired | dotnet/AgentOps.Domain/Entities/AgentIdentity.cs:78-85 | the budget is zeroed and dated by a second clock reading when the date has moved on, else left alone |
| GovernanceEntities.AgentIdentity.CanSpend | dotnet/AgentOps.Domain/Entities/AgentIdentity.cs:53-57 | may reset first, then answers whether an active agent has room for the amount |
| GovernanceEntities.AgentIdentity.RecordSpend | dotnet/AgentOps.Domain/Entities/AgentIdentity.cs:59-64 | may reset again, then adds the amount |
| GovernanceEntities.AgentIdentity.Suspend | dotnet/AgentOps.Domain/Entities/AgentIdentity.cs:66-70 | suspends the agent and changes nothing else, its budget included |
| GovernanceEntities.AgentIdentity.Activate | dotnet/AgentOps.Domain/Entities/AgentIdentity.cs:72-76 | activates the agent and changes nothing else |
| GovernanceEntities.AgentIdentity.AddToolPermission | dotnet/AgentOps.Domain/Entities/AgentIdentity.cs:39-51 | updates the grant of that tool if there is one, else appends an enabled one |
| GovernanceEntities.ApprovalWorkflow.ApproveBy | dotnet/AgentOps.Domain/Entities/ApprovalWorkflow.cs:28-42 | approves a pending workflow inside its window, expires it outside, refuses otherwise |
| GovernanceEntities.ApprovalWorkflow.RejectBy | dotnet/AgentOps.Domain/Entities/ApprovalWorkflow.cs:44-53 | rejects a pending workflow whatever the time, refuses otherwise |
| GovernanceEntities.ExecutionSession.PlanAction | dotnet/AgentOps.Domain/Entities/ExecutionSession.cs:28-34 | plans one queued action with the requested tool, amount and risk |
| GovernanceServices.AgentOpsContext.BeginRequest | dotnet/AgentOps.Application/Services/ExecutionLifecycleService.cs:35-40 | the first commit of a request: a session under evaluation and its queued action |
| GovernanceServices.AgentOpsContext.EvaluateExecution | dotnet/AgentOps.Application/Services/PolicyEvaluationService.cs:76-134 | the ordered, fail-closed guards and the reset that the budget check may leave behind |
| GovernanceServices.AgentOpsContext.FinishRequest | dotnet/AgentOps.Application/Services/ExecutionLifecycleService.cs:42-73 | the second commit: dispatch, approval workflow or audited denial |
| GovernanceServices.AgentOpsContext.SubmitDecision | dotnet/AgentOps.Application/Services/ApprovalWorkflowService.cs:46-84 | approval, rejection, expiry and refusal, a further decision on an expired workflow included, with their effects on session, action and queue, and when it succeeds |
| GovernanceServices.AgentOpsContext.ReconcileMessage | dotnet/AgentOps.Application/Services/ExecutionReconciliationService.cs:36-77 | settlement of any delivered message, the budget checked again first |
| GovernanceRuns.EveryRunSound | dotnet/AgentOps.Application/Services/ExecutionLifecycleService.cs:35-71 | in every committed state of every interleaving session, action and workflow stand in one row of a small fixed table |
| GovernanceRuns.ClosedUnchanged | dotnet/AgentOps.Application/Services/ApprovalWorkflowService.cs:71-79 | in every sound state a decision on a workflow that is no longer pending changes no row, although on an expired one session and action are written again |
| GovernanceAuthorisation.AllowedExactly | dotnet/AgentOps.Application/Services/PolicyEvaluationService.cs:82-133 | the evaluation allows exactly the requests that pass every guard, stated without order |
| GovernanceAuthorisation.NewestPolicyExactly | dotnet/AgentOps.Application/Services/PolicyEvaluationService.cs:113-122 | the policy applied is the organisation's newest active one, and none is found exactly when there is none |
| GovernanceAuthorisation.StartsExactly | dotnet/AgentOps.Application/Services/ApprovalWorkflowService.cs:56-62 | a step makes an action run if and only if its request passes every guard or its pending workflow, for exactly its amount, is approved inside the window |
| GovernanceAuthorisation.RunsOnlyAuthorised | dotnet/AgentOps.Application/Services/ExecutionReconciliationService.cs:45-65 | over every run an executing or completed action was authorised by some earlier step |
| GovernanceAuthorisation.SettlesExactly | dotnet/AgentOps.Application/Services/ExecutionReconciliationService.cs:41-64 | a delivery settles exactly when it names an executing action whose active agent has room that day; stale and forged messages change nothing |
| GovernanceLedger.EveryRunBalanced | dotnet/AgentOps.Infrastructure/Persistence/SqlQueries/AuditMetricsRawSqlService.cs:29-57 | an action has one settlement event if completed and none otherwise, and each organisation's audited capital is the sum of what its agents' sessions executed |
| GovernanceLedger.SettlementBalances | dotnet/AgentOps.Application/Services/ExecutionReconciliationService.cs:64-75 | adding one action's amount to its session and, with one event, to its organisation's audited capital keeps the balance |
| GovernanceLedger.SettledRow | dotnet/AgentOps.Application/Services/ExecutionReconciliationService.cs:64-75 | the settlement of an executing action does exactly that |
| GovernanceBudget.SpentTodayExact | dotnet/AgentOps.Domain/Entities/AgentIdentity.cs:59-64 | in every run, whatever the amounts, SpentTodayUsd is the sum of the charges dated BudgetResetDateUtc |
| GovernanceBudget.ChargedOnItsDay | dotnet/AgentOps.Domain/Entities/AgentIdentity.cs:78-85 | a charge is dated by the last clock reading of its own recording |
| GovernanceBudget.DailyBudgetKept | dotnet/AgentOps.Application/Services/ExecutionReconciliationService.cs:52-64 | without negative amounts the charges of any one day stay within the cap in every run, wherever midnight falls |
| GovernanceBudget.CapsKeptExactly | dotnet/AgentOps.Application/Services/ExecutionReconciliationService.cs:53-64 | with any amounts, caps are kept throughout a run if and only if no settlement charges more than the cap across a midnight |
| GovernanceBudget.SettleKeepsCapExactly | dotnet/AgentOps.Domain/Entities/AgentIdentity.cs:53-64 | one settlement stays within the cap exactly when no midnight falls inside it or the amount alone fits |
| GovernanceBudget.RefundBreaksCap | dotnet/AgentOps.Application/Services/ExecutionReconciliationService.cs:53-64 | a concrete run, from registration to settlement, whose refund and charge across midnight pass the cap |
| Approvals.ApprovalStore.CreateApprovalRequest | apps/api/src/engines/approvals/store.ts:278-377 | a pending approval with its window, quorum, context hash and audit record, or nothing |
| Approvals.ApprovalStore.ApproveApproval | apps/api/src/engines/approvals/store.ts:398-525 | one vote, which approves when it completes the quorum, or a refusal that changes nothing |
| Approvals.ApprovalStore.DenyApproval | apps/api/src/engines/approvals/store.ts:527-595 | a denial of an open approval by someone else, or a refusal that changes nothing |
| Approvals.ApprovalStore.ConsumeCommit | apps/api/src/engines/approvals/store.ts:655-715 | the compare-and-set with its consumption row and audit record, or nothing |
| Approvals.ContextTextFixes | apps/api/src/engines/approvals/store.ts:221-234 | the hashed text determines action, target and context up to property order |
| ApprovalRuns.QuorumOverRuns | apps/api/src/engines/approvals/store.ts:420-471 | an approved or consumed approval has exactly its required number of votes from different operators, never its requester, all before expiry; any other has fewer |
| ApprovalRuns.StatusAbsorbs | apps/api/src/engines/approvals/store.ts:534-549 | denied and consumed are final, approved ends at most in consumed, and subject, quorum, window and hash never change |
| ApprovalRuns.ConsumptionWasChecked | apps/api/src/engines/approvals/store.ts:626-653 | behind each consumption stands a passed check that saw an approved, unexpired record for the same connection, decision and context hash |
| ApprovalRuns.ConsumedOnce | apps/api/src/engines/approvals/store.ts:655-679 | however checks and commits interleave, an approval has at most one consumption |
| ApprovalRuns.ConsumptionFixesContext | apps/api/src/engines/approvals/store.ts:670-674 | the hash recorded with a consumption fixes the requested action, target and context |
| ApprovalRuns.EveryRunSound | apps/api/src/engines/approvals/store.ts:489-491 | each per-approval audit key is written exactly when its transition happens, hence once, in every reachable state |
| ApprovalRuns.VoteAcceptedExactly | apps/api/src/engines/approvals/store.ts:429-459 | a vote counts exactly when the approval is open and the operator is neither its requester nor a voter already; it approves exactly at the quorum, and no audit key stops it |
| ApprovalRuns.DenialAcceptedExactly | apps/api/src/engines/approvals/store.ts:535-554 | a denial takes effect exactly when the approval is open and the operator is not its requester |
| ApprovalRuns.CommitSucceedsExactly | apps/api/src/engines/approvals/store.ts:656-674 | a commit succeeds exactly when the approval is still approved |
| AgentHierarchy.AgentStore.WouldCreateParentCycle | apps/api/src/engines/identity/store.ts:519-543 | on every org-local forest the recursive query ends and answers whether the agent is the parent or among its ancestors |
| AgentHierarchy.AgentStore.UpdateAgent | apps/api/src/engines/identity/store.ts:1507-1552 | moves the agent, or refuses a missing row, a parent elsewhere or a cycle |
| AgentHierarchy.AgentStore.CreateAgent | apps/api/src/engines/identity/store.ts:1461-1505 | adds an agent under a parent of its organisation or under none |
| AgentHierarchy.CycleExactly | apps/api/src/engines/identity/store.ts:528-542 | the new edge breaks the forest if and only if the query finds the agent above the parent |
| AgentHierarchy.EveryRunForest | apps/api/src/engines/identity/store.ts:1507-1552 | after any creations and updates the parents form a forest inside each organisation |
| AgentHierarchy.RefusedExactly | apps/api/src/engines/identity/store.ts:1520-1522 | an update is refused as a cycle exactly when carrying it out would make one |
| AgentHierarchy.UnchangedAccepted | apps/api/src/engines/identity/store.ts:1516-1522 | an update that keeps the parent is never refused |
| AgentHierarchy.ConcurrentMovesExactly | apps/api/src/engines/identity/store.ts:1520-1526 | when two checks precede two writes the forest survives exactly if the second check would also pass after the first write |
| AgentHierarchy.ConcurrentMovesCanCycle | apps/api/src/engines/identity/store.ts:1520-1526 | two roots moved under each other pass both checks and form a cycle |
| JoinInvites.InviteStore.ReserveUse | apps/api/src/engines/agent-join/store.ts:253-288 | reserves a use of an invite that is live, or refuses with the first reason that applies |
| JoinInvites.InviteStore.GiveBack | apps/api/src/engines/agent-join/store.ts:299-306 | the compensating decrement, clamped at zero |
| JoinInvites.InviteStore.RedeemInvite | apps/api/src/engines/agent-join/store.ts:241-320 | undisturbed, a failed provisioning leaves the invites as they were and a successful one uses exactly one |
| JoinInvites.InviteStore.RevokeInvite | apps/api/src/engines/agent-join/store.ts:204-239 | revokes an invite once |
| JoinInvites.UsesOverRuns | apps/api/src/engines/agent-join/store.ts:279-306 | joined plus in flight is at most the use count, which is at most the limit, with equality on the left exactly when no use was lost |
| JoinInvites.ClampNeverTaken | apps/api/src/engines/agent-join/store.ts:300-304 | when a use is given back the count is at least one |
| JoinInvites.NothingReservedAfterRevocation | apps/api/src/engines/agent-join/store.ts:273-275 | a revoked invite stays revoked and gains no attempt |
| JoinInvites.ReservedExactly | apps/api/src/engines/agent-join/store.ts:269-281 | a use is reserved exactly when the invite is live and fewer attempts hold a use than it allows |
| WalletSweep.UsdcReadsBack | apps/api/src/engines/payments/agent-revocation.ts:131-135 | the formatted amount, with or without a minus sign, reads back as exactly its micros |
| WalletSweep.SweepLeavesSmaller | apps/api/src/engines/payments/agent-revocation.ts:32-35 | what stays is the smaller of balance and reserve |
| WalletSweep.SweepStore.RevokeAgent | apps/api/src/engines/payments/agent-revocation.ts:46-115 | suspension, one queued job for each active wallet and the audit record, or nothing |
| WalletSweep.SweepStore.ProcessSweepJob | apps/api/src/engines/payments/agent-revocation.ts:150-249 | one run of a sweep job, with every point at which the world may fail it |
| WalletSweep.SweepsConserve | apps/api/src/engines/payments/agent-revocation.ts:200-238 | over every run the treasury received the negated postings plus what was paid and never posted; when later writes succeed that is the postings alone and no wallet pays twice |
| WalletSweep.SweepCanLosePosting | apps/api/src/engines/payments/agent-revocation.ts:200-238 | a concrete run that pays and posts nothing |
| WalletSweep.SweepTakesTheRest | apps/api/src/engines/payments/agent-revocation.ts:197-211 | a payment takes all above the reserve from one wallet and touches no other |
| WalletSweep.PaysExactly | apps/api/src/engines/payments/agent-revocation.ts:178-211 | a job pays exactly when it names an active wallet holding more than the reserve and nothing outside fails |
| WalletSweep.CompletesExactly | apps/api/src/engines/payments/agent-revocation.ts:213-248 | a run completes its job exactly when it writes a posting; else the job fails, and no other job changes |
| WalletSweep.PostsWhatItPays | apps/api/src/engines/payments/agent-revocation.ts:228-238 | a sweep whose writes all succeed posts exactly what it paid |
| WalletSweep.RerunPaysNothing | apps/api/src/engines/payments/agent-revocation.ts:178-186 | running a job again after its wallet is swept moves no money and marks the job failed |
| WalletSweep.RevokeConflictsExactly | apps/api/src/engines/payments/agent-revocation.ts:54-113 | over every run a revocation succeeds if and only if no earlier one of the agent succeeded with another actor, reason or list of chains; refused it changes nothing, else the agent is suspended with a job for each chain |
| WalletSweep.RecordedIsRevoked | apps/api/src/engines/payments/agent-revocation.ts:90-113 | what is recorded for an agent is the body of a revocation that succeeded, and all that succeeded had the same |
| WalletSweep.SecondRevocationCanFail | apps/api/src/engines/payments/agent-revocation.ts:90-113 | a concrete run that leaves a re-activated agent active after a second revocation |
| WalletSweep.RetryCanConflict | apps/api/src/engines/payments/agent-revocation.ts:69-113 | a concrete identical second revocation that is refused because the query lists two wallets the other way round |
| WalletSweep.ActiveChainsExactly | apps/api/src/engines/payments/agent-revocation.ts:69-74 | the chains with a job are exactly those of the agent's active wallets |
| FleetRun.FleetRunExecution.Execute | apps/api/src/engines/fleet-run/executor.ts:72-393 | from planned, whatever each await answers: the exact final status; how many items are done and the shape of the checklist; with all eight done five payment or service events; each payment event has its receipt; the receipts are those of the payments that returned, and one more exactly when the second hop reused one; events are numbered 1..n; the run reports completion or failure exactly when it should |
| FleetRun.FleetRunExecution.ExecuteListing | apps/api/src/engines/fleet-run/executor.ts:331-389 | the event with the brief of a completed run, and the failure event of a failed one, list exactly the payments whose calls returned if and only if the second hop reused none |
| FleetRun.FleetRunExecution.ExecuteDone | apps/api/src/engines/fleet-run/executor.ts:331-377 | a run ends failed with all eight items done if and only if everything up to storing the last item returned, one of the three writes behind it failed, and the failure could be stored |
| FleetRun.DoneButFailed | apps/api/src/engines/fleet-run/executor.ts:331-377 | a concrete run, everything reachable but the event with the brief, that ends failed with all eight items done |
| FleetRun.ReusedHop | apps/api/src/engines/fleet-run/executor.ts:267-297 | a concrete completed run whose brief lists one receipt more than it made payments |
| FleetRun.FleetRunExecution.Hire | apps/api/src/engines/fleet-run/executor.ts:187-261 | one hire, live or from the catalog, finishes exactly when its awaits return, with one item done and one payment or service event, wherever it may fail |
| FleetRun.FleetRunExecution.HopAgain | apps/api/src/engines/fleet-run/executor.ts:266-319 | the second hop: finished exactly when its awaits return, with a payment event for a new or a reused payment, which the books keep apart, or a catalog event |
| FleetRun.FleetRunExecution.SettleHop | apps/api/src/engines/fleet-run/executor.ts:267-297 | a recent payment that is found is pushed as a receipt without any call; else the receipt is of a payment that returned |
| FleetRun.FleetRunExecution.Prepare | apps/api/src/engines/fleet-run/executor.ts:104-185 | opening, plan, onboarding and wiring charge nothing, and succeed exactly when their awaits return and nobody needed is offline |
| FleetRun.FleetRunExecution.AssembleBrief | apps/api/src/engines/fleet-run/executor.ts:324-336 | the last item is done exactly when the brief, the activity and its two updates succeed |
| FleetRun.FleetRunExecution.Conclude | apps/api/src/engines/fleet-run/executor.ts:331-360 | the event with the brief, the completed row and the last event, in this order |
| FleetRun.FleetRunExecution.RecordFailure | apps/api/src/engines/fleet-run/executor.ts:362-389 | the running item fails, the run fails, and the event carries the receipts so far |
| FleetRun.FleetRunExecution.AppendEvent | apps/api/src/engines/fleet-run/store.ts:130-175 | the next event gets one more than the highest number |
| FleetRun.FleetRunExecution.SetItem | apps/api/src/engines/fleet-run/executor.ts:45-59 | the marked checklist is stored and kept, or neither |
| FleetRun.MarkMoves | apps/api/src/engines/fleet-run/store.ts:210-216 | marking the item next in line keeps the shape done, then one, then pending |
| FleetRun.FailMoves | apps/api/src/engines/fleet-run/executor.ts:368-370 | failing the running item keeps that shape |
| FleetRun.CanonicalChecklist | apps/api/src/engines/fleet-run/types.ts:52-119 | the eight items in the order the executor walks them, all pending |
| HostAllowList.NamesMeetReference | apps/mcp/src/http-config.ts:168-195 | both implementations accept a hostname exactly when it is an IPv4 address or meets the length, label and non-numeric rules |
| HostAllowList.ConfigMeetsReference | apps/mcp/src/http-config.ts:155-196 | the configuration normaliser on a host and optional port |
| HostAllowList.HandlerMeetsReference | apps/mcp/src/http-handler.ts:58-89 | the request normaliser on a host and optional port |
| HostAgreement.NormalisersAgree | apps/mcp/src/http-handler.ts:50-89 | on every text the two normalisers accept alike with the same result |
| HostAgreement.NormalisersIdempotent | apps/mcp/src/http-config.ts:155-196 | normalising again changes nothing, in either implementation, for names, IPv4 and bracketed IPv6 addresses |
| HostAgreement.HandlerAccepts | apps/mcp/src/http-handler.ts:91-98 | a request host whose lower case is a canonical name normalises to that lower case |
| HostAgreement.HandlerAcceptsAddress | apps/mcp/src/http-handler.ts:51-57 | the same for a canonical IPv6 address in brackets, in any letter case |
| HostAgreement.AdmittedExactly | apps/mcp/src/http-handler.ts:91-98 | a request with one Host header, whatever it holds, is admitted exactly when the header in lower case is in the parsed allow-list |
| HostAgreement.WithoutRepeatsSame | apps/mcp/src/http-config.ts:198-203 | the list holds each normalised host once |

## Left out

- SHA-256 itself: a parameter; collision freedom is assumed only between the texts actually hashed by the writer and the verifier, or for the two texts compared.
- Locale collation: `localeCompare` is a parameter, any total preorder; results that need a total preorder or the absence of ties say so in their hypotheses, and what ties break is proved too.
- Numbers are known by the text they print to; which double a numeral stands for, sequences beyond 2^53 and the jsonb column's number form are not modelled.
- Holes in sparse arrays, getters, proxies and `toJSON` on the values handed to the encoder.
- The drivers and columns that take an event's values: whether an insert is accepted is a parameter of the writer (`accepts`), and so are the random ids.
- The envelope's defaults and tag cleaning in `buildCanonicalBody`: an input carries the envelope members already filled in.
- AuditEvidence.TamperEvident: does not cover ids, idempotency keys and columns outside the canonical body, because the verifier does not read them.
- Letters outside ASCII: only the Kelvin sign and the dotted capital I are lowered, the only ones whose lower case holds an ASCII letter. A regular expression's optional tail that can match nothing is dropped.
- The deletion of an audit head: a missing head row makes any well-linked chain valid, as in the source.
- SQL Server, EF Core and column scales: amounts are integers in the smallest unit, a service call is one atomic committed step, a request is two, and two settlements of one action racing inside the database are not modelled.
- Liveness of settlement: a message can be lost for good, so only safety is stated.
- Payload text, reasons, error messages and risk heuristics of the .NET entities; tool names are compared by their case-folded form; policies are never deactivated, because no service does.
- A vote count read under a lock wait may be stale in PostgreSQL; each approval transaction is one atomic step here.
- The operator's note, activity items and the policy engine behind `consumeApproval`, whose answer is a parameter.
- Teams, labels and the other columns of agents; agents are never deleted.
- Agents left behind by a provisioning that failed half way: an invite counts a joined agent when provisioning returns.
- Re-executing a failed fleet run and two executors of one run: the checklist is not reset and the run row is not locked by the source.
- What narration, probes, payments and the activity record compute: each call outside returns or throws.
- The order in which the wallet query of a revocation returns its rows: a parameter, any order of the active wallets' chains.
- Gas actually burnt by a transfer, and a provider that throws after it has paid.
- The platform's IPv6 parser and serializer: a parameter with the assumptions of `HostAgreement.Ipv6Sane` (canonical results are addresses in brackets, parse to themselves, and letter case does not matter); an address with a zone identifier, which the URL parser refuses with an exception, counts as none.
- Origins, the body limit and the rest of the MCP server; environment parsing beyond the host list.
