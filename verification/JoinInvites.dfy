/** Join invites: a use is reserved and committed first, the agent is provisioned afterwards, and a failed
    provisioning gives the use back. */
module JoinInvites {
  import opened Options

  /** CHECK (max_uses >= 1) and CHECK (use_count <= max_uses) hold of the table. */
  datatype Invite = Invite(maxUses: nat, useCount: nat, expiresAt: Option<nat>, revokedAt: Option<nat>)

  datatype Stage =
    /** The use is reserved and provisioning is under way. */
    | Provisioning
    | Joined
    /** Provisioning threw and the use is still to be given back. */
    | Failing
    | Compensated
    /** The process died, or the compensating update failed: the use stays taken. */
    | Lost

  datatype Attempt = Attempt(invite: nat, stage: Stage)

  /** An invite's id is its index; attempts are the calls that have reserved a use. */
  datatype System = System(invites: seq<Invite>, attempts: seq<Attempt>)

  datatype Result = Reserved | Invalid | Revoked | Expired | Exhausted

  function Refusal(invites: seq<Invite>, id: nat, now: nat): Result {
    if id >= |invites| then Invalid
    else if invites[id].revokedAt.Some? then Revoked
    else if invites[id].expiresAt.Some? && invites[id].expiresAt.value <= now then Expired
    else if invites[id].useCount >= invites[id].maxUses then Exhausted
    else Reserved
  }

  function WithUses(invites: seq<Invite>, id: nat, uses: nat): seq<Invite>
    requires id < |invites|
  {
    invites[id := invites[id].(useCount := uses)]
  }

  /** `GREATEST(use_count - 1, 0)` */
  function GivenBack(useCount: nat): nat {
    if useCount >= 1 then useCount - 1 else 0
  }

  function Reserve(sys: System, id: nat, now: nat): (System, Result) {
    var result := Refusal(sys.invites, id, now);
    if result != Reserved then (sys, result)
    else (System(WithUses(sys.invites, id, sys.invites[id].useCount + 1), sys.attempts + [Attempt(id, Provisioning)]), Reserved)
  }

  function Revoke(sys: System, id: nat, now: nat): System {
    if id < |sys.invites| && sys.invites[id].revokedAt.None?
    then sys.(invites := sys.invites[id := sys.invites[id].(revokedAt := Some(now))])
    else sys
  }

  function Compensate(sys: System, a: nat): System
    requires a < |sys.attempts| && sys.attempts[a].invite < |sys.invites|
  {
    var id := sys.attempts[a].invite;
    System(WithUses(sys.invites, id, GivenBack(sys.invites[id].useCount)), sys.attempts[a := Attempt(id, Compensated)])
  }

  // ---- the store ----

  class InviteStore {
    var invites: seq<Invite>
    var attempts: seq<Attempt>

    constructor ()
      ensures Contents() == System([], [])
    {
      invites, attempts := [], [];
    }

    function Contents(): System
      reads this
    {
      System(invites, attempts)
    }

    /** The first transaction of `redeemAgentJoinInvite`, under the row's lock. */
    method ReserveUse(id: nat, now: nat) returns (r: Result)
      modifies this
      ensures (Contents(), r) == Reserve(old(Contents()), id, now)
    {
      if id >= |invites| { return Invalid; }
      var row := invites[id];
      if row.revokedAt.Some? { return Revoked; }
      if row.expiresAt.Some? && row.expiresAt.value <= now { return Expired; }
      if row.useCount >= row.maxUses { return Exhausted; }
      invites := invites[id := row.(useCount := row.useCount + 1)];
      attempts := attempts + [Attempt(id, Provisioning)];
      r := Reserved;
    }

    method GiveBack(a: nat)
      requires a < |attempts| && attempts[a].invite < |invites|
      modifies this
      ensures Contents() == Compensate(old(Contents()), a)
    {
      var id := attempts[a].invite;
      var left: int := invites[id].useCount - 1;
      invites := invites[id := invites[id].(useCount := if left > 0 then left else 0)];
      attempts := attempts[a := Attempt(id, Compensated)];
    }

    method RevokeInvite(id: nat, now: nat) returns (found: bool)
      modifies this
      ensures Contents() == Revoke(old(Contents()), id, now)
      ensures found <==> id < |old(invites)| && old(invites)[id].revokedAt.None?
    {
      found := id < |invites| && invites[id].revokedAt.None?;
      if found { invites := invites[id := invites[id].(revokedAt := Some(now))]; }
    }

    /** A whole redemption when nothing interleaves; `provisioned` is how the provisioning call ends. */
    method RedeemInvite(id: nat, now: nat, provisioned: bool) returns (r: Result, joined: bool)
      modifies this
      ensures r == Refusal(old(invites), id, now) && joined == (r == Reserved && provisioned)
      ensures !joined ==> invites == old(invites)
      ensures joined ==> id < |old(invites)| && invites == WithUses(old(invites), id, old(invites)[id].useCount + 1)
    {
      r := ReserveUse(id, now);
      joined := false;
      if r == Reserved {
        var a := |attempts| - 1;
        if provisioned {
          attempts := attempts[a := Attempt(id, Joined)];
          joined := true;
        } else {
          GiveBack(a);
        }
      }
    }
  }

  // ---- runs ----

  datatype Step =
    | CreateStep(maxUses: nat, expiresAt: Option<nat>)
    | ReserveStep(invite: nat, now: nat)
    | ProvisionStep(attempt: nat, ok: bool)
    | CompensateStep(attempt: nat)
    | CrashStep(attempt: nat)
    | RevokeStep(invite: nat, now: nat)

  predicate AtStage(sys: System, a: nat, stage: Stage) {
    a < |sys.attempts| && sys.attempts[a].invite < |sys.invites| && sys.attempts[a].stage == stage
  }

  function Staged(sys: System, a: nat, stage: Stage): System
    requires a < |sys.attempts|
  {
    sys.(attempts := sys.attempts[a := sys.attempts[a].(stage := stage)])
  }

  function Next(sys: System, step: Step): System {
    match step
    case CreateStep(maxUses, expiresAt) => if maxUses >= 1 then sys.(invites := sys.invites + [Invite(maxUses, 0, expiresAt, None)]) else sys
    case ReserveStep(id, now) => Reserve(sys, id, now).0
    case ProvisionStep(a, ok) => if AtStage(sys, a, Provisioning) then Staged(sys, a, if ok then Joined else Failing) else sys
    case CompensateStep(a) => if AtStage(sys, a, Failing) then Compensate(sys, a) else sys
    case CrashStep(a) => if AtStage(sys, a, Provisioning) || AtStage(sys, a, Failing) then Staged(sys, a, Lost) else sys
    case RevokeStep(id, now) => Revoke(sys, id, now)
  }

  function Run(steps: seq<Step>): System {
    if steps == [] then System([], []) else Next(Run(steps[..|steps| - 1]), steps[|steps| - 1])
  }

  function CountAt(attempts: seq<Attempt>, id: nat, stages: set<Stage>): nat {
    if attempts == [] then 0
    else
      var n := |attempts| - 1;
      CountAt(attempts[..n], id, stages) + if attempts[n].invite == id && attempts[n].stage in stages then 1 else 0
  }

  const HOLDING: set<Stage> := {Provisioning, Joined, Failing, Lost}

  lemma {:induction false} CountChanges(attempts: seq<Attempt>, a: nat, stage: Stage, id: nat, stages: set<Stage>)
    requires a < |attempts|
    ensures CountAt(attempts[a := attempts[a].(stage := stage)], id, stages) ==
      CountAt(attempts, id, stages)
      - (if attempts[a].invite == id && attempts[a].stage in stages then 1 else 0)
      + (if attempts[a].invite == id && stage in stages then 1 else 0)
  {
    var n := |attempts| - 1;
    var changed := attempts[a := attempts[a].(stage := stage)];
    if a == n {
      assert changed[..n] == attempts[..n];
    } else {
      CountChanges(attempts[..n], a, stage, id, stages);
      assert changed[..n] == attempts[..n][a := attempts[..n][a].(stage := stage)];
    }
  }

  lemma {:induction false} CountAppends(attempts: seq<Attempt>, attempt: Attempt, id: nat, stages: set<Stage>)
    ensures CountAt(attempts + [attempt], id, stages) ==
      CountAt(attempts, id, stages) + if attempt.invite == id && attempt.stage in stages then 1 else 0
  {
  }

  lemma {:induction false} CountAdds(attempts: seq<Attempt>, id: nat, some: set<Stage>, others: set<Stage>)
    requires some !! others
    ensures CountAt(attempts, id, some + others) == CountAt(attempts, id, some) + CountAt(attempts, id, others)
  {
    if attempts != [] { CountAdds(attempts[..|attempts| - 1], id, some, others); }
  }

  /** The use count is the number of attempts that hold a use, and never exceeds the limit. */
  ghost predicate InviteCounts(sys: System, id: nat) {
    if id < |sys.invites| then sys.invites[id].useCount == CountAt(sys.attempts, id, HOLDING) && sys.invites[id].useCount <= sys.invites[id].maxUses
    else CountAt(sys.attempts, id, HOLDING) == 0 && CountAt(sys.attempts, id, {Compensated}) == 0
  }

  ghost predicate Counted(sys: System) {
    && (forall id: nat :: InviteCounts(sys, id))
    && forall a :: 0 <= a < |sys.attempts| ==> sys.attempts[a].invite < |sys.invites|
  }

  lemma {:induction false} StageCounted(sys: System, next: System, a: nat, stage: Stage)
    requires Counted(sys) && a < |sys.attempts| && next.attempts == sys.attempts[a := sys.attempts[a].(stage := stage)]
    requires var id := sys.attempts[a].invite;
      && |next.invites| == |sys.invites|
      && (forall other :: 0 <= other < |sys.invites| && other != id ==> next.invites[other] == sys.invites[other])
      && next.invites[id].maxUses == sys.invites[id].maxUses
      && next.invites[id].useCount == sys.invites[id].useCount
        - (if sys.attempts[a].stage in HOLDING then 1 else 0) + (if stage in HOLDING then 1 else 0)
      && (sys.attempts[a].stage !in HOLDING ==> stage !in HOLDING)
    ensures Counted(next)
  {
    forall id: nat ensures InviteCounts(next, id) {
      assert InviteCounts(sys, id);
      CountChanges(sys.attempts, a, stage, id, HOLDING);
      CountChanges(sys.attempts, a, stage, id, {Compensated});
    }
  }

  /** The clamp at zero is never what gives a use back. */
  lemma {:induction false} ClampNeverTaken(sys: System, a: nat)
    requires Counted(sys) && AtStage(sys, a, Failing)
    ensures sys.invites[sys.attempts[a].invite].useCount >= 1
  {
    assert InviteCounts(sys, sys.attempts[a].invite);
    HeldAtLeastOnce(sys.attempts, a, HOLDING);
  }

  lemma {:induction false} HeldAtLeastOnce(attempts: seq<Attempt>, a: nat, stages: set<Stage>)
    requires a < |attempts| && attempts[a].stage in stages
    ensures CountAt(attempts, attempts[a].invite, stages) >= 1
  {
    if a < |attempts| - 1 { HeldAtLeastOnce(attempts[..|attempts| - 1], a, stages); }
  }

  lemma {:induction false} ReserveCounted(sys: System, id: nat, now: nat)
    requires Counted(sys)
    ensures Counted(Reserve(sys, id, now).0)
  {
    var (next, result) := Reserve(sys, id, now);
    if result == Reserved {
      forall other: nat ensures InviteCounts(next, other) {
        assert InviteCounts(sys, other);
        CountAppends(sys.attempts, Attempt(id, Provisioning), other, HOLDING);
        CountAppends(sys.attempts, Attempt(id, Provisioning), other, {Compensated});
      }
    }
  }

  lemma {:induction false} SameAttemptsCounted(sys: System, next: System)
    requires Counted(sys) && next.attempts == sys.attempts && |sys.invites| <= |next.invites|
    requires forall id :: 0 <= id < |sys.invites| ==>
      next.invites[id].useCount == sys.invites[id].useCount && next.invites[id].maxUses == sys.invites[id].maxUses
    requires forall id :: |sys.invites| <= id < |next.invites| ==> next.invites[id].useCount == 0
    ensures Counted(next)
  {
    forall id: nat ensures InviteCounts(next, id) { assert InviteCounts(sys, id); }
  }

  lemma {:induction false} NextCounted(sys: System, step: Step)
    requires Counted(sys)
    ensures Counted(Next(sys, step))
  {
    match step
    case CreateStep(_, _) => SameAttemptsCounted(sys, Next(sys, step));
    case ReserveStep(id, now) => ReserveCounted(sys, id, now);
    case ProvisionStep(a, ok) => if AtStage(sys, a, Provisioning) { StageCounted(sys, Next(sys, step), a, if ok then Joined else Failing); }
    case CompensateStep(a) =>
      if AtStage(sys, a, Failing) {
        ClampNeverTaken(sys, a);
        StageCounted(sys, Next(sys, step), a, Compensated);
      }
    case CrashStep(a) =>
      if AtStage(sys, a, Provisioning) || AtStage(sys, a, Failing) { StageCounted(sys, Next(sys, step), a, Lost); }
    case RevokeStep(_, _) => SameAttemptsCounted(sys, Next(sys, step));
  }

  lemma {:induction false} EveryRunCounted(steps: seq<Step>)
    ensures Counted(Run(steps))
  {
    if steps != [] {
      EveryRunCounted(steps[..|steps| - 1]);
      NextCounted(Run(steps[..|steps| - 1]), steps[|steps| - 1]);
    } else {
      assert forall id: nat :: InviteCounts(Run([]), id);
    }
  }

  /** Joined agents and attempts in flight never exceed the use count, nor the use count the limit; the first is
      an equality exactly when no use was lost. */
  lemma {:induction false} UsesOverRuns(steps: seq<Step>, id: nat)
    requires id < |Run(steps).invites|
    ensures var sys := Run(steps);
      var joined, inFlight := CountAt(sys.attempts, id, {Joined}), CountAt(sys.attempts, id, {Provisioning, Failing});
      && joined + inFlight <= sys.invites[id].useCount <= sys.invites[id].maxUses
      && (joined + inFlight == sys.invites[id].useCount <==> CountAt(sys.attempts, id, {Lost}) == 0)
  {
    EveryRunCounted(steps);
    var sys := Run(steps);
    assert InviteCounts(sys, id);
    CountAdds(sys.attempts, id, {Joined}, {Provisioning, Failing});
    CountAdds(sys.attempts, id, {Joined} + {Provisioning, Failing}, {Lost});
    assert HOLDING == {Joined} + {Provisioning, Failing} + {Lost};
  }

  /** Attempts ever made on an invite, whatever became of them. */
  function AttemptsOn(attempts: seq<Attempt>, id: nat): nat {
    CountAt(attempts, id, HOLDING + {Compensated})
  }

  lemma {:induction false} RevokedStep(sys: System, step: Step, id: nat)
    requires id < |sys.invites| && sys.invites[id].revokedAt.Some?
    ensures var next := Next(sys, step);
      && id < |next.invites| && next.invites[id].revokedAt == sys.invites[id].revokedAt
      && AttemptsOn(next.attempts, id) == AttemptsOn(sys.attempts, id)
  {
    match step
    case ReserveStep(other, now) => CountAppends(sys.attempts, Attempt(other, Provisioning), id, HOLDING + {Compensated});
    case ProvisionStep(a, ok) => if a < |sys.attempts| { CountChanges(sys.attempts, a, if ok then Joined else Failing, id, HOLDING + {Compensated}); }
    case CompensateStep(a) => if a < |sys.attempts| { CountChanges(sys.attempts, a, Compensated, id, HOLDING + {Compensated}); }
    case CrashStep(a) => if a < |sys.attempts| { CountChanges(sys.attempts, a, Lost, id, HOLDING + {Compensated}); }
    case _ =>
  }

  /** Once revoked, an invite stays revoked and no further use of it is ever reserved. */
  lemma {:induction false} NothingReservedAfterRevocation(steps: seq<Step>, i: nat, id: nat)
    requires i <= |steps| && id < |Run(steps[..i]).invites| && Run(steps[..i]).invites[id].revokedAt.Some?
    ensures id < |Run(steps).invites| && Run(steps).invites[id].revokedAt == Run(steps[..i]).invites[id].revokedAt
    ensures AttemptsOn(Run(steps).attempts, id) == AttemptsOn(Run(steps[..i]).attempts, id)
    decreases |steps|
  {
    if i == |steps| {
      assert steps[..i] == steps;
    } else {
      var n := |steps| - 1;
      assert steps[..n][..i] == steps[..i];
      NothingReservedAfterRevocation(steps[..n], i, id);
      RevokedStep(Run(steps[..n]), steps[n], id);
    }
  }

  /** In every reachable state a use is reserved exactly when the invite is there, neither revoked nor expired, and
      fewer attempts hold a use than it allows. */
  lemma {:induction false} ReservedExactly(steps: seq<Step>, id: nat, now: nat)
    ensures var sys := Run(steps);
      Refusal(sys.invites, id, now) == Reserved <==>
        && id < |sys.invites| && sys.invites[id].revokedAt.None?
        && (sys.invites[id].expiresAt.Some? ==> now < sys.invites[id].expiresAt.value)
        && CountAt(sys.attempts, id, HOLDING) < sys.invites[id].maxUses
  {
    EveryRunCounted(steps);
    assert InviteCounts(Run(steps), id);
  }
}
