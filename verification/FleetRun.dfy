/** The fleet-run executor: eight checklist items walked in order, with a failure possible at every await.
    What each await answers is given beforehand, so that every final state can be traced to it. */
module FleetRun {
  import opened Options
  import opened CodeUnits

  datatype StepId = Onboard | Wire | PayDataFetcher | PayAnalyst | SecondHop | PayWriter | PayReviewer | Activity

  datatype ItemStatus = Pending | Running | Done | Failed

  datatype Item = Item(id: StepId, status: ItemStatus)

  datatype RunStatus = Planned | InProgress | Completed | FailedRun

  /** A payment as its receipt shows it. */
  datatype Receipt = Receipt(step: StepId, tx: Text)

  datatype Kind =
    | Assistant
    | Plan
    | Tool
    | Wiring
    | StepStart
    | Service
    | Payment(receipt: Receipt)
    | Fruit(receipts: seq<Receipt>)
    | CompletedKind
    | FailedKind(receiptsSoFar: seq<Receipt>, checklist: seq<Item>)

  datatype Event = Event(number: nat, kind: Kind)

  const ORDER: seq<StepId> := [Onboard, Wire, PayDataFetcher, PayAnalyst, SecondHop, PayWriter, PayReviewer, Activity]

  function Place(id: StepId): (k: nat)
    ensures k < 8 && ORDER[k] == id
  {
    match id
    case Onboard => 0
    case Wire => 1
    case PayDataFetcher => 2
    case PayAnalyst => 3
    case SecondHop => 4
    case PayWriter => 5
    case PayReviewer => 6
    case Activity => 7
  }

  function CanonicalChecklist(): (c: seq<Item>)
    ensures Shape(c, 0, Pending)
  {
    seq(8, i requires 0 <= i < 8 => Item(ORDER[i], Pending))
  }

  function MarkItem(c: seq<Item>, id: StepId, status: ItemStatus): seq<Item> {
    seq(|c|, i requires 0 <= i < |c| => if c[i].id == id then c[i].(status := status) else c[i])
  }

  function FailRunning(c: seq<Item>): seq<Item> {
    seq(|c|, i requires 0 <= i < |c| => if c[i].status == Running then c[i].(status := Failed) else c[i])
  }

  /** Items before `k` are done, item `k` (if there is one) has status `at`, those behind it are pending. */
  ghost predicate Shape(c: seq<Item>, k: nat, at: ItemStatus) {
    && |c| == 8 && k <= 8 && (forall i :: 0 <= i < 8 ==> c[i].id == ORDER[i])
    && (forall i :: 0 <= i < k ==> c[i].status == Done)
    && (k < 8 ==> c[k].status == at)
    && (forall i :: k < i < 8 ==> c[i].status == Pending)
  }

  ghost predicate AllDone(c: seq<Item>) {
    Shape(c, 8, Done)
  }

  lemma {:induction false} DistinctPlaces(i: nat, j: nat)
    requires i < 8 && j < 8 && ORDER[i] == ORDER[j]
    ensures i == j
  {
  }

  lemma {:induction false} MarkMoves(c: seq<Item>, k: nat, at: ItemStatus, status: ItemStatus)
    requires Shape(c, k, at) && k < 8
    ensures status == Done ==> Shape(MarkItem(c, ORDER[k], Done), k + 1, Pending)
    ensures status != Done ==> Shape(MarkItem(c, ORDER[k], status), k, status)
  {
    forall i | 0 <= i < 8 && i != k ensures c[i].id != ORDER[k] {
      if c[i].id == ORDER[k] { DistinctPlaces(i, k); }
    }
  }

  lemma {:induction false} FailMoves(c: seq<Item>, k: nat, at: ItemStatus)
    requires Shape(c, k, at) && at != Done
    ensures Shape(FailRunning(c), k, if at == Running then Failed else at)
  {
  }

  // ---- events ----

  function MaxNumber(events: seq<Event>): nat {
    if events == [] then 0
    else
      var before := MaxNumber(events[..|events| - 1]);
      if events[|events| - 1].number > before then events[|events| - 1].number else before
  }

  ghost predicate Numbered(events: seq<Event>) {
    forall i :: 0 <= i < |events| ==> events[i].number == i + 1
  }

  lemma {:induction false} NumberedMax(events: seq<Event>)
    requires Numbered(events)
    ensures MaxNumber(events) == |events|
  {
    if events != [] { NumberedMax(events[..|events| - 1]); }
  }

  /** The receipts that payment events report, in order. */
  function Posted(events: seq<Event>): seq<Receipt> {
    if events == [] then []
    else
      var last := events[|events| - 1].kind;
      Posted(events[..|events| - 1]) + if last.Payment? then [last.receipt] else []
  }

  function Services(events: seq<Event>): nat {
    if events == [] then 0 else Services(events[..|events| - 1]) + if events[|events| - 1].kind.Service? then 1 else 0
  }

  lemma {:induction false} EventAppended(events: seq<Event>, e: Event)
    ensures Posted(events + [e]) == Posted(events) + if e.kind.Payment? then [e.kind.receipt] else []
    ensures Services(events + [e]) == Services(events) + if e.kind.Service? then 1 else 0
  {
    assert (events + [e])[..|events|] == events;
  }

  // ---- what the world answers ----

  /** Every await of a run, by what it is for; each happens at most once. */
  datatype Point =
    | Begun
    | OpeningText | OpeningNoted | PlanText | PlanNoted
    | Started(item: StepId) | Finished(item: StepId)
    | OrchestratorAuth | OnboardCall | OnboardNoted
    | Probed(agent: nat) | WireNoted | CatalogNoted | ModeRead
    | Announced(item: StepId) | Paid(item: StepId) | Charged(item: StepId)
    | HopLookup | HopAuth
    | BriefText | ActivityRecorded | FruitNoted | CompletionStored | CompletionNoted
    | FailureStored | FailureNoted

  /** Which awaits return, which endpoints are reached, whether a recent second-hop payment is found, and the
      transactions of payments that return. */
  datatype World = World(answers: Point -> bool, reached: nat -> bool, recent: Option<Text>, tx: StepId -> Text)

  /** The agents a run hires; what is live is known by name. */
  datatype Crew = Crew(dataFetcher: Text, analyst: Text, writer: Text, reviewer: Text)

  const ANALYST: Text := Ascii("Analyst")
  const DATA_FETCHER: Text := Ascii("DataFetcher")

  type LiveMap = map<Text, bool>

  function Probes(w: World, crew: Crew): LiveMap {
    map[][crew.dataFetcher := w.reached(0)][crew.analyst := w.reached(1)][crew.writer := w.reached(2)][crew.reviewer := w.reached(3)]
  }

  predicate Lives(live: LiveMap, name: Text) {
    name in live && live[name]
  }

  predicate SomeDead(live: LiveMap) {
    exists name :: name in live && !live[name]
  }

  predicate HopLives(live: LiveMap) {
    Lives(live, ANALYST) && Lives(live, DATA_FETCHER)
  }

  predicate Opens(w: World) {
    w.answers(OpeningText) && w.answers(OpeningNoted) && w.answers(PlanText) && w.answers(PlanNoted)
  }

  predicate Onboards(w: World) {
    && w.answers(Started(Onboard)) && w.answers(OrchestratorAuth) && w.answers(OnboardCall)
    && w.answers(Finished(Onboard)) && w.answers(OnboardNoted)
  }

  predicate ProbesAnswer(w: World) {
    forall i :: 0 <= i < 4 ==> w.answers(Probed(i))
  }

  predicate Wires(w: World) {
    w.answers(Started(Wire)) && ProbesAnswer(w) && w.answers(Finished(Wire)) && w.answers(WireNoted)
  }

  predicate ChoosesMode(w: World, live: LiveMap, requireLive: bool) {
    (SomeDead(live) ==> !requireLive && w.answers(CatalogNoted)) && w.answers(ModeRead)
  }

  predicate Prepares(w: World, crew: Crew, requireLive: bool) {
    Opens(w) && Onboards(w) && Wires(w) && ChoosesMode(w, Probes(w, crew), requireLive)
  }

  predicate Fulfils(w: World, live: LiveMap, step: StepId, payee: Text) {
    (Lives(live, payee) ==> w.answers(Paid(step))) && w.answers(Finished(step)) && w.answers(Charged(step))
  }

  predicate Hires(w: World, live: LiveMap, step: StepId, payee: Text) {
    w.answers(Started(step)) && w.answers(Announced(step)) && Fulfils(w, live, step, payee)
  }

  /** The second hop gets its transaction: found, or paid for. */
  predicate HopSettles(w: World) {
    w.answers(HopLookup) && (w.recent.None? ==> w.answers(HopAuth) && w.answers(Paid(SecondHop)))
  }

  predicate Hops(w: World, live: LiveMap) {
    && w.answers(Started(SecondHop)) && (HopLives(live) ==> HopSettles(w))
    && w.answers(Charged(SecondHop)) && w.answers(Finished(SecondHop))
  }

  /** The lookup is reached, with both ends live, and finds a payment. */
  predicate HopReused(w: World, live: LiveMap) {
    w.answers(Started(SecondHop)) && HopLives(live) && w.answers(HopLookup) && w.recent.Some?
  }

  predicate HiresBeforeHop(w: World, live: LiveMap, crew: Crew) {
    Hires(w, live, PayDataFetcher, crew.dataFetcher) && Hires(w, live, PayAnalyst, crew.analyst)
  }

  predicate HiresAll(w: World, live: LiveMap, crew: Crew) {
    && HiresBeforeHop(w, live, crew) && Hops(w, live)
    && Hires(w, live, PayWriter, crew.writer) && Hires(w, live, PayReviewer, crew.reviewer)
  }

  /** The last item is stored as done. */
  predicate Briefs(w: World) {
    w.answers(Started(Activity)) && w.answers(BriefText) && w.answers(ActivityRecorded) && w.answers(Finished(Activity))
  }

  predicate Completes(w: World) {
    w.answers(FruitNoted) && w.answers(CompletionStored)
  }

  predicate Begins(w: World, crewComplete: bool) {
    w.answers(Begun) && crewComplete
  }

  /** Every await up to the one that stores the last item as done returns. */
  predicate DoesAll(w: World, crew: Crew, requireLive: bool) {
    Prepares(w, crew, requireLive) && HiresAll(w, Probes(w, crew), crew) && Briefs(w)
  }

  /** The run gets as far as the second hop and a recent payment stands in for it. */
  predicate ReusesHop(w: World, crew: Crew, requireLive: bool) {
    Prepares(w, crew, requireLive) && HiresBeforeHop(w, Probes(w, crew), crew) && HopReused(w, Probes(w, crew))
  }

  // ---- where a run stands ----

  /** `done` items are finished, the next is running or not, `charged` payment and service events stand,
      `unposted` is a receipt still without its event, `reusedAt` the place of a receipt whose payment an
      earlier call made. */
  datatype Progress = Progress(done: nat, running: bool, charged: nat, unposted: Option<Receipt>, reusedAt: Option<nat>)

  const START: Progress := Progress(0, false, 0, None, None)

  /** The receipts are those of the payments that have returned, and at most one more, the reused one. */
  ghost predicate Own(returned: seq<Receipt>, receipts: seq<Receipt>, reusedAt: Option<nat>) {
    if reusedAt.None? then returned == receipts
    else
      && reusedAt.value < |receipts| && receipts[reusedAt.value].step == SecondHop
      && returned == receipts[..reusedAt.value] + receipts[reusedAt.value + 1..]
  }

  lemma {:induction false} OwnAppended(returned: seq<Receipt>, receipts: seq<Receipt>, reusedAt: Option<nat>, r: Receipt)
    requires Own(returned, receipts, reusedAt)
    ensures Own(returned + [r], receipts + [r], reusedAt)
  {
    if reusedAt.Some? {
      var k := reusedAt.value;
      assert (receipts + [r])[..k] == receipts[..k] && (receipts + [r])[k + 1..] == receipts[k + 1..] + [r];
    }
  }

  lemma {:induction false} OwnReused(returned: seq<Receipt>, r: Receipt)
    requires r.step == SecondHop
    ensures Own(returned, returned + [r], Some(|returned|))
  {
    assert (returned + [r])[..|returned|] == returned && (returned + [r])[|returned| + 1..] == [];
  }

  class FleetRunExecution {
    const world: World

    // the row of `fleet_runs` and its events
    var status: RunStatus
    var stored: seq<Item>
    var events: seq<Event>

    // the executor's own variables
    var checklist: seq<Item>
    var receipts: seq<Receipt>
    var live: LiveMap

    /** Outside: the payments whose call has returned. */
    var returned: seq<Receipt>

    constructor (world: World)
      ensures this.world == world && status == Planned && Stands(START)
    {
      this.world := world;
      status, stored, events := Planned, CanonicalChecklist(), [];
      checklist, receipts, live := CanonicalChecklist(), [], map[];
      returned := [];
    }

    ghost predicate Stands(p: Progress)
      reads this
    {
      && stored == checklist && Shape(checklist, p.done, if p.running then Running else Pending)
      && |Posted(events)| + Services(events) == p.charged
      && receipts == Posted(events) + (if p.unposted.Some? then [p.unposted.value] else [])
      && Own(returned, receipts, p.reusedAt) && Numbered(events)
    }

    // ---- single awaits ----

    /** A call to the outside that changes none of this: it returns or throws. */
    method Await(point: Point) returns (ok: bool)
      ensures ok == world.answers(point)
    {
      ok := world.answers(point);
    }

    method AppendEvent(point: Point, kind: Kind) returns (ok: bool)
      requires Numbered(events)
      modifies this`events
      ensures ok == world.answers(point) && Numbered(events)
      ensures events == if ok then old(events) + [Event(|old(events)| + 1, kind)] else old(events)
    {
      ok := Await(point);
      if ok {
        NumberedMax(events);
        events := events + [Event(MaxNumber(events) + 1, kind)];
      }
    }

    method SetItem(point: Point, id: StepId, itemStatus: ItemStatus) returns (ok: bool)
      modifies this`checklist, this`stored
      ensures ok == world.answers(point)
      ensures checklist == if ok then MarkItem(old(checklist), id, itemStatus) else old(checklist)
      ensures stored == if ok then checklist else old(stored)
    {
      ok := Await(point);
      if ok {
        stored := MarkItem(checklist, id, itemStatus);
        checklist := stored;
      }
    }

    method StartItem(id: StepId, ghost p: Progress) returns (ok: bool, ghost q: Progress)
      requires Stands(p) && p.done == Place(id) && !p.running
      modifies this`checklist, this`stored
      ensures ok == world.answers(Started(id)) && q == (if ok then p.(running := true) else p) && Stands(q)
    {
      MarkMoves(checklist, p.done, Pending, Running);
      ok := SetItem(Started(id), id, Running);
      q := if ok then p.(running := true) else p;
    }

    method FinishItem(id: StepId, ghost p: Progress) returns (ok: bool, ghost q: Progress)
      requires Stands(p) && p.done == Place(id) && p.running
      modifies this`checklist, this`stored
      ensures ok == world.answers(Finished(id)) && q == (if ok then p.(done := p.done + 1, running := false) else p) && Stands(q)
    {
      MarkMoves(checklist, p.done, Running, Done);
      ok := SetItem(Finished(id), id, Done);
      q := if ok then p.(done := p.done + 1, running := false) else p;
    }

    /** An event that is neither a payment nor a service. */
    method Note(point: Point, kind: Kind, ghost p: Progress) returns (ok: bool)
      requires Stands(p) && !kind.Payment? && !kind.Service?
      modifies this`events
      ensures ok == world.answers(point) && Stands(p)
      ensures events == if ok then old(events) + [Event(|old(events)| + 1, kind)] else old(events)
    {
      EventAppended(events, Event(|events| + 1, kind));
      ok := AppendEvent(point, kind);
    }

    method NoteService(step: StepId, ghost p: Progress) returns (ok: bool, ghost q: Progress)
      requires Stands(p) && p.unposted == None
      modifies this`events
      ensures ok == world.answers(Charged(step)) && q == (if ok then p.(charged := p.charged + 1) else p) && Stands(q)
    {
      EventAppended(events, Event(|events| + 1, Service));
      ok := AppendEvent(Charged(step), Service);
      q := if ok then p.(charged := p.charged + 1) else p;
    }

    /** The payment event of the receipt pushed last. */
    method NotePayment(step: StepId, receipt: Receipt, ghost p: Progress) returns (ok: bool, ghost q: Progress)
      requires Stands(p) && p.unposted == Some(receipt)
      modifies this`events
      ensures ok == world.answers(Charged(step))
      ensures q == (if ok then p.(charged := p.charged + 1, unposted := None) else p) && Stands(q)
    {
      EventAppended(events, Event(|events| + 1, Payment(receipt)));
      ok := AppendEvent(Charged(step), Payment(receipt));
      q := if ok then p.(charged := p.charged + 1, unposted := None) else p;
      assert ok ==> receipts == Posted(events) + [];
    }

    /** A payment made outside: when the call returns, it is among those that have. */
    method PayIntraFleet(step: StepId) returns (ok: bool, tx: Text)
      modifies this`returned
      ensures ok == world.answers(Paid(step)) && tx == world.tx(step)
      ensures returned == if ok then old(returned) + [Receipt(step, tx)] else old(returned)
    {
      tx := world.tx(step);
      ok := Await(Paid(step));
      if ok { returned := returned + [Receipt(step, tx)]; }
    }

    /** A payment, with its receipt pushed as soon as the call has returned. */
    method Pay(step: StepId, ghost p: Progress) returns (ok: bool, receipt: Receipt, ghost q: Progress)
      requires Stands(p) && p.unposted == None
      modifies this`receipts, this`returned
      ensures ok == world.answers(Paid(step)) && q == (if ok then p.(unposted := Some(receipt)) else p) && Stands(q)
    {
      var tx;
      OwnAppended(returned, receipts, p.reusedAt, Receipt(step, world.tx(step)));
      ok, tx := PayIntraFleet(step);
      receipt := Receipt(step, tx);
      q := p;
      if ok {
        receipts := receipts + [receipt];
        q := p.(unposted := Some(receipt));
      }
    }

    // ---- the steps of a run ----

    method Hire(step: StepId, payee: Text, ghost p: Progress) returns (ok: bool, ghost q: Progress)
      requires Stands(p) && p.done == Place(step) && !p.running && p.unposted == None
      modifies this`checklist, this`stored, this`events, this`receipts, this`returned
      ensures Stands(q) && q.reusedAt == p.reusedAt && q.done <= p.done + 1 && ok == Hires(world, live, step, payee)
      ensures ok ==> q == p.(done := p.done + 1, charged := p.charged + 1)
    {
      ok, q := StartItem(step, p);
      if !ok { return; }
      ok := Note(Announced(step), StepStart, q);
      if !ok { return; }
      ok, q := Fulfil(step, payee, q);
    }

    method Fulfil(step: StepId, payee: Text, ghost p: Progress) returns (ok: bool, ghost q: Progress)
      requires Stands(p) && p.done == Place(step) && p.running && p.unposted == None
      modifies this`checklist, this`stored, this`events, this`receipts, this`returned
      ensures Stands(q) && q.reusedAt == p.reusedAt && q.done <= p.done + 1 && ok == Fulfils(world, live, step, payee)
      ensures ok ==> q == p.(done := p.done + 1, running := false, charged := p.charged + 1)
    {
      if payee in live && live[payee] {
        ok, q := HireLive(step, p);
      } else {
        ok, q := HireFromCatalog(step, p);
      }
    }

    method HireFromCatalog(step: StepId, ghost p: Progress) returns (ok: bool, ghost q: Progress)
      requires Stands(p) && p.done == Place(step) && p.running && p.unposted == None
      modifies this`checklist, this`stored, this`events
      ensures Stands(q) && q.reusedAt == p.reusedAt && q.done <= p.done + 1
      ensures ok == (world.answers(Finished(step)) && world.answers(Charged(step)))
      ensures ok ==> q == p.(done := p.done + 1, running := false, charged := p.charged + 1)
    {
      ok, q := FinishItem(step, p);
      if !ok { return; }
      ok, q := NoteService(step, q);
    }

    method HireLive(step: StepId, ghost p: Progress) returns (ok: bool, ghost q: Progress)
      requires Stands(p) && p.done == Place(step) && p.running && p.unposted == None
      modifies this`checklist, this`stored, this`events, this`receipts, this`returned
      ensures Stands(q) && q.reusedAt == p.reusedAt && q.done <= p.done + 1
      ensures ok == (world.answers(Paid(step)) && world.answers(Finished(step)) && world.answers(Charged(step)))
      ensures ok ==> q == p.(done := p.done + 1, running := false, charged := p.charged + 1)
    {
      var receipt;
      ok, receipt, q := Pay(step, p);
      if !ok { return; }
      ok, q := FinishItem(step, q);
      if !ok { return; }
      ok, q := NotePayment(step, receipt, q);
    }

    /** Paid by the analyst, unless a recent payment is found; here the event comes before the item is done. */
    method HopAgain(ghost p: Progress) returns (ok: bool, ghost q: Progress)
      requires Stands(p) && p.done == Place(SecondHop) && !p.running && p.unposted == None && p.reusedAt == None
      modifies this`checklist, this`stored, this`events, this`receipts, this`returned
      ensures Stands(q) && q.done <= p.done + 1 && ok == Hops(world, live)
      ensures q.reusedAt.Some? <==> HopReused(world, live)
      ensures ok ==> q == p.(done := p.done + 1, charged := p.charged + 1, reusedAt := q.reusedAt)
    {
      ok, q := StartItem(SecondHop, p);
      if !ok { return; }
      ok, q := ChargeHop(q);
      if !ok { return; }
      ok, q := FinishItem(SecondHop, q);
    }

    method ChargeHop(ghost p: Progress) returns (ok: bool, ghost q: Progress)
      requires Stands(p) && p.unposted == None && p.reusedAt == None
      modifies this`events, this`receipts, this`returned
      ensures Stands(q) && q.done == p.done
      ensures ok == ((HopLives(live) ==> HopSettles(world)) && world.answers(Charged(SecondHop)))
      ensures q.reusedAt.Some? <==> HopLives(live) && world.answers(HopLookup) && world.recent.Some?
      ensures ok ==> q == p.(charged := p.charged + 1, reusedAt := q.reusedAt)
    {
      if ANALYST in live && live[ANALYST] && DATA_FETCHER in live && live[DATA_FETCHER] {
        var receipt;
        ok, receipt, q := SettleHop(p);
        if !ok { return; }
        ok, q := NotePayment(SecondHop, receipt, q);
      } else {
        ok, q := NoteService(SecondHop, p);
      }
    }

    /** The recent payment if one is found, whose receipt is then pushed without any call; else a new one. */
    method SettleHop(ghost p: Progress) returns (ok: bool, receipt: Receipt, ghost q: Progress)
      requires Stands(p) && p.unposted == None && p.reusedAt == None
      modifies this`receipts, this`returned
      ensures Stands(q) && ok == HopSettles(world)
      ensures q == p.(unposted := if ok then Some(receipt) else None, reusedAt := q.reusedAt)
      ensures q.reusedAt.Some? <==> world.answers(HopLookup) && world.recent.Some?
    {
      receipt, q := Receipt(SecondHop, []), p;
      ok := Await(HopLookup);
      if !ok { return; }
      if world.recent.Some? {
        receipt := Receipt(SecondHop, world.recent.value);
        OwnReused(returned, receipt);
        receipts := receipts + [receipt];
        q := p.(unposted := Some(receipt), reusedAt := Some(|returned|));
        return;
      }
      ok := Await(HopAuth);
      if !ok { return; }
      ok, receipt, q := Pay(SecondHop, p);
    }

    /** Opening and plan, then the items `onboard` and `wire`. */
    method Prepare(crew: Crew, requireLive: bool) returns (ok: bool, ghost q: Progress)
      requires Stands(START)
      modifies this`checklist, this`stored, this`events, this`live
      ensures Stands(q) && q.charged == 0 && q.unposted == None && q.reusedAt == None && q.done <= 2
      ensures ok == Prepares(world, crew, requireLive) && (ok ==> q == START.(done := 2) && live == Probes(world, crew))
    {
      q := START;
      ok := Open();
      if !ok { return; }
      ok, q := OnboardOrchestrator(q);
      if !ok { return; }
      ok, q := WireAgents(crew, q);
      if !ok { return; }
      ok := ChooseMode(requireLive, q);
    }

    method Open() returns (ok: bool)
      requires Stands(START)
      modifies this`events
      ensures Stands(START) && ok == Opens(world)
    {
      ok := Await(OpeningText);
      if !ok { return; }
      ok := Note(OpeningNoted, Assistant, START);
      if !ok { return; }
      ok := Await(PlanText);
      if !ok { return; }
      ok := Note(PlanNoted, Plan, START);
    }

    method OnboardOrchestrator(ghost p: Progress) returns (ok: bool, ghost q: Progress)
      requires Stands(p) && p == START
      modifies this`checklist, this`stored, this`events
      ensures Stands(q) && q.charged == 0 && q.unposted == None && q.reusedAt == None && q.done <= 1
      ensures ok == Onboards(world) && (ok ==> q == START.(done := 1))
    {
      ok, q := StartItem(Onboard, p);
      if !ok { return; }
      ok := Await(OrchestratorAuth);
      if !ok { return; }
      ok := Await(OnboardCall);
      if !ok { return; }
      ok, q := FinishItem(Onboard, q);
      if !ok { return; }
      ok := Note(OnboardNoted, Tool, q);
    }

    method WireAgents(crew: Crew, ghost p: Progress) returns (ok: bool, ghost q: Progress)
      requires Stands(p) && p == START.(done := 1)
      modifies this`checklist, this`stored, this`events, this`live
      ensures Stands(q) && q.charged == 0 && q.unposted == None && q.reusedAt == None && q.done <= 2
      ensures ok == Wires(world) && (ok ==> q == START.(done := 2) && live == Probes(world, crew))
    {
      ok, q := StartItem(Wire, p);
      if !ok { return; }
      ok := Probe(crew);
      if !ok { return; }
      ok, q := FinishItem(Wire, q);
      if !ok { return; }
      ok := Note(WireNoted, Wiring, q);
    }

    method Probe(crew: Crew) returns (ok: bool)
      modifies this`live
      ensures ok == ProbesAnswer(world) && (ok ==> live == Probes(world, crew))
    {
      live := map[];
      var names := [crew.dataFetcher, crew.analyst, crew.writer, crew.reviewer];
      for i := 0 to 4
        invariant forall k :: 0 <= k < i ==> world.answers(Probed(k))
        invariant live == ProbedSoFar(world, names, i)
      {
        ok := Await(Probed(i));
        if !ok { return; }
        live := live[names[i] := world.reached(i)];
      }
      ProbedAll(world, crew);
      ok := true;
    }

    /** With someone offline the run goes on from the catalog, or stops when live sellers are required. */
    method ChooseMode(requireLive: bool, ghost p: Progress) returns (ok: bool)
      requires Stands(p)
      modifies this`events
      ensures Stands(p) && ok == ChoosesMode(world, live, requireLive)
    {
      var catalogMode := SomeDead(live);
      if catalogMode && requireLive { return false; }
      if catalogMode {
        ok := Note(CatalogNoted, Assistant, p);
        if !ok { return; }
      }
      ok := Await(ModeRead);
    }

    method HireAll(crew: Crew, ghost p: Progress) returns (ok: bool, ghost q: Progress)
      requires Stands(p) && p == START.(done := 2)
      modifies this`checklist, this`stored, this`events, this`receipts, this`returned
      ensures Stands(q) && q.done <= 7 && ok == HiresAll(world, live, crew)
      ensures q.reusedAt.Some? <==> HiresBeforeHop(world, live, crew) && HopReused(world, live)
      ensures ok ==> q == Progress(7, false, 5, None, q.reusedAt)
    {
      ok, q := HireTwo(PayDataFetcher, crew.dataFetcher, PayAnalyst, crew.analyst, p);
      if !ok { return; }
      ok, q := HopAgain(q);
      if !ok { return; }
      ok, q := HireTwo(PayWriter, crew.writer, PayReviewer, crew.reviewer, q);
    }

    method HireTwo(first: StepId, payee: Text, second: StepId, other: Text, ghost p: Progress) returns (ok: bool, ghost q: Progress)
      requires Stands(p) && p.done == Place(first) && Place(second) == Place(first) + 1 && !p.running && p.unposted == None
      modifies this`checklist, this`stored, this`events, this`receipts, this`returned
      ensures Stands(q) && q.reusedAt == p.reusedAt && q.done <= p.done + 2
      ensures ok == (Hires(world, live, first, payee) && Hires(world, live, second, other))
      ensures ok ==> q == p.(done := p.done + 2, charged := p.charged + 2)
    {
      ok, q := Hire(first, payee, p);
      if !ok { return; }
      ok, q := Hire(second, other, q);
    }

    method AssembleBrief(ghost p: Progress) returns (ok: bool, ghost q: Progress)
      requires Stands(p) && p == Progress(7, false, 5, None, p.reusedAt)
      modifies this`checklist, this`stored
      ensures Stands(q) && ok == Briefs(world) && q.done <= 8 && q == Progress(q.done, q.running, 5, None, p.reusedAt)
      ensures if ok then q == Progress(8, false, 5, None, p.reusedAt) else q.done == 7
    {
      ok, q := StartItem(Activity, p);
      if !ok { return; }
      ok := Await(BriefText);
      if !ok { return; }
      ok := Await(ActivityRecorded);
      if !ok { return; }
      ok, q := FinishItem(Activity, q);
    }

    /** The brief's event, the completed row and the last event. */
    method Conclude(ghost p: Progress) returns (ok: bool)
      requires Stands(p) && status == InProgress
      modifies this`events, this`status
      ensures Stands(p) && status == (if Completes(world) then Completed else InProgress)
      ensures ok == (Completes(world) && world.answers(CompletionNoted))
      ensures ok ==> |events| >= 2 && events[|events| - 1].kind == CompletedKind && events[|events| - 2].kind == Fruit(receipts)
    {
      ok := Note(FruitNoted, Fruit(receipts), p);
      if !ok { return; }
      ok := Await(CompletionStored);
      if !ok { return; }
      status := Completed;
      ok := Note(CompletionNoted, CompletedKind, p);
    }

    /** All eight items. */
    method WalkItems(crew: Crew, requireLive: bool) returns (ok: bool, ghost q: Progress)
      requires Stands(START)
      modifies this`checklist, this`stored, this`events, this`receipts, this`live, this`returned
      ensures Stands(q) && q.done <= 8 && ok == DoesAll(world, crew, requireLive) && (q.done == 8 ==> ok)
      ensures q.reusedAt.Some? <==> ReusesHop(world, crew, requireLive)
      ensures ok ==> q == Progress(8, false, 5, None, q.reusedAt)
    {
      ok, q := Prepare(crew, requireLive);
      if !ok { return; }
      ok, q := HireAll(crew, q);
      if !ok { return; }
      ok, q := AssembleBrief(q);
    }

    /** The body of the `try`. */
    method Attempt(crew: Crew, requireLive: bool) returns (ok: bool, ghost q: Progress)
      requires Stands(START) && status == InProgress
      modifies this
      ensures Stands(q) && (q.done == 8 <==> DoesAll(world, crew, requireLive)) && q.done <= 8
      ensures q.reusedAt.Some? <==> ReusesHop(world, crew, requireLive)
      ensures status == if DoesAll(world, crew, requireLive) && Completes(world) then Completed else InProgress
      ensures q.done == 8 ==> q == Progress(8, false, 5, None, q.reusedAt)
      ensures ok == (DoesAll(world, crew, requireLive) && Completes(world) && world.answers(CompletionNoted))
      ensures ok ==> |events| >= 2 && events[|events| - 1].kind == CompletedKind && events[|events| - 2].kind == Fruit(receipts)
    {
      ok, q := WalkItems(crew, requireLive);
      if !ok { return; }
      ok := Conclude(q);
    }

    /** The `catch`: the running item fails, the run fails, and the event reports the receipts so far. */
    method RecordFailure() returns (reported: bool)
      requires Numbered(events) && (status == InProgress || status == Completed)
      modifies this`checklist, this`stored, this`events, this`status
      ensures checklist == FailRunning(old(checklist)) && Numbered(events)
      ensures if world.answers(FailureStored) then status == FailedRun && stored == checklist else status == old(status) && stored == old(stored)
      ensures reported == (world.answers(FailureStored) && world.answers(FailureNoted))
      ensures reported ==> events == old(events) + [Event(|old(events)| + 1, FailedKind(receipts, checklist))]
      ensures !reported ==> events == old(events)
    {
      checklist := FailRunning(checklist);
      reported := Await(FailureStored);
      if reported {
        stored := checklist;
        status := FailedRun;
        reported := AppendEvent(FailureNoted, FailedKind(receipts, checklist));
      }
    }

    /** The books of a run that has ended at `p`: events are numbered 1..n, each payment event has its receipt, at
        most one receipt has no event yet, and the receipts are those of the returned payments, plus the reused one. */
    ghost predicate Accounts(p: Progress)
      reads this
    {
      && Numbered(events) && |Posted(events)| + Services(events) == p.charged
      && receipts == Posted(events) + (if p.unposted.Some? then [p.unposted.value] else [])
      && Own(returned, receipts, p.reusedAt)
    }

    /** The shape of the stored checklist, by how the run ended. */
    ghost predicate Items(p: Progress)
      reads this
    {
      && (status == FailedRun ==> Shape(stored, p.done, Failed) || Shape(stored, p.done, Pending))
      && (status == InProgress ==> Shape(stored, p.done, Running) || Shape(stored, p.done, Pending))
      && (status == Completed ==> AllDone(stored))
    }

    /** The last events report the receipts. */
    ghost predicate Reports(ok: bool, reported: bool)
      reads this
    {
      && (ok ==> |events| >= 2 && events[|events| - 1].kind == CompletedKind && events[|events| - 2].kind == Fruit(receipts))
      && (reported ==> |events| > 0 && events[|events| - 1].kind == FailedKind(receipts, stored))
    }

    /** The `catch` after an attempt that stopped at `p`. */
    method Catch(ghost p: Progress) returns (reported: bool)
      requires Stands(p) && (status == InProgress || (status == Completed && p.done == 8))
      modifies this`checklist, this`stored, this`events, this`status
      ensures Accounts(p) && Items(p) && Reports(false, reported)
      ensures reported == (world.answers(FailureStored) && world.answers(FailureNoted))
      ensures status == if world.answers(FailureStored) then FailedRun else old(status)
    {
      ghost var before := events;
      FailMoves(checklist, p.done, if p.running then Running else Pending);
      reported := RecordFailure();
      EventAppended(before, Event(|before| + 1, FailedKind(receipts, checklist)));
    }

    /** The `try` with its `catch`. */
    method AttemptOrFail(crew: Crew, requireLive: bool) returns (ok: bool, reported: bool, ghost p: Progress)
      requires Stands(START) && status == InProgress
      modifies this
      ensures Accounts(p) && Items(p) && Reports(ok, reported)
      ensures p.done <= 8 && (p.done == 8 <==> DoesAll(world, crew, requireLive)) && (p.done == 8 ==> p.charged == 5 && p.unposted == None)
      ensures p.reusedAt.Some? <==> ReusesHop(world, crew, requireLive)
      ensures ok == (DoesAll(world, crew, requireLive) && Completes(world) && world.answers(CompletionNoted))
      ensures reported == (!ok && world.answers(FailureStored) && world.answers(FailureNoted))
      ensures status == FinalStatus(world, crew, requireLive)
    {
      ok, p := Attempt(crew, requireLive);
      reported := false;
      if !ok { reported := Catch(p); }
    }

    /** A whole run, started from planned. `crewComplete` is false when a role has no agent, which throws before
        the `try`. */
    method Execute(crew: Crew, crewComplete: bool, requireLive: bool)
      returns (ok: bool, reported: bool, ghost p: Progress)
      requires Stands(START) && status == Planned
      modifies this
      ensures Accounts(p) && Reports(ok, reported) && p.done <= 8
      ensures Begins(world, crewComplete) ==> Items(p) && status == FinalStatus(world, crew, requireLive)
      ensures !Begins(world, crewComplete) ==> status == (if world.answers(Begun) then InProgress else Planned) && stored == CanonicalChecklist()
      ensures p.done == 8 <==> Begins(world, crewComplete) && DoesAll(world, crew, requireLive)
      ensures p.done == 8 ==> p.charged == 5 && p.unposted == None
      ensures p.reusedAt.Some? <==> Begins(world, crewComplete) && ReusesHop(world, crew, requireLive)
      ensures ok == (Begins(world, crewComplete) && DoesAll(world, crew, requireLive) && Completes(world) && world.answers(CompletionNoted))
      ensures reported == (Begins(world, crewComplete) && !ok && world.answers(FailureStored) && world.answers(FailureNoted))
    {
      OnlyCanonical(stored);
      p := START;
      ok, reported := false, false;
      var begun := Await(Begun);
      if !begun { return; }
      status := InProgress;
      if !crewComplete { return; }
      ok, reported, p := AttemptOrFail(crew, requireLive);
    }

    /** What the run's last events list, set against the payments whose calls returned. */
    method ExecuteListing(crew: Crew, crewComplete: bool, requireLive: bool) returns (ok: bool, reported: bool)
      requires Stands(START) && status == Planned
      modifies this
      ensures ok ==> |events| >= 2 && events[|events| - 2].kind.Fruit?
      ensures ok ==> (events[|events| - 2].kind.receipts == returned <==> !ReusesHop(world, crew, requireLive))
      ensures reported ==> |events| >= 1 && events[|events| - 1].kind.FailedKind?
      ensures reported ==> (events[|events| - 1].kind.receiptsSoFar == returned <==> !ReusesHop(world, crew, requireLive))
    {
      ghost var p;
      ok, reported, p := Execute(crew, crewComplete, requireLive);
    }

    /** Exactly when a run ends as failed although all eight items are done: every await up to the one that stores
        the last item returns, then one of the last three throws, and the failure can be stored. */
    method ExecuteDone(crew: Crew, crewComplete: bool, requireLive: bool) returns (ok: bool, reported: bool)
      requires Stands(START) && status == Planned
      modifies this
      ensures status == FailedRun && AllDone(stored) <==>
        && Begins(world, crewComplete) && DoesAll(world, crew, requireLive)
        && !(Completes(world) && world.answers(CompletionNoted)) && world.answers(FailureStored)
    {
      ghost var p;
      ok, reported, p := Execute(crew, crewComplete, requireLive);
      if Begins(world, crewComplete) && p.done < 8 { assert stored[7].status != Done; }
    }
  }

  function ProbedSoFar(w: World, names: seq<Text>, n: nat): LiveMap
    requires n <= |names|
  {
    if n == 0 then map[] else ProbedSoFar(w, names, n - 1)[names[n - 1] := w.reached(n - 1)]
  }

  lemma {:induction false} ProbedAll(w: World, crew: Crew)
    ensures ProbedSoFar(w, [crew.dataFetcher, crew.analyst, crew.writer, crew.reviewer], 4) == Probes(w, crew)
  {
    var names := [crew.dataFetcher, crew.analyst, crew.writer, crew.reviewer];
    assert ProbedSoFar(w, names, 1) == map[][names[0] := w.reached(0)];
    assert ProbedSoFar(w, names, 2) == ProbedSoFar(w, names, 1)[names[1] := w.reached(1)];
    assert ProbedSoFar(w, names, 3) == ProbedSoFar(w, names, 2)[names[2] := w.reached(2)];
  }

  /** The status a run that has begun ends with. */
  function FinalStatus(w: World, crew: Crew, requireLive: bool): RunStatus {
    var stored := DoesAll(w, crew, requireLive) && Completes(w);
    if stored && w.answers(CompletionNoted) then Completed
    else if w.answers(FailureStored) then FailedRun
    else if stored then Completed
    else InProgress
  }

  lemma {:induction false} OnlyCanonical(c: seq<Item>)
    requires Shape(c, 0, Pending)
    ensures c == CanonicalChecklist()
  {
    forall i | 0 <= i < 8 ensures c[i] == CanonicalChecklist()[i] {
      assert c[i].status == Pending;
    }
  }

  // ---- concrete worlds ----

  const CREW: Crew := Crew(DATA_FETCHER, ANALYST, Ascii("Writer"), Ascii("SeniorReviewer"))

  /** Everyone is reached, and every await returns but perhaps the one for the event with the brief. */
  ghost predicate Favours(w: World) {
    (forall i :: w.reached(i)) && (forall p :: w.answers(p) || p == FruitNoted)
  }

  lemma {:induction false} FavouredProbes(w: World)
    requires Favours(w)
    ensures Prepares(w, CREW, false) && HopLives(Probes(w, CREW))
  {
    assert !SomeDead(Probes(w, CREW));
    assert Opens(w) && Onboards(w) && Wires(w);
  }

  lemma {:induction false} FavouredHires(w: World, live: LiveMap, step: StepId, payee: Text)
    requires Favours(w)
    ensures Hires(w, live, step, payee)
  {
    assert w.answers(Started(step)) && w.answers(Announced(step)) && w.answers(Paid(step));
    assert w.answers(Finished(step)) && w.answers(Charged(step));
  }

  lemma {:induction false} FavouredDoes(w: World)
    requires Favours(w)
    ensures DoesAll(w, CREW, false) && (w.recent.Some? ==> ReusesHop(w, CREW, false))
  {
    var live := Probes(w, CREW);
    FavouredProbes(w);
    FavouredHires(w, live, PayDataFetcher, CREW.dataFetcher);
    FavouredHires(w, live, PayAnalyst, CREW.analyst);
    FavouredHires(w, live, PayWriter, CREW.writer);
    FavouredHires(w, live, PayReviewer, CREW.reviewer);
    assert HopSettles(w) && Hops(w, live) && Briefs(w);
  }

  /** Everything answers and everyone is live, but the event with the brief cannot be written. */
  method DoneButFailed() returns (status: RunStatus, stored: seq<Item>)
    ensures status == FailedRun && AllDone(stored)
  {
    var w := World((p: Point) => p != FruitNoted, (i: nat) => true, None, (s: StepId) => []);
    FavouredDoes(w);
    var run := new FleetRunExecution(w);
    var _, _ := run.ExecuteDone(CREW, true, false);
    status, stored := run.status, run.stored;
  }

  /** Everything answers, everyone is live and a recent payment is found: the brief lists one receipt more than
      there were payments. */
  method ReusedHop() returns (listed: seq<Receipt>, paid: seq<Receipt>)
    ensures |listed| == |paid| + 1
  {
    var w := World((p: Point) => true, (i: nat) => true, Some(Ascii("0x1")), (s: StepId) => []);
    FavouredDoes(w);
    var run := new FleetRunExecution(w);
    ghost var p;
    var ok, reported;
    ok, reported, p := run.Execute(CREW, true, false);
    listed, paid := run.events[|run.events| - 2].kind.receipts, run.returned;
  }
}
