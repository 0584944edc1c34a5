/** The audit writer: idempotent, hash-linked appends to each organisation's chain. */
module AuditWriter {
  import opened Options
  import opened CodeUnits
  import opened JsValues
  import opened Redaction
  import opened RedactionProperties
  import opened AuditRecords
  import opened AuditVerifier

  const PAYLOAD: Text := Ascii("payload")
  const REDACTION_STATE: Text := Ascii("redactionState")

  /** One event to record. `envelope` holds every member of the canonical body but the last two, with the
      defaults already filled in; an absent payload is None. */
  datatype Input = Input(org: Text, key: Option<Text>, envelope: seq<Entry>, payload: Option<Value>)

  datatype Log = Log(events: seq<Row>, heads: map<Text, Head>)

  datatype Outcome = Appended(row: Row) | Replayed(row: Row) | Conflict | Threw

  datatype Step = Step(log: Log, outcome: Outcome)

  const EMPTY_LOG: Log := Log([], map[])

  ghost predicate ValidInput(input: Input) {
    && WellFormedValue(Obj(true, input.envelope))
    && (forall i :: 0 <= i < |input.envelope| ==> input.envelope[i].key !in {PAYLOAD, REDACTION_STATE})
    && (input.payload.Some? ==> WellFormedValue(input.payload.value))
  }

  /** `input.payload ?? {}` */
  function PayloadOf(input: Input): Value {
    if input.payload.None? || input.payload.value.Null? then Obj(true, []) else input.payload.value
  }

  function StateText(redacted: bool): Text {
    if redacted then Ascii("redacted") else Ascii("none")
  }

  function BodyOf(input: Input): Value {
    var redacted := Redact(PayloadOf(input));
    Obj(true, input.envelope + [
      Entry(PAYLOAD, redacted.value),
      Entry(REDACTION_STATE, Str(StateText(redacted.redacted)))
    ])
  }

  predicate HasKey(row: Row, org: Text, key: Text) {
    row.org == org && row.key == Some(key)
  }

  function Find(events: seq<Row>, org: Text, key: Text): Option<Row> {
    if events == [] then None
    else if HasKey(events[0], org, key) then Some(events[0])
    else Find(events[1..], org, key)
  }

  /** PRIMARY KEY (id), UNIQUE (org_id, sequence), UNIQUE (event_hash). */
  predicate Clashes(events: seq<Row>, row: Row) {
    exists i :: 0 <= i < |events| && (events[i].id == row.id
      || (events[i].org == row.org && events[i].sequence == row.sequence) || events[i].eventHash == row.eventHash)
  }

  function HeadOf(log: Log, org: Text): Head {
    if org in log.heads then log.heads[org] else Head(0, None)
  }

  function NextRow(h: Hasher, log: Log, org: Text, key: Option<Text>, body: Value, id: Text): Row
    requires Supported(body)
  {
    var head := HeadOf(log, org);
    var bodyHash := BodyHash(h, body);
    var eventHash := h.sha(LinkText(h, bodyHash, org, head.hash, head.sequence + 1));
    Row(id, org, head.sequence + 1, key, body, bodyHash, head.hash, eventHash)
  }

  function Existing(log: Log, org: Text, key: Option<Text>): Option<Row> {
    if key.Some? then Find(log.events, org, key.value) else None
  }

  function Extended(log: Log, row: Row): Log {
    Log(log.events + [row], log.heads[row.org := Head(row.sequence, Some(row.eventHash))])
  }

  /** One call, committed or rolled back. `id` is the random event id; `accepts` says whether the column
      types and checks take the values. */
  function RecordBody(h: Hasher, log: Log, org: Text, key: Option<Text>, body: Value, id: Text, accepts: bool): Step {
    if !Supported(body) then Step(log, Threw)
    else
      var existing := Existing(log, org, key);
      if existing.Some? then
        Step(log, if existing.value.bodyHash != BodyHash(h, body) then Conflict else Replayed(existing.value))
      else
        var row := NextRow(h, log, org, key, body, id);
        if !accepts || Clashes(log.events, row) then Step(log, Threw) else Step(Extended(log, row), Appended(row))
  }

  function Record(h: Hasher, log: Log, input: Input, id: Text, accepts: bool): Step {
    RecordBody(h, log, input.org, input.key, BodyOf(input), id, accepts)
  }

  class AuditStore {
    var events: seq<Row>
    var heads: map<Text, Head>

    constructor ()
      ensures Contents() == EMPTY_LOG
    {
      events, heads := [], map[];
    }

    function Contents(): Log
      reads this
    {
      Log(events, heads)
    }

    method RecordAuditEvent(h: Hasher, input: Input, id: Text, accepts: bool) returns (o: Outcome)
      modifies this
      ensures Step(Contents(), o) == Record(h, old(Contents()), input, id, accepts)
    {
      o := RecordCanonical(h, input.org, input.key, BodyOf(input), id, accepts);
    }

    /** Everything after the canonical body is built. */
    method RecordCanonical(h: Hasher, org: Text, key: Option<Text>, body: Value, id: Text, accepts: bool) returns (o: Outcome)
      modifies this
      ensures Step(Contents(), o) == RecordBody(h, old(Contents()), org, key, body, id, accepts)
    {
      if !Supported(body) { return Threw; }
      var bodyHash := BodyHash(h, body);
      if key.Some? {
        var existing := FindExisting(org, key.value);
        if existing.Some? {
          if existing.value.bodyHash != bodyHash { return Conflict; }
          return Replayed(existing.value);
        }
      }
      o := AppendNext(h, org, key, body, id, accepts);
    }

    /** The head row is created if absent and locked, then the event is inserted and the head moved. */
    method AppendNext(h: Hasher, org: Text, key: Option<Text>, body: Value, id: Text, accepts: bool) returns (o: Outcome)
      requires Supported(body)
      modifies this
      ensures var row := NextRow(h, old(Contents()), org, key, body, id);
        Step(Contents(), o) == if !accepts || Clashes(old(events), row) then Step(old(Contents()), Threw)
                               else Step(Extended(old(Contents()), row), Appended(row))
    {
      ghost var log := Contents();
      var before := heads;
      if org !in heads { heads := heads[org := Head(0, None)]; }
      assert heads[org] == HeadOf(log, org);
      var bodyHash := BodyHash(h, body);
      var sequence := heads[org].sequence + 1;
      var previousHash := heads[org].hash;
      var eventHash := h.sha(LinkText(h, bodyHash, org, previousHash, sequence));
      var row := Row(id, org, sequence, key, body, bodyHash, previousHash, eventHash);
      if !accepts || Clashes(events, row) {
        heads := before;
        return Threw;
      }
      events := events + [row];
      heads := heads[org := Head(sequence, Some(eventHash))];
      o := Appended(row);
    }

    method FindExisting(org: Text, key: Text) returns (existing: Option<Row>)
      ensures existing == Find(events, org, key)
    {
      assert events[0..] == events;
      for i := 0 to |events|
        invariant Find(events, org, key) == Find(events[i..], org, key)
      {
        assert events[i..][1..] == events[i + 1..];
        if HasKey(events[i], org, key) { return Some(events[i]); }
      }
      assert events[|events|..] == [];
      existing := None;
    }

    method Verify(h: Hasher, org: Text) returns (v: Verdict)
      requires UniqueSequences(events)
      ensures v == OnePass(h, Chain(events, org), if org in heads then Some(heads[org]) else None)
    {
      v := VerifyAuditChain(h, events, heads, org, VERIFY_PAGE_SIZE);
    }
  }

  // ---- one call ----

  /** An organisation's rows in the order they were appended. */
  function RowsOf(log: Log, org: Text): seq<Row> {
    SelectAfter(log.events, org, 0)
  }

  lemma {:induction false} FindFinds(events: seq<Row>, org: Text, key: Text)
    ensures Find(events, org, key).Some? ==> Find(events, org, key).value in events && HasKey(Find(events, org, key).value, org, key)
    ensures Find(events, org, key).None? ==> forall i :: 0 <= i < |events| ==> !HasKey(events[i], org, key)
  {
    if events != [] {
      FindFinds(events[1..], org, key);
      assert events == [events[0]] + events[1..];
    }
  }

  lemma {:induction false} SelectAppended(events: seq<Row>, row: Row, org: Text, after: nat)
    ensures SelectAfter(events + [row], org, after) ==
      SelectAfter(events, org, after) + if row.org == org && row.sequence > after then [row] else []
  {
    if events == [] {
      assert events + [row] == [row];
    } else {
      SelectAppended(events[1..], row, org, after);
      assert (events + [row])[1..] == events[1..] + [row];
    }
  }

  /** A replay, a conflict or an exception changes nothing; an append adds one row and moves one head. Either
      way the chains and heads of other organisations stay as they were. */
  lemma {:induction false} OnlyOwnChainGrows(h: Hasher, log: Log, input: Input, id: Text, accepts: bool, other: Text)
    ensures var step := Record(h, log, input, id, accepts);
      && (!step.outcome.Appended? ==> step.log == log)
      && (other != input.org ==> RowsOf(step.log, other) == RowsOf(log, other) && HeadOf(step.log, other) == HeadOf(log, other))
      && (step.outcome.Appended? ==> RowsOf(step.log, input.org) == RowsOf(log, input.org) + [step.outcome.row])
  {
    BodyStep(h, log, input.org, input.key, BodyOf(input), id, accepts, other);
  }

  lemma {:induction false} BodyStep(h: Hasher, log: Log, org: Text, key: Option<Text>, body: Value, id: Text, accepts: bool, other: Text)
    ensures var step := RecordBody(h, log, org, key, body, id, accepts);
      && (!step.outcome.Appended? ==> step.log == log)
      && (other != org ==> RowsOf(step.log, other) == RowsOf(log, other) && HeadOf(step.log, other) == HeadOf(log, other))
      && (step.outcome.Appended? ==> RowsOf(step.log, org) == RowsOf(log, org) + [step.outcome.row])
  {
    var step := RecordBody(h, log, org, key, body, id, accepts);
    if step.outcome.Appended? {
      SelectAppended(log.events, step.outcome.row, org, 0);
      SelectAppended(log.events, step.outcome.row, other, 0);
    }
  }

  // ---- what every run keeps ----

  /** Rows in sequence 1..n, each with its own hashes and its link to the row before. */
  ghost predicate ChainHolds(h: Hasher, rows: seq<Row>) {
    forall i :: 0 <= i < |rows| ==> ChainRowHolds(h, rows, i)
  }

  ghost predicate ChainRowHolds(h: Hasher, rows: seq<Row>, i: nat)
    requires i < |rows|
  {
    rows[i].sequence == i + 1 && WellFormedValue(rows[i].body) && RowHolds(h, rows, i)
  }

  ghost predicate HeadNamesLast(log: Log, org: Text) {
    && HeadOf(log, org) == Head(|RowsOf(log, org)|, PreviousOf(RowsOf(log, org), |RowsOf(log, org)|))
    && (org in log.heads <==> RowsOf(log, org) != [])
  }

  /** Within an organisation a key names at most one event. */
  ghost predicate UniqueKeys(events: seq<Row>) {
    forall i, j :: 0 <= i < j < |events| && events[i].org == events[j].org && events[i].key.Some? ==> events[i].key != events[j].key
  }

  ghost predicate PositiveSequences(events: seq<Row>) {
    forall i :: 0 <= i < |events| ==> events[i].sequence > 0
  }

  ghost predicate OrgIntact(h: Hasher, log: Log, org: Text) {
    ChainHolds(h, RowsOf(log, org)) && HeadNamesLast(log, org)
  }

  ghost predicate Intact(h: Hasher, log: Log) {
    && (forall org :: OrgIntact(h, log, org))
    && UniqueKeys(log.events) && UniqueSequences(log.events) && PositiveSequences(log.events)
  }

  lemma {:induction false} EmptyIntact(h: Hasher)
    ensures Intact(h, EMPTY_LOG)
  {
  }

  lemma {:induction false} RedactWellFormed(v: Value)
    requires WellFormedValue(v)
    ensures WellFormedValue(Redact(v).value)
  {
    match v
    case Arr(items) =>
      forall i | 0 <= i < |items| ensures WellFormedValue(Redact(items[i]).value) { RedactWellFormed(items[i]); }
    case Obj(_, es) =>
      var rs := RedactEntries(es);
      var a := Assemble(es, rs);
      AssembleKeeps(es, rs);
      forall i | 0 <= i < |es| ensures WellFormedValue(rs[i].value) {
        if !IsSensitiveKey(es[i].key) { RedactWellFormed(es[i].value); }
      }
      forall k | 0 <= k < |a.entries| ensures WellFormedValue(a.entries[k].value) {
        assert a.entries[k] in a.entries;
        var i :| 0 <= i < |es| && es[i].key != PROTO && a.entries[k] == Entry(es[i].key, rs[i].value);
      }
    case _ =>
  }

  lemma {:induction false} BodyWellFormed(input: Input)
    requires ValidInput(input)
    ensures WellFormedValue(BodyOf(input))
  {
    RedactWellFormed(PayloadOf(input));
    assert |PAYLOAD| == 7 && |REDACTION_STATE| == 14;
    var es, n := BodyOf(input).entries, |input.envelope|;
    assert es[..n] == input.envelope && es[n].key == PAYLOAD && es[n + 1].key == REDACTION_STATE && |es| == n + 2;
    forall i | 0 <= i < |es| ensures WellFormedValue(es[i].value) {
      if i < n { assert es[i] == input.envelope[i]; }
    }
    forall i, j | 0 <= i < j < |es| ensures es[i].key != es[j].key {
      if i < n { assert es[i] == input.envelope[i]; }
      if j < n { assert es[j] == input.envelope[j]; }
    }
  }

  lemma {:induction false} RowStays(h: Hasher, rows: seq<Row>, row: Row, i: nat)
    requires i < |rows| && ChainRowHolds(h, rows, i)
    ensures ChainRowHolds(h, rows + [row], i)
  {
  }

  lemma {:induction false} ChainGrows(h: Hasher, rows: seq<Row>, row: Row)
    requires ChainHolds(h, rows) && ChainRowHolds(h, rows + [row], |rows|)
    ensures ChainHolds(h, rows + [row])
  {
    forall i | 0 <= i < |rows + [row]| ensures ChainRowHolds(h, rows + [row], i) {
      if i < |rows| { RowStays(h, rows, row, i); }
    }
  }

  lemma {:induction false} SequencesBelow(h: Hasher, log: Log, org: Text, i: nat)
    requires Intact(h, log) && i < |log.events| && log.events[i].org == org
    ensures log.events[i].sequence <= |RowsOf(log, org)|
  {
    var row, rows := log.events[i], RowsOf(log, org);
    SelectedExactly(log.events, org, 0, row);
    assert OrgIntact(h, log, org);
    var k :| 0 <= k < |rows| && rows[k] == row;
    assert ChainRowHolds(h, rows, k);
  }

  lemma {:induction false} NextRowHolds(h: Hasher, log: Log, org: Text, key: Option<Text>, body: Value, id: Text)
    requires HeadNamesLast(log, org) && Supported(body)
    ensures var rows := RowsOf(log, org);
      RowHolds(h, rows + [NextRow(h, log, org, key, body, id)], |rows|)
  {
  }

  lemma {:induction false} OwnChainIntact(h: Hasher, log: Log, row: Row)
    requires OrgIntact(h, log, row.org) && WellFormedValue(row.body)
    requires row.sequence == |RowsOf(log, row.org)| + 1 && RowHolds(h, RowsOf(log, row.org) + [row], |RowsOf(log, row.org)|)
    ensures OrgIntact(h, Extended(log, row), row.org)
  {
    ChainGrows(h, RowsOf(log, row.org), row);
    SelectAppended(log.events, row, row.org, 0);
  }

  lemma {:induction false} OtherChainIntact(h: Hasher, log: Log, row: Row, org: Text)
    requires OrgIntact(h, log, org) && org != row.org
    ensures OrgIntact(h, Extended(log, row), org)
  {
    SelectAppended(log.events, row, org, 0);
    assert RowsOf(Extended(log, row), org) == RowsOf(log, org);
  }

  /** A successful append keeps every chain intact. */
  lemma {:induction false} AppendKeepsIntact(h: Hasher, log: Log, org: Text, key: Option<Text>, body: Value, id: Text)
    requires Intact(h, log) && Supported(body) && WellFormedValue(body) && Existing(log, org, key).None?
    ensures Intact(h, Extended(log, NextRow(h, log, org, key, body, id)))
  {
    var row := NextRow(h, log, org, key, body, id);
    var next := Extended(log, row);
    assert OrgIntact(h, log, org);
    NextRowHolds(h, log, org, key, body, id);
    OwnChainIntact(h, log, row);
    forall other ensures OrgIntact(h, next, other) {
      assert OrgIntact(h, log, other);
      if other != org { OtherChainIntact(h, log, row, other); }
    }
    NewRowUnique(h, log, row);
  }

  lemma {:induction false} NewRowUnique(h: Hasher, log: Log, row: Row)
    requires Intact(h, log) && row.sequence == |RowsOf(log, row.org)| + 1 && Existing(log, row.org, row.key).None?
    ensures UniqueKeys(log.events + [row]) && UniqueSequences(log.events + [row])
  {
    forall i | 0 <= i < |log.events| && log.events[i].org == row.org
      ensures log.events[i].sequence != row.sequence && (row.key.Some? ==> log.events[i].key != row.key)
    {
      SequencesBelow(h, log, row.org, i);
      if row.key.Some? { FindFinds(log.events, row.org, row.key.value); }
    }
  }

  lemma {:induction false} RecordKeepsIntact(h: Hasher, log: Log, input: Input, id: Text, accepts: bool)
    requires Intact(h, log) && ValidInput(input)
    ensures Intact(h, Record(h, log, input, id, accepts).log)
  {
    var body := BodyOf(input);
    BodyWellFormed(input);
    if RecordBody(h, log, input.org, input.key, body, id, accepts).outcome.Appended? {
      AppendKeepsIntact(h, log, input.org, input.key, body, id);
    }
  }

  datatype Call = Call(input: Input, id: Text, accepts: bool)

  /** The log after a sequence of calls, for any organisations in any interleaving. */
  function Run(h: Hasher, calls: seq<Call>): Log {
    if calls == [] then EMPTY_LOG
    else
      var last := calls[|calls| - 1];
      Record(h, Run(h, calls[..|calls| - 1]), last.input, last.id, last.accepts).log
  }

  lemma {:induction false} EveryRunIntact(h: Hasher, calls: seq<Call>)
    requires forall i :: 0 <= i < |calls| ==> ValidInput(calls[i].input)
    ensures Intact(h, Run(h, calls))
  {
    if calls == [] {
      EmptyIntact(h);
    } else {
      var n := |calls| - 1;
      EveryRunIntact(h, calls[..n]);
      RecordKeepsIntact(h, Run(h, calls[..n]), calls[n].input, calls[n].id, calls[n].accepts);
    }
  }
}
