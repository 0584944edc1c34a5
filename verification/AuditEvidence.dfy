/** What the writer leaves satisfies the verifier, and nothing else with the same head does. */
module AuditEvidence {
  import opened Options
  import opened CodeUnits
  import opened CanonicalJson
  import opened JsonDocuments
  import opened JsonText
  import opened JsValues
  import opened Sorting
  import opened Redaction
  import opened RedactionOrder
  import opened RedactionProperties
  import opened AuditRecords
  import opened AuditVerifier
  import opened AuditWriter

  // ---- two bodies, one hash ----

  /** `b` is `a` with the properties of its objects in some other order, as far as JSON can tell. */
  ghost predicate SameBody(a: Value, b: Value) {
    Supported(a) && Supported(b) && Meaning(ToDoc(a)) == Meaning(ToDoc(b))
  }

  ghost predicate Untied(h: Hasher, body: Value) {
    Supported(body) && NoTies(h.leq, ToDoc(body))
  }

  /** The two bodies are hashed from the same text. */
  ghost predicate SameText(h: Hasher, a: Value, b: Value) {
    Supported(a) && Supported(b) && BodyText(h, a) == BodyText(h, b)
  }

  lemma {:induction false} SameTextSameBody(h: Hasher, a: Value, b: Value)
    requires WellFormedValue(a) && WellFormedValue(b) && SameText(h, a, b)
    ensures SameBody(a, b)
  {
    BodyTextDetermines(h, a, b);
  }

  lemma {:induction false} SameBodySameText(h: Hasher, a: Value, b: Value)
    requires TotalPreorder(h.leq) && WellFormedValue(a) && WellFormedValue(b) && Untied(h, a) && SameBody(a, b)
    ensures SameText(h, a, b)
  {
    ToDocWellFormed(a);
    ToDocWellFormed(b);
    CanonicalInjectiveUpToOrder(h.leq, ToDoc(a), ToDoc(b));
  }

  // ---- the same chain ----

  /** The columns the verifier reads agree, the body up to the order of its properties. */
  ghost predicate SameRow(a: Row, b: Row) {
    && a.org == b.org && a.sequence == b.sequence && a.bodyHash == b.bodyHash
    && a.previousHash == b.previousHash && a.eventHash == b.eventHash && SameBody(a.body, b.body)
  }

  ghost predicate SameChain(rows: seq<Row>, found: seq<Row>) {
    |rows| == |found| && forall i :: 0 <= i < |rows| ==> SameRow(rows[i], found[i])
  }

  ghost predicate WellFormedBodies(rows: seq<Row>) {
    forall i :: 0 <= i < |rows| ==> WellFormedValue(rows[i].body)
  }

  ghost predicate UntiedBodies(h: Hasher, rows: seq<Row>) {
    forall i :: 0 <= i < |rows| ==> Untied(h, rows[i].body)
  }

  /** Every body of the one is hashed from the same text as its counterpart. */
  ghost predicate SameTexts(h: Hasher, rows: seq<Row>, found: seq<Row>) {
    |rows| == |found| && forall i :: 0 <= i < |rows| ==> SameText(h, rows[i].body, found[i].body)
  }

  /** Reordering changes no text of a body without tied keys. */
  lemma {:induction false} UntiedSameTexts(h: Hasher, rows: seq<Row>, found: seq<Row>)
    requires TotalPreorder(h.leq) && UntiedBodies(h, rows) && WellFormedBodies(rows) && WellFormedBodies(found)
    requires SameChain(rows, found)
    ensures SameTexts(h, rows, found)
  {
    forall i | 0 <= i < |rows| ensures SameText(h, rows[i].body, found[i].body) {
      assert SameRow(rows[i], found[i]);
      SameBodySameText(h, rows[i].body, found[i].body);
    }
  }

  lemma {:induction false} SameRowHolds(h: Hasher, rows: seq<Row>, found: seq<Row>, i: nat)
    requires i < |rows| && SameChain(rows, found) && SameText(h, rows[i].body, found[i].body) && RowHolds(h, rows, i)
    ensures RowHolds(h, found, i)
  {
    assert SameRow(rows[i], found[i]);
    assert i > 0 ==> SameRow(rows[i - 1], found[i - 1]);
  }

  /** The verifier accepts a chain that came back with its bodies' properties reordered, if their texts stay. */
  lemma {:induction false} SameChainValid(h: Hasher, rows: seq<Row>, found: seq<Row>)
    requires SameChain(rows, found) && SameTexts(h, rows, found) && ChainHolds(h, rows)
    ensures OnePass(h, found, Some(Head(|rows|, PreviousOf(rows, |rows|)))) == Valid(|rows|)
  {
    forall i | 0 <= i < |found| ensures RowHolds(h, found, i) {
      assert ChainRowHolds(h, rows, i);
      SameRowHolds(h, rows, found, i);
    }
    assert |rows| > 0 ==> SameRow(rows[|rows| - 1], found[|rows| - 1]);
    AllHold(h, found, Some(Head(|rows|, PreviousOf(rows, |rows|))));
  }

  // ---- only the same chain ----

  ghost predicate Hashed(h: Hasher, rows: seq<Row>, text: Text) {
    exists i :: 0 <= i < |rows| && (text == RowLinkText(h, rows[i]) || (Supported(rows[i].body) && text == BodyText(h, rows[i].body)))
  }

  /** SHA-256 does not collide on the texts hashed for these two chains. */
  ghost predicate CollisionFree(h: Hasher, rows: seq<Row>, found: seq<Row>) {
    forall s, t {:trigger Hashed(h, rows, s), Hashed(h, found, t)} :: Hashed(h, rows, s) && Hashed(h, found, t) && h.sha(s) == h.sha(t) ==> s == t
  }

  /** The rows agree in every column read, and their bodies were hashed from one text. */
  ghost predicate SameEvidence(h: Hasher, a: Row, b: Row) {
    SameRow(a, b) && SameText(h, a.body, b.body)
  }

  lemma {:induction false} SameHashSameText(h: Hasher, rows: seq<Row>, found: seq<Row>, i: nat)
    requires i < |rows| && i < |found| && CollisionFree(h, rows, found)
    requires RowHolds(h, rows, i) && RowHolds(h, found, i) && rows[i].bodyHash == found[i].bodyHash
    ensures SameText(h, rows[i].body, found[i].body)
  {
    assert Hashed(h, rows, BodyText(h, rows[i].body)) && Hashed(h, found, BodyText(h, found[i].body));
  }

  /** Equal event hashes reach back to the same row. */
  lemma {:induction false} SameHashSameRow(h: Hasher, rows: seq<Row>, found: seq<Row>, i: nat)
    requires i < |rows| && i < |found| && CollisionFree(h, rows, found)
    requires WellFormedValue(rows[i].body) && WellFormedValue(found[i].body)
    requires RowHolds(h, rows, i) && RowHolds(h, found, i) && rows[i].eventHash == found[i].eventHash
    ensures SameEvidence(h, rows[i], found[i])
  {
    assert Hashed(h, rows, RowLinkText(h, rows[i])) && Hashed(h, found, RowLinkText(h, found[i]));
    LinkTextDetermines(h, rows[i], found[i]);
    SameHashSameText(h, rows, found, i);
    SameTextSameBody(h, rows[i].body, found[i].body);
  }

  lemma {:induction false} StepBack(h: Hasher, rows: seq<Row>, found: seq<Row>, i: nat)
    requires i < |rows| && i < |found| && CollisionFree(h, rows, found)
    requires WellFormedValue(rows[i].body) && WellFormedValue(found[i].body)
    requires RowHolds(h, rows, i) && RowHolds(h, found, i) && PreviousOf(rows, i + 1) == PreviousOf(found, i + 1)
    ensures SameEvidence(h, rows[i], found[i]) && PreviousOf(rows, i) == PreviousOf(found, i)
  {
    SameHashSameRow(h, rows, found, i);
  }

  ghost predicate BothHold(h: Hasher, rows: seq<Row>, found: seq<Row>, i: nat)
    requires i < |rows| && i < |found|
  {
    RowHolds(h, rows, i) && RowHolds(h, found, i) && WellFormedValue(rows[i].body) && WellFormedValue(found[i].body)
  }

  /** Backwards from the tail: from the hash before row `n` every earlier row follows. */
  lemma {:induction false} TailDetermines(h: Hasher, rows: seq<Row>, found: seq<Row>, n: nat, i: nat)
    requires i < n <= |rows| <= |found| && CollisionFree(h, rows, found)
    requires forall k :: 0 <= k < |rows| ==> BothHold(h, rows, found, k)
    requires PreviousOf(rows, n) == PreviousOf(found, n)
    ensures SameEvidence(h, rows[i], found[i])
    decreases n
  {
    assert BothHold(h, rows, found, n - 1);
    StepBack(h, rows, found, n - 1);
    if i < n - 1 { TailDetermines(h, rows, found, n - 1, i); }
  }

  lemma {:induction false} ValidOnlySame(h: Hasher, rows: seq<Row>, found: seq<Row>)
    requires ChainHolds(h, rows) && WellFormedBodies(found) && CollisionFree(h, rows, found)
    requires OnePass(h, found, Some(Head(|rows|, PreviousOf(rows, |rows|)))).Valid?
    ensures SameChain(rows, found) && SameTexts(h, rows, found)
  {
    ChainParts(h, rows);
    ValidExactly(h, found, Some(Head(|rows|, PreviousOf(rows, |rows|))));
    forall i | 0 <= i < |rows| ensures SameEvidence(h, rows[i], found[i]) { TailDetermines(h, rows, found, |rows|, i); }
  }

  /** With the head as the writer left it, the verifier accepts exactly the chain that was written, each body with
      its properties in any order that leaves its canonical text alone. */
  lemma {:induction false} AcceptsExactly(h: Hasher, rows: seq<Row>, found: seq<Row>)
    requires ChainHolds(h, rows) && WellFormedBodies(found) && CollisionFree(h, rows, found)
    ensures OnePass(h, found, Some(Head(|rows|, PreviousOf(rows, |rows|)))).Valid? <==> SameChain(rows, found) && SameTexts(h, rows, found)
  {
    if OnePass(h, found, Some(Head(|rows|, PreviousOf(rows, |rows|)))).Valid? { ValidOnlySame(h, rows, found); }
    if SameChain(rows, found) && SameTexts(h, rows, found) { SameChainValid(h, rows, found); }
  }

  lemma {:induction false} ChainParts(h: Hasher, rows: seq<Row>)
    requires ChainHolds(h, rows)
    ensures WellFormedBodies(rows) && forall i :: 0 <= i < |rows| ==> RowHolds(h, rows, i)
  {
    forall i | 0 <= i < |rows| ensures WellFormedValue(rows[i].body) && RowHolds(h, rows, i) {
      assert ChainRowHolds(h, rows, i);
    }
  }

  /** Tamper evidence over runs of the writer: whatever has happened to the event table since, if the
      organisation's head is as the last call left it, verification succeeds exactly when the table still
      holds the events that were appended, in sequence, none dropped, inserted, altered or moved, and every
      body still has its canonical text. Only when keys tie does the second condition add anything. */
  lemma {:induction false} TamperEvident(h: Hasher, calls: seq<Call>, table: seq<Row>, org: Text)
    requires forall i :: 0 <= i < |calls| ==> ValidInput(calls[i].input)
    requires UniqueSequences(table) && WellFormedBodies(table)
    requires var log := Run(h, calls);
      org in log.heads && CollisionFree(h, RowsOf(log, org), Chain(table, org))
    ensures var log := Run(h, calls);
      OnePass(h, Chain(table, org), Some(log.heads[org])).Valid? <==>
        SameChain(RowsOf(log, org), Chain(table, org)) && SameTexts(h, RowsOf(log, org), Chain(table, org))
    ensures var log := Run(h, calls);
      TotalPreorder(h.leq) && UntiedBodies(h, RowsOf(log, org)) ==>
        (OnePass(h, Chain(table, org), Some(log.heads[org])).Valid? <==> SameChain(RowsOf(log, org), Chain(table, org)))
  {
    var log := Run(h, calls);
    var rows, found := RowsOf(log, org), Chain(table, org);
    EveryRunIntact(h, calls);
    assert OrgIntact(h, log, org);
    ChainBodies(table, org);
    AcceptsExactly(h, rows, found);
    ChainParts(h, rows);
    if TotalPreorder(h.leq) && UntiedBodies(h, rows) && SameChain(rows, found) { UntiedSameTexts(h, rows, found); }
  }

  lemma {:induction false} ChainBodies(table: seq<Row>, org: Text)
    requires UniqueSequences(table) && WellFormedBodies(table)
    ensures WellFormedBodies(Chain(table, org))
  {
    var rows := Chain(table, org);
    QueryExactly(table, org, 0);
    forall i | 0 <= i < |rows| ensures WellFormedValue(rows[i].body) {
      assert rows[i] in rows;
      var k :| 0 <= k < |table| && table[k] == rows[i];
    }
  }

  // ---- the writer meets the verifier ----

  /** Every row of the table is an event that was written. */
  ghost predicate OnlyWritten(events: seq<Row>, table: seq<Row>) {
    forall i :: 0 <= i < |table| ==> exists j :: 0 <= j < |events| && SameRow(events[j], table[i])
  }

  ghost predicate AllKept(events: seq<Row>, table: seq<Row>) {
    forall j :: 0 <= j < |events| ==> exists i :: 0 <= i < |table| && SameRow(events[j], table[i])
  }

  /** The table as the database returns it: the same rows in any physical order, each body with its
      properties in any order. */
  ghost predicate ReadBack(events: seq<Row>, table: seq<Row>) {
    UniqueSequences(table) && WellFormedBodies(table) && OnlyWritten(events, table) && AllKept(events, table)
  }

  ghost predicate Takes(found: seq<Row>, s: nat) {
    exists k :: 0 <= k < |found| && found[k].sequence == s
  }

  /** Strictly ascending sequences that take each value in 1..n, and no other, are 1, 2, ..., n. */
  lemma {:induction false} CountsUp(found: seq<Row>, n: nat, i: nat)
    requires Ascending(found) && forall k :: 0 <= k < |found| ==> 1 <= found[k].sequence <= n
    requires forall s: nat :: 1 <= s <= n ==> Takes(found, s)
    requires i < n
    ensures i < |found| && found[i].sequence == i + 1
  {
    assert Takes(found, i + 1);
    var k :| 0 <= k < |found| && found[k].sequence == i + 1;
    if i > 0 { CountsUp(found, n, i - 1); }
    assert k >= i;
  }

  lemma {:induction false} NotBeyond(found: seq<Row>, n: nat, k: nat)
    requires Ascending(found) && k < |found| && 1 <= found[k].sequence <= n
    requires n > 0 ==> n <= |found| && found[n - 1].sequence == n
    ensures k < n
  {
  }

  lemma {:induction false} CountsExactly(found: seq<Row>, n: nat)
    requires Ascending(found) && forall k :: 0 <= k < |found| ==> 1 <= found[k].sequence <= n
    requires forall s: nat :: 1 <= s <= n ==> Takes(found, s)
    ensures |found| == n && forall i :: 0 <= i < n ==> found[i].sequence == i + 1
  {
    forall i: nat | i < n ensures i < |found| && found[i].sequence == i + 1 { CountsUp(found, n, i); }
    if n > 0 { CountsUp(found, n, n - 1); }
    if |found| > n { NotBeyond(found, n, n); }
  }

  lemma {:induction false} RowAtSequence(h: Hasher, log: Log, org: Text, event: Row)
    requires Intact(h, log) && event in log.events && event.org == org && event.sequence > 0
    ensures 1 <= event.sequence <= |RowsOf(log, org)| && RowsOf(log, org)[event.sequence - 1] == event
  {
    var rows := RowsOf(log, org);
    SelectedExactly(log.events, org, 0, event);
    assert OrgIntact(h, log, org);
    var k :| 0 <= k < |rows| && rows[k] == event;
    assert ChainRowHolds(h, rows, k);
  }

  lemma {:induction false} FoundWasWritten(h: Hasher, log: Log, table: seq<Row>, org: Text, row: Row)
    requires Intact(h, log) && OnlyWritten(log.events, table) && row in table && row.org == org && row.sequence > 0
    ensures 1 <= row.sequence <= |RowsOf(log, org)| && SameRow(RowsOf(log, org)[row.sequence - 1], row)
  {
    var i :| 0 <= i < |table| && table[i] == row;
    var j :| 0 <= j < |log.events| && SameRow(log.events[j], table[i]);
    RowAtSequence(h, log, org, log.events[j]);
  }

  lemma {:induction false} EventAt(h: Hasher, log: Log, org: Text, s: nat)
    requires Intact(h, log) && 1 <= s <= |RowsOf(log, org)|
    ensures var event := RowsOf(log, org)[s - 1]; event in log.events && event.org == org && event.sequence == s
  {
    var rows := RowsOf(log, org);
    assert OrgIntact(h, log, org);
    assert ChainRowHolds(h, rows, s - 1);
    SelectedExactly(log.events, org, 0, rows[s - 1]);
  }

  lemma {:induction false} WrittenIsFound(h: Hasher, log: Log, table: seq<Row>, org: Text, s: nat)
    requires Intact(h, log) && UniqueSequences(table) && AllKept(log.events, table) && 1 <= s <= |RowsOf(log, org)|
    ensures Takes(Chain(table, org), s)
  {
    EventAt(h, log, org, s);
    KeptIsFound(log.events, table, org, RowsOf(log, org)[s - 1]);
  }

  lemma {:induction false} KeptIsFound(events: seq<Row>, table: seq<Row>, org: Text, event: Row)
    requires UniqueSequences(table) && AllKept(events, table) && event in events && event.org == org && event.sequence > 0
    ensures Takes(Chain(table, org), event.sequence)
  {
    var j :| 0 <= j < |events| && events[j] == event;
    var i :| 0 <= i < |table| && SameRow(events[j], table[i]);
    QueryExactly(table, org, 0);
    assert table[i] in Chain(table, org);
  }

  ghost predicate Placed(rows: seq<Row>, row: Row) {
    1 <= row.sequence <= |rows| && SameRow(rows[row.sequence - 1], row)
  }

  lemma {:induction false} FoundRow(table: seq<Row>, org: Text, k: nat)
    requires UniqueSequences(table) && k < |Chain(table, org)|
    ensures var row := Chain(table, org)[k]; row in table && row.org == org && row.sequence > 0
  {
    var found := Chain(table, org);
    assert found[k] in found;
    QueryExactly(table, org, 0);
  }

  lemma {:induction false} EachFoundPlaced(h: Hasher, log: Log, table: seq<Row>, org: Text, k: nat)
    requires Intact(h, log) && ReadBack(log.events, table) && k < |Chain(table, org)|
    ensures Placed(RowsOf(log, org), Chain(table, org)[k])
  {
    FoundRow(table, org, k);
    FoundWasWritten(h, log, table, org, Chain(table, org)[k]);
  }

  lemma {:induction false} PlacedInOrder(rows: seq<Row>, found: seq<Row>)
    requires Ascending(found) && forall k :: 0 <= k < |found| ==> Placed(rows, found[k])
    requires forall s: nat :: 1 <= s <= |rows| ==> Takes(found, s)
    ensures SameChain(rows, found)
  {
    CountsExactly(found, |rows|);
    forall i | 0 <= i < |rows| ensures SameRow(rows[i], found[i]) {
      assert Placed(rows, found[i]);
    }
  }

  /** Sorting what was read back restores the chain as it was written. */
  lemma {:induction false} ReadBackChain(h: Hasher, log: Log, table: seq<Row>, org: Text)
    requires Intact(h, log) && ReadBack(log.events, table)
    ensures SameChain(RowsOf(log, org), Chain(table, org))
  {
    var rows, found := RowsOf(log, org), Chain(table, org);
    assert Ascending(found) by { QueryExactly(table, org, 0); }
    forall k | 0 <= k < |found| ensures Placed(rows, found[k]) { EachFoundPlaced(h, log, table, org, k); }
    forall s: nat | 1 <= s <= |rows| ensures Takes(found, s) { WrittenIsFound(h, log, table, org, s); }
    PlacedInOrder(rows, found);
  }

  /** Verification of what was read back, against the head of the log. */
  function Verification(h: Hasher, log: Log, table: seq<Row>, org: Text): Verdict {
    OnePass(h, Chain(table, org), if org in log.heads then Some(log.heads[org]) else None)
  }

  /** After any run, whichever way the database returns the rows and lists the properties of their bodies,
      verification succeeds and counts every event, if no body has tied keys. */
  lemma {:induction false} WriterMeetsVerifier(h: Hasher, calls: seq<Call>, table: seq<Row>, org: Text)
    requires TotalPreorder(h.leq) && forall i :: 0 <= i < |calls| ==> ValidInput(calls[i].input)
    requires var log := Run(h, calls); ReadBack(log.events, table) && UntiedBodies(h, RowsOf(log, org))
    ensures var log := Run(h, calls); Verification(h, log, table, org) == Valid(|RowsOf(log, org)|)
  {
    var log := Run(h, calls);
    EveryRunIntact(h, calls);
    assert OrgIntact(h, log, org);
    ReadBackChain(h, log, table, org);
    ChainBodies(table, org);
    ChainParts(h, RowsOf(log, org));
    UntiedSameTexts(h, RowsOf(log, org), Chain(table, org));
    SameChainValid(h, RowsOf(log, org), Chain(table, org));
  }

  // ---- and only without ties ----

  lemma {:induction false} OtherText(h: Hasher, body: Value) returns (v: Value)
    requires WellFormedValue(body) && Supported(body) && !Untied(h, body)
    ensures WellFormedValue(v) && SameBody(body, v) && !SameText(h, body, v)
  {
    ToDocWellFormed(body);
    var e := TieWitness(h.leq, ToDoc(body));
    v := FromDoc(e);
    FromDocStandsFor(e);
    if SameText(h, body, v) { PrintInjective(SortDoc(h.leq, e), SortDoc(h.leq, ToDoc(body))); }
  }

  /** The table with the body of event `j` listed in another order. */
  lemma {:induction false} RelistedReadsBack(h: Hasher, log: Log, j: nat, v: Value)
    requires Intact(h, log) && j < |log.events| && WellFormedValue(v) && SameBody(log.events[j].body, v)
    ensures ReadBack(log.events, log.events[j := log.events[j].(body := v)])
  {
    var table := log.events[j := log.events[j].(body := v)];
    forall i | 0 <= i < |log.events| ensures WellFormedValue(table[i].body) && SameRow(log.events[i], table[i]) {
      StoredRow(h, log, log.events[i]);
    }
  }

  /** An untouched table whose body of event `j` reads back with another text does not verify. */
  lemma {:induction false} RelistedRejected(h: Hasher, log: Log, org: Text, j: nat, v: Value)
    requires Intact(h, log) && j < |log.events| && WellFormedValue(v) && SameBody(log.events[j].body, v)
    requires !SameText(h, log.events[j].body, v) && log.events[j].org == org
    requires CollisionFree(h, RowsOf(log, org), Chain(log.events[j := log.events[j].(body := v)], org))
    ensures !Verification(h, log, log.events[j := log.events[j].(body := v)], org).Valid?
  {
    var event := log.events[j];
    var table := log.events[j := event.(body := v)];
    var rows, found := RowsOf(log, org), Chain(table, org);
    RelistedReadsBack(h, log, j, v);
    ReadBackChain(h, log, table, org);
    RowAtSequence(h, log, org, event);
    assert OrgIntact(h, log, org);
    ChainBodies(table, org);
    AcceptsExactly(h, rows, found);
    RelistedFound(table, org, j, found, event.sequence);
  }

  lemma {:induction false} RelistedFound(table: seq<Row>, org: Text, j: nat, found: seq<Row>, s: nat)
    requires UniqueSequences(table) && j < |table| && table[j].org == org && table[j].sequence == s && found == Chain(table, org)
    requires 1 <= s <= |found| && found[s - 1].sequence == s
    ensures found[s - 1] == table[j]
  {
    QueryExactly(table, org, 0);
    assert found[s - 1] in found;
    var i :| 0 <= i < |table| && table[i] == found[s - 1];
    assert i == j;
  }

  ghost predicate AlwaysVerifies(h: Hasher, log: Log, org: Text) {
    forall table :: ReadBack(log.events, table) ==> Verification(h, log, table, org).Valid?
  }

  /** Absent a hash collision, what a run wrote verifies however the database lists it if and only if no body has
      tied keys. */
  lemma {:induction false} AlwaysVerifiesExactly(h: Hasher, calls: seq<Call>, org: Text)
    requires TotalPreorder(h.leq) && forall i :: 0 <= i < |calls| ==> ValidInput(calls[i].input)
    requires var log := Run(h, calls);
      forall table :: ReadBack(log.events, table) ==> CollisionFree(h, RowsOf(log, org), Chain(table, org))
    ensures AlwaysVerifies(h, Run(h, calls), org) <==> UntiedBodies(h, RowsOf(Run(h, calls), org))
  {
    var log := Run(h, calls);
    EveryRunIntact(h, calls);
    if UntiedBodies(h, RowsOf(log, org)) {
      forall table | ReadBack(log.events, table) ensures Verification(h, log, table, org).Valid? {
        WriterMeetsVerifier(h, calls, table, org);
      }
    } else {
      TiedFails(h, log, org);
    }
  }

  lemma {:induction false} TiedEvent(h: Hasher, log: Log, org: Text) returns (j: nat)
    requires Intact(h, log) && !UntiedBodies(h, RowsOf(log, org))
    ensures j < |log.events| && log.events[j].org == org && !Untied(h, log.events[j].body)
    ensures Supported(log.events[j].body) && WellFormedValue(log.events[j].body)
  {
    var k :| 0 <= k < |RowsOf(log, org)| && !Untied(h, RowsOf(log, org)[k].body);
    EventAt(h, log, org, k + 1);
    StoredRow(h, log, RowsOf(log, org)[k]);
    j :| 0 <= j < |log.events| && log.events[j] == RowsOf(log, org)[k];
  }

  lemma {:induction false} TiedFails(h: Hasher, log: Log, org: Text)
    requires Intact(h, log) && !UntiedBodies(h, RowsOf(log, org))
    requires forall table :: ReadBack(log.events, table) ==> CollisionFree(h, RowsOf(log, org), Chain(table, org))
    ensures !AlwaysVerifies(h, log, org)
  {
    var j := TiedEvent(h, log, org);
    var v := OtherText(h, log.events[j].body);
    RelistedReadsBack(h, log, j, v);
    RelistedRejected(h, log, org, j, v);
  }

  // ---- idempotency ----

  /** A call under a key that is taken never writes. It is a replay exactly when its canonical body has the text
      of the stored one, which makes it that body up to the order of properties, and a conflict otherwise; without
      tied keys, exactly when it is that body up to order. */
  lemma {:induction false} ReplayExactly(h: Hasher, log: Log, input: Input, id: Text, accepts: bool)
    requires Intact(h, log) && ValidInput(input) && Supported(BodyOf(input))
    requires input.key.Some? && Find(log.events, input.org, input.key.value).Some?
    requires var stored := Find(log.events, input.org, input.key.value).value;
      Supported(stored.body) && (BodyHash(h, stored.body) == BodyHash(h, BodyOf(input)) ==> BodyText(h, stored.body) == BodyText(h, BodyOf(input)))
    ensures var stored := Find(log.events, input.org, input.key.value).value;
      var step := Record(h, log, input, id, accepts);
      && step == Step(log, if SameText(h, BodyOf(input), stored.body) then Replayed(stored) else Conflict)
      && (step.outcome.Replayed? ==> SameBody(BodyOf(input), stored.body))
      && (TotalPreorder(h.leq) && Untied(h, BodyOf(input)) ==> (step.outcome.Replayed? <==> SameBody(BodyOf(input), stored.body)))
  {
    var stored, body := Find(log.events, input.org, input.key.value).value, BodyOf(input);
    FindFinds(log.events, input.org, input.key.value);
    StoredRow(h, log, stored);
    BodyWellFormed(input);
    KeyedStep(h, log, input.org, input.key, body, stored, id, accepts);
    if SameText(h, body, stored.body) { SameTextSameBody(h, body, stored.body); }
    if TotalPreorder(h.leq) && Untied(h, body) && SameBody(body, stored.body) { SameBodySameText(h, body, stored.body); }
  }

  lemma {:induction false} StoredRow(h: Hasher, log: Log, stored: Row)
    requires Intact(h, log) && stored in log.events
    ensures WellFormedValue(stored.body) && Supported(stored.body) && stored.bodyHash == BodyHash(h, stored.body)
    ensures stored.eventHash == h.sha(RowLinkText(h, stored))
  {
    var i :| 0 <= i < |log.events| && log.events[i] == stored;
    RowAtSequence(h, log, stored.org, stored);
    assert OrgIntact(h, log, stored.org);
    assert ChainRowHolds(h, RowsOf(log, stored.org), stored.sequence - 1);
  }

  lemma {:induction false} KeyedStep(h: Hasher, log: Log, org: Text, key: Option<Text>, body: Value, stored: Row, id: Text, accepts: bool)
    requires Supported(body) && Existing(log, org, key) == Some(stored)
    requires Supported(stored.body) && stored.bodyHash == BodyHash(h, stored.body)
    requires BodyHash(h, stored.body) == BodyHash(h, body) ==> BodyText(h, stored.body) == BodyText(h, body)
    ensures RecordBody(h, log, org, key, body, id, accepts) ==
      Step(log, if SameText(h, body, stored.body) then Replayed(stored) else Conflict)
  {
  }

  /** Two inputs that differ only in how payload and envelope list their properties: both bodies can be encoded or
      neither can, they mean the same, and without tied keys they have the same hash. */
  lemma {:induction false} BodyIgnoresOrder(h: Hasher, a: Input, b: Input)
    requires ValidInput(a) && ValidInput(b) && Reordered(Obj(true, a.envelope), Obj(true, b.envelope))
    requires Reordered(PayloadOf(a), PayloadOf(b))
    ensures Supported(BodyOf(a)) <==> Supported(BodyOf(b))
    ensures Supported(BodyOf(a)) ==> SameBody(BodyOf(a), BodyOf(b))
    ensures TotalPreorder(h.leq) && Untied(h, BodyOf(a)) ==> BodyHash(h, BodyOf(a)) == BodyHash(h, BodyOf(b))
  {
    RedactIgnoresOrder(PayloadOf(a), PayloadOf(b));
    BodiesReordered(a, b);
    BodyWellFormed(a);
    BodyWellFormed(b);
    ReorderedMeaning(BodyOf(a), BodyOf(b));
    if TotalPreorder(h.leq) && Untied(h, BodyOf(a)) { SameBodySameText(h, BodyOf(a), BodyOf(b)); }
  }

  /** Two entries are added to reordered ones, under keys these do not have. */
  lemma {:induction false} BodiesReordered(a: Input, b: Input)
    requires ValidInput(a) && ValidInput(b) && Reordered(Obj(true, a.envelope), Obj(true, b.envelope))
    requires Redact(PayloadOf(a)).redacted == Redact(PayloadOf(b)).redacted
    requires Reordered(Redact(PayloadOf(a)).value, Redact(PayloadOf(b)).value)
    ensures Reordered(BodyOf(a), BodyOf(b))
  {
    BodyShape(a);
    BodyShape(b);
    EnvelopeKeys(a.envelope, BodyOf(a).entries);
    EnvelopeKeys(b.envelope, BodyOf(b).entries);
    var es, fs := BodyOf(a).entries, BodyOf(b).entries;
    forall i, j | 0 <= i < |es| && 0 <= j < |fs| && es[i].key == fs[j].key ensures Reordered(es[i].value, fs[j].value) {
      EntriesReordered(a, b, i, j);
    }
  }

  lemma {:induction false} EntriesReordered(a: Input, b: Input, i: nat, j: nat)
    requires ValidInput(a) && ValidInput(b) && Reordered(Obj(true, a.envelope), Obj(true, b.envelope))
    requires Redact(PayloadOf(a)).redacted == Redact(PayloadOf(b)).redacted
    requires Reordered(Redact(PayloadOf(a)).value, Redact(PayloadOf(b)).value)
    requires i < |BodyOf(a).entries| && j < |BodyOf(b).entries| && BodyOf(a).entries[i].key == BodyOf(b).entries[j].key
    ensures Reordered(BodyOf(a).entries[i].value, BodyOf(b).entries[j].value)
  {
    BodyShape(a);
    BodyShape(b);
    var es, fs, n, m := BodyOf(a).entries, BodyOf(b).entries, |a.envelope|, |b.envelope|;
    assert i < n ==> es[i] == a.envelope[i];
    assert j < m ==> fs[j] == b.envelope[j];
    assert |PAYLOAD| == 7 && |REDACTION_STATE| == 14;
  }

  lemma {:induction false} EnvelopeKeys(envelope: seq<Entry>, es: seq<Entry>)
    requires |es| == |envelope| + 2 && es[..|envelope|] == envelope
    ensures Keys(es) == Keys(envelope) + {es[|envelope|].key, es[|envelope| + 1].key}
  {
    forall k ensures k in Keys(es) <==> k in Keys(envelope) + {es[|envelope|].key, es[|envelope| + 1].key} {
      if k in Keys(envelope) {
        var i :| 0 <= i < |envelope| && envelope[i].key == k;
        assert es[i] == envelope[i];
      }
      if k in Keys(es) {
        var i :| 0 <= i < |es| && es[i].key == k;
        assert i < |envelope| ==> envelope[i] == es[i];
      }
    }
  }

  // ---- when a call appends ----

  ghost predicate FreshId(log: Log, id: Text) {
    forall i :: 0 <= i < |log.events| ==> log.events[i].id != id
  }

  /** SHA-256 does not collide between this link and one already hashed. */
  ghost predicate LinkCollisionFree(h: Hasher, log: Log, row: Row) {
    forall i :: 0 <= i < |log.events| && h.sha(RowLinkText(h, log.events[i])) == h.sha(RowLinkText(h, row)) ==>
      RowLinkText(h, log.events[i]) == RowLinkText(h, row)
  }

  lemma {:induction false} NextNeverClashes(h: Hasher, log: Log, org: Text, key: Option<Text>, body: Value, id: Text)
    requires Intact(h, log) && Supported(body) && FreshId(log, id)
    requires LinkCollisionFree(h, log, NextRow(h, log, org, key, body, id))
    ensures !Clashes(log.events, NextRow(h, log, org, key, body, id))
  {
    var row := NextRow(h, log, org, key, body, id);
    assert OrgIntact(h, log, org);
    forall i | 0 <= i < |log.events|
      ensures !(log.events[i].org == row.org && log.events[i].sequence == row.sequence) && log.events[i].eventHash != row.eventHash
    {
      if log.events[i].org == org { SequencesBelow(h, log, org, i); }
      StoredRow(h, log, log.events[i]);
      if log.events[i].eventHash == row.eventHash { LinkTextDetermines(h, log.events[i], row); }
    }
  }

  /** A call appends exactly when its body can be encoded, the columns take it and its key is new: no chain
      it finds can make the insert fail. */
  lemma {:induction false} AppendsExactly(h: Hasher, log: Log, input: Input, id: Text, accepts: bool)
    requires Intact(h, log) && FreshId(log, id)
    requires Supported(BodyOf(input)) ==> LinkCollisionFree(h, log, NextRow(h, log, input.org, input.key, BodyOf(input), id))
    ensures Record(h, log, input, id, accepts).outcome.Appended? <==>
      Supported(BodyOf(input)) && accepts && Existing(log, input.org, input.key).None?
  {
    var body := BodyOf(input);
    if Supported(body) { NextNeverClashes(h, log, input.org, input.key, body, id); }
  }

  // ---- what a body records ----

  /** The members of an envelope keep their meaning in the body built from it. */
  ghost predicate Keeps(fields: map<Text, Json>, e: Entry) {
    Supported(e.value) && e.key in fields && fields[e.key] == Meaning(ToDoc(e.value))
  }

  lemma {:induction false} BodyKeeps(es: seq<Entry>, i: nat)
    requires Supported(Obj(true, es)) && DistinctEntries(es) && i < |es|
    ensures Keeps(MeaningFields(ToMembers(es)), es[i])
  {
    MemberHeld(ToMembers(es), i);
  }

  lemma {:induction false} BodyShape(input: Input)
    ensures var es, n := BodyOf(input).entries, |input.envelope|;
      && |es| == n + 2 && es[..n] == input.envelope
      && es[n] == Entry(PAYLOAD, Redact(PayloadOf(input)).value)
      && es[n + 1] == Entry(REDACTION_STATE, Str(StateText(Redact(PayloadOf(input)).redacted)))
  {
  }

  /** The hashed body keeps every envelope member, holds the redacted payload with nothing sensitive left in it,
      and says `redacted` exactly when something sensitive was there. */
  lemma {:induction false} BodyRecords(input: Input)
    requires ValidInput(input) && Supported(BodyOf(input))
    ensures RecordsAll(MeaningFields(ToMembers(BodyOf(input).entries)), input.envelope, PayloadOf(input))
  {
    BodyWellFormed(input);
    BodyShape(input);
    RedactClean(PayloadOf(input));
    FlagExact(PayloadOf(input));
    RecordsAllOf(BodyOf(input).entries, input.envelope, PayloadOf(input));
  }

  ghost predicate RecordsAll(fields: map<Text, Json>, envelope: seq<Entry>, payload: Value) {
    && (forall i :: 0 <= i < |envelope| ==> Keeps(fields, envelope[i]))
    && Clean(Redact(payload).value) && Keeps(fields, Entry(PAYLOAD, Redact(payload).value))
    && Keeps(fields, Entry(REDACTION_STATE, Str(StateText(HasSensitive(payload)))))
  }

  lemma {:induction false} RecordsAllOf(es: seq<Entry>, envelope: seq<Entry>, payload: Value)
    requires Supported(Obj(true, es)) && DistinctEntries(es) && |es| == |envelope| + 2 && es[..|envelope|] == envelope
    requires es[|envelope|] == Entry(PAYLOAD, Redact(payload).value) && Clean(Redact(payload).value)
    requires es[|envelope| + 1] == Entry(REDACTION_STATE, Str(StateText(HasSensitive(payload))))
    ensures RecordsAll(MeaningFields(ToMembers(es)), envelope, payload)
  {
    var n := |envelope|;
    BodyKeeps(es, n);
    BodyKeeps(es, n + 1);
    forall i | 0 <= i < n ensures Keeps(MeaningFields(ToMembers(es)), envelope[i]) {
      assert es[i] == envelope[i];
      BodyKeeps(es, i);
    }
  }
}
