/** The chain verifier: a loop over pages of rows, proved to give the verdict of one pass over all of them. */
module AuditVerifier {
  import opened Options
  import opened CodeUnits
  import opened JsValues
  import opened AuditRecords
  import opened Sorting

  datatype Reason = BodyHashMismatch | PreviousHashMismatch | EventHashMismatch | EventCountMismatch | TailHashMismatch

  datatype Verdict =
    | Valid(checked: nat)
    | Invalid(checked: nat, failed: Option<Text>, reason: Reason)
    /** The stored body cannot be encoded, so the verifier throws. */
    | Raised

  const VERIFY_PAGE_SIZE: nat := 500

  // ---- one pass ----

  function CheckRow(h: Hasher, row: Row, previous: Option<Text>): Option<Reason>
    requires Supported(row.body)
  {
    if BodyHash(h, row.body) != row.bodyHash then Some(BodyHashMismatch)
    else if row.previousHash != previous then Some(PreviousHashMismatch)
    else if h.sha(RowLinkText(h, row)) != row.eventHash then Some(EventHashMismatch)
    else None
  }

  datatype Walk = Stopped(verdict: Verdict) | Walked(previous: Option<Text>, checked: nat)

  function WalkRows(h: Hasher, rows: seq<Row>, previous: Option<Text>, checked: nat): Walk {
    if rows == [] then Walked(previous, checked)
    else if !Supported(rows[0].body) then Stopped(Raised)
    else
      var found := CheckRow(h, rows[0], previous);
      if found.Some? then Stopped(Invalid(checked + 1, Some(rows[0].id), found.value))
      else WalkRows(h, rows[1..], Some(rows[0].eventHash), checked + 1)
  }

  function CheckTail(head: Option<Head>, previous: Option<Text>, checked: nat): Verdict {
    if head.None? then Valid(checked)
    else if head.value.sequence != checked then Invalid(checked, None, EventCountMismatch)
    else if head.value.hash != previous then Invalid(checked, None, TailHashMismatch)
    else Valid(checked)
  }

  function OnePass(h: Hasher, rows: seq<Row>, head: Option<Head>): Verdict {
    match WalkRows(h, rows, None, 0)
    case Stopped(verdict) => verdict
    case Walked(previous, checked) => CheckTail(head, previous, checked)
  }

  // ---- the query behind a page ----

  predicate BySequence(a: Row, b: Row) {
    a.sequence <= b.sequence
  }

  function SelectAfter(table: seq<Row>, org: Text, after: nat): seq<Row> {
    if table == [] then []
    else if table[0].org == org && table[0].sequence > after then [table[0]] + SelectAfter(table[1..], org, after)
    else SelectAfter(table[1..], org, after)
  }

  /** Every row of the organisation with positive sequence, by sequence. */
  function Chain(table: seq<Row>, org: Text): seq<Row> {
    Sort(BySequence, SelectAfter(table, org, 0))
  }

  function Page(table: seq<Row>, org: Text, after: nat, limit: nat): seq<Row> {
    var rows := Sort(BySequence, SelectAfter(table, org, after));
    if |rows| <= limit then rows else rows[..limit]
  }

  /** UNIQUE (org_id, sequence). */
  ghost predicate UniqueSequences(table: seq<Row>) {
    forall i, j :: 0 <= i < j < |table| && table[i].org == table[j].org ==> table[i].sequence != table[j].sequence
  }

  lemma {:induction false} SelectedExactly(table: seq<Row>, org: Text, after: nat, row: Row)
    ensures row in SelectAfter(table, org, after) <==> row in table && row.org == org && row.sequence > after
  {
    if table != [] {
      SelectedExactly(table[1..], org, after, row);
      assert row in table <==> row == table[0] || row in table[1..];
    }
  }

  lemma {:induction false} SelectedDistinct(table: seq<Row>, org: Text, after: nat)
    requires UniqueSequences(table)
    ensures forall i, j :: 0 <= i < j < |SelectAfter(table, org, after)| ==>
      SelectAfter(table, org, after)[i].sequence != SelectAfter(table, org, after)[j].sequence
  {
    if table != [] {
      SelectedDistinct(table[1..], org, after);
      var rest := SelectAfter(table[1..], org, after);
      forall i | 0 <= i < |rest| && table[0].org == org ensures rest[i].sequence != table[0].sequence {
        SelectedExactly(table[1..], org, after, rest[i]);
        var k :| 0 <= k < |table[1..]| && table[1..][k] == rest[i];
        assert table[k + 1] == rest[i];
      }
    }
  }

  ghost predicate Ascending(rows: seq<Row>) {
    forall i, j :: 0 <= i < j < |rows| ==> rows[i].sequence < rows[j].sequence
  }

  /** What a query returns without its limit: the matching rows, strictly ascending. */
  lemma {:induction false} QueryExactly(table: seq<Row>, org: Text, after: nat)
    requires UniqueSequences(table)
    ensures var rows := Sort(BySequence, SelectAfter(table, org, after));
      && Ascending(rows)
      && forall row :: row in rows <==> row in table && row.org == org && row.sequence > after
  {
    var found := SelectAfter(table, org, after);
    var rows := Sort(BySequence, found);
    SortSorted(BySequence, found);
    SortElements(BySequence, found);
    SelectedDistinct(table, org, after);
    DistinctByMultiset(found, rows);
    forall i, j | 0 <= i < j < |rows| ensures rows[i].sequence < rows[j].sequence {
      assert rows[i] in found && rows[j] in found && rows[i] != rows[j];
    }
    forall row ensures row in rows <==> row in table && row.org == org && row.sequence > after {
      SelectedExactly(table, org, after, row);
    }
  }

  /** Strictly ascending sequences with the same rows are the same. */
  lemma {:induction false} AscendingUnique(s: seq<Row>, t: seq<Row>)
    requires Ascending(s) && Ascending(t) && forall row :: row in s <==> row in t
    ensures s == t
  {
    forall x, y | x in s && y in s && BySequence(x, y) && BySequence(y, x) ensures x == y {
      var i :| 0 <= i < |s| && s[i] == x;
      var j :| 0 <= j < |s| && s[j] == y;
      assert !(i < j) && !(j < i);
    }
    SortedUnique(BySequence, s, t);
  }

  lemma {:induction false} RowsAfter(rows: seq<Row>, checked: nat, row: Row)
    requires Ascending(rows) && 0 < checked <= |rows|
    ensures row in rows[checked..] <==> row in rows && row.sequence > rows[checked - 1].sequence
  {
  }

  /** A page resumed after row `checked - 1` starts at row `checked`: nothing is skipped, nothing repeated. */
  lemma {:induction false} PageResumes(table: seq<Row>, org: Text, checked: nat)
    requires UniqueSequences(table) && checked <= |Chain(table, org)|
    ensures var after := if checked == 0 then 0 else Chain(table, org)[checked - 1].sequence;
      Sort(BySequence, SelectAfter(table, org, after)) == Chain(table, org)[checked..]
  {
    var rows := Chain(table, org);
    QueryExactly(table, org, 0);
    if checked == 0 {
      assert rows[0..] == rows;
    } else {
      ResumedQuery(table, org, rows, checked);
    }
  }

  lemma {:induction false} ResumedQuery(table: seq<Row>, org: Text, rows: seq<Row>, checked: nat)
    requires UniqueSequences(table) && Ascending(rows) && 0 < checked <= |rows|
    requires forall row :: row in rows <==> row in table && row.org == org && row.sequence > 0
    ensures Sort(BySequence, SelectAfter(table, org, rows[checked - 1].sequence)) == rows[checked..]
  {
    var left := Sort(BySequence, SelectAfter(table, org, rows[checked - 1].sequence));
    QueryExactly(table, org, rows[checked - 1].sequence);
    forall row ensures row in left <==> row in rows[checked..] {
      RowsAfter(rows, checked, row);
    }
    AscendingUnique(left, rows[checked..]);
  }

  // ---- the paged loop ----

  ghost function LastSequence(rows: seq<Row>, checked: nat): nat
    requires checked <= |rows|
  {
    if checked == 0 then 0 else rows[checked - 1].sequence
  }

  /** What is left of one pass over `rows` once `checked` of them are behind it. */
  ghost function Remaining(h: Hasher, rows: seq<Row>, previous: Option<Text>, checked: nat): Walk
    requires checked <= |rows|
  {
    WalkRows(h, rows[checked..], previous, checked)
  }

  lemma {:induction false} WalkOn(h: Hasher, rows: seq<Row>, previous: Option<Text>, checked: nat)
    requires checked < |rows|
    ensures var row := rows[checked];
      Remaining(h, rows, previous, checked) ==
        if !Supported(row.body) then Stopped(Raised)
        else if CheckRow(h, row, previous).Some? then Stopped(Invalid(checked + 1, Some(row.id), CheckRow(h, row, previous).value))
        else Remaining(h, rows, Some(row.eventHash), checked + 1)
  {
  }

  method VerifyAuditChain(h: Hasher, table: seq<Row>, heads: map<Text, Head>, org: Text, pageSize: nat) returns (v: Verdict)
    requires UniqueSequences(table) && pageSize >= 1
    ensures v == OnePass(h, Chain(table, org), if org in heads then Some(heads[org]) else None)
  {
    var stopped, previousHash, checked := WalkPages(h, table, org, pageSize, Chain(table, org));
    if stopped.Some? { return stopped.value; }
    v := CheckTail(if org in heads then Some(heads[org]) else None, previousHash, checked);
  }

  /** The page query, which finds the stretch of the chain that follows the first `checked` rows. */
  method QueryPage(table: seq<Row>, org: Text, after: nat, limit: nat, ghost rows: seq<Row>, ghost checked: nat)
    returns (page: seq<Row>)
    requires UniqueSequences(table) && rows == Chain(table, org)
    requires checked <= |rows| && after == LastSequence(rows, checked)
    ensures checked + |page| <= |rows| && page == rows[checked..checked + |page|]
    ensures |page| <= limit && (|page| < limit ==> checked + |page| == |rows|)
  {
    PageResumes(table, org, checked);
    page := Page(table, org, after, limit);
  }

  /** The pages one after the other, the hash and the counters carried across their boundaries. */
  method WalkPages(h: Hasher, table: seq<Row>, org: Text, pageSize: nat, ghost rows: seq<Row>)
    returns (stopped: Option<Verdict>, previousHash: Option<Text>, checked: nat)
    requires UniqueSequences(table) && pageSize >= 1 && rows == Chain(table, org)
    ensures WalkRows(h, rows, None, 0) == if stopped.Some? then Stopped(stopped.value) else Walked(previousHash, checked)
  {
    stopped, previousHash, checked := None, None, 0;
    var afterSequence: nat := 0;
    assert rows[0..] == rows;
    while true
      invariant checked <= |rows| && afterSequence == LastSequence(rows, checked)
      invariant WalkRows(h, rows, None, 0) == Remaining(h, rows, previousHash, checked)
      decreases |rows| - checked
    {
      var page := QueryPage(table, org, afterSequence, pageSize, rows, checked);
      if |page| == 0 { break; }
      stopped, previousHash, checked := CheckPage(h, page, previousHash, checked, rows);
      if stopped.Some? { return; }
      afterSequence := page[|page| - 1].sequence;
      if |page| < pageSize { break; }
    }
    assert rows[checked..] == [];
    stopped := None;
  }

  method CheckPage(h: Hasher, page: seq<Row>, previous: Option<Text>, before: nat, ghost rows: seq<Row>)
    returns (stopped: Option<Verdict>, previousHash: Option<Text>, checked: nat)
    requires before + |page| <= |rows| && page == rows[before..before + |page|]
    ensures stopped.Some? ==> Remaining(h, rows, previous, before) == Stopped(stopped.value)
    ensures stopped.None? ==> checked == before + |page|
    ensures stopped.None? ==> Remaining(h, rows, previous, before) == Remaining(h, rows, previousHash, checked)
  {
    stopped, previousHash, checked := None, previous, before;
    for i := 0 to |page|
      invariant stopped.None? && checked == before + i
      invariant Remaining(h, rows, previous, before) == Remaining(h, rows, previousHash, checked)
    {
      var event := page[i];
      WalkOn(h, rows, previousHash, checked);
      checked := checked + 1;
      if !Supported(event.body) {
        stopped := Some(Raised);
        return;
      }
      var found := CheckRow(h, event, previousHash);
      if found.Some? {
        stopped := Some(Invalid(checked, Some(event.id), found.value));
        return;
      }
      previousHash := Some(event.eventHash);
    }
  }

  // ---- what the verdict means ----

  function PreviousOf(rows: seq<Row>, i: nat): Option<Text>
    requires i <= |rows|
  {
    if i == 0 then None else Some(rows[i - 1].eventHash)
  }

  ghost predicate RowHolds(h: Hasher, rows: seq<Row>, i: nat)
    requires i < |rows|
  {
    && Supported(rows[i].body)
    && rows[i].bodyHash == BodyHash(h, rows[i].body)
    && rows[i].previousHash == PreviousOf(rows, i)
    && rows[i].eventHash == h.sha(RowLinkText(h, rows[i]))
  }

  lemma {:induction false} WalkStep(h: Hasher, rows: seq<Row>, i: nat)
    requires i < |rows|
    ensures RowHolds(h, rows, i) ==>
      WalkRows(h, rows[i..], PreviousOf(rows, i), i) == WalkRows(h, rows[i + 1..], PreviousOf(rows, i + 1), i + 1)
    ensures !RowHolds(h, rows, i) ==>
      WalkRows(h, rows[i..], PreviousOf(rows, i), i) == Stopped(FailureAt(h, rows, i))
  {
  }

  /** The verdict row `i` deserves when the rows before it hold and it does not. */
  ghost function FailureAt(h: Hasher, rows: seq<Row>, i: nat): (v: Verdict)
    requires i < |rows|
    ensures !v.Valid?
  {
    if !Supported(rows[i].body) then Raised
    else if rows[i].bodyHash != BodyHash(h, rows[i].body) then Invalid(i + 1, Some(rows[i].id), BodyHashMismatch)
    else if rows[i].previousHash != PreviousOf(rows, i) then Invalid(i + 1, Some(rows[i].id), PreviousHashMismatch)
    else Invalid(i + 1, Some(rows[i].id), EventHashMismatch)
  }

  lemma {:induction false} WalkFrom(h: Hasher, rows: seq<Row>, i: nat)
    requires i <= |rows| && forall k :: 0 <= k < i ==> RowHolds(h, rows, k)
    ensures WalkRows(h, rows, None, 0) == WalkRows(h, rows[i..], PreviousOf(rows, i), i)
  {
    if i == 0 {
      assert rows[0..] == rows;
    } else {
      WalkFrom(h, rows, i - 1);
      WalkStep(h, rows, i - 1);
    }
  }

  /** The walk stops at the first row that does not hold, and says why. */
  lemma {:induction false} FirstFailure(h: Hasher, rows: seq<Row>, head: Option<Head>, i: nat)
    requires i < |rows| && !RowHolds(h, rows, i) && forall k :: 0 <= k < i ==> RowHolds(h, rows, k)
    ensures OnePass(h, rows, head) == FailureAt(h, rows, i)
  {
    WalkFrom(h, rows, i);
    WalkStep(h, rows, i);
  }

  lemma {:induction false} AllHold(h: Hasher, rows: seq<Row>, head: Option<Head>)
    requires forall k :: 0 <= k < |rows| ==> RowHolds(h, rows, k)
    ensures OnePass(h, rows, head) == CheckTail(head, PreviousOf(rows, |rows|), |rows|)
  {
    WalkFrom(h, rows, |rows|);
    assert rows[|rows|..] == [];
  }

  lemma {:induction false} FirstFailing(h: Hasher, rows: seq<Row>, n: nat) returns (i: nat)
    requires n <= |rows| && exists k :: 0 <= k < n && !RowHolds(h, rows, k)
    ensures i < n && !RowHolds(h, rows, i) && forall k :: 0 <= k < i ==> RowHolds(h, rows, k)
  {
    if k :| 0 <= k < n - 1 && !RowHolds(h, rows, k) {
      i := FirstFailing(h, rows, n - 1);
    } else {
      i := n - 1;
    }
  }

  /** Valid means exactly: every row's own hashes and its link hold, and the head, if there is one, counts
      the rows and names the last event. */
  lemma {:induction false} ValidExactly(h: Hasher, rows: seq<Row>, head: Option<Head>)
    ensures OnePass(h, rows, head).Valid? <==>
      && (forall i :: 0 <= i < |rows| ==> RowHolds(h, rows, i))
      && (head.Some? ==> head.value == Head(|rows|, PreviousOf(rows, |rows|)))
    ensures OnePass(h, rows, head).Valid? ==> OnePass(h, rows, head).checked == |rows|
  {
    if forall i :: 0 <= i < |rows| ==> RowHolds(h, rows, i) {
      AllHold(h, rows, head);
    } else {
      var i := FirstFailing(h, rows, |rows|);
      FirstFailure(h, rows, head, i);
    }
  }
}
