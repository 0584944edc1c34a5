/** Canonical JSON: every object's members in key order, then the ordinary text form.
    The key order stands for `left.localeCompare(right) <= 0`; it may tie different keys. */
module CanonicalJson {
  import opened CodeUnits
  import opened JsonDocuments
  import opened JsonText
  import opened Sorting

  type KeyOrder = (Text, Text) -> bool

  function ByKey(leq: KeyOrder): (Member, Member) -> bool {
    (m: Member, n: Member) => leq(m.key, n.key)
  }

  function SortDoc(leq: KeyOrder, d: Doc): Doc
    decreases d, 1
  {
    match d
    case DArray(items) => DArray(SortItems(leq, items))
    case DObject(ms) => DObject(Sort(ByKey(leq), SortMembers(leq, ms)))
    case _ => d
  }

  function SortItems(leq: KeyOrder, items: seq<Doc>): (r: seq<Doc>)
    ensures |r| == |items|
    ensures forall i :: 0 <= i < |items| ==> r[i] == SortDoc(leq, items[i])
    decreases items, 0
  {
    if items == [] then [] else [SortDoc(leq, items[0])] + SortItems(leq, items[1..])
  }

  function SortMembers(leq: KeyOrder, ms: seq<Member>): (r: seq<Member>)
    ensures |r| == |ms|
    ensures forall i :: 0 <= i < |ms| ==> r[i] == Member(ms[i].key, SortDoc(leq, ms[i].doc))
    decreases ms, 0
  {
    if ms == [] then [] else [Member(ms[0].key, SortDoc(leq, ms[0].doc))] + SortMembers(leq, ms[1..])
  }

  /** `canonicalJson` on a document. */
  function CanonicalText(leq: KeyOrder, d: Doc): Text {
    Print(SortDoc(leq, d))
  }

  // ---- the text determines the meaning ----

  lemma {:induction false} DistinctKeysAreDistinct(ms: seq<Member>)
    requires DistinctKeys(ms)
    ensures Distinct(ms)
  {
  }

  lemma {:induction false} SortKeepsKeysDistinct(leq: KeyOrder, ms: seq<Member>)
    requires DistinctKeys(ms)
    ensures DistinctKeys(Sort(ByKey(leq), ms))
  {
    var r := Sort(ByKey(leq), ms);
    SortElements(ByKey(leq), ms);
    DistinctKeysAreDistinct(ms);
    DistinctByMultiset(ms, r);
    forall i, j | 0 <= i < j < |r| ensures r[i].key != r[j].key {
      assert r[i] in ms && r[j] in ms && r[i] != r[j];
    }
  }

  lemma {:induction false} CoversByElements(ms: seq<Member>, ns: seq<Member>)
    requires forall m :: m in ns ==> m in ms
    ensures Covers(ms, ns)
  {
    forall j | 0 <= j < |ns| ensures Holds(ms, ns[j].key, Meaning(ns[j].doc)) {
      assert ns[j] in ms;
      var i :| 0 <= i < |ms| && ms[i] == ns[j];
      assert ms[i].key == ns[j].key && Meaning(ms[i].doc) == Meaning(ns[j].doc);
    }
  }

  lemma {:induction false} SortedFieldsMean(leq: KeyOrder, ms: seq<Member>)
    requires DistinctKeys(ms)
    ensures MeaningFields(Sort(ByKey(leq), ms)) == MeaningFields(ms)
  {
    SortElements(ByKey(leq), ms);
    SortKeepsKeysDistinct(leq, ms);
    CoversByElements(ms, Sort(ByKey(leq), ms));
    CoversByElements(Sort(ByKey(leq), ms), ms);
    SameFields(ms, Sort(ByKey(leq), ms));
  }

  lemma {:induction false} SortedObjectMeans(leq: KeyOrder, ms: seq<Member>)
    requires WellFormed(DObject(ms))
    ensures WellFormed(DObject(Sort(ByKey(leq), ms)))
    ensures Meaning(DObject(Sort(ByKey(leq), ms))) == Meaning(DObject(ms))
  {
    var r := Sort(ByKey(leq), ms);
    SortedFieldsMean(leq, ms);
    SortKeepsKeysDistinct(leq, ms);
    SortElements(ByKey(leq), ms);
    forall i | 0 <= i < |r| ensures WellFormed(r[i].doc) {
      assert r[i] in ms;
      var j :| 0 <= j < |ms| && ms[j] == r[i];
    }
  }

  /** Sorting members changes no meaning and duplicates no key. */
  lemma {:induction false} SortDocMeans(leq: KeyOrder, d: Doc)
    requires WellFormed(d)
    ensures WellFormed(SortDoc(leq, d)) && Meaning(SortDoc(leq, d)) == Meaning(d)
    decreases d, 1
  {
    match d
    case DArray(items) => SortItemsMean(leq, items);
    case DObject(ms) =>
      SortMembersMean(leq, ms);
      SortedObjectMeans(leq, SortMembers(leq, ms));
    case _ =>
  }

  lemma {:induction false} SortItemsMean(leq: KeyOrder, items: seq<Doc>)
    requires forall i :: 0 <= i < |items| ==> WellFormed(items[i])
    ensures MeaningAll(SortItems(leq, items)) == MeaningAll(items)
    ensures forall i :: 0 <= i < |items| ==> WellFormed(SortItems(leq, items)[i])
    decreases items, 0
  {
    if items != [] {
      SortDocMeans(leq, items[0]);
      SortItemsMean(leq, items[1..]);
      assert SortItems(leq, items)[1..] == SortItems(leq, items[1..]);
    }
  }

  lemma {:induction false} SortMembersMean(leq: KeyOrder, ms: seq<Member>)
    requires DistinctKeys(ms) && forall i :: 0 <= i < |ms| ==> WellFormed(ms[i].doc)
    ensures DistinctKeys(SortMembers(leq, ms)) && MeaningFields(SortMembers(leq, ms)) == MeaningFields(ms)
    ensures forall i :: 0 <= i < |ms| ==> WellFormed(SortMembers(leq, ms)[i].doc)
    decreases ms, 0
  {
    if ms != [] {
      SortDocMeans(leq, ms[0].doc);
      SortMembersMean(leq, ms[1..]);
      assert SortMembers(leq, ms)[1..] == SortMembers(leq, ms[1..]);
    }
  }

  /** Equal canonical texts mean equal documents up to member order, whatever the key order is. */
  lemma {:induction false} CanonicalTextDeterminesMeaning(leq: KeyOrder, a: Doc, b: Doc)
    requires WellFormed(a) && WellFormed(b)
    requires CanonicalText(leq, a) == CanonicalText(leq, b)
    ensures Meaning(a) == Meaning(b)
  {
    PrintInjective(SortDoc(leq, a), SortDoc(leq, b));
    SortDocMeans(leq, a);
    SortDocMeans(leq, b);
  }

  // ---- the meaning determines the text, unless sibling keys tie ----

  predicate Tied(leq: KeyOrder, k: Text, l: Text) {
    leq(k, l) && leq(l, k)
  }

  /** No object has two keys the order cannot tell apart. */
  ghost predicate NoTies(leq: KeyOrder, d: Doc) {
    match d
    case DArray(items) => forall i :: 0 <= i < |items| ==> NoTies(leq, items[i])
    case DObject(ms) =>
      && (forall i, j :: 0 <= i < j < |ms| ==> !Tied(leq, ms[i].key, ms[j].key))
      && (forall i :: 0 <= i < |ms| ==> NoTies(leq, ms[i].doc))
    case _ => true
  }

  lemma {:induction false} ByKeyPreorder(leq: KeyOrder)
    requires TotalPreorder(leq)
    ensures TotalPreorder(ByKey(leq))
  {
    var cmp := ByKey(leq);
    assert forall m, n :: cmp(m, n) == leq(m.key, n.key);
    forall m: Member, n: Member ensures cmp(m, n) || cmp(n, m) {
      assert leq(m.key, n.key) || leq(n.key, m.key);
    }
    forall m: Member, n: Member, o: Member | cmp(m, n) && cmp(n, o) ensures cmp(m, o) {
      assert leq(m.key, n.key) && leq(n.key, o.key);
    }
  }

  lemma {:induction false} MeaningDeterminesSortedDoc(leq: KeyOrder, a: Doc, b: Doc)
    requires TotalPreorder(leq) && WellFormed(a) && WellFormed(b) && NoTies(leq, a)
    requires Meaning(a) == Meaning(b)
    ensures SortDoc(leq, a) == SortDoc(leq, b)
    decreases a, 1
  {
    match a
    case DArray(items) => MeaningDeterminesSortedItems(leq, items, b.items);
    case DObject(ms) => MeaningDeterminesSortedMembers(leq, ms, b.members);
    case _ =>
  }

  lemma {:induction false} MeaningDeterminesSortedItems(leq: KeyOrder, items: seq<Doc>, others: seq<Doc>)
    requires TotalPreorder(leq) && WellFormed(DArray(items)) && WellFormed(DArray(others)) && NoTies(leq, DArray(items))
    requires MeaningAll(items) == MeaningAll(others)
    ensures SortItems(leq, items) == SortItems(leq, others)
    decreases items, 0
  {
    assert |items| == |MeaningAll(items)| && |others| == |MeaningAll(others)|;
    forall i | 0 <= i < |items| ensures SortDoc(leq, items[i]) == SortDoc(leq, others[i]) {
      assert MeaningAll(items)[i] == MeaningAll(others)[i];
      MeaningDeterminesSortedDoc(leq, items[i], others[i]);
    }
  }

  lemma {:induction false} MeaningDeterminesSortedMembers(leq: KeyOrder, ms: seq<Member>, ns: seq<Member>)
    requires TotalPreorder(leq) && WellFormed(DObject(ms)) && WellFormed(DObject(ns)) && NoTies(leq, DObject(ms))
    requires MeaningFields(ms) == MeaningFields(ns)
    ensures Sort(ByKey(leq), SortMembers(leq, ms)) == Sort(ByKey(leq), SortMembers(leq, ns))
    decreases ms, 0
  {
    forall i, j | 0 <= i < |ms| && 0 <= j < |ns| && Alike(ms[i], ns[j])
      ensures SortDoc(leq, ms[i].doc) == SortDoc(leq, ns[j].doc)
    {
      MeaningDeterminesSortedDoc(leq, ms[i].doc, ns[j].doc);
    }
    CoversFromFields(ms, ns);
    CoversFromFields(ns, ms);
    SameSortedMembers(leq, ms, ns);
  }

  ghost predicate Alike(m: Member, n: Member) {
    m.key == n.key && Meaning(m.doc) == Meaning(n.doc)
  }

  lemma {:induction false} MembersIncluded(leq: KeyOrder, ms: seq<Member>, ns: seq<Member>)
    requires Covers(ns, ms)
    requires forall i, j :: 0 <= i < |ms| && 0 <= j < |ns| && Alike(ms[i], ns[j]) ==>
      SortDoc(leq, ms[i].doc) == SortDoc(leq, ns[j].doc)
    ensures forall m :: m in SortMembers(leq, ms) ==> m in SortMembers(leq, ns)
  {
  }

  lemma {:induction false} SortedMembersUntied(leq: KeyOrder, ms: seq<Member>)
    requires DistinctKeys(ms) && forall i, j :: 0 <= i < j < |ms| ==> !Tied(leq, ms[i].key, ms[j].key)
    ensures var rs := SortMembers(leq, ms);
      && DistinctKeys(rs)
      && forall x, y :: x in rs && y in rs && ByKey(leq)(x, y) && ByKey(leq)(y, x) ==> x == y
  {
  }

  lemma {:induction false} SameSortedMembers(leq: KeyOrder, ms: seq<Member>, ns: seq<Member>)
    requires TotalPreorder(leq) && DistinctKeys(ms) && DistinctKeys(ns)
    requires forall i, j :: 0 <= i < j < |ms| ==> !Tied(leq, ms[i].key, ms[j].key)
    requires Covers(ms, ns) && Covers(ns, ms)
    requires forall i, j :: 0 <= i < |ms| && 0 <= j < |ns| && Alike(ms[i], ns[j]) ==>
      SortDoc(leq, ms[i].doc) == SortDoc(leq, ns[j].doc)
    ensures Sort(ByKey(leq), SortMembers(leq, ms)) == Sort(ByKey(leq), SortMembers(leq, ns))
  {
    MembersIncluded(leq, ms, ns);
    forall i, j | 0 <= i < |ns| && 0 <= j < |ms| && Alike(ns[i], ms[j])
      ensures SortDoc(leq, ns[i].doc) == SortDoc(leq, ms[j].doc)
    {
      assert Alike(ms[j], ns[i]);
    }
    MembersIncluded(leq, ns, ms);
    SortedMembersUntied(leq, ms);
    SameElementsSameSort(leq, SortMembers(leq, ms), SortMembers(leq, ns));
  }

  lemma {:induction false} SameElementsSameSort(leq: KeyOrder, rs: seq<Member>, ts: seq<Member>)
    requires TotalPreorder(leq) && DistinctKeys(rs) && DistinctKeys(ts)
    requires forall m :: m in rs <==> m in ts
    requires forall x, y :: x in rs && y in rs && ByKey(leq)(x, y) && ByKey(leq)(y, x) ==> x == y
    ensures Sort(ByKey(leq), rs) == Sort(ByKey(leq), ts)
  {
    var r, t := Sort(ByKey(leq), rs), Sort(ByKey(leq), ts);
    ByKeyPreorder(leq);
    SortSorted(ByKey(leq), rs);
    SortSorted(ByKey(leq), ts);
    SortElements(ByKey(leq), rs);
    SortElements(ByKey(leq), ts);
    SortKeepsKeysDistinct(leq, rs);
    SortKeepsKeysDistinct(leq, ts);
    SortedUnique(ByKey(leq), r, t);
  }

  /** When no sibling keys tie, canonical texts agree exactly when the documents agree up to member order. */
  lemma {:induction false} CanonicalInjectiveUpToOrder(leq: KeyOrder, a: Doc, b: Doc)
    requires TotalPreorder(leq) && WellFormed(a) && WellFormed(b) && NoTies(leq, a)
    ensures CanonicalText(leq, a) == CanonicalText(leq, b) <==> Meaning(a) == Meaning(b)
  {
    if CanonicalText(leq, a) == CanonicalText(leq, b) { CanonicalTextDeterminesMeaning(leq, a, b); }
    if Meaning(a) == Meaning(b) { MeaningDeterminesSortedDoc(leq, a, b); }
  }

  // ---- a tie does make the text depend on insertion order ----

  lemma {:induction false} TieWitness(leq: KeyOrder, d: Doc) returns (e: Doc)
    requires WellFormed(d) && !NoTies(leq, d)
    ensures WellFormed(e) && Meaning(e) == Meaning(d) && SortDoc(leq, e) != SortDoc(leq, d)
  {
    match d
    case DArray(items) =>
      var i :| 0 <= i < |items| && !NoTies(leq, items[i]);
      var item := TieWitness(leq, items[i]);
      ReplacedItem(leq, items, i, item);
      e := DArray(items[i := item]);
    case DObject(ms) =>
      if i :| 0 <= i < |ms| && !NoTies(leq, ms[i].doc) {
        var doc := TieWitness(leq, ms[i].doc);
        ReplacedMember(leq, ms, i, doc);
        e := DObject(ms[i := Member(ms[i].key, doc)]);
      } else {
        var i, j :| 0 <= i < j < |ms| && Tied(leq, ms[i].key, ms[j].key);
        SwappedMembers(leq, ms, i, j);
        e := DObject(ms[i := ms[j]][j := ms[i]]);
      }
  }

  lemma {:induction false} ReplacedItem(leq: KeyOrder, items: seq<Doc>, i: nat, item: Doc)
    requires i < |items| && WellFormed(DArray(items)) && WellFormed(item)
    requires Meaning(item) == Meaning(items[i]) && SortDoc(leq, item) != SortDoc(leq, items[i])
    ensures var e := DArray(items[i := item]);
      WellFormed(e) && Meaning(e) == Meaning(DArray(items)) && SortDoc(leq, e) != SortDoc(leq, DArray(items))
  {
    var others := items[i := item];
    assert MeaningAll(others) == MeaningAll(items);
    assert SortItems(leq, others)[i] != SortItems(leq, items)[i];
  }

  lemma {:induction false} AlikeMembersMean(ms: seq<Member>, ns: seq<Member>)
    requires |ms| == |ns| && DistinctKeys(ms) && forall j :: 0 <= j < |ms| ==> Alike(ms[j], ns[j])
    ensures DistinctKeys(ns) && MeaningFields(ns) == MeaningFields(ms)
  {
    forall j | 0 <= j < |ms| ensures Holds(ms, ns[j].key, Meaning(ns[j].doc)) && Holds(ns, ms[j].key, Meaning(ms[j].doc)) {
      assert Alike(ms[j], ns[j]);
    }
    SameFields(ms, ns);
  }

  lemma {:induction false} ReplacedMemberMeans(ms: seq<Member>, i: nat, doc: Doc)
    requires i < |ms| && WellFormed(DObject(ms)) && WellFormed(doc) && Meaning(doc) == Meaning(ms[i].doc)
    ensures var e := DObject(ms[i := Member(ms[i].key, doc)]); WellFormed(e) && Meaning(e) == Meaning(DObject(ms))
  {
    var ns := ms[i := Member(ms[i].key, doc)];
    assert forall j :: 0 <= j < |ms| ==> Alike(ms[j], ns[j]);
    AlikeMembersMean(ms, ns);
  }

  lemma {:induction false} ReplacedMemberSorts(leq: KeyOrder, ms: seq<Member>, i: nat, doc: Doc)
    requires i < |ms| && DistinctKeys(ms) && SortDoc(leq, doc) != SortDoc(leq, ms[i].doc)
    ensures SortDoc(leq, DObject(ms[i := Member(ms[i].key, doc)])) != SortDoc(leq, DObject(ms))
  {
    var rs, ts := SortMembers(leq, ms), SortMembers(leq, ms[i := Member(ms[i].key, doc)]);
    assert ts[i].key == rs[i].key && ts[i].doc != rs[i].doc;
    DifferentMemberDifferentSort(leq, rs, ts, i);
  }

  lemma {:induction false} ReplacedMember(leq: KeyOrder, ms: seq<Member>, i: nat, doc: Doc)
    requires i < |ms| && WellFormed(DObject(ms)) && WellFormed(doc)
    requires Meaning(doc) == Meaning(ms[i].doc) && SortDoc(leq, doc) != SortDoc(leq, ms[i].doc)
    ensures var e := DObject(ms[i := Member(ms[i].key, doc)]);
      WellFormed(e) && Meaning(e) == Meaning(DObject(ms)) && SortDoc(leq, e) != SortDoc(leq, DObject(ms))
  {
    ReplacedMemberMeans(ms, i, doc);
    ReplacedMemberSorts(leq, ms, i, doc);
  }

  lemma {:induction false} DifferentMemberDifferentSort(leq: KeyOrder, rs: seq<Member>, ts: seq<Member>, i: nat)
    requires i < |rs| == |ts| && DistinctKeys(ts) && ts[i].key == rs[i].key && ts[i].doc != rs[i].doc
    ensures Sort(ByKey(leq), rs) != Sort(ByKey(leq), ts)
  {
    SortElements(ByKey(leq), rs);
    SortElements(ByKey(leq), ts);
    assert rs[i] in Sort(ByKey(leq), rs);
    assert rs[i] !in ts;
  }

  lemma {:induction false} SwappedMembersSort(leq: KeyOrder, ms: seq<Member>, i: nat, j: nat)
    requires i < j < |ms| && DistinctKeys(ms) && Tied(leq, ms[i].key, ms[j].key)
    ensures SortDoc(leq, DObject(ms[i := ms[j]][j := ms[i]])) != SortDoc(leq, DObject(ms))
  {
    var ns := ms[i := ms[j]][j := ms[i]];
    var rs, ts := SortMembers(leq, ms), SortMembers(leq, ns);
    assert ts == rs[i := rs[j]][j := rs[i]];
    SwappedSortDiffers(leq, rs, i, j);
  }

  lemma {:induction false} SwappedMembers(leq: KeyOrder, ms: seq<Member>, i: nat, j: nat)
    requires i < j < |ms| && WellFormed(DObject(ms)) && Tied(leq, ms[i].key, ms[j].key)
    ensures var e := DObject(ms[i := ms[j]][j := ms[i]]);
      WellFormed(e) && Meaning(e) == Meaning(DObject(ms)) && SortDoc(leq, e) != SortDoc(leq, DObject(ms))
  {
    SwappedMembersMean(ms, i, j);
    SwappedMembersSort(leq, ms, i, j);
  }

  lemma {:induction false} SwappedMembersMean(ms: seq<Member>, i: nat, j: nat)
    requires i < j < |ms| && DistinctKeys(ms)
    ensures var ns := ms[i := ms[j]][j := ms[i]]; DistinctKeys(ns) && MeaningFields(ns) == MeaningFields(ms)
  {
    var ns := ms[i := ms[j]][j := ms[i]];
    forall m | m in ms ensures m in ns {
      var k :| 0 <= k < |ms| && ms[k] == m;
      assert m == ns[if k == i then j else if k == j then i else k];
    }
    CoversByElements(ms, ns);
    CoversByElements(ns, ms);
    SameFields(ms, ns);
  }

  lemma {:induction false} SwappedSortDiffers(leq: KeyOrder, rs: seq<Member>, i: nat, j: nat)
    requires i < j < |rs| && DistinctKeys(rs) && Tied(leq, rs[i].key, rs[j].key)
    ensures Sort(ByKey(leq), rs[i := rs[j]][j := rs[i]]) != Sort(ByKey(leq), rs)
  {
    var ts := rs[i := rs[j]][j := rs[i]];
    var x, y := rs[i], rs[j];
    assert Before(rs, x, y);
    assert ts[i] == y && ts[j] == x;
    assert Before(ts, y, x);
    SortStable(ByKey(leq), rs, x, y);
    SortStable(ByKey(leq), ts, y, x);
    SortKeepsKeysDistinct(leq, rs);
    NotBothBefore(Sort(ByKey(leq), rs), x, y);
  }

  lemma {:induction false} NotBothBefore(s: seq<Member>, x: Member, y: Member)
    requires DistinctKeys(s) && Before(s, x, y)
    ensures !Before(s, y, x)
  {
  }

  /** The exact condition: the canonical text of `d` ignores member order if and only if no object in
      `d` has two keys that the key order ties. */
  lemma {:induction false} OrderIndependenceExact(leq: KeyOrder, d: Doc)
    requires TotalPreorder(leq) && WellFormed(d)
    ensures NoTies(leq, d) <==>
      (forall e: Doc :: WellFormed(e) && Meaning(e) == Meaning(d) ==> CanonicalText(leq, e) == CanonicalText(leq, d))
  {
    if NoTies(leq, d) {
      forall e: Doc | WellFormed(e) && Meaning(e) == Meaning(d) ensures CanonicalText(leq, e) == CanonicalText(leq, d) {
        MeaningDeterminesSortedDoc(leq, d, e);
      }
    } else {
      var e := TieWitness(leq, d);
      if CanonicalText(leq, e) == CanonicalText(leq, d) {
        PrintInjective(SortDoc(leq, e), SortDoc(leq, d));
      }
    }
  }

  /** An e with an acute accent, as one code unit and as two: canonically equivalent, which `localeCompare` ties
      (ECMA-262, section 22.1.3.12). */
  const COMPOSED: Text := [0xE9]
  const DECOMPOSED: Text := [0x65, 0x301]

  /** Two objects that mean the same and have different canonical texts. */
  lemma {:induction false} AccentsCanDiffer(leq: KeyOrder)
    requires Tied(leq, COMPOSED, DECOMPOSED)
    ensures var d := DObject([Member(COMPOSED, DNull), Member(DECOMPOSED, DNull)]);
      var e := DObject([Member(DECOMPOSED, DNull), Member(COMPOSED, DNull)]);
      Meaning(d) == Meaning(e) && CanonicalText(leq, d) != CanonicalText(leq, e)
  {
    var ms := [Member(COMPOSED, DNull), Member(DECOMPOSED, DNull)];
    assert COMPOSED != DECOMPOSED by { assert |COMPOSED| == 1 && |DECOMPOSED| == 2; }
    SwappedMembers(leq, ms, 0, 1);
    var e := DObject(ms[0 := ms[1]][1 := ms[0]]);
    assert e.members == [Member(DECOMPOSED, DNull), Member(COMPOSED, DNull)];
    if CanonicalText(leq, e) == CanonicalText(leq, DObject(ms)) { PrintInjective(SortDoc(leq, e), SortDoc(leq, DObject(ms))); }
  }
}
