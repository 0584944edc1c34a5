/** Redaction and encoding both ignore the order in which a payload lists its properties. */
module RedactionOrder {
  import opened CodeUnits
  import opened JsonDocuments
  import opened JsValues
  import opened Redaction
  import opened RedactionProperties

  function Keys(es: seq<Entry>): set<Text> {
    set i | 0 <= i < |es| :: es[i].key
  }

  /** The same value with the properties of its objects listed in another order, at any depth. */
  ghost predicate Reordered(a: Value, b: Value) {
    match a
    case Arr(items) => b.Arr? && |b.items| == |items| && forall i :: 0 <= i < |items| ==> Reordered(items[i], b.items[i])
    case Obj(plain, es) =>
      && b.Obj? && b.plain == plain && Keys(es) == Keys(b.entries)
      && (forall i, j :: 0 <= i < |es| && 0 <= j < |b.entries| && es[i].key == b.entries[j].key ==>
            Reordered(es[i].value, b.entries[j].value))
    case _ => a == b
  }

  // ---- the flag ----

  /** Reordering hides nothing sensitive and adds nothing. */
  lemma {:induction false} ReorderedSensitive(a: Value, b: Value)
    requires Reordered(a, b)
    ensures HasSensitive(a) <==> HasSensitive(b)
  {
    match a
    case Arr(items) =>
      forall i | 0 <= i < |items| ensures HasSensitive(items[i]) <==> HasSensitive(b.items[i]) {
        ReorderedSensitive(items[i], b.items[i]);
      }
    case Obj(_, es) =>
      forall i, j | 0 <= i < |es| && 0 <= j < |b.entries| && es[i].key == b.entries[j].key
        ensures HasSensitive(es[i].value) <==> HasSensitive(b.entries[j].value)
      {
        ReorderedSensitive(es[i].value, b.entries[j].value);
      }
      SensitiveEntries(es, b.entries);
      SensitiveEntries(b.entries, es);
      SensitiveObject(a);
      SensitiveObject(b);
    case _ =>
  }

  ghost predicate SensitiveEntry(es: seq<Entry>, i: int) {
    0 <= i < |es| && (IsSensitiveKey(es[i].key) || HasSensitive(es[i].value))
  }

  lemma {:induction false} SensitiveObject(a: Value)
    requires a.Obj?
    ensures HasSensitive(a) <==> exists i :: SensitiveEntry(a.entries, i)
  {
    var es := a.entries;
    if HasSensitive(a) {
      var i :| 0 <= i < |es| && (IsSensitiveKey(es[i].key) || HasSensitive(es[i].value));
      assert SensitiveEntry(es, i);
    }
    if i :| SensitiveEntry(es, i) { assert IsSensitiveKey(es[i].key) || HasSensitive(es[i].value); }
  }

  lemma {:induction false} SensitiveEntries(es: seq<Entry>, fs: seq<Entry>)
    requires Keys(es) <= Keys(fs)
    requires forall i, j :: 0 <= i < |es| && 0 <= j < |fs| && es[i].key == fs[j].key ==>
      (HasSensitive(es[i].value) <==> HasSensitive(fs[j].value))
    ensures (exists i :: SensitiveEntry(es, i)) ==> exists j :: SensitiveEntry(fs, j)
  {
    if i :| SensitiveEntry(es, i) {
      assert es[i].key in Keys(es);
      var j :| 0 <= j < |fs| && fs[j].key == es[i].key;
      assert SensitiveEntry(fs, j);
    }
  }

  // ---- the redacted value ----

  lemma {:induction false} FlagIgnoresOrder(a: Value, b: Value)
    requires WellFormedValue(a) && WellFormedValue(b) && Reordered(a, b)
    ensures Redact(a).redacted == Redact(b).redacted
  {
    FlagExact(a);
    FlagExact(b);
    ReorderedSensitive(a, b);
  }

  lemma {:induction false} RedactedReordered(a: Value, b: Value)
    requires WellFormedValue(a) && WellFormedValue(b) && Reordered(a, b)
    ensures Reordered(Redact(a).value, Redact(b).value)
  {
    match a
    case Arr(items) =>
      forall i | 0 <= i < |items| ensures Reordered(Redact(items[i]).value, Redact(b.items[i]).value) {
        RedactedReordered(items[i], b.items[i]);
      }
    case Obj(_, es) =>
      forall i, j | 0 <= i < |es| && 0 <= j < |b.entries| && es[i].key == b.entries[j].key
        ensures Reordered(RedactUnder(es[i]).value, RedactUnder(b.entries[j]).value)
      {
        RedactedReordered(es[i].value, b.entries[j].value);
      }
      ReorderedAssembly(es, b.entries);
    case _ =>
  }

  /** Redaction commutes with reordering: same flag, and the results are again reorderings of each other. */
  lemma {:induction false} RedactIgnoresOrder(a: Value, b: Value)
    requires WellFormedValue(a) && WellFormedValue(b) && Reordered(a, b)
    ensures Redact(a).redacted == Redact(b).redacted && Reordered(Redact(a).value, Redact(b).value)
  {
    FlagIgnoresOrder(a, b);
    RedactedReordered(a, b);
  }

  lemma {:induction false} ReorderedAssembly(es: seq<Entry>, fs: seq<Entry>)
    requires DistinctEntries(es) && DistinctEntries(fs) && Keys(es) == Keys(fs)
    requires forall i, j :: 0 <= i < |es| && 0 <= j < |fs| && es[i].key == fs[j].key ==>
      Reordered(RedactUnder(es[i]).value, RedactUnder(fs[j]).value)
    ensures Reordered(Assemble(es, RedactEntries(es)), Assemble(fs, RedactEntries(fs)))
  {
    var rs, ts := RedactEntries(es), RedactEntries(fs);
    var a, b := Assemble(es, rs), Assemble(fs, ts);
    AssembleKeeps(es, rs);
    AssembleKeeps(fs, ts);
    AssembledKeys(es, fs);
    AssembledKeys(fs, es);
    SamePlain(es, fs);
    forall p, q | 0 <= p < |a.entries| && 0 <= q < |b.entries| && a.entries[p].key == b.entries[q].key
      ensures Reordered(a.entries[p].value, b.entries[q].value)
    {
      assert a.entries[p] in a.entries && b.entries[q] in b.entries;
      var i :| 0 <= i < |es| && es[i].key != PROTO && a.entries[p] == Entry(es[i].key, rs[i].value);
      var j :| 0 <= j < |fs| && fs[j].key != PROTO && b.entries[q] == Entry(fs[j].key, ts[j].value);
    }
  }

  lemma {:induction false} AssembledKeys(es: seq<Entry>, fs: seq<Entry>)
    requires DistinctEntries(es) && DistinctEntries(fs) && Keys(es) <= Keys(fs)
    ensures Keys(Assemble(es, RedactEntries(es)).entries) <= Keys(Assemble(fs, RedactEntries(fs)).entries)
  {
    var rs, ts := RedactEntries(es), RedactEntries(fs);
    var a, b := Assemble(es, rs).entries, Assemble(fs, ts).entries;
    AssembleKeeps(es, rs);
    AssembleKeeps(fs, ts);
    forall k | k in Keys(a) ensures k in Keys(b) {
      var p :| 0 <= p < |a| && a[p].key == k;
      assert a[p] in a;
      var i :| 0 <= i < |es| && es[i].key != PROTO && a[p] == Entry(es[i].key, rs[i].value);
      assert es[i].key in Keys(es);
      var j :| 0 <= j < |fs| && fs[j].key == es[i].key;
      assert Assigned(fs, ts, Entry(fs[j].key, ts[j].value));
      assert Entry(fs[j].key, ts[j].value) in b;
    }
  }

  /** Some property named `__proto__` holds an object after redaction. */
  ghost predicate ProtoHoldsObject(es: seq<Entry>) {
    exists i :: 0 <= i < |es| && es[i].key == PROTO && IsJsObject(RedactUnder(es[i]).value)
  }

  lemma {:induction false} ReorderedObjecthood(a: Value, b: Value)
    requires Reordered(a, b)
    ensures IsJsObject(a) <==> IsJsObject(b)
  {
  }

  lemma {:induction false} ProtoHoldsObjectReordered(es: seq<Entry>, fs: seq<Entry>)
    requires Keys(es) <= Keys(fs) && ProtoHoldsObject(es)
    requires forall i, j :: 0 <= i < |es| && 0 <= j < |fs| && es[i].key == fs[j].key ==>
      (IsJsObject(RedactUnder(es[i]).value) <==> IsJsObject(RedactUnder(fs[j]).value))
    ensures ProtoHoldsObject(fs)
  {
    var i :| 0 <= i < |es| && es[i].key == PROTO && IsJsObject(RedactUnder(es[i]).value);
    assert PROTO in Keys(es);
    var j :| 0 <= j < |fs| && fs[j].key == PROTO;
    assert IsJsObject(RedactUnder(fs[j]).value);
  }

  lemma {:induction false} PlainUnlessProto(es: seq<Entry>)
    requires DistinctEntries(es)
    ensures Assemble(es, RedactEntries(es)).plain <==> !ProtoHoldsObject(es)
  {
    AssembleKeeps(es, RedactEntries(es));
  }

  lemma {:induction false} SamePlain(es: seq<Entry>, fs: seq<Entry>)
    requires DistinctEntries(es) && DistinctEntries(fs) && Keys(es) == Keys(fs)
    requires forall i, j :: 0 <= i < |es| && 0 <= j < |fs| && es[i].key == fs[j].key ==>
      Reordered(RedactUnder(es[i]).value, RedactUnder(fs[j]).value)
    ensures Assemble(es, RedactEntries(es)).plain <==> Assemble(fs, RedactEntries(fs)).plain
  {
    forall i, j | 0 <= i < |es| && 0 <= j < |fs| && es[i].key == fs[j].key
      ensures IsJsObject(RedactUnder(es[i]).value) <==> IsJsObject(RedactUnder(fs[j]).value)
    {
      ReorderedObjecthood(RedactUnder(es[i]).value, RedactUnder(fs[j]).value);
    }
    PlainUnlessProto(es);
    PlainUnlessProto(fs);
    if ProtoHoldsObject(es) { ProtoHoldsObjectReordered(es, fs); }
    if ProtoHoldsObject(fs) { ProtoHoldsObjectReordered(fs, es); }
  }

  // ---- the hash ----

  /** Reordered values are refused alike, and those accepted mean the same document. */
  lemma {:induction false} ReorderedMeaning(a: Value, b: Value)
    requires WellFormedValue(a) && WellFormedValue(b) && Reordered(a, b)
    ensures Supported(a) <==> Supported(b)
    ensures Supported(a) && Supported(b) ==> Meaning(ToDoc(a)) == Meaning(ToDoc(b))
  {
    match a
    case Arr(items) =>
      forall i | 0 <= i < |items|
        ensures Supported(items[i]) <==> Supported(b.items[i])
        ensures Supported(items[i]) && Supported(b.items[i]) ==> Meaning(ToDoc(items[i])) == Meaning(ToDoc(b.items[i]))
      {
        ReorderedMeaning(items[i], b.items[i]);
      }
      if Supported(a) { SameItemMeanings(items, b.items); }
    case Obj(_, es) =>
      forall i, j | 0 <= i < |es| && 0 <= j < |b.entries| && es[i].key == b.entries[j].key
        ensures SameSupport(es[i].value, b.entries[j].value)
      {
        ReorderedMeaning(es[i].value, b.entries[j].value);
      }
      EntriesSupported(es, b.entries);
      EntriesSupported(b.entries, es);
      if Supported(a) { SameEntryMeanings(es, b.entries); }
    case _ =>
  }

  ghost predicate SameSupport(v: Value, w: Value) {
    && (Supported(v) <==> Supported(w))
    && (Supported(v) && Supported(w) ==> Meaning(ToDoc(v)) == Meaning(ToDoc(w)))
  }

  lemma {:induction false} SameItemMeanings(items: seq<Value>, others: seq<Value>)
    requires |items| == |others|
    requires forall i :: 0 <= i < |items| ==> Supported(items[i]) && Supported(others[i])
    requires forall i :: 0 <= i < |items| ==> Meaning(ToDoc(items[i])) == Meaning(ToDoc(others[i]))
    ensures MeaningAll(ToDocs(items)) == MeaningAll(ToDocs(others))
  {
  }

  lemma {:induction false} EntriesSupported(es: seq<Entry>, fs: seq<Entry>)
    requires Keys(fs) <= Keys(es)
    requires forall i, j :: 0 <= i < |es| && 0 <= j < |fs| && es[i].key == fs[j].key ==> (Supported(es[i].value) <==> Supported(fs[j].value))
    ensures (forall i :: 0 <= i < |es| ==> Supported(es[i].value)) ==> forall j :: 0 <= j < |fs| ==> Supported(fs[j].value)
  {
    forall j | 0 <= j < |fs| && !Supported(fs[j].value) ensures exists i :: 0 <= i < |es| && !Supported(es[i].value) {
      assert fs[j].key in Keys(fs);
      var i :| 0 <= i < |es| && es[i].key == fs[j].key;
    }
  }

  lemma {:induction false} SameEntryMeanings(es: seq<Entry>, fs: seq<Entry>)
    requires DistinctEntries(es) && DistinctEntries(fs) && Keys(es) == Keys(fs)
    requires forall i :: 0 <= i < |es| ==> Supported(es[i].value)
    requires forall j :: 0 <= j < |fs| ==> Supported(fs[j].value)
    requires forall i, j :: 0 <= i < |es| && 0 <= j < |fs| && es[i].key == fs[j].key ==> SameSupport(es[i].value, fs[j].value)
    ensures MeaningFields(ToMembers(es)) == MeaningFields(ToMembers(fs))
  {
    MembersCovered(es, fs);
    MembersCovered(fs, es);
    SameFields(ToMembers(es), ToMembers(fs));
  }

  lemma {:induction false} MembersCovered(es: seq<Entry>, fs: seq<Entry>)
    requires Keys(fs) <= Keys(es)
    requires forall i :: 0 <= i < |es| ==> Supported(es[i].value)
    requires forall j :: 0 <= j < |fs| ==> Supported(fs[j].value)
    requires forall i, j :: 0 <= i < |es| && 0 <= j < |fs| && es[i].key == fs[j].key ==> SameSupport(es[i].value, fs[j].value)
    ensures Covers(ToMembers(es), ToMembers(fs))
  {
    var ms, ns := ToMembers(es), ToMembers(fs);
    forall j | 0 <= j < |ns| ensures Holds(ms, ns[j].key, Meaning(ns[j].doc)) {
      assert fs[j].key in Keys(fs);
      var i :| 0 <= i < |es| && es[i].key == fs[j].key;
      assert ms[i].key == ns[j].key && Meaning(ms[i].doc) == Meaning(ns[j].doc);
    }
  }
}
