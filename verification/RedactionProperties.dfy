/** What redaction promises, and exactly where an own property named `__proto__` breaks the promise. */
module RedactionProperties {
  import opened JsonDocuments
  import opened JsValues
  import opened Redaction

  /** No sensitive key carries anything but the marker and no string is sensitive. */
  ghost predicate Clean(v: Value) {
    match v
    case Str(s) => !IsSensitiveString(s)
    case Arr(items) => forall i :: 0 <= i < |items| ==> Clean(items[i])
    case Obj(_, es) => forall i :: 0 <= i < |es| ==>
      Clean(es[i].value) && (IsSensitiveKey(es[i].key) ==> es[i].value == Str(MARKER))
    case _ => true
  }

  ghost predicate HasSensitive(v: Value) {
    match v
    case Str(s) => IsSensitiveString(s)
    case Arr(items) => exists i :: 0 <= i < |items| && HasSensitive(items[i])
    case Obj(_, es) => exists i :: 0 <= i < |es| && (IsSensitiveKey(es[i].key) || HasSensitive(es[i].value))
    case _ => false
  }

  /** An own property `__proto__` occurs somewhere not already hidden behind a sensitive key. */
  ghost predicate HasProto(v: Value) {
    match v
    case Arr(items) => exists i :: 0 <= i < |items| && HasProto(items[i])
    case Obj(_, es) => exists i :: 0 <= i < |es| && (es[i].key == PROTO || (!IsSensitiveKey(es[i].key) && HasProto(es[i].value)))
    case _ => false
  }

  /** Such a property holds an object. */
  ghost predicate HasProtoObject(v: Value) {
    match v
    case Arr(items) => exists i :: 0 <= i < |items| && HasProtoObject(items[i])
    case Obj(_, es) => exists i :: 0 <= i < |es| && ShowsProtoObject(es[i])
    case _ => false
  }

  ghost predicate ShowsProtoObject(e: Entry) {
    if e.key == PROTO then IsJsObject(e.value) else !IsSensitiveKey(e.key) && HasProtoObject(e.value)
  }

  ghost predicate AllPlain(v: Value) {
    match v
    case Arr(items) => forall i :: 0 <= i < |items| ==> AllPlain(items[i])
    case Obj(plain, es) => plain && forall i :: 0 <= i < |es| ==> AllPlain(es[i].value)
    case _ => true
  }

  /** `w` is `v` with sensitive strings and the values of sensitive keys blanked, and nothing else changed. */
  ghost predicate Censored(v: Value, w: Value) {
    match v
    case Str(s) => w == if IsSensitiveString(s) then Str(MARKER) else v
    case Arr(items) => w.Arr? && |w.items| == |items| && forall i :: 0 <= i < |items| ==> Censored(items[i], w.items[i])
    case Obj(_, es) =>
      w.Obj? && w.plain && |w.entries| == |es| && forall i :: 0 <= i < |es| ==> CensoredEntry(es[i], w.entries[i])
    case _ => w == v
  }

  ghost predicate CensoredEntry(e: Entry, f: Entry) {
    f.key == e.key && if IsSensitiveKey(e.key) then f.value == Str(MARKER) else Censored(e.value, f.value)
  }

  // ---- the object that the assignments leave ----

  /** Without `__proto__` every assignment appends. */
  lemma {:induction false} AssemblePlain(es: seq<Entry>, rs: seq<Redacted>)
    requires |es| == |rs| && forall i :: 0 <= i < |es| ==> es[i].key != PROTO
    ensures var a := Assemble(es, rs);
      a.plain && |a.entries| == |es| && forall i :: 0 <= i < |es| ==> a.entries[i] == Entry(es[i].key, rs[i].value)
  {
    if es != [] {
      var n := |es| - 1;
      AssemblePlain(es[..n], rs[..n]);
    }
  }

  /** Entry `k` of the result came from some assignment. */
  ghost predicate Assigned(es: seq<Entry>, rs: seq<Redacted>, e: Entry)
    requires |es| == |rs|
  {
    exists i :: 0 <= i < |es| && es[i].key != PROTO && e == Entry(es[i].key, rs[i].value)
  }

  /** In general exactly the other properties are kept, and an object under `__proto__` shows as a prototype. */
  lemma {:induction false} AssembleKeeps(es: seq<Entry>, rs: seq<Redacted>)
    requires |es| == |rs| && DistinctEntries(es)
    ensures var a := Assemble(es, rs);
      && (forall e :: e in a.entries <==> Assigned(es, rs, e))
      && DistinctEntries(a.entries)
      && (a.plain <==> forall i :: 0 <= i < |es| && es[i].key == PROTO ==> !IsJsObject(rs[i].value))
  {
    if es != [] {
      var n := |es| - 1;
      AssembleKeeps(es[..n], rs[..n]);
      forall e ensures e in Assemble(es, rs).entries <==> Assigned(es, rs, e) {
        AssignedStep(es, rs, e);
      }
      DistinctStep(es, rs);
      PlainStep(es, rs);
    }
  }

  lemma {:induction false} DistinctStep(es: seq<Entry>, rs: seq<Redacted>)
    requires 0 < |es| == |rs| && DistinctEntries(es)
    requires var a := Assemble(es[..|es| - 1], rs[..|es| - 1]).entries;
      DistinctEntries(a) && forall e :: e in a <==> Assigned(es[..|es| - 1], rs[..|es| - 1], e)
    ensures DistinctEntries(Assemble(es, rs).entries)
  {
    var n := |es| - 1;
    var a := Assemble(es[..n], rs[..n]).entries;
    forall k | 0 <= k < |a| ensures a[k].key != es[n].key {
      assert a[k] in a;
      var i :| 0 <= i < n && es[..n][i].key != PROTO && a[k] == Entry(es[..n][i].key, rs[..n][i].value);
    }
  }

  lemma {:induction false} AssignedStep(es: seq<Entry>, rs: seq<Redacted>, e: Entry)
    requires 0 < |es| == |rs|
    ensures var n := |es| - 1;
      Assigned(es, rs, e) <==> Assigned(es[..n], rs[..n], e) || (es[n].key != PROTO && e == Entry(es[n].key, rs[n].value))
  {
  }

  lemma {:induction false} PlainStep(es: seq<Entry>, rs: seq<Redacted>)
    requires 0 < |es| == |rs| && DistinctEntries(es)
    requires var n := |es| - 1;
      Assemble(es[..n], rs[..n]).plain <==> forall i :: 0 <= i < n && es[i].key == PROTO ==> !IsJsObject(rs[i].value)
    ensures Assemble(es, rs).plain <==> forall i :: 0 <= i < |es| && es[i].key == PROTO ==> !IsJsObject(rs[i].value)
  {
  }

  // ---- nothing sensitive is left ----

  lemma {:induction false} RedactClean(v: Value)
    requires WellFormedValue(v)
    ensures Clean(Redact(v).value)
  {
    MarkerNotSensitive();
    match v
    case Arr(items) =>
      forall i | 0 <= i < |items| ensures Clean(Redact(items[i]).value) { RedactClean(items[i]); }
    case Obj(_, es) =>
      var rs := RedactEntries(es);
      var a := Assemble(es, rs);
      AssembleKeeps(es, rs);
      forall i | 0 <= i < |es| ensures Clean(rs[i].value) {
        if !IsSensitiveKey(es[i].key) { RedactClean(es[i].value); }
      }
      forall k | 0 <= k < |a.entries|
        ensures Clean(a.entries[k].value) && (IsSensitiveKey(a.entries[k].key) ==> a.entries[k].value == Str(MARKER))
      {
        assert a.entries[k] in a.entries;
        var i :| 0 <= i < |es| && es[i].key != PROTO && a.entries[k] == Entry(es[i].key, rs[i].value);
      }
    case _ =>
  }

  /** The `redacted` flag is up exactly when something sensitive was there. */
  lemma {:induction false} FlagExact(v: Value)
    ensures Redact(v).redacted <==> HasSensitive(v)
  {
    match v
    case Arr(items) =>
      forall i | 0 <= i < |items| ensures Redact(items[i]).redacted <==> HasSensitive(items[i]) { FlagExact(items[i]); }
      ItemsFlag(items);
    case Obj(_, es) =>
      forall i | 0 <= i < |es| ensures RedactUnder(es[i]).redacted <==> IsSensitiveKey(es[i].key) || HasSensitive(es[i].value) {
        FlagExact(es[i].value);
      }
      EntriesFlag(es);
    case _ =>
  }

  lemma {:induction false} ItemsFlag(items: seq<Value>)
    requires forall i :: 0 <= i < |items| ==> (Redact(items[i]).redacted <==> HasSensitive(items[i]))
    ensures AnyRedacted(RedactItems(items)) <==> exists i :: 0 <= i < |items| && HasSensitive(items[i])
  {
  }

  lemma {:induction false} EntriesFlag(es: seq<Entry>)
    requires forall i :: 0 <= i < |es| ==>
      (RedactUnder(es[i]).redacted <==> IsSensitiveKey(es[i].key) || HasSensitive(es[i].value))
    ensures AnyRedacted(RedactEntries(es)) <==>
      exists i :: 0 <= i < |es| && (IsSensitiveKey(es[i].key) || HasSensitive(es[i].value))
  {
  }

  // ---- everything else is kept, unless `__proto__` is among it ----

  lemma {:induction false} ProtoEntryLost(es: seq<Entry>, i: nat, w: Value)
    requires i < |es| && es[i].key == PROTO && DistinctEntries(es)
    requires w == Assemble(es, RedactEntries(es))
    ensures |w.entries| <= i || w.entries[i].key != PROTO
    ensures forall k :: 0 <= k < |w.entries| ==> w.entries[k].key != PROTO
  {
    var rs := RedactEntries(es);
    AssembleKeeps(es, rs);
    forall k | 0 <= k < |w.entries| ensures w.entries[k].key != PROTO {
      assert w.entries[k] in w.entries;
      var j :| 0 <= j < |es| && es[j].key != PROTO && w.entries[k] == Entry(es[j].key, rs[j].value);
    }
  }

  /** The exact condition for keeping all other structure. */
  lemma {:induction false} StructureKeptExactly(v: Value)
    requires WellFormedValue(v)
    ensures Censored(v, Redact(v).value) <==> !HasProto(v)
  {
    match v
    case Arr(items) =>
      forall i | 0 <= i < |items| ensures Censored(items[i], Redact(items[i]).value) <==> !HasProto(items[i]) {
        StructureKeptExactly(items[i]);
      }
      assert forall i :: 0 <= i < |items| ==> Redact(v).value.items[i] == Redact(items[i]).value;
    case Obj(_, es) =>
      forall i | 0 <= i < |es| ensures Censored(es[i].value, Redact(es[i].value).value) <==> !HasProto(es[i].value) {
        StructureKeptExactly(es[i].value);
      }
      ObjectKeptExactly(v);
    case _ =>
  }

  lemma {:induction false} ObjectKeptExactly(v: Value)
    requires v.Obj? && DistinctEntries(v.entries)
    requires forall i :: 0 <= i < |v.entries| ==>
      (Censored(v.entries[i].value, Redact(v.entries[i].value).value) <==> !HasProto(v.entries[i].value))
    ensures Censored(v, Redact(v).value) <==> !HasProto(v)
  {
    var es, w := v.entries, Redact(v).value;
    if i :| 0 <= i < |es| && es[i].key == PROTO {
      ProtoEntryLost(es, i, w);
      assert |w.entries| == |es| ==> !CensoredEntry(es[i], w.entries[i]);
    } else {
      AssemblePlain(es, RedactEntries(es));
      PlainObjectKept(v, w);
    }
  }

  lemma {:induction false} PlainObjectKept(v: Value, w: Value)
    requires v.Obj? && forall i :: 0 <= i < |v.entries| ==> v.entries[i].key != PROTO
    requires w.Obj? && w.plain && |w.entries| == |v.entries|
    requires forall i :: 0 <= i < |v.entries| ==> w.entries[i] == Entry(v.entries[i].key, RedactUnder(v.entries[i]).value)
    requires forall i :: 0 <= i < |v.entries| ==>
      (Censored(v.entries[i].value, Redact(v.entries[i].value).value) <==> !HasProto(v.entries[i].value))
    ensures Censored(v, w) <==> !HasProto(v)
  {
  }

  /** When nothing was redacted the value comes back equal, exactly if it has no `__proto__` and only plain objects. */
  lemma {:induction false} UnredactedExactly(v: Value)
    requires WellFormedValue(v) && !HasSensitive(v)
    ensures Redact(v).value == v <==> !HasProto(v) && AllPlain(v)
  {
    match v
    case Arr(items) =>
      forall i | 0 <= i < |items| ensures Redact(items[i]).value == items[i] <==> !HasProto(items[i]) && AllPlain(items[i]) {
        UnredactedExactly(items[i]);
      }
      var w := Redact(v).value;
      assert forall i :: 0 <= i < |items| ==> w.items[i] == Redact(items[i]).value;
      assert w == v <==> forall i :: 0 <= i < |items| ==> w.items[i] == items[i];
    case Obj(_, es) =>
      forall i | 0 <= i < |es| ensures Redact(es[i].value).value == es[i].value <==> !HasProto(es[i].value) && AllPlain(es[i].value) {
        UnredactedExactly(es[i].value);
      }
      ObjectUnredactedExactly(v);
    case _ =>
  }

  lemma {:induction false} ObjectUnredactedExactly(v: Value)
    requires v.Obj? && DistinctEntries(v.entries) && !HasSensitive(v)
    requires forall i :: 0 <= i < |v.entries| ==>
      (Redact(v.entries[i].value).value == v.entries[i].value <==> !HasProto(v.entries[i].value) && AllPlain(v.entries[i].value))
    ensures Redact(v).value == v <==> !HasProto(v) && AllPlain(v)
  {
    if i :| 0 <= i < |v.entries| && v.entries[i].key == PROTO {
      ProtoEntryLost(v.entries, i, Redact(v).value);
    } else {
      PlainKeysUnredacted(v);
    }
  }

  lemma {:induction false} PlainKeysUnredacted(v: Value)
    requires v.Obj? && DistinctEntries(v.entries) && !HasSensitive(v) && forall i :: 0 <= i < |v.entries| ==> v.entries[i].key != PROTO
    requires forall i :: 0 <= i < |v.entries| ==>
      (Redact(v.entries[i].value).value == v.entries[i].value <==> !HasProto(v.entries[i].value) && AllPlain(v.entries[i].value))
    ensures Redact(v).value == v <==> !HasProto(v) && AllPlain(v)
  {
    var es, w := v.entries, Redact(v).value;
    AssemblePlain(es, RedactEntries(es));
    assert w.entries == es <==> forall i :: 0 <= i < |es| ==> w.entries[i] == es[i];
  }

  // ---- a second pass ----

  /** No own property is named `__proto__` any more. */
  ghost predicate ProtoFree(v: Value) {
    match v
    case Arr(items) => forall i :: 0 <= i < |items| ==> ProtoFree(items[i])
    case Obj(_, es) => forall i :: 0 <= i < |es| ==> es[i].key != PROTO && ProtoFree(es[i].value)
    case _ => true
  }

  lemma {:induction false} RedactProtoFree(v: Value)
    requires WellFormedValue(v)
    ensures ProtoFree(Redact(v).value)
  {
    match v
    case Arr(items) =>
      forall i | 0 <= i < |items| ensures ProtoFree(Redact(items[i]).value) { RedactProtoFree(items[i]); }
    case Obj(_, es) =>
      var rs := RedactEntries(es);
      var a := Assemble(es, rs);
      AssembleKeeps(es, rs);
      forall i | 0 <= i < |es| ensures ProtoFree(rs[i].value) {
        if !IsSensitiveKey(es[i].key) { RedactProtoFree(es[i].value); }
      }
      forall k | 0 <= k < |a.entries| ensures a.entries[k].key != PROTO && ProtoFree(a.entries[k].value) {
        assert a.entries[k] in a.entries;
        var i :| 0 <= i < |es| && es[i].key != PROTO && a.entries[k] == Entry(es[i].key, rs[i].value);
      }
    case _ =>
  }

  /** A clean value without `__proto__` is a fixed point exactly when its objects are plain. */
  lemma {:induction false} CleanFixedExactly(w: Value)
    requires Clean(w) && ProtoFree(w)
    ensures Redact(w).value == w <==> AllPlain(w)
  {
    match w
    case Arr(items) =>
      forall i | 0 <= i < |items| ensures Redact(items[i]).value == items[i] <==> AllPlain(items[i]) { CleanFixedExactly(items[i]); }
      var x := Redact(w).value;
      assert forall i :: 0 <= i < |items| ==> x.items[i] == Redact(items[i]).value;
      assert x == w <==> forall i :: 0 <= i < |items| ==> x.items[i] == items[i];
    case Obj(_, es) =>
      var x := Redact(w).value;
      forall i | 0 <= i < |es| ensures RedactUnder(es[i]).value == es[i].value <==> AllPlain(es[i].value) {
        CleanFixedExactly(es[i].value);
      }
      AssemblePlain(es, RedactEntries(es));
      assert x.entries == es <==> forall i :: 0 <= i < |es| ==> x.entries[i] == es[i];
    case _ =>
  }

  lemma {:induction false} RedactKeepsObjecthood(v: Value)
    ensures IsJsObject(Redact(v).value) <==> IsJsObject(v)
  {
  }

  lemma {:induction false} PlainAfterExactly(v: Value)
    requires WellFormedValue(v)
    ensures AllPlain(Redact(v).value) <==> !HasProtoObject(v)
  {
    match v
    case Arr(items) =>
      forall i | 0 <= i < |items| ensures AllPlain(Redact(items[i]).value) <==> !HasProtoObject(items[i]) { PlainAfterExactly(items[i]); }
      assert forall i :: 0 <= i < |items| ==> Redact(v).value.items[i] == Redact(items[i]).value;
    case Obj(_, es) =>
      forall i | 0 <= i < |es| ensures AllPlain(Redact(es[i].value).value) <==> !HasProtoObject(es[i].value) {
        PlainAfterExactly(es[i].value);
      }
      PlainObjectAfter(es);
    case _ =>
  }

  lemma {:induction false} PlainObjectAfter(es: seq<Entry>)
    requires DistinctEntries(es)
    requires forall i :: 0 <= i < |es| ==> (AllPlain(Redact(es[i].value).value) <==> !HasProtoObject(es[i].value))
    ensures AllPlain(Assemble(es, RedactEntries(es))) <==> !HasProtoObject(Obj(true, es))
  {
    if i :| 0 <= i < |es| && ShowsProtoObject(es[i]) { ProtoObjectShows(es, i); }
    if forall i :: 0 <= i < |es| ==> !ShowsProtoObject(es[i]) { NoProtoObjectShows(es); }
  }

  lemma {:induction false} ProtoObjectShows(es: seq<Entry>, i: nat)
    requires DistinctEntries(es) && i < |es| && ShowsProtoObject(es[i])
    requires AllPlain(Redact(es[i].value).value) <==> !HasProtoObject(es[i].value)
    ensures !AllPlain(Assemble(es, RedactEntries(es)))
  {
    if es[i].key == PROTO { ProtoAtTopShows(es, i); } else { ProtoBelowShows(es, i); }
  }

  lemma {:induction false} ProtoAtTopShows(es: seq<Entry>, i: nat)
    requires DistinctEntries(es) && i < |es| && es[i].key == PROTO && IsJsObject(es[i].value)
    ensures !Assemble(es, RedactEntries(es)).plain
  {
    AssembleKeeps(es, RedactEntries(es));
    ProtoNotSensitive();
    RedactKeepsObjecthood(es[i].value);
  }

  lemma {:induction false} ProtoBelowShows(es: seq<Entry>, i: nat)
    requires DistinctEntries(es) && i < |es| && es[i].key != PROTO && !IsSensitiveKey(es[i].key)
    requires !AllPlain(Redact(es[i].value).value)
    ensures !AllPlain(Assemble(es, RedactEntries(es)))
  {
    var rs := RedactEntries(es);
    var a := Assemble(es, rs);
    AssembleKeeps(es, rs);
    assert Assigned(es, rs, Entry(es[i].key, rs[i].value));
    var k :| 0 <= k < |a.entries| && a.entries[k] == Entry(es[i].key, rs[i].value);
  }

  lemma {:induction false} NoProtoObjectShows(es: seq<Entry>)
    requires DistinctEntries(es) && forall i :: 0 <= i < |es| ==> !ShowsProtoObject(es[i])
    requires forall i :: 0 <= i < |es| ==> (AllPlain(Redact(es[i].value).value) <==> !HasProtoObject(es[i].value))
    ensures AllPlain(Assemble(es, RedactEntries(es)))
  {
    var rs := RedactEntries(es);
    var a := Assemble(es, rs);
    AssembleKeeps(es, rs);
    ProtoNotSensitive();
    forall i | 0 <= i < |es| && es[i].key == PROTO ensures !IsJsObject(rs[i].value) {
      RedactKeepsObjecthood(es[i].value);
    }
    forall k | 0 <= k < |a.entries| ensures AllPlain(a.entries[k].value) {
      assert a.entries[k] in a.entries;
      var i :| 0 <= i < |es| && es[i].key != PROTO && a.entries[k] == Entry(es[i].key, rs[i].value);
    }
  }

  /** Redacting twice is redacting once, exactly when no `__proto__` property holds an object. */
  lemma {:induction false} IdempotentExactly(v: Value)
    requires WellFormedValue(v)
    ensures Redact(Redact(v).value).value == Redact(v).value <==> !HasProtoObject(v)
  {
    RedactClean(v);
    RedactProtoFree(v);
    CleanFixedExactly(Redact(v).value);
    PlainAfterExactly(v);
  }

  // ---- concrete values ----

  /** `{"__proto__": x}` with nothing sensitive in it: the property is gone. */
  lemma {:induction false} ProtoDropped(x: NumberText)
    ensures Redact(Obj(true, [Entry(PROTO, Number(x))])) == Redacted(Obj(true, []), false)
  {
    ProtoAlone(Number(x));
  }

  /** `{"__proto__": {}}` becomes an object that is no longer plain, which a second pass makes plain again. */
  lemma {:induction false} ProtoNotStable()
    ensures var once := Redact(Obj(true, [Entry(PROTO, Obj(true, []))])).value;
      once == Obj(false, []) && Redact(once).value == Obj(true, [])
  {
    assert Assemble([], RedactEntries([])) == Obj(true, []);
    assert forall plain :: Redact(Obj(plain, [])).value == Obj(true, []);
    ProtoAlone(Obj(true, []));
  }

  lemma {:induction false} ProtoAlone(x: Value)
    ensures Redact(Obj(true, [Entry(PROTO, x)])) == Redacted(SetProperty(Obj(true, []), PROTO, Redact(x).value), Redact(x).redacted)
  {
    ProtoNotSensitive();
    var es := [Entry(PROTO, x)];
    var rs := RedactEntries(es);
    assert es[0] == Entry(PROTO, x) && rs[0] == Redact(x);
    assert AnyRedacted(rs) <==> rs[0].redacted;
    assert Assemble(es[..0], rs[..0]) == Obj(true, []);
    assert Assemble(es, rs) == SetProperty(Obj(true, []), PROTO, rs[0].value);
  }
}
