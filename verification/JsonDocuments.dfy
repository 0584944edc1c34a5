/** JSON documents as parsed objects carry them (members in some order), and what they mean once
    the order of members is forgotten. */
module JsonDocuments {
  import opened CodeUnits

  /** The units `JSON.stringify` can emit for a finite number. */
  predicate IsNumberUnit(u: CodeUnit) {
    IsDigit(u) || u == 43 || u == 45 || u == 46 || u == 101
  }

  predicate IsNumberText(t: Text) {
    |t| > 0 && forall i :: 0 <= i < |t| ==> IsNumberUnit(t[i])
  }

  /** A finite number, named by the text it prints to (0 and -0 print alike). */
  type NumberText = t: Text | IsNumberText(t) witness [48]

  datatype Doc =
    | DNull
    | DBool(b: bool)
    | DNumber(number: NumberText)
    | DString(s: Text)
    | DArray(items: seq<Doc>)
    | DObject(members: seq<Member>)

  datatype Member = Member(key: Text, doc: Doc)

  /** A document with the order of object members forgotten at every depth. */
  datatype Json =
    | JNull
    | JBool(b: bool)
    | JNumber(number: NumberText)
    | JString(s: Text)
    | JArray(items: seq<Json>)
    | JObject(fields: map<Text, Json>)

  ghost predicate DistinctKeys(ms: seq<Member>) {
    forall i, j :: 0 <= i < j < |ms| ==> ms[i].key != ms[j].key
  }

  /** Objects hold each key once, at every depth. */
  ghost predicate WellFormed(d: Doc) {
    match d
    case DArray(items) => forall i :: 0 <= i < |items| ==> WellFormed(items[i])
    case DObject(ms) => DistinctKeys(ms) && forall i :: 0 <= i < |ms| ==> WellFormed(ms[i].doc)
    case _ => true
  }

  function Meaning(d: Doc): Json
    decreases d, 1
  {
    match d
    case DNull => JNull
    case DBool(b) => JBool(b)
    case DNumber(n) => JNumber(n)
    case DString(s) => JString(s)
    case DArray(items) => JArray(MeaningAll(items))
    case DObject(ms) => JObject(MeaningFields(ms))
  }

  function MeaningAll(items: seq<Doc>): (r: seq<Json>)
    ensures |r| == |items|
    ensures forall i :: 0 <= i < |items| ==> r[i] == Meaning(items[i])
    decreases items, 0
  {
    if items == [] then [] else [Meaning(items[0])] + MeaningAll(items[1..])
  }

  function MeaningFields(ms: seq<Member>): map<Text, Json>
    decreases ms, 0
  {
    if ms == [] then map[] else MeaningFields(ms[1..])[ms[0].key := Meaning(ms[0].doc)]
  }

  /** Some member has this key and this meaning. */
  ghost predicate Holds(ms: seq<Member>, key: Text, meaning: Json) {
    exists i :: 0 <= i < |ms| && ms[i].key == key && Meaning(ms[i].doc) == meaning
  }

  /** With distinct keys the field map holds exactly what the members say. */
  lemma {:induction false} FieldsHold(ms: seq<Member>, key: Text, meaning: Json)
    requires DistinctKeys(ms)
    ensures Holds(ms, key, meaning) <==> key in MeaningFields(ms) && MeaningFields(ms)[key] == meaning
  {
    if ms != [] {
      var rest := ms[1..];
      FieldsHold(rest, key, meaning);
      if key == ms[0].key {
        assert Holds(ms, key, Meaning(ms[0].doc));
      } else {
        if Holds(ms, key, meaning) {
          var i :| 0 <= i < |ms| && ms[i].key == key && Meaning(ms[i].doc) == meaning;
          assert rest[i - 1] == ms[i];
          assert Holds(rest, key, meaning);
        }
        if Holds(rest, key, meaning) {
          var i :| 0 <= i < |rest| && rest[i].key == key && Meaning(rest[i].doc) == meaning;
          assert ms[i + 1] == rest[i];
        }
      }
    }
  }

  ghost predicate Covers(ms: seq<Member>, ns: seq<Member>) {
    forall j :: 0 <= j < |ns| ==> Holds(ms, ns[j].key, Meaning(ns[j].doc))
  }

  /** Two objects mean the same exactly when each holds every member of the other. */
  lemma {:induction false} SameFields(ms: seq<Member>, ns: seq<Member>)
    requires DistinctKeys(ms) && DistinctKeys(ns)
    ensures MeaningFields(ms) == MeaningFields(ns) <==> Covers(ms, ns) && Covers(ns, ms)
  {
    if MeaningFields(ms) == MeaningFields(ns) {
      CoversFromFields(ms, ns);
      CoversFromFields(ns, ms);
    }
    if Covers(ms, ns) && Covers(ns, ms) {
      FieldsFromCovers(ms, ns);
      FieldsFromCovers(ns, ms);
      assert MeaningFields(ms) == MeaningFields(ns);
    }
  }

  lemma {:induction false} CoversFromFields(ms: seq<Member>, ns: seq<Member>)
    requires DistinctKeys(ms) && DistinctKeys(ns) && MeaningFields(ms) == MeaningFields(ns)
    ensures Covers(ms, ns)
  {
    forall j | 0 <= j < |ns| ensures Holds(ms, ns[j].key, Meaning(ns[j].doc)) {
      assert Holds(ns, ns[j].key, Meaning(ns[j].doc));
      FieldsHold(ns, ns[j].key, Meaning(ns[j].doc));
      FieldsHold(ms, ns[j].key, Meaning(ns[j].doc));
    }
  }

  lemma {:induction false} FieldsFromCovers(ms: seq<Member>, ns: seq<Member>)
    requires DistinctKeys(ms) && DistinctKeys(ns) && Covers(ms, ns)
    ensures forall k :: k in MeaningFields(ns) ==> k in MeaningFields(ms) && MeaningFields(ms)[k] == MeaningFields(ns)[k]
  {
    forall k | k in MeaningFields(ns)
      ensures k in MeaningFields(ms) && MeaningFields(ms)[k] == MeaningFields(ns)[k]
    {
      FieldsHold(ns, k, MeaningFields(ns)[k]);
      var j :| 0 <= j < |ns| && ns[j].key == k && Meaning(ns[j].doc) == MeaningFields(ns)[k];
      assert Holds(ms, ns[j].key, Meaning(ns[j].doc));
      FieldsHold(ms, k, MeaningFields(ns)[k]);
    }
  }
}
