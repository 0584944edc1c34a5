/** JavaScript values that hang together as a finite tree: what a payload is before it is encoded. */
module JsValues {
  import opened CodeUnits
  import opened JsonDocuments

  /** The units of `toISOString`: digits, `-`, `:`, `.`, `+`, `T` and `Z`. */
  predicate IsIsoText(t: Text) {
    forall i :: 0 <= i < |t| ==> IsDigit(t[i]) || t[i] in {43, 45, 46, 58, 84, 90}
  }

  type IsoText = t: Text | IsIsoText(t) witness []

  datatype Value =
    | Null
    | Bool(b: bool)
    | Number(number: NumberText)
    | Str(s: Text)
    /** A Date, known by its ISO string. */
    | Date(iso: IsoText)
    | Arr(items: seq<Value>)
    /** Own enumerable properties; `plain` when the prototype is `Object.prototype` or null. */
    | Obj(plain: bool, entries: seq<Entry>)
    /** undefined, a symbol, a bigint, a non-finite number (`isObject` false); a function or an
        invalid Date (true). */
    | Unsupported(isObject: bool)

  datatype Entry = Entry(key: Text, value: Value)

  ghost predicate DistinctEntries(es: seq<Entry>) {
    forall i, j :: 0 <= i < j < |es| ==> es[i].key != es[j].key
  }

  /** Own properties have distinct names, at every depth. */
  ghost predicate WellFormedValue(v: Value) {
    match v
    case Arr(items) => forall i :: 0 <= i < |items| ==> WellFormedValue(items[i])
    case Obj(_, es) => DistinctEntries(es) && forall i :: 0 <= i < |es| ==> WellFormedValue(es[i].value)
    case _ => true
  }

  /** Nothing in the tree is refused by the encoder. */
  predicate Supported(v: Value) {
    match v
    case Arr(items) => forall i :: 0 <= i < |items| ==> Supported(items[i])
    case Obj(plain, es) => plain && forall i :: 0 <= i < |es| ==> Supported(es[i].value)
    case Unsupported(_) => false
    case _ => true
  }

  /** The document a supported value stands for; a Date stands for its ISO string. */
  function ToDoc(v: Value): Doc
    requires Supported(v)
    decreases v, 1
  {
    match v
    case Null => DNull
    case Bool(b) => DBool(b)
    case Number(n) => DNumber(n)
    case Str(s) => DString(s)
    case Date(iso) => DString(iso)
    case Arr(items) => DArray(ToDocs(items))
    case Obj(_, es) => DObject(ToMembers(es))
  }

  function ToDocs(items: seq<Value>): (r: seq<Doc>)
    requires forall i :: 0 <= i < |items| ==> Supported(items[i])
    ensures |r| == |items| && forall i :: 0 <= i < |items| ==> r[i] == ToDoc(items[i])
    decreases items, 0
  {
    if items == [] then [] else [ToDoc(items[0])] + ToDocs(items[1..])
  }

  function ToMembers(es: seq<Entry>): (r: seq<Member>)
    requires forall i :: 0 <= i < |es| ==> Supported(es[i].value)
    ensures |r| == |es| && forall i :: 0 <= i < |es| ==> r[i] == Member(es[i].key, ToDoc(es[i].value))
    decreases es, 0
  {
    if es == [] then [] else [Member(es[0].key, ToDoc(es[0].value))] + ToMembers(es[1..])
  }

  lemma {:induction false} ToDocWellFormed(v: Value)
    requires Supported(v) && WellFormedValue(v)
    ensures WellFormed(ToDoc(v))
  {
    match v
    case Arr(items) =>
      forall i | 0 <= i < |items| ensures WellFormed(ToDoc(items[i])) { ToDocWellFormed(items[i]); }
    case Obj(_, es) =>
      forall i | 0 <= i < |es| ensures WellFormed(ToDoc(es[i].value)) { ToDocWellFormed(es[i].value); }
    case _ =>
  }

  /** A plain value that stands for the document. */
  function FromDoc(d: Doc): Value
    decreases d, 1
  {
    match d
    case DNull => Null
    case DBool(b) => Bool(b)
    case DNumber(n) => Number(n)
    case DString(s) => Str(s)
    case DArray(items) => Arr(FromDocs(items))
    case DObject(ms) => Obj(true, FromMembers(ms))
  }

  function FromDocs(items: seq<Doc>): (r: seq<Value>)
    ensures |r| == |items| && forall i :: 0 <= i < |items| ==> r[i] == FromDoc(items[i])
    decreases items, 0
  {
    if items == [] then [] else [FromDoc(items[0])] + FromDocs(items[1..])
  }

  function FromMembers(ms: seq<Member>): (r: seq<Entry>)
    ensures |r| == |ms| && forall i :: 0 <= i < |ms| ==> r[i] == Entry(ms[i].key, FromDoc(ms[i].doc))
    decreases ms, 0
  {
    if ms == [] then [] else [Entry(ms[0].key, FromDoc(ms[0].doc))] + FromMembers(ms[1..])
  }

  lemma {:induction false} FromDocStandsFor(d: Doc)
    ensures Supported(FromDoc(d)) && ToDoc(FromDoc(d)) == d
    ensures WellFormed(d) ==> WellFormedValue(FromDoc(d))
  {
    match d
    case DArray(items) =>
      forall i | 0 <= i < |items|
        ensures Supported(FromDoc(items[i])) && ToDoc(FromDoc(items[i])) == items[i]
        ensures WellFormed(items[i]) ==> WellFormedValue(FromDoc(items[i]))
      {
        FromDocStandsFor(items[i]);
      }
    case DObject(ms) =>
      forall i | 0 <= i < |ms|
        ensures Supported(FromDoc(ms[i].doc)) && ToDoc(FromDoc(ms[i].doc)) == ms[i].doc
        ensures WellFormed(ms[i].doc) ==> WellFormedValue(FromDoc(ms[i].doc))
      {
        FromDocStandsFor(ms[i].doc);
      }
    case _ =>
  }
}
