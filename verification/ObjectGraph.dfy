/** The canonical encoder as it runs: over a heap of arrays and objects that may share and may loop,
    guarded by the set of objects on the current path. */
module ObjectGraph {
  import opened CodeUnits
  import opened JsonDocuments
  import opened JsonText
  import opened Sorting
  import opened CanonicalJson
  import opened JsValues

  type Ref = nat

  datatype Slot =
    | SNull
    | SBool(b: bool)
    | SNumber(number: NumberText)
    | SStr(s: Text)
    | SDate(iso: IsoText)
    | SUnsupported(isObject: bool)
    | SRef(ref: Ref)

  datatype Property = Property(key: Text, slot: Slot)

  datatype HeapObject =
    | HArr(items: seq<Slot>)
    | HObj(plain: bool, properties: seq<Property>)

  type Heap = map<Ref, HeapObject>

  predicate Points(h: Heap, s: Slot) {
    s.SRef? ==> s.ref in h
  }

  /** No dangling reference. */
  ghost predicate Closed(h: Heap) {
    forall r :: r in h ==>
      match h[r]
      case HArr(items) => forall i :: 0 <= i < |items| ==> Points(h, items[i])
      case HObj(_, ps) => forall i :: 0 <= i < |ps| ==> Points(h, ps[i].slot)
  }

  function ByProperty(leq: KeyOrder): (Property, Property) -> bool {
    (p: Property, q: Property) => leq(p.key, q.key)
  }

  datatype Encoding = Raised | Encoded(text: Text)

  datatype Encodings = RaisedOne | EncodedAll(texts: seq<Text>)

  function Join(texts: seq<Text>): Text {
    if texts == [] then [] else if |texts| == 1 then texts[0] else texts[0] + [COMMA] + Join(texts[1..])
  }

  lemma {:induction false} SortedPropertiesPoint(leq: KeyOrder, h: Heap, r: Ref)
    requires Closed(h) && r in h && h[r].HObj?
    ensures forall i :: 0 <= i < |Sort(ByProperty(leq), h[r].properties)| ==>
      Points(h, Sort(ByProperty(leq), h[r].properties)[i].slot)
  {
    var ps := h[r].properties;
    var s := Sort(ByProperty(leq), ps);
    SortElements(ByProperty(leq), ps);
    forall i | 0 <= i < |s| ensures Points(h, s[i].slot) {
      assert s[i] in ps;
      var j :| 0 <= j < |ps| && ps[j] == s[i];
    }
  }

  /** What encoding `s` comes to when the objects in `seen` are already on the path. */
  function EncodeGraph(leq: KeyOrder, h: Heap, s: Slot, seen: set<Ref>): Encoding
    requires Closed(h) && Points(h, s)
    decreases h.Keys - seen, 0
  {
    match s
    case SNull => Encoded(NULL)
    case SStr(t) => Encoded(Quote(t))
    case SNumber(n) => Encoded(n)
    case SBool(b) => Encoded(if b then TRUE else FALSE)
    case SUnsupported(_) => Raised
    case SDate(iso) => Encoded(Quote(iso))
    case SRef(r) =>
      match h[r]
      case HArr(items) =>
        if r in seen then Raised
        else
          var all := EncodeSlots(leq, h, items, seen + {r});
          if all.RaisedOne? then Raised else Encoded([OPEN_BRACKET] + Join(all.texts) + [CLOSE_BRACKET])
      case HObj(plain, ps) =>
        if !plain then Raised
        else if r in seen then Raised
        else
          SortedPropertiesPoint(leq, h, r);
          var all := EncodeProperties(leq, h, Sort(ByProperty(leq), ps), seen + {r});
          if all.RaisedOne? then Raised else Encoded([OPEN_BRACE] + Join(all.texts) + [CLOSE_BRACE])
  }

  function EncodeSlots(leq: KeyOrder, h: Heap, items: seq<Slot>, seen: set<Ref>): (r: Encodings)
    requires Closed(h) && forall i :: 0 <= i < |items| ==> Points(h, items[i])
    ensures r.EncodedAll? ==> |r.texts| == |items|
    decreases h.Keys - seen, 1 + |items|
  {
    if items == [] then EncodedAll([])
    else
      var first := EncodeGraph(leq, h, items[0], seen);
      if first.Raised? then RaisedOne
      else
        var others := EncodeSlots(leq, h, items[1..], seen);
        if others.RaisedOne? then RaisedOne else EncodedAll([first.text] + others.texts)
  }

  function EncodeProperties(leq: KeyOrder, h: Heap, ps: seq<Property>, seen: set<Ref>): (r: Encodings)
    requires Closed(h) && forall i :: 0 <= i < |ps| ==> Points(h, ps[i].slot)
    ensures r.EncodedAll? ==> |r.texts| == |ps|
    decreases h.Keys - seen, 1 + |ps|
  {
    if ps == [] then EncodedAll([])
    else
      var first := EncodeGraph(leq, h, ps[0].slot, seen);
      if first.Raised? then RaisedOne
      else
        var others := EncodeProperties(leq, h, ps[1..], seen);
        if others.RaisedOne? then RaisedOne else EncodedAll([Quote(ps[0].key) + [COLON] + first.text] + others.texts)
  }

  // ---- the encoder itself ----

  /** The `seen` set the encoder threads through its recursion. */
  class SeenSet {
    var refs: set<Ref>

    constructor ()
      ensures refs == {}
    {
      refs := {};
    }
  }

  /** The texts so far, then the rest, unless that raises. */
  function Onto(texts: seq<Text>, rest: Encodings): Encodings {
    if rest.RaisedOne? then RaisedOne else EncodedAll(texts + rest.texts)
  }

  lemma {:induction false} OntoFirst(texts: seq<Text>, first: Text, rest: Encodings)
    requires rest.EncodedAll?
    ensures Onto(texts, EncodedAll([first] + rest.texts)) == Onto(texts + [first], rest)
  {
    assert texts + ([first] + rest.texts) == texts + [first] + rest.texts;
  }

  lemma {:induction false} EncodeSlotsAt(leq: KeyOrder, h: Heap, items: seq<Slot>, seen: set<Ref>, texts: seq<Text>, n: nat)
    requires Closed(h) && n < |items| && forall i :: 0 <= i < |items| ==> Points(h, items[i])
    ensures Onto(texts, EncodeSlots(leq, h, items[n..], seen)) ==
      var first := EncodeGraph(leq, h, items[n], seen);
      if first.Raised? then RaisedOne else Onto(texts + [first.text], EncodeSlots(leq, h, items[n + 1..], seen))
  {
    assert items[n..][1..] == items[n + 1..];
    var first, rest := EncodeGraph(leq, h, items[n], seen), EncodeSlots(leq, h, items[n + 1..], seen);
    if first.Encoded? && rest.EncodedAll? { OntoFirst(texts, first.text, rest); }
  }

  lemma {:induction false} EncodePropertiesAt(leq: KeyOrder, h: Heap, ps: seq<Property>, seen: set<Ref>, texts: seq<Text>, n: nat)
    requires Closed(h) && n < |ps| && forall i :: 0 <= i < |ps| ==> Points(h, ps[i].slot)
    ensures Onto(texts, EncodeProperties(leq, h, ps[n..], seen)) ==
      var first := EncodeGraph(leq, h, ps[n].slot, seen);
      if first.Raised? then RaisedOne
      else Onto(texts + [Quote(ps[n].key) + [COLON] + first.text], EncodeProperties(leq, h, ps[n + 1..], seen))
  {
    assert ps[n..][1..] == ps[n + 1..];
    var first, rest := EncodeGraph(leq, h, ps[n].slot, seen), EncodeProperties(leq, h, ps[n + 1..], seen);
    if first.Encoded? && rest.EncodedAll? { OntoFirst(texts, Quote(ps[n].key) + [COLON] + first.text, rest); }
  }

  method EncodeCanonical(leq: KeyOrder, h: Heap, s: Slot, seen: SeenSet) returns (r: Encoding)
    requires Closed(h) && Points(h, s)
    modifies seen
    ensures r == EncodeGraph(leq, h, s, old(seen.refs))
    ensures r.Encoded? ==> seen.refs == old(seen.refs)
    decreases h.Keys - seen.refs, 0
  {
    match s
    case SNull => r := Encoded(NULL);
    case SStr(t) => r := Encoded(Quote(t));
    case SNumber(n) => r := Encoded(n);
    case SBool(b) => r := Encoded(if b then TRUE else FALSE);
    case SUnsupported(_) => r := Raised;
    case SDate(iso) => r := Encoded(Quote(iso));
    case SRef(ref) =>
      match h[ref]
      case HArr(items) =>
        if ref in seen.refs { return Raised; }
        seen.refs := seen.refs + {ref};
        var all := EncodeEachItem(leq, h, items, seen);
        if all.RaisedOne? { return Raised; }
        seen.refs := seen.refs - {ref};
        r := Encoded([OPEN_BRACKET] + Join(all.texts) + [CLOSE_BRACKET]);
      case HObj(plain, properties) =>
        if !plain { return Raised; }
        if ref in seen.refs { return Raised; }
        seen.refs := seen.refs + {ref};
        SortedPropertiesPoint(leq, h, ref);
        var all := EncodeEachProperty(leq, h, Sort(ByProperty(leq), properties), seen);
        if all.RaisedOne? { return Raised; }
        seen.refs := seen.refs - {ref};
        r := Encoded([OPEN_BRACE] + Join(all.texts) + [CLOSE_BRACE]);
  }

  method EncodeEachItem(leq: KeyOrder, h: Heap, items: seq<Slot>, seen: SeenSet) returns (r: Encodings)
    requires Closed(h) && forall i :: 0 <= i < |items| ==> Points(h, items[i])
    modifies seen
    ensures r == EncodeSlots(leq, h, items, old(seen.refs))
    ensures r.EncodedAll? ==> seen.refs == old(seen.refs)
    decreases h.Keys - seen.refs, 1
  {
    var texts := [];
    assert items[0..] == items;
    for n := 0 to |items|
      invariant seen.refs == old(seen.refs)
      invariant EncodeSlots(leq, h, items, seen.refs) == Onto(texts, EncodeSlots(leq, h, items[n..], seen.refs))
    {
      EncodeSlotsAt(leq, h, items, seen.refs, texts, n);
      var e := EncodeCanonical(leq, h, items[n], seen);
      if e.Raised? { return RaisedOne; }
      texts := texts + [e.text];
    }
    r := EncodedAll(texts);
  }

  method EncodeEachProperty(leq: KeyOrder, h: Heap, ps: seq<Property>, seen: SeenSet) returns (r: Encodings)
    requires Closed(h) && forall i :: 0 <= i < |ps| ==> Points(h, ps[i].slot)
    modifies seen
    ensures r == EncodeProperties(leq, h, ps, old(seen.refs))
    ensures r.EncodedAll? ==> seen.refs == old(seen.refs)
    decreases h.Keys - seen.refs, 1
  {
    var texts := [];
    assert ps[0..] == ps;
    for n := 0 to |ps|
      invariant seen.refs == old(seen.refs)
      invariant EncodeProperties(leq, h, ps, seen.refs) == Onto(texts, EncodeProperties(leq, h, ps[n..], seen.refs))
    {
      EncodePropertiesAt(leq, h, ps, seen.refs, texts, n);
      var e := EncodeCanonical(leq, h, ps[n].slot, seen);
      if e.Raised? { return RaisedOne; }
      texts := texts + [Quote(ps[n].key) + [COLON] + e.text];
    }
    r := EncodedAll(texts);
  }
}
