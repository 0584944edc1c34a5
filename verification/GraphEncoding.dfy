/** The graph encoder against its meaning: it prints the canonical text of the finite tree a value
    unfolds to, and raises exactly when a cycle or an unsupported value can be reached. */
module GraphEncoding {
  import opened CodeUnits
  import opened JsonDocuments
  import opened JsonText
  import opened Sorting
  import opened CanonicalJson
  import opened JsValues
  import opened ObjectGraph

  /** `v` is the tree that `s` unfolds to; shared objects are copied, cyclic ones have no tree. */
  ghost predicate Unfolds(h: Heap, s: Slot, v: Value)
    requires Closed(h) && Points(h, s)
    decreases v
  {
    match s
    case SNull => v == Null
    case SBool(b) => v == Bool(b)
    case SNumber(n) => v == Number(n)
    case SStr(t) => v == Str(t)
    case SDate(iso) => v == Date(iso)
    case SUnsupported(o) => v == Unsupported(o)
    case SRef(r) =>
      match h[r]
      case HArr(items) =>
        v.Arr? && |v.items| == |items| && forall i :: 0 <= i < |items| ==> Unfolds(h, items[i], v.items[i])
      case HObj(plain, ps) =>
        v.Obj? && v.plain == plain && |v.entries| == |ps|
        && forall i :: 0 <= i < |ps| ==> v.entries[i].key == ps[i].key && Unfolds(h, ps[i].slot, v.entries[i].value)
  }

  lemma {:induction false} UnfoldsOnce(h: Heap, s: Slot, v: Value, w: Value)
    requires Closed(h) && Points(h, s) && Unfolds(h, s, v) && Unfolds(h, s, w)
    ensures v == w
    decreases v
  {
    if s.SRef? {
      match h[s.ref]
      case HArr(items) =>
        forall i | 0 <= i < |items| ensures v.items[i] == w.items[i] { UnfoldsOnce(h, items[i], v.items[i], w.items[i]); }
      case HObj(_, ps) =>
        forall i | 0 <= i < |ps| ensures v.entries[i] == w.entries[i] {
          UnfoldsOnce(h, ps[i].slot, v.entries[i].value, w.entries[i].value);
        }
    }
  }

  /** Every object on the path is a proper ancestor of `v`. */
  ghost predicate AboveTree(h: Heap, seen: set<Ref>, v: Value)
    requires Closed(h)
  {
    forall r :: r in seen && r in h ==> exists w: Value :: Unfolds(h, SRef(r), w) && v < w
  }

  lemma {:induction false} StepDown(h: Heap, seen: set<Ref>, r: Ref, v: Value, child: Value)
    requires Closed(h) && r in h && Unfolds(h, SRef(r), v) && AboveTree(h, seen, v) && child < v
    ensures AboveTree(h, seen + {r}, child)
  {
  }

  lemma {:induction false} NotOnPath(h: Heap, seen: set<Ref>, r: Ref, v: Value)
    requires Closed(h) && r in h && Unfolds(h, SRef(r), v) && AboveTree(h, seen, v)
    ensures r !in seen
  {
    if r in seen {
      var w :| Unfolds(h, SRef(r), w) && v < w;
      UnfoldsOnce(h, SRef(r), v, w);
    }
  }

  // ---- what a tree encodes to ----

  /** `canonicalJson` of a tree: its document in key order, printed, or the error. */
  function TreeText(leq: KeyOrder, v: Value): Encoding {
    if Supported(v) then Encoded(CanonicalText(leq, ToDoc(v))) else Raised
  }

  lemma {:induction false} JoinedItems(docs: seq<Doc>, texts: seq<Text>)
    requires |docs| == |texts| && forall i :: 0 <= i < |docs| ==> texts[i] == Print(docs[i])
    ensures Join(texts) == PrintItems(docs)
  {
    if |docs| > 1 { JoinedItems(docs[1..], texts[1..]); }
  }

  lemma {:induction false} JoinedMembers(ms: seq<Member>, texts: seq<Text>)
    requires |ms| == |texts| && forall i :: 0 <= i < |ms| ==> texts[i] == PrintMember(ms[i])
    ensures Join(texts) == PrintMembers(ms)
  {
    if |ms| > 1 { JoinedMembers(ms[1..], texts[1..]); }
  }

  /** The encoder's result on anything that unfolds to a finite tree. */
  lemma {:induction false} EncodesItsTree(leq: KeyOrder, h: Heap, s: Slot, seen: set<Ref>, v: Value)
    requires Closed(h) && Points(h, s) && Unfolds(h, s, v) && AboveTree(h, seen, v)
    ensures EncodeGraph(leq, h, s, seen) == TreeText(leq, v)
    decreases v, 1
  {
    if s.SRef? {
      var r := s.ref;
      NotOnPath(h, seen, r, v);
      match h[r]
      case HArr(items) => ArrayEncodesItsTree(leq, h, r, seen, v);
      case HObj(plain, ps) => if plain { ObjectEncodesItsTree(leq, h, r, seen, v); }
    }
  }

  lemma {:induction false} ArrayEncodesItsTree(leq: KeyOrder, h: Heap, r: Ref, seen: set<Ref>, v: Value)
    requires Closed(h) && r in h && h[r].HArr? && r !in seen && Unfolds(h, SRef(r), v) && AboveTree(h, seen, v)
    ensures EncodeGraph(leq, h, SRef(r), seen) == TreeText(leq, v)
    decreases v, 0
  {
    var items := h[r].items;
    forall i | 0 <= i < |items| ensures EncodeGraph(leq, h, items[i], seen + {r}) == TreeText(leq, v.items[i]) {
      StepDown(h, seen, r, v, v.items[i]);
      EncodesItsTree(leq, h, items[i], seen + {r}, v.items[i]);
    }
    EncodedSlots(leq, h, items, seen + {r});
    var all := EncodeSlots(leq, h, items, seen + {r});
    if Supported(v) {
      var docs := SortItems(leq, ToDocs(v.items));
      forall i | 0 <= i < |items| ensures all.texts[i] == Print(docs[i]) {
        assert EncodeGraph(leq, h, items[i], seen + {r}) == TreeText(leq, v.items[i]);
      }
      JoinedItems(docs, all.texts);
    } else {
      var i :| 0 <= i < |items| && !Supported(v.items[i]);
      assert EncodeGraph(leq, h, items[i], seen + {r}).Raised?;
    }
  }

  lemma {:induction false} EncodedSlots(leq: KeyOrder, h: Heap, items: seq<Slot>, seen: set<Ref>)
    requires Closed(h) && forall i :: 0 <= i < |items| ==> Points(h, items[i])
    ensures var all := EncodeSlots(leq, h, items, seen);
      && (all.RaisedOne? <==> exists i :: 0 <= i < |items| && EncodeGraph(leq, h, items[i], seen).Raised?)
      && (all.EncodedAll? ==> forall i :: 0 <= i < |items| ==> EncodeGraph(leq, h, items[i], seen) == Encoded(all.texts[i]))
  {
    if items != [] {
      EncodedSlots(leq, h, items[1..], seen);
      if i :| 0 <= i < |items| && EncodeGraph(leq, h, items[i], seen).Raised? {
        if i > 0 { assert items[1..][i - 1] == items[i]; }
      }
    }
  }

  lemma {:induction false} EncodedProperties(leq: KeyOrder, h: Heap, ps: seq<Property>, seen: set<Ref>)
    requires Closed(h) && forall i :: 0 <= i < |ps| ==> Points(h, ps[i].slot)
    ensures var all := EncodeProperties(leq, h, ps, seen);
      && (all.RaisedOne? <==> exists i :: 0 <= i < |ps| && EncodeGraph(leq, h, ps[i].slot, seen).Raised?)
      && (all.EncodedAll? ==> forall i :: 0 <= i < |ps| ==>
           && EncodeGraph(leq, h, ps[i].slot, seen).Encoded?
           && all.texts[i] == Quote(ps[i].key) + [COLON] + EncodeGraph(leq, h, ps[i].slot, seen).text)
  {
    if ps != [] {
      EncodedProperties(leq, h, ps[1..], seen);
      if i :| 0 <= i < |ps| && EncodeGraph(leq, h, ps[i].slot, seen).Raised? {
        if i > 0 { assert ps[1..][i - 1] == ps[i]; }
      }
    }
  }

  /** `sorted` lists `xs` in the given order. */
  ghost predicate Picks<T>(xs: seq<T>, order: seq<nat>, sorted: seq<T>) {
    && |xs| == |order| == |sorted|
    && forall i :: 0 <= i < |order| ==> order[i] < |xs| && sorted[i] == xs[order[i]]
  }

  function PushFront(order: seq<nat>, at: nat): (r: seq<nat>)
    requires at <= |order|
    ensures |r| == |order| + 1 && r[at] == 0
    ensures forall i :: 0 <= i < at ==> r[i] == order[i] + 1
    ensures forall i :: at < i < |r| ==> r[i] == order[i - 1] + 1
  {
    seq(|order| + 1, i requires 0 <= i < |order| + 1 => if i < at then order[i] + 1 else if i == at then 0 else order[i - 1] + 1)
  }

  lemma {:induction false} PicksStep<T>(x: T, xs: seq<T>, order: seq<nat>, sorted: seq<T>, at: nat)
    requires Picks(xs, order, sorted) && at <= |sorted|
    ensures Picks([x] + xs, PushFront(order, at), sorted[..at] + [x] + sorted[at..])
  {
  }

  /** Sorting properties and sorting members by the same keys follow one order. */
  lemma {:induction false} SortCommutes(leq: KeyOrder, ps: seq<Property>, ms: seq<Member>) returns (order: seq<nat>)
    requires |ps| == |ms| && forall i :: 0 <= i < |ps| ==> ps[i].key == ms[i].key
    ensures Picks(ps, order, Sort(ByProperty(leq), ps)) && Picks(ms, order, Sort(ByKey(leq), ms))
  {
    if ps == [] {
      order := [];
    } else {
      var rest := SortCommutes(leq, ps[1..], ms[1..]);
      var sp, sm := Sort(ByProperty(leq), ps[1..]), Sort(ByKey(leq), ms[1..]);
      assert forall i :: 0 <= i < |sp| ==> sp[i].key == sm[i].key;
      var at := InsertCommutes(leq, ps[0], ms[0], sp, sm);
      order := PushFront(rest, at);
      PicksStep(ps[0], ps[1..], rest, sp, at);
      PicksStep(ms[0], ms[1..], rest, sm, at);
      assert ps == [ps[0]] + ps[1..] && ms == [ms[0]] + ms[1..];
    }
  }

  lemma {:induction false} InsertCommutes(leq: KeyOrder, p: Property, m: Member, ps: seq<Property>, ms: seq<Member>)
    returns (at: nat)
    requires p.key == m.key && |ps| == |ms| && forall i :: 0 <= i < |ps| ==> ps[i].key == ms[i].key
    ensures at <= |ps|
    ensures Insert(ByProperty(leq), p, ps) == ps[..at] + [p] + ps[at..]
    ensures Insert(ByKey(leq), m, ms) == ms[..at] + [m] + ms[at..]
  {
    if ps == [] || leq(p.key, ps[0].key) {
      at := 0;
    } else {
      var rest := InsertCommutes(leq, p, m, ps[1..], ms[1..]);
      at := rest + 1;
      assert ps[..at] == [ps[0]] + ps[1..][..rest] && ps[at..] == ps[1..][rest..];
      assert ms[..at] == [ms[0]] + ms[1..][..rest] && ms[at..] == ms[1..][rest..];
    }
  }

  lemma {:induction false} ObjectEncodesItsTree(leq: KeyOrder, h: Heap, r: Ref, seen: set<Ref>, v: Value)
    requires Closed(h) && r in h && h[r].HObj? && h[r].plain && r !in seen
    requires Unfolds(h, SRef(r), v) && AboveTree(h, seen, v)
    ensures EncodeGraph(leq, h, SRef(r), seen) == TreeText(leq, v)
    decreases v, 0
  {
    var ps := h[r].properties;
    forall i | 0 <= i < |ps|
      ensures EncodeGraph(leq, h, ps[i].slot, seen + {r}) == TreeText(leq, v.entries[i].value)
    {
      StepDown(h, seen, r, v, v.entries[i].value);
      EncodesItsTree(leq, h, ps[i].slot, seen + {r}, v.entries[i].value);
    }
    SortedPropertiesPoint(leq, h, r);
    var sorted := Sort(ByProperty(leq), ps);
    EncodedProperties(leq, h, sorted, seen + {r});
    SortElements(ByProperty(leq), ps);
    if Supported(v) {
      ObjectText(leq, h, r, seen + {r}, v);
    } else {
      var i :| 0 <= i < |ps| && !Supported(v.entries[i].value);
      assert ps[i] in sorted;
      var j :| 0 <= j < |sorted| && sorted[j] == ps[i];
      assert EncodeGraph(leq, h, sorted[j].slot, seen + {r}).Raised?;
    }
  }

  lemma {:induction false} ObjectText(leq: KeyOrder, h: Heap, r: Ref, seen: set<Ref>, v: Value)
    requires Closed(h) && r in h && h[r].HObj? && Supported(v) && v.Obj? && |v.entries| == |h[r].properties|
    requires forall i :: 0 <= i < |v.entries| ==>
      && v.entries[i].key == h[r].properties[i].key
      && EncodeGraph(leq, h, h[r].properties[i].slot, seen) == TreeText(leq, v.entries[i].value)
    requires forall i :: 0 <= i < |Sort(ByProperty(leq), h[r].properties)| ==>
      Points(h, Sort(ByProperty(leq), h[r].properties)[i].slot)
    ensures
      var all := EncodeProperties(leq, h, Sort(ByProperty(leq), h[r].properties), seen);
      all.EncodedAll? && [OPEN_BRACE] + Join(all.texts) + [CLOSE_BRACE] == CanonicalText(leq, ToDoc(v))
  {
    var ps := h[r].properties;
    var ms := SortMembers(leq, ToMembers(v.entries));
    var order := SortCommutes(leq, ps, ms);
    var sp, sm := Sort(ByProperty(leq), ps), Sort(ByKey(leq), ms);
    EncodedProperties(leq, h, sp, seen);
    var all := EncodeProperties(leq, h, sp, seen);
    forall i | 0 <= i < |sp| ensures EncodeGraph(leq, h, sp[i].slot, seen) == Encoded(Print(sm[i].doc)) && sp[i].key == sm[i].key {
      assert sp[i] == ps[order[i]] && sm[i] == ms[order[i]];
    }
    forall i | 0 <= i < |sm| ensures all.texts[i] == PrintMember(sm[i]) {}
    JoinedMembers(sm, all.texts);
  }

  // ---- when it raises ----

  /** `t` is an item or a property value of the object `r`. */
  ghost predicate Child(h: Heap, r: Ref, t: Slot) {
    r in h &&
    match h[r]
    case HArr(items) => t in items
    case HObj(_, ps) => exists i :: 0 <= i < |ps| && ps[i].slot == t
  }

  /** The objects met one inside the other on the way down from `s`; `path` may be empty. */
  ghost predicate Path(h: Heap, s: Slot, path: seq<Ref>) {
    && (path != [] ==> s == SRef(path[0]))
    && forall i :: 0 <= i < |path| - 1 ==> Child(h, path[i], SRef(path[i + 1]))
  }

  /** `t` is what stands at the end of the path: `s` itself, or a child of the last object. */
  ghost predicate Ends(h: Heap, s: Slot, path: seq<Ref>, t: Slot) {
    if path == [] then t == s else Child(h, path[|path| - 1], t)
  }

  predicate Refused(h: Heap, t: Slot) {
    t.SUnsupported? || (t.SRef? && t.ref in h && h[t.ref].HObj? && !h[t.ref].plain)
  }

  ghost predicate ReachesUnsupported(h: Heap, s: Slot) {
    exists path: seq<Ref>, t :: Path(h, s, path) && Ends(h, s, path, t) && Refused(h, t)
  }

  /** Some object is met again strictly inside itself. */
  ghost predicate ReachesCycle(h: Heap, s: Slot) {
    exists path: seq<Ref>, i, j :: Path(h, s, path) && 0 <= i < j < |path| && path[i] == path[j]
  }

  lemma {:induction false} ChildPoints(h: Heap, r: Ref, t: Slot)
    requires Closed(h) && Child(h, r, t)
    ensures Points(h, t)
  {
    if h[r].HArr? {
      var i :| 0 <= i < |h[r].items| && h[r].items[i] == t;
    }
  }

  lemma {:induction false} ChildTree(h: Heap, r: Ref, t: Slot, v: Value) returns (w: Value)
    requires Closed(h) && Child(h, r, t) && Points(h, t) && Unfolds(h, SRef(r), v)
    ensures Unfolds(h, t, w) && w < v
    ensures Supported(v) ==> Supported(w)
  {
    match h[r]
    case HArr(items) =>
      var i :| 0 <= i < |items| && items[i] == t;
      w := v.items[i];
    case HObj(_, ps) =>
      var i :| 0 <= i < |ps| && ps[i].slot == t;
      w := v.entries[i].value;
  }

  /** Walking down a path from a tree goes to ever smaller trees. */
  lemma {:induction false} PathTrees(h: Heap, s: Slot, path: seq<Ref>, v: Value, i: nat, j: nat) returns (a: Value, b: Value)
    requires Closed(h) && Points(h, s) && Unfolds(h, s, v) && Path(h, s, path) && i <= j < |path|
    ensures path[i] in h && path[j] in h && Unfolds(h, SRef(path[i]), a) && Unfolds(h, SRef(path[j]), b)
    ensures if i < j then b < a else a == b
    ensures Supported(v) ==> Supported(b)
    decreases j
  {
    if j == 0 {
      a, b := v, v;
    } else if i == j {
      var _, p := PathTrees(h, s, path, v, j - 1, j - 1);
      assert Child(h, path[j - 1], SRef(path[j]));
      ChildPoints(h, path[j - 1], SRef(path[j]));
      b := ChildTree(h, path[j - 1], SRef(path[j]), p);
      a := b;
    } else {
      var p;
      a, p := PathTrees(h, s, path, v, i, j - 1);
      assert Child(h, path[j - 1], SRef(path[j]));
      ChildPoints(h, path[j - 1], SRef(path[j]));
      b := ChildTree(h, path[j - 1], SRef(path[j]), p);
    }
  }

  /** A value with a finite supported tree reaches neither a cycle nor an unsupported value. */
  lemma {:induction false} TreeHasNoDefect(h: Heap, s: Slot, v: Value)
    requires Closed(h) && Points(h, s) && Unfolds(h, s, v) && Supported(v)
    ensures !ReachesUnsupported(h, s) && !ReachesCycle(h, s)
  {
    forall path: seq<Ref>, t | Path(h, s, path) && Ends(h, s, path, t) ensures !Refused(h, t) {
      if path != [] {
        var n := |path| - 1;
        var _, b := PathTrees(h, s, path, v, n, n);
        ChildPoints(h, path[n], t);
        var w := ChildTree(h, path[n], t, b);
      }
    }
    forall path: seq<Ref>, i, j | Path(h, s, path) && 0 <= i < j < |path| ensures path[i] != path[j] {
      var a, b := PathTrees(h, s, path, v, i, j);
      if path[i] == path[j] { UnfoldsOnce(h, SRef(path[i]), a, b); }
    }
  }

  /** What the encoder encodes does unfold to a finite supported tree. */
  lemma {:induction false} EncodedHasTree(leq: KeyOrder, h: Heap, s: Slot, seen: set<Ref>) returns (v: Value)
    requires Closed(h) && Points(h, s) && EncodeGraph(leq, h, s, seen).Encoded?
    ensures Unfolds(h, s, v) && Supported(v)
    decreases h.Keys - seen, 1
  {
    match s
    case SNull => v := Null;
    case SBool(b) => v := Bool(b);
    case SNumber(n) => v := Number(n);
    case SStr(t) => v := Str(t);
    case SDate(iso) => v := Date(iso);
    case SRef(r) =>
      match h[r] {
        case HArr(items) =>
          EncodedSlots(leq, h, items, seen + {r});
          forall i | 0 <= i < |items| ensures HasTree(h, items[i]) {
            var w := EncodedHasTree(leq, h, items[i], seen + {r});
          }
          v := ArrayTree(h, r);
        case HObj(plain, ps) =>
          SortedPropertiesPoint(leq, h, r);
          var sorted := Sort(ByProperty(leq), ps);
          EncodedProperties(leq, h, sorted, seen + {r});
          SortElements(ByProperty(leq), ps);
          forall i | 0 <= i < |ps| ensures HasTree(h, ps[i].slot) {
            assert ps[i] in sorted;
            var j :| 0 <= j < |sorted| && sorted[j] == ps[i];
            var w := EncodedHasTree(leq, h, sorted[j].slot, seen + {r});
          }
          v := ObjectTree(h, r);
      }
  }

  lemma {:induction false} ArrayTree(h: Heap, r: Ref) returns (v: Value)
    requires Closed(h) && r in h && h[r].HArr? && forall i :: 0 <= i < |h[r].items| ==> HasTree(h, h[r].items[i])
    ensures Unfolds(h, SRef(r), v) && Supported(v)
  {
    var items := h[r].items;
    v := Arr(seq(|items|, i requires 0 <= i < |items| => TreeOf(h, items[i])));
  }

  lemma {:induction false} ObjectTree(h: Heap, r: Ref) returns (v: Value)
    requires Closed(h) && r in h && h[r].HObj? && h[r].plain
    requires forall i :: 0 <= i < |h[r].properties| ==> HasTree(h, h[r].properties[i].slot)
    ensures Unfolds(h, SRef(r), v) && Supported(v)
  {
    var ps := h[r].properties;
    v := Obj(true, seq(|ps|, i requires 0 <= i < |ps| => Entry(ps[i].key, TreeOf(h, ps[i].slot))));
  }

  ghost predicate HasTree(h: Heap, s: Slot)
    requires Closed(h) && Points(h, s)
  {
    exists v :: Unfolds(h, s, v) && Supported(v)
  }

  ghost function TreeOf(h: Heap, s: Slot): (v: Value)
    requires Closed(h) && Points(h, s) && HasTree(h, s)
    ensures Unfolds(h, s, v) && Supported(v)
  {
    var v :| Unfolds(h, s, v) && Supported(v);
    v
  }

  /** What the path has met is what the guard has seen. */
  ghost predicate OnPath(path: seq<Ref>, seen: set<Ref>) {
    forall r :: r in seen <==> r in path
  }

  /** Whenever the encoder raises, the objects on its path lead to a reason. */
  lemma {:induction false} RaisedHasReason(leq: KeyOrder, h: Heap, root: Slot, path: seq<Ref>, s: Slot, seen: set<Ref>)
    requires Closed(h) && Points(h, s) && EncodeGraph(leq, h, s, seen).Raised?
    requires Path(h, root, path) && Ends(h, root, path, s) && OnPath(path, seen)
    ensures ReachesUnsupported(h, root) || ReachesCycle(h, root)
    decreases h.Keys - seen, 1
  {
    if Refused(h, s) {
      assert ReachesUnsupported(h, root);
    } else {
      var r := s.ref;
      var longer := path + [r];
      assert Path(h, root, longer) by {
        forall i | 0 <= i < |longer| - 1 ensures Child(h, longer[i], SRef(longer[i + 1])) {
          if i < |path| - 1 { assert Child(h, path[i], SRef(path[i + 1])); }
        }
      }
      if r in seen {
        var i :| 0 <= i < |path| && path[i] == r;
        assert longer[i] == longer[|path|];
        assert ReachesCycle(h, root);
      } else {
        assert OnPath(longer, seen + {r});
        var t := RaisingChild(leq, h, r, seen);
        RaisedHasReason(leq, h, root, longer, t, seen + {r});
      }
    }
  }

  lemma {:induction false} RaisingChild(leq: KeyOrder, h: Heap, r: Ref, seen: set<Ref>) returns (t: Slot)
    requires Closed(h) && r in h && r !in seen && !Refused(h, SRef(r)) && EncodeGraph(leq, h, SRef(r), seen).Raised?
    ensures Child(h, r, t) && Points(h, t) && EncodeGraph(leq, h, t, seen + {r}).Raised?
  {
    match h[r]
    case HArr(items) =>
      EncodedSlots(leq, h, items, seen + {r});
      var i :| 0 <= i < |items| && EncodeGraph(leq, h, items[i], seen + {r}).Raised?;
      t := items[i];
    case HObj(_, ps) =>
      SortedPropertiesPoint(leq, h, r);
      var sorted := Sort(ByProperty(leq), ps);
      EncodedProperties(leq, h, sorted, seen + {r});
      SortElements(ByProperty(leq), ps);
      var j :| 0 <= j < |sorted| && EncodeGraph(leq, h, sorted[j].slot, seen + {r}).Raised?;
      assert sorted[j] in ps;
      t := sorted[j].slot;
  }

  /** The encoder raises exactly when a cycle or an unsupported value can be reached. */
  lemma {:induction false} RaisesExactly(leq: KeyOrder, h: Heap, s: Slot)
    requires Closed(h) && Points(h, s)
    ensures EncodeGraph(leq, h, s, {}).Raised? <==> ReachesUnsupported(h, s) || ReachesCycle(h, s)
  {
    if EncodeGraph(leq, h, s, {}).Raised? {
      RaisedHasReason(leq, h, s, [], s, {});
    } else {
      var v := EncodedHasTree(leq, h, s, {});
      TreeHasNoDefect(h, s, v);
    }
  }

  /** `s` unfolds to a finite supported tree whose canonical text is `text`. */
  ghost predicate TreeHasText(leq: KeyOrder, h: Heap, s: Slot, text: Text)
    requires Closed(h) && Points(h, s)
  {
    exists v :: Unfolds(h, s, v) && Supported(v) && CanonicalText(leq, ToDoc(v)) == text
  }

  /** And when it does not raise, the text is the canonical text of the one tree the value unfolds to,
      however much of it is shared. */
  lemma {:induction false} EncodesExactly(leq: KeyOrder, h: Heap, s: Slot, text: Text)
    requires Closed(h) && Points(h, s)
    ensures EncodeGraph(leq, h, s, {}) == Encoded(text) <==> TreeHasText(leq, h, s, text)
  {
    if EncodeGraph(leq, h, s, {}) == Encoded(text) {
      var v := EncodedHasTree(leq, h, s, {});
      EncodesItsTree(leq, h, s, {}, v);
      assert TreeHasText(leq, h, s, text);
    }
    if TreeHasText(leq, h, s, text) {
      var v :| Unfolds(h, s, v) && Supported(v) && CanonicalText(leq, ToDoc(v)) == text;
      EncodesItsTree(leq, h, s, {}, v);
    }
  }

  /** `canonicalJson`: a fresh guard, then the encoder. */
  method EncodeFresh(leq: KeyOrder, h: Heap, s: Slot) returns (r: Encoding)
    requires Closed(h) && Points(h, s)
    ensures r.Raised? <==> ReachesUnsupported(h, s) || ReachesCycle(h, s)
    ensures r.Encoded? ==> TreeHasText(leq, h, s, r.text)
  {
    var seen := new SeenSet();
    r := EncodeCanonical(leq, h, s, seen);
    RaisesExactly(leq, h, s);
    if r.Encoded? { EncodesExactly(leq, h, s, r.text); }
  }
}
