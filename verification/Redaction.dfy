/** Redaction of a payload before it is hashed and stored. */
module Redaction {
  import opened CodeUnits
  import opened JsValues

  const MARKER: Text := Ascii("[REDACTED]")
  const PROTO: Text := Ascii("__proto__")

  // ---- which keys and strings are sensitive ----

  const SENSITIVE_KEY_FRAGMENTS: seq<Text> := [
    Ascii("apikey"), Ascii("authorization"), Ascii("bearer"), Ascii("circleapikey"), Ascii("cookie"),
    Ascii("credential"), Ascii("password"), Ascii("privatekey"), Ascii("providerkey"), Ascii("secret"),
    Ascii("session"), Ascii("signature"), Ascii("token"), Ascii("xpayment")
  ]

  /** `toLowerCase` followed by dropping everything outside [a-z0-9], one unit at a time. The Kelvin
      sign and the dotted capital I are the only other units whose lower case holds an ASCII letter. */
  function NormalizeUnit(u: CodeUnit): Text {
    if 65 <= u <= 90 then [u + 32]
    else if 97 <= u <= 122 || IsDigit(u) then [u]
    else if u == 0x212A then [107]
    else if u == 0x130 then [105]
    else []
  }

  function NormalizeKey(key: Text): Text {
    if key == [] then [] else NormalizeUnit(key[0]) + NormalizeKey(key[1..])
  }

  predicate OccursAt(t: Text, i: int, fragment: Text) {
    0 <= i <= |t| - |fragment| && t[i..i + |fragment|] == fragment
  }

  predicate IsSensitiveKey(key: Text) {
    var normalized := NormalizeKey(key);
    exists f, i :: 0 <= f < |SENSITIVE_KEY_FRAGMENTS| && 0 <= i <= |normalized| && OccursAt(normalized, i, SENSITIVE_KEY_FRAGMENTS[f])
  }

  function FoldCase(u: CodeUnit): CodeUnit {
    if 65 <= u <= 90 then u + 32 else u
  }

  predicate IsWordUnit(u: CodeUnit) {
    IsDigit(u) || 97 <= FoldCase(u) <= 122 || u == 95
  }

  /** `\b` in front of a word unit, then the word, letters in either case. */
  predicate WordAt(s: Text, i: int, word: Text) {
    && 0 <= i <= |s| - |word|
    && (i > 0 ==> !IsWordUnit(s[i - 1]))
    && forall k :: 0 <= k < |word| ==> FoldCase(s[i + k]) == word[k]
  }

  /** `\bbearer\s+[a-z0-9._~+/=-]+` */
  predicate BearerAt(s: Text, i: int) {
    && WordAt(s, i, Ascii("bearer"))
    && exists j :: i + 6 < j < |s| && (forall k :: i + 6 <= k < j ==> IsSpace(s[k]))
         && (IsWordUnit(s[j]) || s[j] in {46, 126, 43, 47, 61, 45})
  }

  const KEY_KINDS: seq<Text> := [Ascii("sk_live_"), Ascii("sk_test_"), Ascii("sk_prod_"), Ascii("sk_dev_")]

  /** `\bsk_(live|test|prod|dev)_[a-z0-9_]+` */
  predicate SecretKeyAt(s: Text, i: int) {
    exists k :: 0 <= k < |KEY_KINDS| && WordAt(s, i, KEY_KINDS[k])
      && i + |KEY_KINDS[k]| < |s| && IsWordUnit(s[i + |KEY_KINDS[k]|])
  }

  /** One of the four value patterns matches at `i`; the optional tail of the fourth matches nothing more. */
  predicate PatternAt(s: Text, i: int) {
    BearerAt(s, i) || SecretKeyAt(s, i) || WordAt(s, i, Ascii("agentops_session=")) || WordAt(s, i, Ascii("x402"))
  }

  predicate IsSensitiveString(s: Text) {
    exists i :: 0 <= i < |s| && PatternAt(s, i)
  }

  // ---- the redaction ----

  datatype Redacted = Redacted(value: Value, redacted: bool)

  predicate IsJsObject(v: Value) {
    v.Arr? || v.Obj? || v.Date? || (v.Unsupported? && v.isObject)
  }

  /** `next[key] = x` on an object literal. Assigning to `__proto__` sets no property: an object becomes
      the prototype, null removes it, anything else is ignored. */
  function SetProperty(next: Value, key: Text, x: Value): Value
    requires next.Obj?
  {
    if key != PROTO then next.(entries := next.entries + [Entry(key, x)])
    else if IsJsObject(x) then next.(plain := false)
    else if x.Null? then next.(plain := true)
    else next
  }

  function Values(rs: seq<Redacted>): (vs: seq<Value>)
    ensures |vs| == |rs| && forall i :: 0 <= i < |rs| ==> vs[i] == rs[i].value
  {
    seq(|rs|, i requires 0 <= i < |rs| => rs[i].value)
  }

  predicate AnyRedacted(rs: seq<Redacted>) {
    exists i :: 0 <= i < |rs| && rs[i].redacted
  }

  function Redact(v: Value): Redacted
    decreases v, 1
  {
    match v
    case Str(s) => if IsSensitiveString(s) then Redacted(Str(MARKER), true) else Redacted(v, false)
    case Arr(items) =>
      var rs := RedactItems(items);
      Redacted(Arr(Values(rs)), AnyRedacted(rs))
    case Obj(_, es) =>
      var rs := RedactEntries(es);
      Redacted(Assemble(es, rs), AnyRedacted(rs))
    case _ => Redacted(v, false)
  }

  function RedactItems(items: seq<Value>): (rs: seq<Redacted>)
    ensures |rs| == |items| && forall i :: 0 <= i < |items| ==> rs[i] == Redact(items[i])
    decreases items, 0
  {
    if items == [] then [] else [Redact(items[0])] + RedactItems(items[1..])
  }

  /** A property's value: the marker under a sensitive key, else redacted in turn. */
  function RedactUnder(e: Entry): Redacted
    decreases e, 2
  {
    if IsSensitiveKey(e.key) then Redacted(Str(MARKER), true) else Redact(e.value)
  }

  function RedactEntries(es: seq<Entry>): (rs: seq<Redacted>)
    ensures |rs| == |es| && forall i :: 0 <= i < |es| ==> rs[i] == RedactUnder(es[i])
    decreases es, 0
  {
    if es == [] then [] else [RedactUnder(es[0])] + RedactEntries(es[1..])
  }

  /** The object the assignments build up. */
  function Assemble(es: seq<Entry>, rs: seq<Redacted>): (next: Value)
    requires |es| == |rs|
    ensures next.Obj?
  {
    if es == [] then Obj(true, [])
    else
      var n := |es| - 1;
      SetProperty(Assemble(es[..n], rs[..n]), es[n].key, rs[n].value)
  }

  datatype ParentKey = NoKey | Under(key: Text)

  method RedactValue(v: Value, parentKey: ParentKey) returns (r: Redacted)
    ensures r == if parentKey.Under? then RedactUnder(Entry(parentKey.key, v)) else Redact(v)
    decreases v, 1
  {
    if parentKey.Under? && IsSensitiveKey(parentKey.key) { return Redacted(Str(MARKER), true); }
    if v.Str? && IsSensitiveString(v.s) { return Redacted(Str(MARKER), true); }
    if v.Arr? {
      r := RedactArray(v);
    } else if v.Obj? {
      r := RedactObject(v);
    } else {
      r := Redacted(v, false);
    }
  }

  method RedactArray(v: Value) returns (r: Redacted)
    requires v.Arr?
    ensures r == Redact(v)
    decreases v, 0
  {
    ghost var rs := RedactItems(v.items);
    var redacted := false;
    var next := [];
    for i := 0 to |v.items|
      invariant next == Values(rs[..i])
      invariant redacted <==> AnyRedacted(rs[..i])
    {
      var result := RedactValue(v.items[i], NoKey);
      redacted := redacted || result.redacted;
      next := next + [result.value];
      AnyRedactedStep(rs, i);
    }
    assert rs[..|rs|] == rs;
    r := Redacted(Arr(next), redacted);
  }

  lemma {:induction false} AnyRedactedStep(rs: seq<Redacted>, i: nat)
    requires i < |rs|
    ensures AnyRedacted(rs[..i + 1]) <==> AnyRedacted(rs[..i]) || rs[i].redacted
  {
  }

  method RedactObject(v: Value) returns (r: Redacted)
    requires v.Obj?
    ensures r == Redact(v)
    decreases v, 0
  {
    ghost var rs := RedactEntries(v.entries);
    var redacted := false;
    var next := Obj(true, []);
    for i := 0 to |v.entries|
      invariant next == Assemble(v.entries[..i], rs[..i])
      invariant redacted <==> AnyRedacted(rs[..i])
    {
      var e := v.entries[i];
      var result := RedactValue(e.value, Under(e.key));
      redacted := redacted || result.redacted;
      next := SetProperty(next, e.key, result.value);
      AnyRedactedStep(rs, i);
      assert v.entries[..i + 1][..i] == v.entries[..i] && rs[..i + 1][..i] == rs[..i];
    }
    assert v.entries[..|v.entries|] == v.entries && rs[..|rs|] == rs;
    r := Redacted(next, redacted);
  }

  // ---- the marker and ISO dates are not sensitive ----

  /** Where a pattern matches, the text shows the first letters of its word. */
  predicate StartsPattern(s: Text, i: int)
    requires 0 <= i < |s|
  {
    FoldCase(s[i]) in {98, 115, 120} || (FoldCase(s[i]) == 97 && i + 1 < |s| && FoldCase(s[i + 1]) == 103)
  }

  lemma {:induction false} WordStarts(s: Text, i: int, word: Text)
    requires WordAt(s, i, word) && |word| > 1
    ensures 0 <= i < |s| - 1 && FoldCase(s[i]) == word[0] && FoldCase(s[i + 1]) == word[1]
  {
  }

  lemma {:induction false} PatternStarts(s: Text, i: int)
    requires 0 <= i < |s| && PatternAt(s, i)
    ensures StartsPattern(s, i)
  {
    if BearerAt(s, i) {
      WordStarts(s, i, Ascii("bearer"));
    } else if SecretKeyAt(s, i) {
      var k :| 0 <= k < |KEY_KINDS| && WordAt(s, i, KEY_KINDS[k]);
      WordStarts(s, i, KEY_KINDS[k]);
    } else if WordAt(s, i, Ascii("agentops_session=")) {
      WordStarts(s, i, Ascii("agentops_session="));
    } else {
      WordStarts(s, i, Ascii("x402"));
    }
  }

  lemma {:induction false} NothingStarts(s: Text)
    requires forall i :: 0 <= i < |s| ==> !StartsPattern(s, i)
    ensures !IsSensitiveString(s)
  {
    forall i | 0 <= i < |s| ensures !PatternAt(s, i) {
      if PatternAt(s, i) { PatternStarts(s, i); }
    }
  }

  lemma {:induction false} MarkerNotSensitive()
    ensures !IsSensitiveString(MARKER)
  {
    NothingStarts(MARKER);
  }

  lemma {:induction false} IsoNotSensitive(t: IsoText)
    ensures !IsSensitiveString(t)
  {
    NothingStarts(t);
  }

  lemma {:induction false} NormalizeConcat(a: Text, b: Text)
    ensures NormalizeKey(a + b) == NormalizeKey(a) + NormalizeKey(b)
  {
    if a == [] {
      assert a + b == b;
    } else {
      NormalizeConcat(a[1..], b);
      assert (a + b)[1..] == a[1..] + b;
    }
  }

  lemma {:induction false} NormalizeLetters(t: Text)
    requires forall i :: 0 <= i < |t| ==> 97 <= t[i] <= 122
    ensures NormalizeKey(t) == t
  {
    if t != [] { NormalizeLetters(t[1..]); }
  }

  lemma {:induction false} NormalizeUnderscores(t: Text)
    requires forall i :: 0 <= i < |t| ==> t[i] == 95
    ensures NormalizeKey(t) == []
  {
    if t != [] { NormalizeUnderscores(t[1..]); }
  }

  lemma {:induction false} ProtoNormalized()
    ensures NormalizeKey(PROTO) == Ascii("proto")
  {
    var under, letters := Ascii("__"), Ascii("proto");
    assert PROTO == under + (letters + under);
    NormalizeConcat(under, letters + under);
    NormalizeConcat(letters, under);
    NormalizeUnderscores(under);
    NormalizeLetters(letters);
    assert [] + (letters + []) == letters;
  }

  lemma {:induction false} FragmentsAreLong(f: nat)
    requires f < |SENSITIVE_KEY_FRAGMENTS|
    ensures |SENSITIVE_KEY_FRAGMENTS[f]| > 5 || SENSITIVE_KEY_FRAGMENTS[f] == Ascii("token")
  {
  }

  lemma {:induction false} ProtoNotSensitive()
    ensures !IsSensitiveKey(PROTO)
  {
    ProtoNormalized();
    forall f, i | 0 <= f < |SENSITIVE_KEY_FRAGMENTS| ensures !OccursAt(Ascii("proto"), i, SENSITIVE_KEY_FRAGMENTS[f]) {
      FragmentsAreLong(f);
      NotInProto(SENSITIVE_KEY_FRAGMENTS[f], i);
    }
  }

  lemma {:induction false} NotInProto(fragment: Text, i: int)
    requires |fragment| > 5 || fragment == Ascii("token")
    ensures !OccursAt(Ascii("proto"), i, fragment)
  {
    if |fragment| == 5 && i == 0 { assert Ascii("proto")[0..5][0] != fragment[0]; }
  }
}
