/** The text form of a document (sections 3 to 7 of RFC 8259) and a parser that reads it back. */
module JsonText {
  import opened CodeUnits
  import opened JsonDocuments

  const NULL: Text := [110, 117, 108, 108]
  const TRUE: Text := [116, 114, 117, 101]
  const FALSE: Text := [102, 97, 108, 115, 101]
  const QUOTE: CodeUnit := 34
  const BACKSLASH: CodeUnit := 92
  const OPEN_BRACE: CodeUnit := 123
  const CLOSE_BRACE: CodeUnit := 125

  // ---- strings ----

  function HexDigit(n: nat): CodeUnit
    requires n < 16
  {
    if n < 10 then 48 + n else 87 + n
  }

  function UnicodeEscape(u: CodeUnit): Text {
    [BACKSLASH, 117, HexDigit(u / 4096), HexDigit(u / 256 % 16), HexDigit(u / 16 % 16), HexDigit(u % 16)]
  }

  /** One unit that is not half of a surrogate pair. */
  function EscapeUnit(u: CodeUnit): Text {
    if u == 8 then [BACKSLASH, 98]
    else if u == 9 then [BACKSLASH, 116]
    else if u == 10 then [BACKSLASH, 110]
    else if u == 12 then [BACKSLASH, 102]
    else if u == 13 then [BACKSLASH, 114]
    else if u == QUOTE then [BACKSLASH, QUOTE]
    else if u == BACKSLASH then [BACKSLASH, BACKSLASH]
    else if u < 32 || IsLeadSurrogate(u) || IsTrailSurrogate(u) then UnicodeEscape(u)
    else [u]
  }

  function Escape(s: Text): Text {
    if s == [] then []
    else if |s| >= 2 && IsLeadSurrogate(s[0]) && IsTrailSurrogate(s[1]) then [s[0], s[1]] + Escape(s[2..])
    else EscapeUnit(s[0]) + Escape(s[1..])
  }

  /** `JSON.stringify` of a string. */
  function Quote(s: Text): Text {
    [QUOTE] + Escape(s) + [QUOTE]
  }

  // ---- documents ----

  function Print(d: Doc): Text
    decreases d, 1
  {
    match d
    case DNull => NULL
    case DBool(b) => if b then TRUE else FALSE
    case DNumber(n) => n
    case DString(s) => Quote(s)
    case DArray(items) => [OPEN_BRACKET] + PrintItems(items) + [CLOSE_BRACKET]
    case DObject(ms) => [OPEN_BRACE] + PrintMembers(ms) + [CLOSE_BRACE]
  }

  function PrintItems(items: seq<Doc>): Text
    decreases items, 0
  {
    if items == [] then []
    else if |items| == 1 then Print(items[0])
    else Print(items[0]) + [COMMA] + PrintItems(items[1..])
  }

  function PrintMember(m: Member): Text
    decreases m, 2
  {
    Quote(m.key) + [COLON] + Print(m.doc)
  }

  function PrintMembers(ms: seq<Member>): Text
    decreases ms, 0
  {
    if ms == [] then []
    else if |ms| == 1 then PrintMember(ms[0])
    else PrintMember(ms[0]) + [COMMA] + PrintMembers(ms[1..])
  }

  // ---- the parser ----

  datatype Parsed<+T> = NoParse | Parsed(value: T, rest: Text)

  function HexValue(u: CodeUnit): nat
    requires IsHex(u)
    ensures HexValue(u) < 16
  {
    if IsDigit(u) then u - 48 else if u >= 97 then u - 87 else u - 55
  }

  /** The unit an escape introduced by a backslash stands for; `t` starts after the backslash. */
  function ParseEscape(t: Text): (r: Parsed<CodeUnit>)
    ensures r.Parsed? ==> |r.rest| < |t|
  {
    if t == [] then NoParse
    else if t[0] == QUOTE || t[0] == BACKSLASH || t[0] == 47 then Parsed(t[0], t[1..])
    else if t[0] == 98 then Parsed(8, t[1..])
    else if t[0] == 116 then Parsed(9, t[1..])
    else if t[0] == 110 then Parsed(10, t[1..])
    else if t[0] == 102 then Parsed(12, t[1..])
    else if t[0] == 114 then Parsed(13, t[1..])
    else if t[0] == 117 && |t| >= 5 && IsHex(t[1]) && IsHex(t[2]) && IsHex(t[3]) && IsHex(t[4]) then
      Parsed(4096 * HexValue(t[1]) + 256 * HexValue(t[2]) + 16 * HexValue(t[3]) + HexValue(t[4]), t[5..])
    else NoParse
  }

  /** The rest of a string whose opening quote has been read, closing quote included. */
  function ParseUnits(t: Text): (r: Parsed<Text>)
    ensures r.Parsed? ==> |r.rest| < |t|
    decreases |t|
  {
    if t == [] then NoParse
    else if t[0] == QUOTE then Parsed([], t[1..])
    else
      var first := if t[0] == BACKSLASH then ParseEscape(t[1..]) else Parsed(t[0], t[1..]);
      if first.NoParse? then NoParse
      else
        var others := ParseUnits(first.rest);
        if others.NoParse? then NoParse else Parsed([first.value] + others.value, others.rest)
  }

  function ParseString(t: Text): (r: Parsed<Text>)
    ensures r.Parsed? ==> |r.rest| < |t|
  {
    if t == [] || t[0] != QUOTE then NoParse else ParseUnits(t[1..])
  }

  /** How many leading units can belong to a number. */
  function NumberLength(t: Text): (n: nat)
    ensures n <= |t| && forall i :: 0 <= i < n ==> IsNumberUnit(t[i])
  {
    if t == [] || !IsNumberUnit(t[0]) then 0 else 1 + NumberLength(t[1..])
  }

  function ParseDoc(t: Text): (r: Parsed<Doc>)
    ensures r.Parsed? ==> |r.rest| < |t|
    decreases |t|, 1
  {
    if t == [] then NoParse
    else if t[0] == 110 then
      if |t| >= 4 && t[1] == 117 && t[2] == 108 && t[3] == 108 then Parsed(DNull, t[4..]) else NoParse
    else if t[0] == 116 then
      if |t| >= 4 && t[1] == 114 && t[2] == 117 && t[3] == 101 then Parsed(DBool(true), t[4..]) else NoParse
    else if t[0] == 102 then
      if |t| >= 5 && t[1] == 97 && t[2] == 108 && t[3] == 115 && t[4] == 101 then Parsed(DBool(false), t[5..])
      else NoParse
    else if t[0] == QUOTE then
      var s := ParseString(t);
      if s.NoParse? then NoParse else Parsed(DString(s.value), s.rest)
    else if t[0] == OPEN_BRACKET then
      if |t| >= 2 && t[1] == CLOSE_BRACKET then Parsed(DArray([]), t[2..])
      else
        var items := ParseItems(t[1..]);
        if items.NoParse? then NoParse else Parsed(DArray(items.value), items.rest)
    else if t[0] == OPEN_BRACE then
      if |t| >= 2 && t[1] == CLOSE_BRACE then Parsed(DObject([]), t[2..])
      else
        var ms := ParseMembers(t[1..]);
        if ms.NoParse? then NoParse else Parsed(DObject(ms.value), ms.rest)
    else
      var n := NumberLength(t);
      if n == 0 then NoParse else Parsed(DNumber(t[..n]), t[n..])
  }

  /** One or more items up to and including the closing bracket. */
  function ParseItems(t: Text): (r: Parsed<seq<Doc>>)
    ensures r.Parsed? ==> |r.rest| < |t|
    decreases |t|, 2
  {
    var first := ParseDoc(t);
    if first.NoParse? || first.rest == [] then NoParse
    else if first.rest[0] == CLOSE_BRACKET then Parsed([first.value], first.rest[1..])
    else if first.rest[0] != COMMA then NoParse
    else
      var others := ParseItems(first.rest[1..]);
      if others.NoParse? then NoParse else Parsed([first.value] + others.value, others.rest)
  }

  function ParseMember(t: Text): (r: Parsed<Member>)
    ensures r.Parsed? ==> |r.rest| < |t|
    decreases |t|, 2
  {
    var key := ParseString(t);
    if key.NoParse? || key.rest == [] || key.rest[0] != COLON then NoParse
    else
      var doc := ParseDoc(key.rest[1..]);
      if doc.NoParse? then NoParse else Parsed(Member(key.value, doc.value), doc.rest)
  }

  /** One or more members up to and including the closing brace. */
  function ParseMembers(t: Text): (r: Parsed<seq<Member>>)
    ensures r.Parsed? ==> |r.rest| < |t|
    decreases |t|, 3
  {
    var first := ParseMember(t);
    if first.NoParse? || first.rest == [] then NoParse
    else if first.rest[0] == CLOSE_BRACE then Parsed([first.value], first.rest[1..])
    else if first.rest[0] != COMMA then NoParse
    else
      var others := ParseMembers(first.rest[1..]);
      if others.NoParse? then NoParse else Parsed([first.value] + others.value, others.rest)
  }

  // ---- the parser undoes the printer ----

  lemma {:induction false} Nibbles(u: CodeUnit)
    ensures u / 4096 < 16
    ensures 4096 * (u / 4096) + 256 * (u / 256 % 16) + 16 * (u / 16 % 16) + u % 16 == u
  {
    assert u / 256 == u / 16 / 16;
    assert u / 4096 == u / 256 / 16;
  }

  lemma {:induction false} HexReadsBack(n: nat)
    requires n < 16
    ensures IsHex(HexDigit(n)) && HexValue(HexDigit(n)) == n
  {
  }

  lemma {:induction false} UnicodeEscapeReadsBack(u: CodeUnit, rest: Text)
    ensures ParseEscape(UnicodeEscape(u)[1..] + rest) == Parsed(u, rest)
  {
    Nibbles(u);
    HexReadsBack(u / 4096);
    HexReadsBack(u / 256 % 16);
    HexReadsBack(u / 16 % 16);
    HexReadsBack(u % 16);
    var t := UnicodeEscape(u)[1..] + rest;
    assert t[5..] == rest;
    assert t[0] == 117 && t[1] == HexDigit(u / 4096) && t[2] == HexDigit(u / 256 % 16)
      && t[3] == HexDigit(u / 16 % 16) && t[4] == HexDigit(u % 16);
  }

  lemma {:induction false} ShortEscapeReadsBack(u: CodeUnit, rest: Text)
    requires |EscapeUnit(u)| == 2
    ensures ParseEscape(EscapeUnit(u)[1..] + rest) == Parsed(u, rest)
  {
  }

  // ---- the printer with what follows it, so that every text is a first unit and a remainder ----

  function EscapeUnitOnto(u: CodeUnit, rest: Text): Text {
    EscapeUnit(u) + rest
  }

  function EscapeOnto(s: Text, rest: Text): Text {
    if s == [] then rest
    else if |s| >= 2 && IsLeadSurrogate(s[0]) && IsTrailSurrogate(s[1]) then [s[0]] + ([s[1]] + EscapeOnto(s[2..], rest))
    else EscapeUnitOnto(s[0], EscapeOnto(s[1..], rest))
  }

  function QuoteOnto(s: Text, rest: Text): Text {
    [QUOTE] + EscapeOnto(s, [QUOTE] + rest)
  }

  function PrintOnto(d: Doc, rest: Text): Text
    decreases d, 1
  {
    match d
    case DArray(items) => [OPEN_BRACKET] + (if items == [] then [CLOSE_BRACKET] + rest else ItemsOnto(items, rest))
    case DObject(ms) => [OPEN_BRACE] + (if ms == [] then [CLOSE_BRACE] + rest else MembersOnto(ms, rest))
    case DString(s) => QuoteOnto(s, rest)
    case _ => Print(d) + rest
  }

  function ItemsOnto(items: seq<Doc>, rest: Text): Text
    requires items != []
    decreases items, 0
  {
    PrintOnto(items[0], if |items| == 1 then [CLOSE_BRACKET] + rest else [COMMA] + ItemsOnto(items[1..], rest))
  }

  function MemberOnto(m: Member, rest: Text): Text
    decreases m, 2
  {
    QuoteOnto(m.key, [COLON] + PrintOnto(m.doc, rest))
  }

  function MembersOnto(ms: seq<Member>, rest: Text): Text
    requires ms != []
    decreases ms, 0
  {
    MemberOnto(ms[0], if |ms| == 1 then [CLOSE_BRACE] + rest else [COMMA] + MembersOnto(ms[1..], rest))
  }

  lemma {:induction false} Associates(a: Text, b: Text, c: Text)
    ensures a + (b + c) == a + b + c
  {
  }

  lemma {:induction false} EscapeThenRest(s: Text, rest: Text)
    ensures EscapeOnto(s, rest) == Escape(s) + rest
  {
    if s == [] {
      assert [] + rest == rest;
    } else if |s| >= 2 && IsLeadSurrogate(s[0]) && IsTrailSurrogate(s[1]) {
      EscapeThenRest(s[2..], rest);
      Associates([s[0], s[1]], Escape(s[2..]), rest);
      assert [s[0]] + ([s[1]] + EscapeOnto(s[2..], rest)) == [s[0], s[1]] + EscapeOnto(s[2..], rest);
    } else {
      EscapeThenRest(s[1..], rest);
      Associates(EscapeUnit(s[0]), Escape(s[1..]), rest);
    }
  }

  lemma {:induction false} QuoteThenRest(s: Text, rest: Text)
    ensures QuoteOnto(s, rest) == Quote(s) + rest
  {
    EscapeThenRest(s, [QUOTE] + rest);
    Associates(Escape(s), [QUOTE], rest);
    Associates([QUOTE], Escape(s) + [QUOTE], rest);
    Associates([QUOTE], Escape(s), [QUOTE]);
  }

  lemma {:induction false} PrintThenRest(d: Doc, rest: Text)
    ensures PrintOnto(d, rest) == Print(d) + rest
    decreases d, 1
  {
    match d
    case DString(s) => QuoteThenRest(s, rest);
    case DArray(items) => ArrayThenRest(items, rest);
    case DObject(ms) => ObjectThenRest(ms, rest);
    case _ =>
  }

  lemma {:induction false} ArrayThenRest(items: seq<Doc>, rest: Text)
    ensures PrintOnto(DArray(items), rest) == Print(DArray(items)) + rest
    decreases items, 1
  {
    var close := [CLOSE_BRACKET];
    if items == [] { assert PrintItems(items) + (close + rest) == close + rest; } else { ItemsThenRest(items, rest); }
    Associates([OPEN_BRACKET] + PrintItems(items), close, rest);
    Associates([OPEN_BRACKET], PrintItems(items), close + rest);
  }

  lemma {:induction false} ObjectThenRest(ms: seq<Member>, rest: Text)
    ensures PrintOnto(DObject(ms), rest) == Print(DObject(ms)) + rest
    decreases ms, 1
  {
    var close := [CLOSE_BRACE];
    if ms == [] { assert PrintMembers(ms) + (close + rest) == close + rest; } else { MembersThenRest(ms, rest); }
    Associates([OPEN_BRACE] + PrintMembers(ms), close, rest);
    Associates([OPEN_BRACE], PrintMembers(ms), close + rest);
  }

  lemma {:induction false} ItemsThenRest(items: seq<Doc>, rest: Text)
    requires items != []
    ensures ItemsOnto(items, rest) == PrintItems(items) + ([CLOSE_BRACKET] + rest)
    decreases items, 0
  {
    var close := [CLOSE_BRACKET] + rest;
    if |items| == 1 {
      PrintThenRest(items[0], close);
    } else {
      var first, more := Print(items[0]), PrintItems(items[1..]);
      ItemsThenRest(items[1..], rest);
      PrintThenRest(items[0], [COMMA] + (more + close));
      Associates([COMMA], more, close);
      Associates(first, [COMMA] + more, close);
      Associates(first, [COMMA], more);
    }
  }

  lemma {:induction false} MembersThenRest(ms: seq<Member>, rest: Text)
    requires ms != []
    ensures MembersOnto(ms, rest) == PrintMembers(ms) + ([CLOSE_BRACE] + rest)
    decreases ms, 0
  {
    var close := [CLOSE_BRACE] + rest;
    if |ms| == 1 {
      MemberThenRest(ms[0], close);
    } else {
      var first, more := PrintMember(ms[0]), PrintMembers(ms[1..]);
      MembersThenRest(ms[1..], rest);
      MemberThenRest(ms[0], [COMMA] + (more + close));
      Associates([COMMA], more, close);
      Associates(first, [COMMA] + more, close);
      Associates(first, [COMMA], more);
    }
  }

  lemma {:induction false} MemberThenRest(m: Member, rest: Text)
    ensures MemberOnto(m, rest) == PrintMember(m) + rest
    decreases m, 2
  {
    PrintThenRest(m.doc, rest);
    QuoteThenRest(m.key, [COLON] + (Print(m.doc) + rest));
    Associates([COLON], Print(m.doc), rest);
    Associates(Quote(m.key), [COLON] + Print(m.doc), rest);
    Associates(Quote(m.key), [COLON], Print(m.doc));
  }

  // ---- reading back ----

  /** What `ParseUnits` does with a first unit it has already read. */
  function Prepend(u: CodeUnit, others: Parsed<Text>): Parsed<Text> {
    if others.NoParse? then NoParse else Parsed([u] + others.value, others.rest)
  }

  lemma {:induction false} EscapedUnitReadsBack(u: CodeUnit, rest: Text)
    ensures ParseUnits(EscapeUnitOnto(u, rest)) == Prepend(u, ParseUnits(rest))
  {
    var e := EscapeUnit(u);
    var t := e + rest;
    assert t[1..] == e[1..] + rest;
    if |e| == 1 {
      assert e[1..] + rest == rest;
    } else {
      if |e| == 2 { ShortEscapeReadsBack(u, rest); } else { UnicodeEscapeReadsBack(u, rest); }
      assert t[0] == BACKSLASH && ParseEscape(t[1..]) == Parsed(u, rest);
    }
  }

  lemma {:induction false} RawUnitReadsBack(u: CodeUnit, rest: Text)
    requires u != QUOTE && u != BACKSLASH
    ensures ParseUnits([u] + rest) == Prepend(u, ParseUnits(rest))
  {
  }

  lemma {:induction false} UnitsReadBack(s: Text, rest: Text)
    ensures ParseUnits(EscapeOnto(s, [QUOTE] + rest)) == Parsed(s, rest)
  {
    var close := [QUOTE] + rest;
    if s == [] {
      assert close[1..] == rest;
    } else if |s| >= 2 && IsLeadSurrogate(s[0]) && IsTrailSurrogate(s[1]) {
      UnitsReadBack(s[2..], rest);
      RawUnitReadsBack(s[0], [s[1]] + EscapeOnto(s[2..], close));
      RawUnitReadsBack(s[1], EscapeOnto(s[2..], close));
      assert s == [s[0]] + ([s[1]] + s[2..]);
    } else {
      UnitsReadBack(s[1..], rest);
      EscapedUnitReadsBack(s[0], EscapeOnto(s[1..], close));
      assert s == [s[0]] + s[1..];
    }
  }

  lemma {:induction false} QuoteReadsBack(s: Text, rest: Text)
    ensures ParseString(QuoteOnto(s, rest)) == Parsed(s, rest)
  {
    UnitsReadBack(s, rest);
    var more := EscapeOnto(s, [QUOTE] + rest);
    assert ([QUOTE] + more)[1..] == more;
  }

  /** What may follow a printed document without being taken for part of it. */
  predicate Delimited(rest: Text) {
    rest == [] || !IsNumberUnit(rest[0])
  }

  lemma {:induction false} NumberReadsBack(n: Text, rest: Text)
    requires forall i :: 0 <= i < |n| ==> IsNumberUnit(n[i])
    requires Delimited(rest)
    ensures NumberLength(n + rest) == |n|
  {
    if n == [] {
      assert n + rest == rest;
    } else {
      NumberReadsBack(n[1..], rest);
      assert (n + rest)[1..] == n[1..] + rest;
    }
  }

  lemma {:induction false} LeafReadsBack(d: Doc, rest: Text)
    requires !d.DArray? && !d.DObject? && Delimited(rest)
    ensures ParseDoc(PrintOnto(d, rest)) == Parsed(d, rest)
  {
    if d.DString? {
      QuoteReadsBack(d.s, rest);
    } else {
      var p := Print(d);
      var t := p + rest;
      assert t[|p|..] == rest && t[..|p|] == p;
      if d.DNumber? {
        NumberReadsBack(d.number, rest);
        assert IsNumberUnit(t[0]) by { assert t[0] == d.number[0]; }
      }
    }
  }

  /** A printed document never starts by closing the array it stands in. */
  lemma {:induction false} PrintStarts(d: Doc, rest: Text)
    ensures |PrintOnto(d, rest)| > 0 && PrintOnto(d, rest)[0] != CLOSE_BRACKET
  {
  }

  /** The parser recovers any printed document, member order included. */
  lemma {:induction false} PrintReadsBack(d: Doc, rest: Text)
    requires Delimited(rest)
    ensures ParseDoc(PrintOnto(d, rest)) == Parsed(d, rest)
    decreases d, 1
  {
    match d
    case DArray(items) => ArrayReadsBack(items, rest);
    case DObject(ms) => ObjectReadsBack(ms, rest);
    case _ => LeafReadsBack(d, rest);
  }

  lemma {:induction false} ArrayReadsBack(items: seq<Doc>, rest: Text)
    ensures ParseDoc(PrintOnto(DArray(items), rest)) == Parsed(DArray(items), rest)
    decreases items, 1
  {
    if items == [] {
      assert ([OPEN_BRACKET] + ([CLOSE_BRACKET] + rest))[2..] == rest;
    } else {
      var more := ItemsOnto(items, rest);
      ItemsReadBack(items, rest);
      PrintStarts(items[0], if |items| == 1 then [CLOSE_BRACKET] + rest else [COMMA] + ItemsOnto(items[1..], rest));
      ArrayFromItems(more, items, rest);
    }
  }

  lemma {:induction false} ArrayFromItems(more: Text, items: seq<Doc>, rest: Text)
    requires |more| > 0 && more[0] != CLOSE_BRACKET && ParseItems(more) == Parsed(items, rest)
    ensures ParseDoc([OPEN_BRACKET] + more) == Parsed(DArray(items), rest)
  {
  }

  lemma {:induction false} ItemsReadBack(items: seq<Doc>, rest: Text)
    requires items != []
    ensures ParseItems(ItemsOnto(items, rest)) == Parsed(items, rest)
    decreases items, 0
  {
    var d, others := items[0], items[1..];
    assert items == [d] + others;
    if |items| == 1 {
      assert items == [d];
      PrintReadsBack(d, [CLOSE_BRACKET] + rest);
      LastItem(PrintOnto(d, [CLOSE_BRACKET] + rest), d, rest);
    } else {
      var tail := ItemsOnto(others, rest);
      PrintReadsBack(d, [COMMA] + tail);
      ItemsReadBack(others, rest);
      NextItem(PrintOnto(d, [COMMA] + tail), d, tail, others, rest);
    }
  }

  lemma {:induction false} LastItem(t: Text, d: Doc, rest: Text)
    requires ParseDoc(t) == Parsed(d, [CLOSE_BRACKET] + rest)
    ensures ParseItems(t) == Parsed([d], rest)
  {
  }

  lemma {:induction false} NextItem(t: Text, d: Doc, tail: Text, items: seq<Doc>, rest: Text)
    requires ParseDoc(t) == Parsed(d, [COMMA] + tail) && ParseItems(tail) == Parsed(items, rest)
    ensures ParseItems(t) == Parsed([d] + items, rest)
  {
  }

  lemma {:induction false} ObjectReadsBack(ms: seq<Member>, rest: Text)
    ensures ParseDoc(PrintOnto(DObject(ms), rest)) == Parsed(DObject(ms), rest)
    decreases ms, 1
  {
    if ms == [] {
      assert ([OPEN_BRACE] + ([CLOSE_BRACE] + rest))[2..] == rest;
    } else {
      MembersReadBack(ms, rest);
      ObjectFromMembers(MembersOnto(ms, rest), ms, rest);
    }
  }

  lemma {:induction false} ObjectFromMembers(more: Text, ms: seq<Member>, rest: Text)
    requires |more| > 0 && more[0] != CLOSE_BRACE && ParseMembers(more) == Parsed(ms, rest)
    ensures ParseDoc([OPEN_BRACE] + more) == Parsed(DObject(ms), rest)
  {
  }

  lemma {:induction false} MemberReadsBack(m: Member, rest: Text)
    requires Delimited(rest)
    ensures ParseMember(MemberOnto(m, rest)) == Parsed(m, rest)
    decreases m, 2
  {
    var more := PrintOnto(m.doc, rest);
    QuoteReadsBack(m.key, [COLON] + more);
    assert ([COLON] + more)[1..] == more;
    PrintReadsBack(m.doc, rest);
  }

  lemma {:induction false} MembersReadBack(ms: seq<Member>, rest: Text)
    requires ms != []
    ensures ParseMembers(MembersOnto(ms, rest)) == Parsed(ms, rest)
    ensures MembersOnto(ms, rest)[0] == QUOTE
    decreases ms, 0
  {
    var m, others := ms[0], ms[1..];
    assert ms == [m] + others;
    if |ms| == 1 {
      assert ms == [m];
      MemberReadsBack(m, [CLOSE_BRACE] + rest);
      LastMember(MemberOnto(m, [CLOSE_BRACE] + rest), m, rest);
    } else {
      var tail := MembersOnto(others, rest);
      MemberReadsBack(m, [COMMA] + tail);
      MembersReadBack(others, rest);
      NextMember(MemberOnto(m, [COMMA] + tail), m, tail, others, rest);
    }
  }

  lemma {:induction false} LastMember(t: Text, m: Member, rest: Text)
    requires ParseMember(t) == Parsed(m, [CLOSE_BRACE] + rest)
    ensures ParseMembers(t) == Parsed([m], rest)
  {
  }

  lemma {:induction false} NextMember(t: Text, m: Member, tail: Text, ms: seq<Member>, rest: Text)
    requires ParseMember(t) == Parsed(m, [COMMA] + tail) && ParseMembers(tail) == Parsed(ms, rest)
    ensures ParseMembers(t) == Parsed([m] + ms, rest)
  {
  }

  /** The parser inverts the printer on every document. */
  lemma {:induction false} ParsePrint(d: Doc)
    ensures ParseDoc(Print(d)) == Parsed(d, [])
  {
    PrintReadsBack(d, []);
    PrintThenRest(d, []);
    assert Print(d) + [] == Print(d);
  }

  lemma {:induction false} PrintInjective(a: Doc, b: Doc)
    requires Print(a) == Print(b)
    ensures a == b
  {
    ParsePrint(a);
    ParsePrint(b);
  }

  // ---- what SHA-256 is fed is well-formed UTF-16 ----

  /** No unpaired surrogate, so the UTF-8 encoding of the text loses nothing. */
  predicate WellFormedUtf16(t: Text) {
    if t == [] then true
    else if IsLeadSurrogate(t[0]) then |t| >= 2 && IsTrailSurrogate(t[1]) && WellFormedUtf16(t[2..])
    else !IsTrailSurrogate(t[0]) && WellFormedUtf16(t[1..])
  }

  lemma {:induction false} WellFormedAppend(t: Text, rest: Text)
    requires WellFormedUtf16(t) && WellFormedUtf16(rest)
    ensures WellFormedUtf16(t + rest)
  {
    if t == [] {
      assert t + rest == rest;
    } else if IsLeadSurrogate(t[0]) {
      WellFormedAppend(t[2..], rest);
      assert (t + rest)[2..] == t[2..] + rest;
    } else {
      WellFormedAppend(t[1..], rest);
      assert (t + rest)[1..] == t[1..] + rest;
    }
  }

  lemma {:induction false} PlainUnitsWellFormed(t: Text)
    requires forall i :: 0 <= i < |t| ==> t[i] < 0xD800 || t[i] > 0xDFFF
    ensures WellFormedUtf16(t)
  {
    if t != [] { PlainUnitsWellFormed(t[1..]); }
  }

  lemma {:induction false} EscapeWellFormed(s: Text)
    ensures WellFormedUtf16(Escape(s))
  {
    if s == [] {
    } else if |s| >= 2 && IsLeadSurrogate(s[0]) && IsTrailSurrogate(s[1]) {
      EscapeWellFormed(s[2..]);
      assert Escape(s)[2..] == Escape(s[2..]);
    } else {
      EscapeWellFormed(s[1..]);
      PlainUnitsWellFormed(EscapeUnit(s[0]));
      WellFormedAppend(EscapeUnit(s[0]), Escape(s[1..]));
    }
  }

  lemma {:induction false} QuoteWellFormed(s: Text)
    ensures WellFormedUtf16(Quote(s))
  {
    EscapeWellFormed(s);
    PlainUnitsWellFormed([QUOTE]);
    WellFormedAppend([QUOTE], Escape(s));
    WellFormedAppend([QUOTE] + Escape(s), [QUOTE]);
  }

  /** Lone surrogates leave the printer escaped: two documents never collapse in UTF-8. */
  lemma {:induction false} PrintWellFormed(d: Doc)
    ensures WellFormedUtf16(Print(d))
    decreases d, 1
  {
    match d
    case DString(s) => QuoteWellFormed(s);
    case DArray(items) =>
      ItemsWellFormed(items);
      WrapWellFormed(OPEN_BRACKET, PrintItems(items), CLOSE_BRACKET);
    case DObject(ms) =>
      MembersWellFormed(ms);
      WrapWellFormed(OPEN_BRACE, PrintMembers(ms), CLOSE_BRACE);
    case _ => PlainUnitsWellFormed(Print(d));
  }

  lemma {:induction false} WrapWellFormed(first: CodeUnit, t: Text, last: CodeUnit)
    requires WellFormedUtf16(t) && first < 0xD800 && last < 0xD800
    ensures WellFormedUtf16([first] + t + [last])
  {
    PlainUnitsWellFormed([first]);
    PlainUnitsWellFormed([last]);
    WellFormedAppend([first], t);
    WellFormedAppend([first] + t, [last]);
  }

  lemma {:induction false} JoinWellFormed(t: Text, u: CodeUnit, rest: Text)
    requires WellFormedUtf16(t) && WellFormedUtf16(rest) && u < 0xD800
    ensures WellFormedUtf16(t + [u] + rest)
  {
    PlainUnitsWellFormed([u]);
    WellFormedAppend(t, [u]);
    WellFormedAppend(t + [u], rest);
  }

  lemma {:induction false} ItemsWellFormed(items: seq<Doc>)
    ensures WellFormedUtf16(PrintItems(items))
    decreases items, 0
  {
    if items != [] {
      PrintWellFormed(items[0]);
      ItemsWellFormed(items[1..]);
      JoinWellFormed(Print(items[0]), COMMA, PrintItems(items[1..]));
    }
  }

  lemma {:induction false} MembersWellFormed(ms: seq<Member>)
    ensures WellFormedUtf16(PrintMembers(ms))
    decreases ms, 0
  {
    if ms != [] {
      QuoteWellFormed(ms[0].key);
      PrintWellFormed(ms[0].doc);
      JoinWellFormed(Quote(ms[0].key), COLON, Print(ms[0].doc));
      MembersWellFormed(ms[1..]);
      JoinWellFormed(PrintMember(ms[0]), COMMA, PrintMembers(ms[1..]));
    }
  }
}
