/** Rows of the audit table and the two hashes that tie them together. */
module AuditRecords {
  import opened Options
  import opened CodeUnits
  import opened JsonDocuments
  import opened CanonicalJson
  import opened JsValues

  /** `leq` orders object keys; `sha` is the hex digest of the UTF-8 form of a text. */
  datatype Hasher = Hasher(leq: KeyOrder, sha: Text -> Text)

  /** A row of `audit_events`, reduced to what the verifier reads. The body is whatever the jsonb
      column gives back, so it may even hold a number too large to be finite. */
  datatype Row = Row(
    id: Text, org: Text, sequence: nat, key: Option<Text>,
    body: Value, bodyHash: Text, previousHash: Option<Text>, eventHash: Text)

  /** A row of `audit_event_heads`. */
  datatype Head = Head(sequence: nat, hash: Option<Text>)

  function BodyText(h: Hasher, body: Value): Text
    requires Supported(body)
  {
    CanonicalText(h.leq, ToDoc(body))
  }

  function BodyHash(h: Hasher, body: Value): Text
    requires Supported(body)
  {
    h.sha(BodyText(h, body))
  }

  function HashDoc(hash: Option<Text>): Doc {
    if hash.Some? then DString(hash.value) else DNull
  }

  const BODY_HASH: Text := Ascii("canonicalBodyHash")
  const ORG_ID: Text := Ascii("orgId")
  const PREVIOUS_HASH: Text := Ascii("previousHash")
  const SEQUENCE: Text := Ascii("sequence")

  /** What an event hash is taken of. */
  function LinkDoc(bodyHash: Text, org: Text, previous: Option<Text>, sequence: nat): Doc {
    DObject([
      Member(BODY_HASH, DString(bodyHash)),
      Member(ORG_ID, DString(org)),
      Member(PREVIOUS_HASH, HashDoc(previous)),
      Member(SEQUENCE, DString(Decimal(sequence)))
    ])
  }

  function LinkText(h: Hasher, bodyHash: Text, org: Text, previous: Option<Text>, sequence: nat): Text {
    CanonicalText(h.leq, LinkDoc(bodyHash, org, previous, sequence))
  }

  function RowLinkText(h: Hasher, row: Row): Text {
    LinkText(h, row.bodyHash, row.org, row.previousHash, row.sequence)
  }

  lemma {:induction false} LinkWellFormed(bodyHash: Text, org: Text, previous: Option<Text>, sequence: nat)
    ensures WellFormed(LinkDoc(bodyHash, org, previous, sequence))
  {
  }

  lemma {:induction false} MemberHeld(ms: seq<Member>, i: nat)
    requires DistinctKeys(ms) && i < |ms|
    ensures ms[i].key in MeaningFields(ms) && MeaningFields(ms)[ms[i].key] == Meaning(ms[i].doc)
  {
    assert Holds(ms, ms[i].key, Meaning(ms[i].doc));
    FieldsHold(ms, ms[i].key, Meaning(ms[i].doc));
  }

  /** The text under an event hash determines all four of its parts. */
  lemma {:induction false} LinkTextDetermines(h: Hasher, a: Row, b: Row)
    requires RowLinkText(h, a) == RowLinkText(h, b)
    ensures a.bodyHash == b.bodyHash && a.org == b.org && a.previousHash == b.previousHash && a.sequence == b.sequence
  {
    var d := LinkDoc(a.bodyHash, a.org, a.previousHash, a.sequence);
    var e := LinkDoc(b.bodyHash, b.org, b.previousHash, b.sequence);
    LinkWellFormed(a.bodyHash, a.org, a.previousHash, a.sequence);
    LinkWellFormed(b.bodyHash, b.org, b.previousHash, b.sequence);
    CanonicalTextDeterminesMeaning(h.leq, d, e);
    forall i | 0 <= i < 4 ensures Meaning(d.members[i].doc) == Meaning(e.members[i].doc) {
      MemberHeld(d.members, i);
      MemberHeld(e.members, i);
    }
    SameLinkParts(d.members, e.members, a, b);
  }

  lemma {:induction false} SameLinkParts(ms: seq<Member>, ns: seq<Member>, a: Row, b: Row)
    requires |ms| == |ns| == 4 && forall i :: 0 <= i < 4 ==> Meaning(ms[i].doc) == Meaning(ns[i].doc)
    requires ms == LinkDoc(a.bodyHash, a.org, a.previousHash, a.sequence).members
    requires ns == LinkDoc(b.bodyHash, b.org, b.previousHash, b.sequence).members
    ensures a.bodyHash == b.bodyHash && a.org == b.org && a.previousHash == b.previousHash && a.sequence == b.sequence
  {
    assert Meaning(ms[0].doc) == JString(a.bodyHash) && Meaning(ns[0].doc) == JString(b.bodyHash);
    assert Meaning(ms[1].doc) == JString(a.org) && Meaning(ns[1].doc) == JString(b.org);
    assert Meaning(ms[2].doc) == Meaning(HashDoc(a.previousHash)) && Meaning(ns[2].doc) == Meaning(HashDoc(b.previousHash));
    assert Meaning(ms[3].doc) == JString(Decimal(a.sequence)) && Meaning(ns[3].doc) == JString(Decimal(b.sequence));
    DecimalInjective(a.sequence, b.sequence);
  }

  /** The text under a body hash determines the body up to the order of its properties. */
  lemma {:induction false} BodyTextDetermines(h: Hasher, a: Value, b: Value)
    requires Supported(a) && WellFormedValue(a) && Supported(b) && WellFormedValue(b)
    requires BodyText(h, a) == BodyText(h, b)
    ensures Meaning(ToDoc(a)) == Meaning(ToDoc(b))
  {
    ToDocWellFormed(a);
    ToDocWellFormed(b);
    CanonicalTextDeterminesMeaning(h.leq, ToDoc(a), ToDoc(b));
  }
}
