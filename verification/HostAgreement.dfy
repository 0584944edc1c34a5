/** The two normalisers agree, and a request is admitted exactly when its host in lower case is listed. */
module HostAgreement {
  import opened Options
  import opened CodeUnits
  import opened HostAllowList

  // ---- IPv6 addresses ----

  predicate AddressUnit(u: CodeUnit) {
    IsDigit(u) || 97 <= u <= 102 || u == COLON
  }

  predicate AddressText(address: Text) {
    address != [] && forall i :: 0 <= i < |address| ==> AddressUnit(address[i])
  }

  function Wrapped(address: Text): Text {
    [OPEN_BRACKET] + address + [CLOSE_BRACKET]
  }

  /** An address as the host serializer of the URL Standard writes it, which is its own canonical form. */
  ghost predicate CanonicalAddress(ip6: Ipv6, address: Text) {
    AddressText(address) && ip6(address) == Some(Wrapped(address))
  }

  ghost predicate WrapsCanonical(ip6: Ipv6, host: Text) {
    |host| >= 2 && host == Wrapped(host[1..|host| - 1]) && CanonicalAddress(ip6, host[1..|host| - 1])
  }

  /** What `isIP` and the URL parser guarantee of IPv6 addresses: none of the units the request check forbids, a
      result that is a canonical address in brackets, and no regard to letter case. */
  ghost predicate Ipv6Sane(ip6: Ipv6) {
    && (forall a: Text :: ip6(a).Some? ==> !HasForbidden(a) && WrapsCanonical(ip6, ip6(a).value))
    && (forall a: Text :: AddressText(Lower(a)) ==> ip6(a) == ip6(Lower(a)))
  }

  predicate Forbidden(u: CodeUnit) {
    u in {44, 47, 64, 92}
  }

  // ---- agreement ----

  lemma {:induction false} ForbiddenHostRefused(host: Text, i: nat)
    requires i < |host| && Forbidden(host[i])
    ensures !ValidHostname(Lower(host))
  {
    LowerShows(host, i);
    assert LowerUnit(host[i]) == [host[i]] && host[i] in LowerUnit(host[i]);
    var k :| 0 <= k < |Lower(host)| && Lower(host)[k] == host[i];
    if ValidHostname(Lower(host)) { ValidUnits(Lower(host), k); }
  }

  lemma {:induction false} ForbiddenRefused(value: Text, host: Text, port: Option<Text>, i: nat)
    requires Parts(value, host, port) && i < |value| && Forbidden(value[i])
    ensures Reference(Lower(host), HandlerPort(port)) == None
  {
    if i < |host| {
      assert value[i] == host[i];
      ForbiddenHostRefused(host, i);
    } else if i > |host| {
      assert value[i] == port.value[i - |host| - 1];
      assert !AllDigits(port.value);
    }
  }

  /** A host without brackets and with at most one colon has parts. */
  lemma {:induction false} PartsOf(value: Text) returns (host: Text, port: Option<Text>)
    requires IndexOf(value, COLON) == LastIndexOf(value, COLON)
    ensures Parts(value, host, port)
  {
    var colon := IndexOf(value, COLON);
    if colon == -1 {
      host, port := value, None;
    } else {
      host, port := value[..colon], Some(value[colon + 1..]);
      assert value == host + [COLON] + port.value;
    }
  }

  predicate InBrackets(value: Text) {
    (value != [] && value[0] == OPEN_BRACKET) || CLOSE_BRACKET in value
  }

  lemma {:induction false} BracketlessAgree(ip6: Ipv6, value: Text)
    requires value != [] && !HasSpace(value) && NoBrackets(value)
    ensures HandlerHost(ip6, value) == ConfigHost(ip6, value)
  {
    if IndexOf(value, COLON) == LastIndexOf(value, COLON) {
      var host, port := PartsOf(value);
      ConfigMeetsReference(ip6, value, host, port);
      if HasForbidden(value) {
        var i :| 0 <= i < |value| && (IsSpace(value[i]) || value[i] in {44, 47, 64, 92});
        ForbiddenRefused(value, host, port, i);
      } else {
        HandlerMeetsReference(ip6, value, host, port);
      }
    }
  }

  /** In the bracketless branch there may still be an opening bracket inside; both then refuse. */
  lemma {:induction false} InnerBracketRefused(ip6: Ipv6, value: Text, i: nat)
    requires i < |value| && value[i] == OPEN_BRACKET && !InBrackets(value)
    ensures HandlerHost(ip6, value) == None && ConfigHost(ip6, value) == None
  {
    if IndexOf(value, COLON) == LastIndexOf(value, COLON) {
      var host, port := PartsOf(value);
      PartsByColon(value, host, port);
      InnerBracketPart(value, host, port, i);
      NamesMeetReference(Lower(host), HandlerPort(port));
      PortsAgree(port);
    }
  }

  lemma {:induction false} InnerBracketPart(value: Text, host: Text, port: Option<Text>, i: nat)
    requires Parts(value, host, port) && i < |value| && value[i] == OPEN_BRACKET
    ensures Reference(Lower(host), HandlerPort(port)) == None
  {
    if i < |host| {
      LowerShows(host, i);
      assert LowerUnit(host[i]) == [host[i]] && host[i] in LowerUnit(host[i]);
      var k :| 0 <= k < |Lower(host)| && Lower(host)[k] == host[i];
      if ValidHostname(Lower(host)) { ValidUnits(Lower(host), k); }
    } else if i > |host| {
      assert value[i] == port.value[i - |host| - 1];
      assert !AllDigits(port.value);
    }
  }

  lemma {:induction false} BracketedAgree(ip6: Ipv6, value: Text)
    requires Ipv6Sane(ip6) && value != [] && !HasSpace(value) && InBrackets(value)
    ensures HandlerHost(ip6, value) == ConfigHost(ip6, value)
  {
  }

  /** On every text at all, the configuration accepts what the request check accepts, with the same result. */
  lemma {:induction false} NormalisersAgree(ip6: Ipv6, value: Text)
    requires Ipv6Sane(ip6)
    ensures HandlerHost(ip6, value) == ConfigHost(ip6, value)
  {
    if value != [] && !HasSpace(value) {
      if InBrackets(value) {
        BracketedAgree(ip6, value);
      } else if i :| 0 <= i < |value| && value[i] == OPEN_BRACKET {
        InnerBracketRefused(ip6, value, i);
      } else {
        BracketlessAgree(ip6, value);
      }
    }
  }

  // ---- canonical hosts ----

  /** A valid hostname and a canonical port. */
  ghost predicate Canonical(text: Text, host: Text, port: Text) {
    ValidHostname(host) && CanonicalPort(port) && text == host + port
  }

  lemma {:induction false} AcceptedIsCanonical(ip6: Ipv6, value: Text) returns (host: Text, port: Text)
    requires ConfigHost(ip6, value).Some? && !InBrackets(value)
    ensures Canonical(ConfigHost(ip6, value).value, host, port)
  {
    var name, number := PartsOf(value);
    PartsByColon(value, name, number);
    PortsAgree(number);
    NamesMeetReference(Lower(name), HandlerPort(number));
    host, port := Lower(name), HandlerPort(number).value;
  }

  lemma {:induction false} CanonicalUnits(text: Text, host: Text, port: Text, i: nat)
    requires Canonical(text, host, port) && i < |text|
    ensures HostUnit(text[i]) || text[i] == COLON
  {
    if i < |host| { ValidUnits(host, i); }
  }

  lemma {:induction false} PortReadsBack(n: nat)
    requires 1 <= n <= 65535
    ensures HandlerPort(Some(Decimal(n))) == Some([COLON] + Decimal(n))
  {
    DecimalReadsBack(n);
  }

  lemma {:induction false} DottedShows(value: Text)
    requires 0x130 in value
    ensures 0x307 in Lower(value)
  {
    var i :| 0 <= i < |value| && value[i] == 0x130;
    LowerShows(value, i);
    assert LowerUnit(value[i])[1] == 0x307;
  }

  lemma {:induction false} NoDottedCapital(value: Text)
    requires forall i :: 0 <= i < |Lower(value)| ==> HostUnit(Lower(value)[i]) || Lower(value)[i] == COLON
    ensures 0x130 !in value
  {
    if 0x130 in value { DottedShows(value); }
  }

  lemma {:induction false} LowerPrefix(value: Text, c: nat)
    requires 0x130 !in value && c <= |value|
    ensures |Lower(value)| == |value| && Lower(value[..c]) == Lower(value)[..c]
  {
    LowerPointwise(value);
    LowerPointwise(value[..c]);
  }

  lemma {:induction false} DigitsAlike(value: Text, c: nat)
    requires 0x130 !in value && |Lower(value)| == |value| && c <= |value| && AllDigits(Lower(value)[c..])
    ensures value[c..] == Lower(value)[c..]
  {
    LowerPointwise(value);
    forall i | c <= i < |value| ensures value[i] == Lower(value)[i] {
      assert Lower(value)[c..][i - c] == Lower(value)[i];
    }
  }

  /** A request host whose lower case is canonical splits where the canonical text does. */
  lemma {:induction false} SplitsAlike(value: Text, host: Text, n: nat)
    requires 0x130 !in value && 1 <= n && Lower(value) == host + [COLON] + Decimal(n) && ValidHostname(host)
    ensures |host| < |value| && Parts(value, value[..|host|], Some(Decimal(n))) && Lower(value[..|host|]) == host
  {
    var c := |host|;
    LowerPrefix(value, 0);
    LowerPrefix(value, c);
    assert Lower(value)[c + 1..] == Decimal(n);
    DigitsAlike(value, c + 1);
    ColonAlike(value, c);
    HostSpelling(value[..c], host);
    assert value == value[..c] + [COLON] + value[c + 1..];
  }

  lemma {:induction false} ColonAlike(value: Text, c: nat)
    requires 0x130 !in value && |Lower(value)| == |value| && c < |value| && Lower(value)[c] == COLON
    ensures value[c] == COLON
  {
    LowerPointwise(value);
  }

  lemma {:induction false} HostSpelling(value: Text, host: Text)
    requires 0x130 !in value && Lower(value) == host && ValidHostname(host)
    ensures forall i :: 0 <= i < |value| ==> value[i] != COLON
  {
    LowerPointwise(value);
    forall i | 0 <= i < |value| ensures value[i] != COLON {
      ValidUnits(host, i);
    }
  }

  /** The request check accepts any spelling of a canonical host in which only letters change case. */
  lemma {:induction false} HandlerAccepts(ip6: Ipv6, value: Text, host: Text, port: Text)
    requires Canonical(Lower(value), host, port)
    ensures HandlerHost(ip6, value) == Some(Lower(value))
  {
    forall i | 0 <= i < |Lower(value)| ensures HostUnit(Lower(value)[i]) || Lower(value)[i] == COLON {
      CanonicalUnits(Lower(value), host, port, i);
    }
    NoDottedCapital(value);
    LowerPointwise(value);
    CleanSpelling(value);
    if port == [] {
      assert host + port == host;
      HostSpelling(value, host);
      HandlerMeetsReference(ip6, value, value, None);
    } else {
      var n: nat :| 1 <= n <= 65535 && port == [COLON] + Decimal(n);
      assert host + port == host + [COLON] + Decimal(n);
      SplitsAlike(value, host, n);
      PortReadsBack(n);
      HandlerMeetsReference(ip6, value, value[..|host|], Some(Decimal(n)));
    }
  }

  lemma {:induction false} CleanSpelling(value: Text)
    requires 0x130 !in value && |Lower(value)| == |value|
    requires forall i :: 0 <= i < |value| ==> LowerUnit(value[i]) == [Lower(value)[i]]
    requires forall i :: 0 <= i < |value| ==> HostUnit(Lower(value)[i]) || Lower(value)[i] == COLON
    ensures !HasForbidden(value) && NoBrackets(value)
  {
  }

  // ---- canonical addresses ----

  ghost predicate CanonicalInBrackets(ip6: Ipv6, text: Text, address: Text, port: Text) {
    CanonicalAddress(ip6, address) && CanonicalPort(port) && text == Wrapped(address) + port
  }

  lemma {:induction false} AcceptedAddressIsCanonical(ip6: Ipv6, value: Text) returns (address: Text, port: Text)
    requires Ipv6Sane(ip6) && ConfigHost(ip6, value).Some? && InBrackets(value)
    ensures CanonicalInBrackets(ip6, ConfigHost(ip6, value).value, address, port)
  {
    var parts := Bracketed(value).value;
    var host := ip6(parts.0).value;
    address, port := host[1..|host| - 1], ConfigPort(parts.1).value;
    assert WrapsCanonical(ip6, host);
  }

  /** Brackets around a text without brackets, then a port or nothing. */
  lemma {:induction false} BracketedReads(address: Text, port: Text)
    requires address != [] && CLOSE_BRACKET !in address && CanonicalPort(port)
    ensures Bracketed(Wrapped(address) + port) == Some((address, if port == [] then None else Some(port[1..])))
  {
    var value, close := Wrapped(address) + port, |address| + 1;
    assert value[close] == CLOSE_BRACKET && value[1..close] == address;
    assert forall i :: 1 <= i < close ==> value[i] == address[i - 1];
    assert IndexOf(value, CLOSE_BRACKET) == close;
    if port != [] { assert value[close + 1] == port[0] && value[close + 2..] == port[1..]; }
  }

  lemma {:induction false} CanonicalPortReads(port: Text)
    requires CanonicalPort(port)
    ensures HandlerPort(if port == [] then None else Some(port[1..])) == Some(port)
  {
    if port != [] {
      var n: nat :| 1 <= n <= 65535 && port == [COLON] + Decimal(n);
      PortReadsBack(n);
    }
  }

  predicate HostTextUnit(u: CodeUnit) {
    AddressUnit(u) || u == OPEN_BRACKET || u == CLOSE_BRACKET
  }

  lemma {:induction false} AddressUnits(ip6: Ipv6, text: Text, address: Text, port: Text)
    requires CanonicalInBrackets(ip6, text, address, port)
    ensures forall i :: 0 <= i < |text| ==> HostTextUnit(text[i])
  {
  }

  lemma {:induction false} CleanAddressSpelling(value: Text)
    requires forall i :: 0 <= i < |Lower(value)| ==> HostTextUnit(Lower(value)[i])
    ensures 0x130 !in value && !HasForbidden(value)
  {
    if 0x130 in value { DottedShows(value); }
    LowerPointwise(value);
  }

  /** Lower case leaves brackets, colons and digits where they are. */
  lemma {:induction false} AddressSpelling(value: Text, address: Text, port: Text)
    requires 0x130 !in value && Lower(value) == Wrapped(address) + port && CanonicalPort(port) && AddressText(address)
    ensures |value| == |address| + 2 + |port| && value == Wrapped(value[1..|address| + 1]) + port
    ensures Lower(value[1..|address| + 1]) == address && CLOSE_BRACKET !in value[1..|address| + 1]
  {
    var n := |address| + 1;
    LowerPointwise(value);
    LowerPointwise(value[1..n]);
    forall i | 0 <= i < |value| ensures i == 0 || i >= n ==> value[i] == Lower(value)[i] {
      assert i > n ==> Lower(value)[i] == port[i - n - 1];
    }
    forall i | 1 <= i < n ensures value[i] != CLOSE_BRACKET && Lower(value)[i] == address[i - 1] {
      assert LowerUnit(value[i]) == [address[i - 1]];
    }
  }

  /** The request check accepts any spelling of a canonical address in which only letters change case. */
  lemma {:induction false} HandlerAcceptsAddress(ip6: Ipv6, value: Text, address: Text, port: Text)
    requires Ipv6Sane(ip6) && CanonicalInBrackets(ip6, Lower(value), address, port)
    ensures HandlerHost(ip6, value) == Some(Lower(value))
  {
    AddressUnits(ip6, Lower(value), address, port);
    CleanAddressSpelling(value);
    AddressSpelling(value, address, port);
    var written := value[1..|address| + 1];
    BracketedReads(written, port);
    CanonicalPortReads(port);
    assert ip6(written) == ip6(Lower(written));
  }

  lemma {:induction false} LowerAddressFixed(t: Text)
    requires forall i :: 0 <= i < |t| ==> HostTextUnit(t[i])
    ensures Lower(t) == t
  {
    if t != [] {
      LowerAddressFixed(t[1..]);
      assert t == [t[0]] + t[1..];
    }
  }

  /** What the configuration makes of a token is accepted in any spelling, by the request check. */
  lemma {:induction false} HandlerAcceptsNormalized(ip6: Ipv6, token: Text, value: Text)
    requires Ipv6Sane(ip6) && ConfigHost(ip6, token) == Some(Lower(value))
    ensures HandlerHost(ip6, value) == Some(Lower(value))
  {
    if InBrackets(token) {
      var address, port := AcceptedAddressIsCanonical(ip6, token);
      HandlerAcceptsAddress(ip6, value, address, port);
    } else {
      var host, port := AcceptedIsCanonical(ip6, token);
      HandlerAccepts(ip6, value, host, port);
    }
  }

  lemma {:induction false} NormalizedIsLower(ip6: Ipv6, value: Text)
    requires Ipv6Sane(ip6) && ConfigHost(ip6, value).Some?
    ensures Lower(ConfigHost(ip6, value).value) == ConfigHost(ip6, value).value
  {
    var normalized := ConfigHost(ip6, value).value;
    if InBrackets(value) {
      var address, port := AcceptedAddressIsCanonical(ip6, value);
      AddressUnits(ip6, normalized, address, port);
      LowerAddressFixed(normalized);
    } else {
      var host, port := AcceptedIsCanonical(ip6, value);
      forall i | 0 <= i < |normalized| ensures HostUnit(normalized[i]) || normalized[i] == COLON {
        CanonicalUnits(normalized, host, port, i);
      }
      LowerFixed(normalized);
    }
  }

  /** Normalising a second time changes nothing, in either implementation. */
  lemma {:induction false} NormalisersIdempotent(ip6: Ipv6, value: Text)
    requires Ipv6Sane(ip6) && ConfigHost(ip6, value).Some?
    ensures var normalized := ConfigHost(ip6, value).value;
      ConfigHost(ip6, normalized) == Some(normalized) && HandlerHost(ip6, normalized) == Some(normalized)
  {
    var normalized := ConfigHost(ip6, value).value;
    NormalizedIsLower(ip6, value);
    HandlerAcceptsNormalized(ip6, value, normalized);
    NormalisersAgree(ip6, normalized);
  }

  // ---- admission ----

  lemma {:induction false} WithoutRepeatsSame(hosts: seq<Text>, host: Text)
    ensures host in WithoutRepeats(hosts) <==> host in hosts
    ensures forall i, j :: 0 <= i < j < |WithoutRepeats(hosts)| ==> WithoutRepeats(hosts)[i] != WithoutRepeats(hosts)[j]
  {
    if hosts != [] {
      var n := |hosts| - 1;
      WithoutRepeatsSame(hosts[..n], host);
      WithoutRepeatsSame(hosts[..n], hosts[n]);
      assert hosts == hosts[..n] + [hosts[n]];
    }
  }

  lemma {:induction false} ListedToken(ip6: Ipv6, tokens: seq<Text>, host: Text) returns (token: Text)
    requires NormalizeAll(ip6, tokens).Some? && host in NormalizeAll(ip6, tokens).value
    ensures ConfigHost(ip6, token) == Some(host)
  {
    var first := TrimEnd(TrimStart(tokens[0]));
    if ConfigHost(ip6, first) == Some(host) {
      token := first;
    } else {
      token := ListedToken(ip6, tokens[1..], host);
    }
  }

  /** A request with a single Host header is admitted exactly when the header in lower case stands in the parsed
      allow-list. */
  lemma {:induction false} AdmittedExactly(ip6: Ipv6, setting: Text, host: Text)
    requires Ipv6Sane(ip6) && ParseAllowedHosts(ip6, setting).Some?
    ensures HasAllowedHost(ip6, [host], ParseAllowedHosts(ip6, setting).value) <==> Lower(host) in ParseAllowedHosts(ip6, setting).value
  {
    var allowed := ParseAllowedHosts(ip6, setting).value;
    if Lower(host) in allowed {
      WithoutRepeatsSame(NormalizeAll(ip6, Split(setting, COMMA)).value, Lower(host));
      var token := ListedToken(ip6, Split(setting, COMMA), Lower(host));
      HandlerAcceptsNormalized(ip6, token, host);
    }
  }
}
