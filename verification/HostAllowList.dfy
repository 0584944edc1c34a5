/** The two host normalisers of the MCP server, one for the configured allow-list and one for requests. */
module HostAllowList {
  import opened Options
  import opened CodeUnits

  const DOT: CodeUnit := 46
  const DASH: CodeUnit := 45

  /** The canonical bracketed host of an IPv6 address, None when the text is not one. */
  type Ipv6 = Text -> Option<Text>

  // ---- text ----

  /** The Kelvin sign and the dotted capital I are the only units outside ASCII whose lower case holds an
      ASCII letter; other such units are left as they are. */
  function LowerUnit(u: CodeUnit): Text {
    if 65 <= u <= 90 then [u + 32] else if u == 0x212A then [107] else if u == 0x130 then [105, 0x307] else [u]
  }

  function Lower(t: Text): Text {
    if t == [] then [] else LowerUnit(t[0]) + Lower(t[1..])
  }

  function IndexOf(t: Text, u: CodeUnit): (r: int)
    ensures -1 <= r < |t| && (r >= 0 ==> t[r] == u)
    ensures forall i :: 0 <= i < (if r == -1 then |t| else r) ==> t[i] != u
  {
    if t == [] then -1
    else if t[0] == u then 0
    else
      var rest := IndexOf(t[1..], u);
      if rest == -1 then -1 else rest + 1
  }

  function LastIndexOf(t: Text, u: CodeUnit): (r: int)
    ensures -1 <= r < |t| && (r >= 0 ==> t[r] == u)
    ensures forall i :: r < i < |t| ==> t[i] != u
  {
    if t == [] then -1
    else if t[|t| - 1] == u then |t| - 1
    else LastIndexOf(t[..|t| - 1], u)
  }

  function Split(t: Text, separator: CodeUnit): (parts: seq<Text>)
    ensures |parts| > 0
  {
    if t == [] then [[]]
    else
      var rest := Split(t[1..], separator);
      if t[0] == separator then [[]] + rest else [[t[0]] + rest[0]] + rest[1..]
  }

  function TrimStart(t: Text): Text {
    if t != [] && IsSpace(t[0]) then TrimStart(t[1..]) else t
  }

  function TrimEnd(t: Text): Text {
    if t != [] && IsSpace(t[|t| - 1]) then TrimEnd(t[..|t| - 1]) else t
  }

  // ---- hostnames ----

  /** `^(?:[0-9]+|0x[0-9a-f]+)$`, in either case */
  predicate NumericLabel(part: Text) {
    || (|part| > 0 && AllDigits(part))
    || (|part| > 2 && part[0] == 48 && part[1] in {120, 88} && forall i :: 2 <= i < |part| ==> IsHex(part[i]))
  }

  predicate LabelUnit(u: CodeUnit) {
    IsDigit(u) || 97 <= u <= 122
  }

  /** At most 63 units, letters, digits and inner dashes (section 2.3.4 of RFC 1035). */
  predicate ValidLabel(part: Text) {
    && 0 < |part| <= 63 && LabelUnit(part[0]) && LabelUnit(part[|part| - 1])
    && forall i :: 0 <= i < |part| ==> LabelUnit(part[i]) || part[i] == DASH
  }

  predicate IsOctet(part: Text) {
    0 < |part| <= 3 && AllDigits(part) && (|part| > 1 ==> part[0] != 48) && DecimalValue(part) <= 255
  }

  /** `isIP(host) === 4` */
  predicate IsIpv4(host: Text) {
    var labels := Split(host, DOT);
    |labels| == 4 && forall i :: 0 <= i < 4 ==> IsOctet(labels[i])
  }

  // ---- the request normaliser ----

  function HandlerPort(value: Option<Text>): Option<Text> {
    if value.None? then Some([])
    else if value.value == [] || !AllDigits(value.value) then None
    else
      var port := DecimalValue(value.value);
      if port <= 0 || port > 65535 then None else Some([COLON] + Decimal(port))
  }

  predicate HasForbidden(value: Text) {
    exists i :: 0 <= i < |value| && (IsSpace(value[i]) || value[i] in {44, 47, 64, 92})
  }

  /** `^\[([^\]]+)\](?::(.*))?$`: the address between the brackets and the port behind them. */
  function Bracketed(value: Text): Option<(Text, Option<Text>)> {
    var close := IndexOf(value, CLOSE_BRACKET);
    if value == [] || value[0] != OPEN_BRACKET || close <= 1 then None
    else if close == |value| - 1 then Some((value[1..close], None))
    else if value[close + 1] == COLON then Some((value[1..close], Some(value[close + 2..])))
    else None
  }

  function HandlerHost(ip6: Ipv6, value: Text): Option<Text> {
    if value == [] || HasForbidden(value) then None
    else if value[0] == OPEN_BRACKET || CLOSE_BRACKET in value then
      var parts := Bracketed(value);
      if parts.None? then None
      else
        var port := HandlerPort(parts.value.1);
        if ip6(parts.value.0).None? || port.None? then None else Some(ip6(parts.value.0).value + port.value)
    else
      var colon := IndexOf(value, COLON);
      if colon != LastIndexOf(value, COLON) then None
      else
        HandlerName(Lower(if colon == -1 then value else value[..colon]),
                    HandlerPort(if colon == -1 then None else Some(value[colon + 1..])))
  }

  function HandlerName(hostname: Text, port: Option<Text>): Option<Text> {
    if hostname == [] || port.None? then None
    else if IsIpv4(hostname) then Some(hostname + port.value)
    else if |hostname| > 253 then None
    else
      var labels := Split(hostname, DOT);
      if forall i :: 0 <= i < |labels| ==> NumericLabel(labels[i]) then None
      else if exists i :: 0 <= i < |labels| && !ValidLabel(labels[i]) then None
      else Some(hostname + port.value)
  }

  /** One Host header, whose normal form is the header itself in lower case, and listed. */
  predicate HasAllowedHost(ip6: Ipv6, headers: seq<Text>, allowed: seq<Text>) {
    |headers| == 1 &&
    var normalized := HandlerHost(ip6, headers[0]);
    normalized.Some? && normalized.value == Lower(headers[0]) && normalized.value in allowed
  }

  // ---- the configuration normaliser; None stands for its exception ----

  function ConfigPort(value: Option<Text>): Option<Text> {
    if value.None? then Some([])
    else if |value.value| == 0 || !AllDigits(value.value) then None
    else
      var port := DecimalValue(value.value);
      if port == 0 || port > 65535 then None else Some([COLON] + Decimal(port))
  }

  predicate HasSpace(token: Text) {
    exists i :: 0 <= i < |token| && IsSpace(token[i])
  }

  function ConfigHost(ip6: Ipv6, token: Text): Option<Text> {
    if HasSpace(token) then None
    else if (token != [] && token[0] == OPEN_BRACKET) || CLOSE_BRACKET in token then
      var parts := Bracketed(token);
      if parts.None? || ip6(parts.value.0).None? then None
      else
        var port := ConfigPort(parts.value.1);
        if port.None? then None else Some(ip6(parts.value.0).value + port.value)
    else
      var colon := IndexOf(token, COLON);
      if colon != LastIndexOf(token, COLON) then None
      else
        ConfigName(Lower(if colon == -1 then token else token[..colon]),
                   ConfigPort(if colon == -1 then None else Some(token[colon + 1..])))
  }

  function ConfigName(host: Text, port: Option<Text>): Option<Text> {
    if port.None? || host == [] then None
    else if IsIpv4(host) then Some(host + port.value)
    else
      var labels := Split(host, DOT);
      var legacyNumericHost := forall i :: 0 <= i < |labels| ==> NumericLabel(labels[i]);
      if legacyNumericHost || |host| > 253 then None
      else if exists i :: 0 <= i < |labels| && !ValidLabel(labels[i]) then None
      else Some(host + port.value)
  }

  function NormalizeAll(ip6: Ipv6, tokens: seq<Text>): Option<seq<Text>> {
    if tokens == [] then Some([])
    else
      var first, rest := ConfigHost(ip6, TrimEnd(TrimStart(tokens[0]))), NormalizeAll(ip6, tokens[1..]);
      if TrimEnd(TrimStart(tokens[0])) == [] || first.None? || rest.None? then None else Some([first.value] + rest.value)
  }

  function WithoutRepeats(hosts: seq<Text>): seq<Text> {
    if hosts == [] then []
    else
      var before, last := WithoutRepeats(hosts[..|hosts| - 1]), hosts[|hosts| - 1];
      if last in before then before else before + [last]
  }

  /** The whole setting, or None when any token makes start-up fail. */
  function ParseAllowedHosts(ip6: Ipv6, value: Text): Option<seq<Text>> {
    var hosts := NormalizeAll(ip6, Split(value, COMMA));
    if hosts.None? then None else Some(WithoutRepeats(hosts.value))
  }

  // ---- what an accepted hostname looks like ----

  predicate ValidHostname(host: Text) {
    host != [] && (IsIpv4(host) || (|host| <= 253 && ValidLabels(Split(host, DOT))))
  }

  predicate ValidLabels(labels: seq<Text>) {
    && (exists i :: 0 <= i < |labels| && !NumericLabel(labels[i]))
    && (forall i :: 0 <= i < |labels| ==> ValidLabel(labels[i]))
  }

  predicate HostUnit(u: CodeUnit) {
    LabelUnit(u) || u == DASH || u == DOT
  }

  lemma {:induction false} SplitCovers(t: Text, separator: CodeUnit, i: nat) returns (k: nat)
    requires i < |t| && t[i] != separator
    ensures k < |Split(t, separator)| && t[i] in Split(t, separator)[k]
  {
    var rest := Split(t[1..], separator);
    if i == 0 {
      assert Split(t, separator)[0] == [t[0]] + rest[0];
      k := 0;
    } else {
      var j := SplitCovers(t[1..], separator, i - 1);
      if t[0] == separator {
        assert Split(t, separator)[j + 1] == rest[j];
        k := j + 1;
      } else if j == 0 {
        assert Split(t, separator)[0] == [t[0]] + rest[0];
        k := 0;
      } else {
        assert Split(t, separator)[j] == rest[j];
        k := j;
      }
    }
  }

  /** Letters in lower case, digits, dashes and dots only. */
  lemma {:induction false} ValidUnits(host: Text, i: nat)
    requires ValidHostname(host) && i < |host|
    ensures HostUnit(host[i])
  {
    if host[i] != DOT {
      var k := SplitCovers(host, DOT, i);
      var part := Split(host, DOT)[k];
      var j :| 0 <= j < |part| && part[j] == host[i];
    }
  }

  // ---- lower case ----

  lemma {:induction false} LowerShows(t: Text, i: nat)
    requires i < |t|
    ensures forall u :: u in LowerUnit(t[i]) ==> u in Lower(t)
  {
    if i > 0 { LowerShows(t[1..], i - 1); }
  }

  /** Text without the dotted capital I is lowered unit by unit. */
  lemma {:induction false} LowerPointwise(t: Text)
    requires 0x130 !in t
    ensures |Lower(t)| == |t| && forall i :: 0 <= i < |t| ==> LowerUnit(t[i]) == [Lower(t)[i]]
  {
    if t != [] { LowerPointwise(t[1..]); }
  }

  /** Text in host units is its own lower case. */
  lemma {:induction false} LowerFixed(t: Text)
    requires forall i :: 0 <= i < |t| ==> HostUnit(t[i]) || t[i] == COLON
    ensures Lower(t) == t
  {
    if t != [] {
      LowerFixed(t[1..]);
      assert t == [t[0]] + t[1..];
    }
  }

  // ---- hosts without brackets ----

  /** The canonical form of a port number, or nothing for no port. */
  predicate CanonicalPort(port: Text) {
    port == [] || exists n: nat :: 1 <= n <= 65535 && port == [COLON] + Decimal(n)
  }

  predicate NoBrackets(t: Text) {
    forall i :: 0 <= i < |t| ==> t[i] != OPEN_BRACKET && t[i] != CLOSE_BRACKET
  }

  /** `value` is a host and a port text, with one colon between them if there is a port. */
  ghost predicate Parts(value: Text, host: Text, port: Option<Text>) {
    && (forall i :: 0 <= i < |host| ==> host[i] != COLON)
    && (port.Some? ==> forall i :: 0 <= i < |port.value| ==> port.value[i] != COLON)
    && value == if port.None? then host else host + [COLON] + port.value
  }

  lemma {:induction false} PartsByColon(value: Text, host: Text, port: Option<Text>)
    requires Parts(value, host, port)
    ensures IndexOf(value, COLON) == LastIndexOf(value, COLON) == if port.None? then -1 else |host|
    ensures port.Some? ==> value[..|host|] == host && value[|host| + 1..] == port.value
  {
    if port.Some? {
      assert value[|host|] == COLON;
      assert forall i :: 0 <= i < |value| && i != |host| ==> value[i] != COLON;
    }
  }

  /** The reference: a valid hostname or IPv4 address in lower case, then the port in canonical decimal. */
  function Reference(hostname: Text, port: Option<Text>): Option<Text> {
    if ValidHostname(hostname) && port.Some? then Some(hostname + port.value) else None
  }

  lemma {:induction false} PortsAgree(port: Option<Text>)
    ensures HandlerPort(port) == ConfigPort(port)
  {
  }

  lemma {:induction false} NamesMeetReference(hostname: Text, port: Option<Text>)
    ensures HandlerName(hostname, port) == ConfigName(hostname, port) == Reference(hostname, port)
  {
  }

  lemma {:induction false} ConfigMeetsReference(ip6: Ipv6, value: Text, host: Text, port: Option<Text>)
    requires NoBrackets(value) && !HasSpace(value) && Parts(value, host, port)
    ensures ConfigHost(ip6, value) == Reference(Lower(host), HandlerPort(port))
  {
    PartsByColon(value, host, port);
    PortsAgree(port);
    NamesMeetReference(Lower(host), HandlerPort(port));
  }

  lemma {:induction false} HandlerMeetsReference(ip6: Ipv6, value: Text, host: Text, port: Option<Text>)
    requires value != [] && NoBrackets(value) && !HasForbidden(value) && Parts(value, host, port)
    ensures HandlerHost(ip6, value) == Reference(Lower(host), HandlerPort(port))
  {
    PartsByColon(value, host, port);
    NamesMeetReference(Lower(host), HandlerPort(port));
  }
}
