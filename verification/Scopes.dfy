/** Domain scopes: the multi-port display form a user writes, the canonical
    one-port form stored in the domains table, and the generator's parser for it
    (internal/command/handlers/domain.go, internal/nginx/generator.go). */
module Scopes {
  import opened Text
  import opened Commands

  datatype DomainScope = DomainScope(proto: string, host: string, ports: seq<int>)

  predicate IsProto(s: string) {
    s == "http" || s == "https"
  }

  predicate HostChar(c: char) {
    'a' <= c <= 'z' || 'A' <= c <= 'Z' || '0' <= c <= '9' || c == '-' || c == '.'
  }

  predicate IsHost(s: string) {
    s != "" && forall i | 0 <= i < |s| :: HostChar(s[i])
  }

  predicate PortListChar(c: char) {
    IsDigit(c) || c == ','
  }

  /** Length of the longest prefix of host characters. */
  function HostLen(s: string): (n: nat)
    ensures n <= |s|
    ensures forall i | 0 <= i < n :: HostChar(s[i])
    ensures n < |s| ==> !HostChar(s[n])
  {
    if s == "" || !HostChar(s[0]) then 0 else HostLen(s[1..]) + 1
  }

  /** The submatches of the scope expression; ports is "" when the port group is absent. */
  datatype Shape = Shape(proto: string, host: string, ports: string)

  function SplitProto(s: string): Option<(string, string)> {
    if HasPrefix(s, "https://") then Some(("https", s[8..]))
    else if HasPrefix(s, "http://") then Some(("http", s[7..]))
    else None
  }

  /** scopeRE: ^(https?)://([a-zA-Z0-9\-\.]+|-)(?::([\d,]+))?$ */
  function MatchScope(s: string): Option<Shape> {
    match SplitProto(s)
    case None => None
    case Some((proto, rest)) =>
      var n := HostLen(rest);
      if n == 0 then None
      else if n == |rest| then Some(Shape(proto, rest, ""))
      else if rest[n] == ':' && n + 1 < |rest| && forall i | n < i < |rest| :: PortListChar(rest[i])
      then Some(Shape(proto, rest[..n], rest[n + 1..]))
      else None
  }

  predicate PortOk(p: int) {
    1 <= p <= 65535
  }

  /** The ports of a comma-separated list, in the order written; None when one is
      not a number, is out of range or repeats an earlier one. */
  function PortList(parts: seq<string>): (r: Option<seq<int>>)
    ensures r.Some? ==> |r.value| == |parts|
    ensures r.Some? ==> forall i | 0 <= i < |r.value| :: PortOk(r.value[i])
    ensures r.Some? ==> forall i, j | 0 <= i < j < |r.value| :: r.value[i] != r.value[j]
  {
    if parts == [] then Some([])
    else
      match PortList(parts[..|parts| - 1])
      case None => None
      case Some(ps) =>
        match ParseInt(parts[|parts| - 1])
        case None => None
        case Some(p) => if !PortOk(p) || p in ps then None else Some(ps + [p])
  }

  function DomainScopeOf(s: string): (r: Result<DomainScope>) {
    match MatchScope(s)
    case None => Err(BadFormat)
    case Some(m) =>
      if m.ports == "" then Err(BadFormat)
      else
        match PortList(Split(m.ports, ','))
        case None => Err(BadFormat)
        case Some(ports) =>
          if m.host != "-" && !IsHost(m.host) then Err(BadFormat)
          else Ok(DomainScope(m.proto, m.host, ports))
  }

  predicate ScopeOk(sc: DomainScope) {
    && IsProto(sc.proto)
    && IsHost(sc.host)
    && sc.ports != []
    && (forall i | 0 <= i < |sc.ports| :: PortOk(sc.ports[i]))
    && (forall i, j | 0 <= i < j < |sc.ports| :: sc.ports[i] != sc.ports[j])
  }

  lemma {:induction false} HostNoSpace(s: string)
    requires forall i | 0 <= i < |s| :: HostChar(s[i])
    ensures NoSpace(s) && ':' !in s && '/' !in s
  {
  }

  lemma {:induction false} PortsNoSpace(s: string)
    requires forall i | 0 <= i < |s| :: PortListChar(s[i])
    ensures NoSpace(s) && ':' !in s
  {
  }

  /** What the scope expression matches is made of these pieces. */
  lemma {:induction false} MatchParts(s: string)
    requires MatchScope(s).Some?
    ensures var m := MatchScope(s).value;
      && IsProto(m.proto) && IsHost(m.host)
      && (forall i | 0 <= i < |m.ports| :: PortListChar(m.ports[i]))
      && s == m.proto + "://" + m.host + (if m.ports == "" then "" else ":" + m.ports)
  {
    hide HostLen, SplitProto, IsProto;
    ProtoParts(s);
    var proto, rest := SplitProto(s).value.0, SplitProto(s).value.1;
    var n := HostLen(rest);
    if n == |rest| {
      assert rest[..n] == rest;
      PartsJoined(proto, rest, rest, "");
    } else {
      assert rest == rest[..n] + (":" + rest[n + 1..]);
      PartsJoined(proto, rest, rest[..n], ":" + rest[n + 1..]);
    }
  }

  lemma {:induction false} ProtoParts(s: string)
    requires SplitProto(s).Some?
    ensures IsProto(SplitProto(s).value.0)
    ensures s == SplitProto(s).value.0 + "://" + SplitProto(s).value.1
  {
    if HasPrefix(s, "https://") {
      assert s == s[..8] + s[8..] && "https://" == "https" + "://";
    } else {
      assert s == s[..7] + s[7..] && "http://" == "http" + "://";
    }
  }

  lemma {:induction false} PartsJoined(proto: string, rest: string, host: string, tail: string)
    requires rest == host + tail
    ensures proto + "://" + rest == proto + "://" + host + tail
  {
  }

  lemma {:induction false} TokenOfParts(proto: string, host: string, tail: string)
    requires IsProto(proto) && NoSpace(host) && NoSpace(tail)
    ensures Token(proto + "://" + host + tail)
  {
    NoSpaceConcat(proto, "://");
    NoSpaceConcat(proto + "://", host);
    NoSpaceConcat(proto + "://" + host, tail);
  }

  lemma {:induction false} TailNoSpace(ports: string)
    requires forall i | 0 <= i < |ports| :: PortListChar(ports[i])
    ensures NoSpace(if ports == "" then "" else ":" + ports)
  {
    PortsNoSpace(ports);
    NoSpaceConcat(":", ports);
  }

  /** An accepted scope is one token of the command language and not the placeholder. */
  lemma {:induction false} ScopeIsToken(s: string)
    requires MatchScope(s).Some?
    ensures Token(s) && !IsPlaceholder(s)
  {
    MatchParts(s);
    var m := MatchScope(s).value;
    HostNoSpace(m.host);
    TailNoSpace(m.ports);
    TokenOfParts(m.proto, m.host, if m.ports == "" then "" else ":" + m.ports);
  }

  /** An accepted scope has a known protocol, a host of host characters and
      distinct ports in range. */
  lemma {:induction false} ScopeParsed(s: string)
    requires DomainScopeOf(s).Ok?
    ensures ScopeOk(DomainScopeOf(s).value)
    ensures Token(s) && !IsPlaceholder(s)
  {
    MatchParts(s);
    ScopeIsToken(s);
  }

  lemma {:induction false} PortListNext(parts: seq<string>, i: nat)
    requires i < |parts| && PortList(parts[..i]).Some?
    ensures PortList(parts[..i + 1]) ==
      var ports, p := PortList(parts[..i]).value, ParseInt(parts[i]);
      if p.None? || !PortOk(p.value) || p.value in ports then None else Some(ports + [p.value])
  {
    assert parts[..i + 1][..i] == parts[..i];
  }

  method ParsePorts(parts: seq<string>) returns (r: Option<seq<int>>)
    ensures r == PortList(parts)
  {
    hide ParseInt;
    var ports: seq<int> := [];
    var seen: map<int, bool> := map[];
    for i := 0 to |parts|
      invariant PortList(parts[..i]) == Some(ports)
      invariant forall p :: p in seen <==> p in ports
    {
      PortListNext(parts, i);
      var p := ParseInt(parts[i]);
      if p.None? || !PortOk(p.value) || p.value in seen {
        PortListPrefix(parts, i + 1);
        return None;
      }
      seen := seen[p.value := true];
      ports := ports + [p.value];
    }
    assert parts[..|parts|] == parts;
    return Some(ports);
  }

  /** parseDomainScope */
  method ParseDomainScope(s: string) returns (r: Result<DomainScope>)
    ensures r == DomainScopeOf(s)
  {
    var m := MatchScope(s);
    if m.None? || m.value.ports == "" {
      return Err(BadFormat);
    }
    var ports := ParsePorts(Split(m.value.ports, ','));
    if ports.None? {
      return Err(BadFormat);
    }
    if m.value.host != "-" && !IsHost(m.value.host) {
      return Err(BadFormat);
    }
    return Ok(DomainScope(m.value.proto, m.value.host, ports.value));
  }

  lemma {:induction false} PortListPrefix(parts: seq<string>, i: nat)
    requires i <= |parts| && PortList(parts[..i]).None?
    ensures PortList(parts).None?
    decreases |parts| - i
  {
    if i == |parts| {
      assert parts[..i] == parts;
    } else {
      assert parts[..i + 1][..i] == parts[..i];
      PortListPrefix(parts, i + 1);
    }
  }

  // ---- canonical scopes ----

  /** canonicalScope */
  function Canonical(proto: string, host: string, port: int): string {
    proto + "://" + host + ":" + Itoa(port)
  }

  datatype ServerEntry = ServerEntry(scope: string, proto: string, host: string, port: int, origin: string)

  /** strings.Index(s, "://") */
  function SchemeIndex(s: string): (i: int)
    ensures i == -1 || 0 <= i <= |s| - 3
  {
    if |s| < 3 then -1
    else if s[..3] == "://" then 0
    else
      var j := SchemeIndex(s[1..]);
      if j == -1 then -1 else j + 1
  }

  function SplitScheme(scope: string): Option<(string, string)> {
    var idx := SchemeIndex(scope);
    if idx == -1 then None else Some((scope[..idx], scope[idx + 3..]))
  }

  function SplitPort(rest: string): Option<(string, int)> {
    var colon := LastIndexOf(rest, ':');
    if colon == -1 then None
    else
      match ParseInt(rest[colon + 1..])
      case None => None
      case Some(port) => Some((rest[..colon], port))
  }

  /** parseServerScope */
  function ParseServerScope(scope: string, origin: string): Option<ServerEntry> {
    match SplitScheme(scope)
    case None => None
    case Some((proto, rest)) =>
      match SplitPort(rest)
      case None => None
      case Some((host, port)) => Some(ServerEntry(scope, proto, host, port, origin))
  }

  lemma {:induction false} SchemeIndexOf(proto: string, rest: string)
    requires ':' !in proto
    ensures SchemeIndex(proto + "://" + rest) == |proto|
  {
    if proto == "" {
      assert ("" + "://" + rest)[..3] == "://";
    } else {
      SchemeIndexOf(proto[1..], rest);
      var s := proto + "://" + rest;
      assert s[1..] == proto[1..] + "://" + rest;
      assert s[0] == proto[0];
      assert s[..3][0] == proto[0];
    }
  }

  lemma {:induction false} LastColon(host: string, ps: string)
    requires ':' !in ps
    ensures var rest := host + ":" + ps;
      LastIndexOf(rest, ':') == |host| && rest[..|host|] == host && rest[|host| + 1..] == ps
  {
    var rest := host + ":" + ps;
    assert rest[|host| + 1..] == ps;
    LastIndexUnique(rest, ':', |host|);
  }

  lemma {:induction false} HostAndPort(host: string, port: int)
    requires IsInt64(port)
    ensures SplitPort(host + ":" + Itoa(port)) == Some((host, port))
  {
    ItoaToken(port);
    ParseItoa(port);
    LastColon(host, Itoa(port));
  }

  lemma {:induction false} SchemeOf(proto: string, rest: string)
    requires ':' !in proto
    ensures SplitScheme(proto + "://" + rest) == Some((proto, rest))
  {
    SchemeIndexOf(proto, rest);
    var s := proto + "://" + rest;
    assert s[..|proto|] == proto && s[|proto| + 3..] == rest;
  }

  lemma {:induction false} CanonicalParts(proto: string, host: string, port: int)
    ensures Canonical(proto, host, port) == proto + "://" + (host + ":" + Itoa(port))
  {
    hide Itoa;
  }

  /** parseServerScope undoes canonicalScope. */
  lemma {:induction false} ServerScopeOfCanonical(proto: string, host: string, port: int, origin: string)
    requires ':' !in proto && IsInt64(port)
    ensures ParseServerScope(Canonical(proto, host, port), origin) ==
            Some(ServerEntry(Canonical(proto, host, port), proto, host, port, origin))
  {
    hide SplitScheme, SplitPort, Itoa;
    var rest := host + ":" + Itoa(port);
    CanonicalParts(proto, host, port);
    SchemeOf(proto, rest);
    HostAndPort(host, port);
  }

  /** Hence different endpoints have different canonical scopes. */
  lemma {:induction false} CanonicalInjective(p1: string, h1: string, n1: int, p2: string, h2: string, n2: int)
    requires ':' !in p1 && ':' !in p2 && IsInt64(n1) && IsInt64(n2)
    requires Canonical(p1, h1, n1) == Canonical(p2, h2, n2)
    ensures p1 == p2 && h1 == h2 && n1 == n2
  {
    ServerScopeOfCanonical(p1, h1, n1, "");
    ServerScopeOfCanonical(p2, h2, n2, "");
  }

  lemma {:induction false} HostLenOf(host: string, rest: string)
    requires forall i | 0 <= i < |host| :: HostChar(host[i])
    requires rest == "" || !HostChar(rest[0])
    ensures HostLen(host + rest) == |host|
  {
    if host == "" {
      assert host + rest == rest;
    } else {
      HostLenOf(host[1..], rest);
      assert (host + rest)[1..] == host[1..] + rest;
    }
  }

  lemma {:induction false} SplitProtoOf(proto: string, rest: string)
    requires IsProto(proto)
    ensures SplitProto(proto + "://" + rest) == Some((proto, rest))
  {
    var s := proto + "://" + rest;
    if proto == "https" {
      assert s == "https://" + rest;
    } else {
      assert s == "http://" + rest;
      assert s[4] == ':' && "https://"[4] == 's';
    }
  }

  lemma {:induction false} SinglePort(port: int)
    requires PortOk(port)
    ensures Split(Itoa(port), ',') == [Itoa(port)]
    ensures PortList([Itoa(port)]) == Some([port])
  {
    ItoaToken(port);
    assert IndexOf(Itoa(port), ',') == -1;
    ParseItoa(port);
    assert [Itoa(port)][..0] == [];
    assert PortList([]) == Some([]);
    assert [] + [port] == [port];
  }

  lemma {:induction false} MatchRest(host: string, ps: string)
    requires IsHost(host) && ps != "" && AllDigits(ps)
    ensures var rest := host + ":" + ps;
      var n := HostLen(rest);
      && n == |host| && rest[..n] == host && rest[n] == ':' && rest[n + 1..] == ps && n + 1 < |rest|
      && (forall i | n < i < |rest| :: PortListChar(rest[i]))
  {
    var rest := host + ":" + ps;
    assert rest == host + (":" + ps);
    HostLenOf(host, ":" + ps);
    assert forall i | |host| < i < |rest| :: rest[i] == ps[i - |host| - 1];
  }

  lemma {:induction false} MatchCanonical(proto: string, host: string, ps: string)
    requires IsProto(proto) && IsHost(host) && ps != "" && AllDigits(ps)
    ensures MatchScope(proto + "://" + host + ":" + ps) == Some(Shape(proto, host, ps))
  {
    var rest := host + ":" + ps;
    assert proto + "://" + host + ":" + ps == proto + "://" + rest;
    SplitProtoOf(proto, rest);
    MatchRest(host, ps);
  }

  /** A canonical scope is itself an accepted display scope, naming its one port. */
  lemma {:induction false} ScopeOfCanonical(proto: string, host: string, port: int)
    requires IsProto(proto) && IsHost(host) && PortOk(port)
    ensures DomainScopeOf(Canonical(proto, host, port)) == Ok(DomainScope(proto, host, [port]))
  {
    ItoaToken(port);
    MatchCanonical(proto, host, Itoa(port));
    SinglePort(port);
  }

  // ---- origins ----

  /** parseOriginEndpoint succeeds: ^(https?)://([a-zA-Z0-9\-\.]+):(\d+)$ with a port in range */
  predicate OriginOk(s: string) {
    match SplitProto(s)
    case None => false
    case Some((_, rest)) =>
      var n := HostLen(rest);
      && 0 < n < |rest| - 1
      && rest[n] == ':'
      && AllDigits(rest[n + 1..])
      && ParseInt(rest[n + 1..]).Some?
      && PortOk(ParseInt(rest[n + 1..]).value)
  }
}
