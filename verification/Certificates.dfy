/** Which certificate serves an endpoint: coverage, expiry, preference, and the names a
    renewal must carry (internal/cert/selector.go, internal/cert/store.go,
    internal/cert/renew/scanner.go, internal/nginx/generator.go). */
module Certificates {
  import opened Text
  import opened Scopes

  const LE := "le"
  const UPLOAD := "upload"
  const SELF := "self"

  /** SourcePriority */
  function Priority(source: string): (p: nat)
    ensures p <= 3
  {
    if source == LE then 3 else if source == UPLOAD then 2 else if source == SELF then 1 else 0
  }

  /** A stored certificate; notAfter is None for the zero time. */
  datatype Cert = Cert(fingerprint: string, subject: string, san: seq<string>, source: string, notAfter: Option<int>)

  /** time.Time.After; the zero time lies before every other. */
  predicate Later(a: Option<int>, b: Option<int>) {
    a.Some? && (b.None? || a.value > b.value)
  }

  predicate Expired(c: Cert, now: int) {
    c.notAfter.Some? && now > c.notAfter.value
  }

  /** IsExpiring */
  predicate Expiring(c: Cert, now: int, threshold: int) {
    c.notAfter.Some? && c.notAfter.value - now < threshold
  }

  // ---- coverage ----

  predicate HasSuffix(s: string, suffix: string) {
    |suffix| <= |s| && s[|s| - |suffix|..] == suffix
  }

  /** The wildcard test of Covers, on one SAN entry. */
  predicate WildcardCovers(san: string, target: string) {
    HasPrefix(san, "*.") &&
    var suffix := san[1..];
    HasSuffix(target, suffix) &&
    var prefix := target[..|target| - |suffix|];
    prefix != "" && '.' !in prefix
  }

  /** A certificate is valid for a target through its subject, an equal SAN or a wildcard SAN. */
  predicate Covered(c: Cert, target: string) {
    c.subject == target || exists san | san in c.san :: san == target || WildcardCovers(san, target)
  }

  /** A wildcard stands for exactly one label: section 6.4.3 of RFC 6125. */
  lemma {:induction false} WildcardIsOneLabel(domain: string, target: string)
    ensures WildcardCovers("*." + domain, target) <==>
      exists first :: first != "" && '.' !in first && target == first + "." + domain
  {
    var san := "*." + domain;
    assert san[1..] == "." + domain;
    if WildcardCovers(san, target) {
      var first := target[..|target| - |domain| - 1];
      assert target == first + ("." + domain);
      assert target == first + "." + domain;
    }
    if first :| first != "" && '.' !in first && target == first + "." + domain {
      assert target == first + ("." + domain);
      assert target[..|first|] == first && target[|first|..] == "." + domain;
    }
  }

  /** Covers */
  method Covers(c: Cert, endpoint: string) returns (r: bool)
    ensures r == Covered(c, endpoint)
  {
    if c.subject == endpoint {
      return true;
    }
    for i := 0 to |c.san|
      invariant forall k | 0 <= k < i :: c.san[k] != endpoint && !WildcardCovers(c.san[k], endpoint)
    {
      var san := c.san[i];
      assert san in c.san;
      if san == endpoint {
        return true;
      }
      if HasPrefix(san, "*.") {
        var suffix := san[1..];
        if HasSuffix(endpoint, suffix) {
          var prefix := endpoint[..|endpoint| - |suffix|];
          if prefix != "" && '.' !in prefix {
            assert WildcardCovers(san, endpoint);
            return true;
          }
        }
      }
    }
    return false;
  }

  // ---- selection ----

  predicate Usable(c: Cert, endpoint: string, now: int) {
    !Expired(c, now) && Covered(c, endpoint)
  }

  /** betterCert */
  predicate Better(a: Cert, b: Cert) {
    if Priority(a.source) != Priority(b.source) then Priority(a.source) > Priority(b.source)
    else Later(a.notAfter, b.notAfter)
  }

  function Usables(certs: seq<Cert>, endpoint: string, now: int): seq<Cert> {
    if certs == [] then []
    else
      var last := certs[|certs| - 1];
      Usables(certs[..|certs| - 1], endpoint, now) + if Usable(last, endpoint, now) then [last] else []
  }

  lemma {:induction false} UsableMembers(certs: seq<Cert>, endpoint: string, now: int, c: Cert)
    ensures c in Usables(certs, endpoint, now) <==> c in certs && Usable(c, endpoint, now)
  {
    hide Usable;
    if certs != [] {
      var n := |certs| - 1;
      UsableMembers(certs[..n], endpoint, now, c);
      assert certs == certs[..n] + [certs[n]];
    }
  }

  /** FilterCovering */
  method FilterCovering(endpoint: string, candidates: seq<Cert>, now: int) returns (out: seq<Cert>)
    ensures out == Usables(candidates, endpoint, now)
  {
    hide Covered;
    out := [];
    for i := 0 to |candidates|
      invariant out == Usables(candidates[..i], endpoint, now)
    {
      assert candidates[..i + 1][..i] == candidates[..i];
      var c := candidates[i];
      if c.notAfter.Some? && now > c.notAfter.value {
        continue;
      }
      var covers := Covers(c, endpoint);
      if covers {
        out := out + [c];
      }
    }
    assert candidates[..|candidates|] == candidates;
  }

  function Place(c: Cert, s: seq<Cert>): seq<Cert> {
    if s == [] || !Better(s[0], c) then [c] + s else [s[0]] + Place(c, s[1..])
  }

  /** sort.SliceStable by betterCert */
  function Preferred(s: seq<Cert>): seq<Cert> {
    if s == [] then [] else Place(s[0], Preferred(s[1..]))
  }

  ghost predicate Ranked(s: seq<Cert>) {
    forall i, j | 0 <= i < j < |s| :: !Better(s[j], s[i])
  }

  lemma {:induction false} PlaceElements(c: Cert, s: seq<Cert>)
    ensures multiset(Place(c, s)) == multiset{c} + multiset(s)
  {
    hide Better;
    if s != [] && Better(s[0], c) {
      PlaceElements(c, s[1..]);
      assert s == [s[0]] + s[1..];
    }
  }

  lemma {:induction false} PlaceAfter(c: Cert, s: seq<Cert>, head: Cert)
    requires !Better(c, head) && forall i | 0 <= i < |s| :: !Better(s[i], head)
    ensures forall i | 0 <= i < |Place(c, s)| :: !Better(Place(c, s)[i], head)
  {
    hide Better;
    if s != [] && Better(s[0], c) {
      PlaceAfter(c, s[1..], head);
    }
  }

  lemma {:induction false} NotBetterTransitive(a: Cert, b: Cert, c: Cert)
    requires !Better(b, a) && !Better(c, b)
    ensures !Better(c, a)
  {
  }

  lemma {:induction false} BetterAsymmetric(a: Cert, b: Cert)
    requires Better(a, b)
    ensures !Better(b, a)
  {
  }

  lemma {:induction false} PlaceRanked(c: Cert, s: seq<Cert>)
    requires Ranked(s)
    ensures Ranked(Place(c, s))
  {
    hide Better;
    if s == [] {
    } else if Better(s[0], c) {
      PlaceRanked(c, s[1..]);
      BetterAsymmetric(s[0], c);
      PlaceAfter(c, s[1..], s[0]);
    } else {
      forall j | 0 <= j < |s|
        ensures !Better(s[j], c)
      {
        if j > 0 {
          NotBetterTransitive(c, s[0], s[j]);
        }
      }
    }
  }

  lemma {:induction false} PreferredRanked(s: seq<Cert>)
    ensures Ranked(Preferred(s)) && multiset(Preferred(s)) == multiset(s)
  {
    if s != [] {
      PreferredRanked(s[1..]);
      PlaceRanked(s[0], Preferred(s[1..]));
      PlaceElements(s[0], Preferred(s[1..]));
      assert s == [s[0]] + s[1..];
    }
  }

  /** A best usable certificate of the candidates; none exactly when there is none. */
  ghost predicate IsSelected(endpoint: string, candidates: seq<Cert>, now: int, r: Option<Cert>) {
    match r
    case None => forall c | c in candidates :: !Usable(c, endpoint, now)
    case Some(b) =>
      && b in candidates && Usable(b, endpoint, now)
      && forall c | c in candidates && Usable(c, endpoint, now) :: !Better(c, b)
  }

  /** SelectFor */
  method SelectFor(endpoint: string, candidates: seq<Cert>, now: int) returns (r: Option<Cert>)
    ensures IsSelected(endpoint, candidates, now, r)
  {
    hide Usable, Better;
    var matches := FilterCovering(endpoint, candidates, now);
    forall c: Cert
      ensures c in matches <==> c in candidates && Usable(c, endpoint, now)
    {
      UsableMembers(candidates, endpoint, now, c);
    }
    if |matches| == 0 {
      return None;
    }
    var sorted := Preferred(matches);
    PreferredRanked(matches);
    assert |multiset(sorted)| == |multiset(matches)|;
    assert forall c :: c in sorted <==> c in multiset(sorted);
    assert forall c :: c in matches <==> c in multiset(matches);
    NoneBetter(sorted);
    return Some(sorted[0]);
  }

  lemma {:induction false} NoneBetter(s: seq<Cert>)
    requires s != [] && Ranked(s)
    ensures forall c | c in s :: !Better(c, s[0])
  {
    forall c | c in s
      ensures !Better(c, s[0])
    {
      var i :| 0 <= i < |s| && s[i] == c;
      if i == 0 && Better(c, c) {
        BetterAsymmetric(c, c);
      }
    }
  }

  // ---- the certificate of a server entry ----

  /** resolveCerts: an https entry gets the certificate selected for its host, or for the node
      itself under a catch-all; failing that, the node's self-signed one. */
  method ResolveCerts(servers: seq<ServerEntry>, nodeIP: string, certs: seq<Cert>, selfSigned: string, now: int)
      returns (fps: seq<string>)
    ensures |fps| == |servers|
    ensures forall i | 0 <= i < |servers| :: Resolved(servers[i], nodeIP, certs, selfSigned, now, fps[i])
  {
    hide IsSelected;
    fps := [];
    for i := 0 to |servers|
      invariant |fps| == i && forall k | 0 <= k < i :: Resolved(servers[k], nodeIP, certs, selfSigned, now, fps[k])
    {
      var s := servers[i];
      if s.proto != "https" {
        fps := fps + [""];
        continue;
      }
      var endpoint := if s.host == "-" then nodeIP else s.host;
      var selected := SelectFor(endpoint, certs, now);
      fps := fps + [if selected.None? then selfSigned else selected.value.fingerprint];
    }
  }

  ghost predicate Resolved(s: ServerEntry, nodeIP: string, certs: seq<Cert>, selfSigned: string, now: int, fp: string) {
    if s.proto != "https" then fp == ""
    else
      exists r :: IsSelected(if s.host == "-" then nodeIP else s.host, certs, now, r)
        && fp == if r.None? then selfSigned else r.value.fingerprint
  }

  // ---- renewing without losing names ----

  /** The names of a certificate, in order, empty ones and repetitions dropped. */
  function Distinct(names: seq<string>): seq<string> {
    if names == [] then []
    else
      var d, last := Distinct(names[..|names| - 1]), names[|names| - 1];
      if last == "" || last in d then d else d + [last]
  }

  lemma {:induction false} DistinctMembers(names: seq<string>, x: string)
    ensures x in Distinct(names) <==> x in names && x != ""
  {
    if names != [] {
      var n := |names| - 1;
      DistinctMembers(names[..n], x);
      DistinctMembers(names[..n], names[n]);
      assert names == names[..n] + [names[n]];
    }
  }

  lemma {:induction false} DistinctOnce(names: seq<string>)
    ensures forall i, j | 0 <= i < j < |Distinct(names)| :: Distinct(names)[i] != Distinct(names)[j]
  {
    if names != [] {
      DistinctOnce(names[..|names| - 1]);
    }
  }

  /** renewalIdentifiers */
  method RenewalIdentifiers(c: Cert) returns (out: seq<string>)
    ensures out == Distinct([c.subject] + c.san)
    ensures forall x :: x in out <==> (x == c.subject || x in c.san) && x != ""
    ensures forall i, j | 0 <= i < j < |out| :: out[i] != out[j]
  {
    var names := [c.subject] + c.san;
    var seen: set<string> := {};
    out := [];
    for i := 0 to |names|
      invariant out == Distinct(names[..i])
      invariant forall x :: x in seen <==> x in out
    {
      assert names[..i + 1][..i] == names[..i];
      var s := names[i];
      if s == "" || s in seen {
        continue;
      }
      seen := seen + {s};
      out := out + [s];
    }
    assert names[..|names|] == names;
    DistinctOnce(names);
    forall x
      ensures x in out <==> (x == c.subject || x in c.san) && x != ""
    {
      DistinctMembers(names, x);
      assert forall k | 0 <= k < |c.san| :: names[k + 1] == c.san[k];
    }
  }

  /** A certificate whose SAN holds the renewal identifiers covers every endpoint the old one
      covers, except possibly the empty one. */
  lemma {:induction false} RenewalCovers(c: Cert, renewed: Cert, endpoint: string)
    requires forall id | id in Distinct([c.subject] + c.san) :: id in renewed.san
    requires Covered(c, endpoint) && endpoint != ""
    ensures Covered(renewed, endpoint)
  {
    hide WildcardCovers;
    var names := [c.subject] + c.san;
    if c.subject == endpoint {
      assert names[0] == endpoint;
      DistinctMembers(names, endpoint);
    } else {
      var san :| san in c.san && (san == endpoint || WildcardCovers(san, endpoint));
      var i :| 0 <= i < |c.san| && c.san[i] == san;
      assert names[i + 1] == san;
      NoWildcardEmpty(endpoint);
      DistinctMembers(names, san);
    }
  }

  lemma {:induction false} NoWildcardEmpty(target: string)
    ensures !WildcardCovers("", target)
    ensures forall san :: !WildcardCovers(san, "")
  {
  }

  /** The exception: the empty endpoint is covered again exactly when the new certificate's
      own subject or SAN has an empty name, which the identifiers never supply. */
  lemma {:induction false} EmptyEndpoint(c: Cert)
    ensures Covered(c, "") <==> c.subject == "" || "" in c.san
    ensures "" !in Distinct([c.subject] + c.san)
  {
    NoWildcardEmpty("");
    DistinctMembers([c.subject] + c.san, "");
  }

  // ---- a found replacement ----

  /** While r is stored, unexpired and covers the endpoint, no selection is self-signed, if
      and only if r's source is preferred to self-signed ones. */
  lemma {:induction false} ReplacementHoldsIff(r: Cert, endpoint: string, now: int)
    requires Usable(r, endpoint, now)
    ensures (forall candidates, s | r in candidates && IsSelected(endpoint, candidates, now, s) ::
              s.Some? && s.value.source != SELF)
            <==> r.source == LE || r.source == UPLOAD
  {
    if r.source == LE || r.source == UPLOAD {
      forall candidates, s | r in candidates && IsSelected(endpoint, candidates, now, s)
        ensures s.Some? && s.value.source != SELF
      {
      }
    } else if r.source == SELF {
      SelectedAlone(r, endpoint, now);
    } else {
      var own := Cert("", endpoint, [], SELF, None);
      SelfBeatsUnknown(r, own, endpoint, now);
    }
  }

  lemma {:induction false} SelectedAlone(r: Cert, endpoint: string, now: int)
    requires Usable(r, endpoint, now)
    ensures r in [r] && IsSelected(endpoint, [r], now, Some(r))
  {
  }

  lemma {:induction false} SelfBeatsUnknown(r: Cert, own: Cert, endpoint: string, now: int)
    requires Usable(r, endpoint, now) && Usable(own, endpoint, now) && own.source == SELF && Priority(r.source) == 0
    ensures r in [r, own] && IsSelected(endpoint, [r, own], now, Some(own))
  {
    hide Covered;
  }
}
