/** What every command keeps: rows grouped by display scope, referential integrity
    of bindings, and rule objects whose stored form is the parse of their text. */
module Invariants {
  import opened Text
  import opened Commands
  import opened Scopes
  import opened Rules
  import opened Store

  // ---- the invariant ----

  /** A row belongs to the expansion of its display scope, and every endpoint of that
      expansion carries the very same row. */
  ghost predicate RowOk(domains: map<string, Row>, c: string)
    requires c in domains
  {
    var row := domains[c];
    && DomainScopeOf(row.display).Ok?
    && OriginAccepted(row.origin) && Normal(row.origin)
    && c in CanonSet(DomainScopeOf(row.display).value)
    && forall k | k in CanonSet(DomainScopeOf(row.display).value) :: k in domains && domains[k] == row
  }

  ghost predicate DomainsOk(domains: map<string, Row>) {
    forall c | c in domains :: RowOk(domains, c)
  }

  predicate ObjectOk(env: Env, k: ObjKey, o: Object) {
    && IsRuleType(k.typ)
    && IsObjectName(k.name) && !IsPlaceholder(k.name)
    && Normal(o.text)
    && ParamsAccepted(env, k.typ, o.text)
    && ParamsOf(env, k.typ, o.text) == Ok(o.parsed)
  }

  ghost predicate ObjectsOk(env: Env, objects: map<ObjKey, Object>) {
    forall k | k in objects :: ObjectOk(env, k, objects[k])
  }

  /** Each binding names an existing rule object and an existing display scope. */
  ghost predicate BindingsOk(db: DB) {
    forall b | b in db.bindings :: ObjKey(b.typ, b.name) in db.objects && HasDisplay(db.domains, b.scope)
  }

  ghost predicate PeersOk(env: Env, peers: map<string, int>) {
    forall ip | ip in peers :: Token(ip) && env.parseIP(ip) && IsInt64(peers[ip])
  }

  predicate MetaOk(env: Env, db: DB) {
    && (db.bot == "" || (Token(db.bot) && env.parseIP(db.bot)  && !IsPlaceholder(db.bot)))
    && (db.lang == "" || IsLang(db.lang))
  }

  ghost predicate Inv(env: Env, db: DB) {
    && DomainsOk(db.domains)
    && ObjectsOk(env, db.objects)
    && BindingsOk(db)
    && PeersOk(env, db.peers)
    && MetaOk(env, db)
  }

  lemma {:induction false} EmptyInv(env: Env, db: DB)
    requires db.domains == map[] && db.objects == map[] && db.bindings == {}
    requires PeersOk(env, db.peers) && MetaOk(env, db)
    ensures Inv(env, db)
  {
  }

  /** The rows sharing a display scope are exactly its expansion, one per port, all equal. */
  lemma {:induction false} GroupIsExpansion(domains: map<string, Row>, display: string)
    requires DomainsOk(domains) && HasDisplay(domains, display)
    ensures DomainScopeOf(display).Ok?
    ensures (set c | c in domains && domains[c].display == display) == CanonSet(DomainScopeOf(display).value)
    ensures forall c, k | c in domains && k in domains && domains[c].display == domains[k].display == display ::
      domains[c] == domains[k]
  {
    hide DomainScopeOf, CanonSet, OriginAccepted, Normal;
    var w :| w in domains && domains[w].display == display;
    assert RowOk(domains, w);
    var canons := CanonSet(DomainScopeOf(display).value);
    forall c | c in domains && domains[c].display == display
      ensures c in canons && domains[c] == domains[w]
    {
      assert RowOk(domains, c);
    }
  }

  /** The expansion has one canonical scope per port. */
  lemma {:induction false} ExpansionSize(sc: DomainScope)
    requires ScopeOk(sc)
    ensures |CanonSet(sc)| == |sc.ports|
  {
    ExpansionPrefix(sc, |sc.ports|);
    assert CanonPrefix(sc, |sc.ports|) == CanonSet(sc);
  }

  function CanonPrefix(sc: DomainScope, n: nat): set<string>
    requires n <= |sc.ports|
  {
    set i | 0 <= i < n :: Canonical(sc.proto, sc.host, sc.ports[i])
  }

  lemma {:induction false} ExpansionPrefix(sc: DomainScope, n: nat)
    requires ScopeOk(sc) && n <= |sc.ports|
    ensures |CanonPrefix(sc, n)| == n
  {
    hide Canonical;
    if n == 0 {
      assert CanonPrefix(sc, 0) == {};
    } else {
      ExpansionPrefix(sc, n - 1);
      var last := Canonical(sc.proto, sc.host, sc.ports[n - 1]);
      forall i | 0 <= i < n - 1
        ensures Canonical(sc.proto, sc.host, sc.ports[i]) != last
      {
        if Canonical(sc.proto, sc.host, sc.ports[i]) == last {
          CanonicalInjective(sc.proto, sc.host, sc.ports[i], sc.proto, sc.host, sc.ports[n - 1]);
        }
      }
      assert CanonPrefix(sc, n) == CanonPrefix(sc, n - 1) + {last};
    }
  }

  // ---- preservation, handler by handler ----

  lemma {:induction false} DomainWriteKeeps(env: Env, w: World, cmd: Command)
    requires Inv(env, w.db) && DomainScopeOf(cmd.scope).Ok? && OriginAccepted(cmd.params) && Normal(cmd.params)
    ensures Inv(env, DomainWrite(w, cmd).w.db)
  {
    hide DomainScopeOf, CanonSet, OriginAccepted, Normal, ObjectsOk, PeersOk;
    var canons := CanonSet(DomainScopeOf(cmd.scope).value);
    var old_, new_ := w.db.domains, DomainWrite(w, cmd).w.db.domains;
    if !OwnedByOther(old_, canons, cmd.scope) {
      forall c | c in new_
        ensures RowOk(new_, c)
      {
        if c !in canons {
          assert RowOk(old_, c);
          GroupApart(old_, canons, cmd.scope, c);
        }
      }
      forall b | b in w.db.bindings
        ensures HasDisplay(new_, b.scope)
      {
        var c :| c in old_ && old_[c].display == b.scope;
        assert c in new_ && new_[c].display == b.scope;
      }
    }
  }

  /** A row outside the expansion of a display scope that nobody else owns part of
      has its whole group outside that expansion. */
  lemma {:induction false} GroupApart(domains: map<string, Row>, canons: set<string>, display: string, c: string)
    requires c in domains && c !in canons && RowOk(domains, c)
    requires !OwnedByOther(domains, canons, display)
    requires DomainScopeOf(display).Ok? && canons == CanonSet(DomainScopeOf(display).value)
    ensures CanonSet(DomainScopeOf(domains[c].display).value) !! canons
  {
    assert domains[c].display != display;
    forall k | k in CanonSet(DomainScopeOf(domains[c].display).value)
      ensures k !in canons
    {
      assert domains[k] == domains[c];
    }
  }

  lemma {:induction false} RowsAfterDelete(domains: map<string, Row>, canons: set<string>, display: string)
    requires DomainsOk(domains) && !OwnedByOther(domains, canons, display)
    requires DomainScopeOf(display).Ok? && canons == CanonSet(DomainScopeOf(display).value)
    ensures DomainsOk(domains - canons)
  {
    forall c | c in domains - canons
      ensures RowOk(domains - canons, c)
    {
      assert RowOk(domains, c);
      GroupApart(domains, canons, display, c);
    }
  }

  lemma {:induction false} DomainDeleteKeeps(env: Env, w: World, cmd: Command)
    requires Inv(env, w.db) && DomainScopeOf(cmd.scope).Ok?
    ensures Inv(env, DomainDelete(w, cmd).w.db)
  {
    var canons := CanonSet(DomainScopeOf(cmd.scope).value);
    var old_, new_ := w.db.domains, DomainDelete(w, cmd).w.db.domains;
    if DomainDelete(w, cmd).r.Ok? {
      RowsAfterDelete(old_, canons, cmd.scope);
      forall b | b in w.db.bindings
        ensures HasDisplay(new_, b.scope)
      {
        var c :| c in old_ && old_[c].display == b.scope;
        assert c in new_ && new_[c].display == b.scope;
      }
    }
  }

  lemma {:induction false} ObjectWriteKeeps(env: Env, w: World, cmd: Command)
    requires Inv(env, w.db) && WellFormed(cmd) && IsRuleType(cmd.typ) && cmd.verb.Write?
    requires ObjectCheck(env, cmd).None?
    ensures Inv(env, ObjectWrite(env, w, cmd).w.db)
  {
  }

  lemma {:induction false} ObjectDeleteKeeps(env: Env, w: World, cmd: Command)
    requires Inv(env, w.db)
    ensures Inv(env, ObjectDelete(w, cmd).w.db)
  {
    var k := ObjKey(cmd.typ, cmd.scope);
    if !Referenced(w.db.bindings, k) && k in w.db.objects {
      forall b | b in w.db.bindings
        ensures ObjKey(b.typ, b.name) != k
      {
      }
    }
  }

  lemma {:induction false} BindKeeps(env: Env, w: World, cmd: Command)
    requires Inv(env, w.db) && ParseObjectRef(cmd.params).Ok?
    ensures Inv(env, BindWrite(w, cmd).w.db)
    ensures Inv(env, BindDelete(w, cmd).w.db)
  {
  }

  lemma {:induction false} LangCodes(s: string)
    ensures ParseLang(s).Some? ==> IsLang(ParseLang(s).value)
  {
  }

  lemma {:induction false} InternalKeeps(env: Env, w: World, op: Op, f: seq<string>)
    requires Inv(env, w.db) && Tokens(f)
    ensures OpCheck(env, op, Write, f).None? ==> Inv(env, InternalWrite(env, w, op, f).w.db)
    ensures OpCheck(env, op, Delete, f).None? ==> Inv(env, InternalDelete(env, w, op, f).w.db)
  {
    if f != [] {
      assert Token(f[0]);
      LangCodes(f[0]);
    }
  }

  lemma {:induction false} ViewsKeep(env: Env, w: World, cmd: Command)
    requires Inv(env, w.db) && Token(cmd.scope)
    ensures !IsPlaceholder(cmd.scope) && env.parseIP(cmd.scope) ==> Inv(env, TargetView(w, cmd).w.db)
    ensures IsPlaceholder(cmd.scope) || ParseLang(cmd.scope).Some? ==> Inv(env, LangView(w, cmd).w.db)
  {
    hide DomainsOk, ObjectsOk, PeersOk, ParseLang, IsPlaceholder;
    LangCodes(cmd.scope);
    NotBlank(cmd.scope);
  }

  lemma {:induction false} NotBlank(s: string)
    requires Token(s)
    ensures s != ""
  {
  }

  lemma {:induction false} RunDomainKeeps(env: Env, w: World, cmd: Command)
    requires Inv(env, w.db) && WellFormed(cmd)
    ensures Inv(env, RunDomain(w, cmd).w.db)
  {
    hide Inv, DomainWrite, DomainDelete, DomainScopeOf;
    if DomainCheck(cmd).None? {
      match cmd.verb
      case View =>
      case Write => DomainWriteKeeps(env, w, cmd);
      case Delete => DomainDeleteKeeps(env, w, cmd);
    }
  }

  lemma {:induction false} RunObjectKeeps(env: Env, w: World, cmd: Command)
    requires Inv(env, w.db) && WellFormed(cmd) && IsRuleType(cmd.typ)
    ensures Inv(env, RunObject(env, w, cmd).w.db)
  {
    hide Inv, ObjectWrite, ObjectDelete, ObjectCheck;
    if ObjectCheck(env, cmd).None? {
      match cmd.verb
      case View =>
      case Write => ObjectWriteKeeps(env, w, cmd);
      case Delete => ObjectDeleteKeeps(env, w, cmd);
    }
  }

  lemma {:induction false} RunBindKeeps(env: Env, w: World, cmd: Command)
    requires Inv(env, w.db)
    ensures Inv(env, RunBind(w, cmd).w.db)
  {
    hide Inv, BindWrite, BindDelete, ParseObjectRef;
    if ParseObjectRef(cmd.params).Ok? {
      BindKeeps(env, w, cmd);
    }
  }

  lemma {:induction false} RunInternalKeeps(env: Env, w: World, cmd: Command)
    requires Inv(env, w.db) && WellFormed(cmd)
    ensures Inv(env, RunInternal(env, w, cmd).w.db)
  {
    hide Inv, InternalWrite, InternalDelete, OpCheck;
    InternalKeeps(env, w, OpOf(cmd.scope), Fields(cmd.params));
  }

  lemma {:induction false} RunViewsKeep(env: Env, w: World, cmd: Command)
    requires Inv(env, w.db) && WellFormed(cmd)
    ensures Inv(env, RunTarget(env, w, cmd).w.db) && Inv(env, RunLang(w, cmd).w.db)
  {
    hide Inv, TargetView, LangView, ParseLang;
    ViewsKeep(env, w, cmd);
  }

  /** Every command keeps the invariant, whether it succeeds or fails. */
  lemma {:induction false} RunKeeps(env: Env, w: World, cmd: Command, extOk: bool)
    requires Inv(env, w.db) && WellFormed(cmd)
    ensures Inv(env, Run(env, w, cmd, extOk).w.db)
  {
    hide Inv, WellFormed, RunDomain, RunObject, RunBind, RunInternal, RunTarget, RunLang, KindOf;
    RuleKindIff(cmd.typ);
    match KindOf(cmd.typ)
    case DomainKind => RunDomainKeeps(env, w, cmd);
    case RuleKind => RunObjectKeeps(env, w, cmd);
    case BindKind => RunBindKeeps(env, w, cmd);
    case InternalKind => RunInternalKeeps(env, w, cmd);
    case TargetKind => RunViewsKeep(env, w, cmd);
    case LangKind => RunViewsKeep(env, w, cmd);
    case ExternalKind =>
    case UnknownKind =>
  }

  /** What a step leaves alone: version and port table always, everything when it
      fails, and everything when it neither mutates nor forces a bump. */
  predicate Framed(w: World, s: Step, view: bool) {
    && s.w.db.version == w.db.version
    && s.w.db.ports == w.db.ports
    && (s.r.Err? ==> s.w == w)
    && (s.r.Ok? && view && !s.r.value.forceBump ==> s.w == w)
  }

  /** The step asks for no ports and leaves no row that was not there. */
  predicate AddsNoRows(w: World, s: Step) {
    && (s.r.Ok? ==> s.r.value.ports == [])
    && s.w.db.domains.Keys <= w.db.domains.Keys
  }

  predicate IsDomainWrite(cmd: Command) {
    KindOf(cmd.typ) == DomainKind && cmd.verb.Write? && DomainCheck(cmd).None?
  }

  lemma {:induction false} DomainFrame(w: World, cmd: Command)
    ensures Framed(w, RunDomain(w, cmd), cmd.verb.View?)
    ensures (cmd.verb.Write? && DomainCheck(cmd).None?) || AddsNoRows(w, RunDomain(w, cmd))
  {
    hide DomainScopeOf, CanonSet, DomainCheck;
  }

  lemma {:induction false} ObjectFrame(env: Env, w: World, cmd: Command)
    requires IsRuleType(cmd.typ)
    ensures Framed(w, RunObject(env, w, cmd), cmd.verb.View?) && AddsNoRows(w, RunObject(env, w, cmd))
  {
  }

  lemma {:induction false} BindFrame(w: World, cmd: Command)
    ensures Framed(w, RunBind(w, cmd), cmd.verb.View?) && AddsNoRows(w, RunBind(w, cmd))
  {
  }

  lemma {:induction false} InternalFrame(env: Env, w: World, cmd: Command)
    ensures Framed(w, RunInternal(env, w, cmd), cmd.verb.View?) && AddsNoRows(w, RunInternal(env, w, cmd))
  {
  }

  lemma {:induction false} ViewFrame(env: Env, w: World, cmd: Command)
    ensures Framed(w, RunTarget(env, w, cmd), cmd.verb.View?) && AddsNoRows(w, RunTarget(env, w, cmd))
    ensures Framed(w, RunLang(w, cmd), cmd.verb.View?) && AddsNoRows(w, RunLang(w, cmd))
  {
  }

  /** No command touches the version or the port table by itself, a failed one changes
      nothing at all, and only an accepted domain write asks for ports or adds rows. */
  lemma {:induction false} RunFrame(env: Env, w: World, cmd: Command, extOk: bool)
    ensures Framed(w, Run(env, w, cmd, extOk), cmd.verb.View?)
    ensures IsDomainWrite(cmd) ==> Run(env, w, cmd, extOk) == DomainWrite(w, cmd)
    ensures !IsDomainWrite(cmd) ==> AddsNoRows(w, Run(env, w, cmd, extOk))
  {
    match KindOf(cmd.typ)
    case DomainKind => DomainFrame(w, cmd);
    case RuleKind => ObjectFrame(env, w, cmd);
    case BindKind => BindFrame(w, cmd);
    case InternalKind => InternalFrame(env, w, cmd);
    case TargetKind => ViewFrame(env, w, cmd);
    case LangKind => ViewFrame(env, w, cmd);
    case ExternalKind =>
    case UnknownKind =>
  }

  // ---- port agreement ----

  function EndpointOf(c: string): Option<ServerEntry> {
    ParseServerScope(c, "")
  }

  /** Every row's protocol is the one recorded for its port. */
  ghost predicate PortsAgree(domains: map<string, Row>, ports: map<int, string>) {
    forall c | c in domains :: RowAgrees(c, ports)
  }

  predicate RowAgrees(c: string, ports: map<int, string>) {
    match EndpointOf(c)
    case None => false
    case Some(e) => e.port in ports && ports[e.port] == e.proto
  }

  lemma {:induction false} EndpointOfCanonical(sc: DomainScope, i: nat)
    requires ScopeOk(sc) && i < |sc.ports|
    ensures var c := Canonical(sc.proto, sc.host, sc.ports[i]);
      EndpointOf(c) == Some(ServerEntry(c, sc.proto, sc.host, sc.ports[i], ""))
  {
    ServerScopeOfCanonical(sc.proto, sc.host, sc.ports[i], "");
  }

  /** A domain write asks for each of its ports once. */
  lemma {:induction false} PortBindingsOnce(sc: DomainScope)
    requires ScopeOk(sc)
    ensures OnePortEach(PortBindings(sc)) && PortBindings(sc) != []
  {
  }

  lemma {:induction false} AgreeingRows(sc: DomainScope, ports: map<int, string>)
    requires ScopeOk(sc)
    ensures (forall c | c in CanonSet(sc) :: RowAgrees(c, ports)) <==>
            (forall i | 0 <= i < |sc.ports| :: sc.ports[i] in ports && ports[sc.ports[i]] == sc.proto)
  {
    forall i | 0 <= i < |sc.ports|
      ensures RowAgrees(Canonical(sc.proto, sc.host, sc.ports[i]), ports) <==>
              sc.ports[i] in ports && ports[sc.ports[i]] == sc.proto
      ensures Canonical(sc.proto, sc.host, sc.ports[i]) in CanonSet(sc)
    {
      EndpointOfCanonical(sc, i);
    }
  }
}
