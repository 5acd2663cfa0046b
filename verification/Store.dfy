/** The configuration database as tables, what each command does to it, and the
    invariant every run keeps (internal/db/schema.go, internal/command/handlers). */
module Store {
  import opened Text
  import opened Commands
  import opened Scopes
  import opened Rules
  import opened Peers

  // ---- tables ----

  /** A domains row; its key is the canonical scope. */
  datatype Row = Row(display: string, origin: string)
  datatype ObjKey = ObjKey(typ: string, name: string)
  datatype Object = Object(text: string, parsed: Params)
  datatype Binding = Binding(scope: string, typ: string, name: string)

  /** The tables of config.db; bot and lang are "" when cluster_meta holds NULL. */
  datatype DB = DB(
    domains: map<string, Row>,
    ports: map<int, string>,
    objects: map<ObjKey, Object>,
    bindings: set<Binding>,
    peers: map<string, int>,
    version: int,
    bot: string,
    lang: string)

  const EMPTY: DB := DB(map[], map[], map[], {}, map[], 0, "", "")

  /** A node's database, and its peers.json when it has a membership manager. */
  datatype World = World(db: DB, file: Option<seq<Peer>>)

  datatype Step = Step(w: World, r: Result<Effects>)

  // ---- the columns queries order by ----

  function ByText(s: string): seq<string> { [s] }

  function ByTypeName(k: ObjKey): seq<string> { [k.typ, k.name] }

  function ByColumns(b: Binding): seq<string> { [b.scope, b.typ, b.name] }

  function Keep(w: World, code: ErrorCode): Step {
    Step(w, Err(code))
  }

  // ---- domain ----

  function CanonSet(sc: DomainScope): set<string> {
    set i | 0 <= i < |sc.ports| :: Canonical(sc.proto, sc.host, sc.ports[i])
  }

  predicate OwnedByOther(domains: map<string, Row>, canons: set<string>, display: string) {
    exists c | c in canons :: c in domains && domains[c].display != display
  }

  function PortBindings(sc: DomainScope): seq<PortBinding> {
    seq(|sc.ports|, i requires 0 <= i < |sc.ports| => PortBinding(sc.ports[i], sc.proto))
  }

  predicate OriginAccepted(origin: string) {
    IsPlaceholder(origin) || OriginOk(origin)
  }

  /** DomainHandler.Write */
  function DomainWrite(w: World, cmd: Command): Step
    requires DomainScopeOf(cmd.scope).Ok?
  {
    var sc := DomainScopeOf(cmd.scope).value;
    var canons := CanonSet(sc);
    if OwnedByOther(w.db.domains, canons, cmd.scope) then Keep(w, PortConflict)
    else
      var rows := map c | c in canons :: Row(cmd.scope, cmd.params);
      Step(w.(db := w.db.(domains := w.db.domains + rows)), Ok(Effects(true, false, PortBindings(sc))))
  }

  /** DomainHandler.Delete */
  function DomainDelete(w: World, cmd: Command): Step
    requires DomainScopeOf(cmd.scope).Ok?
  {
    var canons := CanonSet(DomainScopeOf(cmd.scope).value);
    if OwnedByOther(w.db.domains, canons, cmd.scope) then Keep(w, BadFormat)
    else if exists b | b in w.db.bindings :: b.scope == cmd.scope then Keep(w, CascadeBlocked)
    else
      var effects := if canons !! w.db.domains.Keys then NO_EFFECTS else RELOAD;
      Step(w.(db := w.db.(domains := w.db.domains - canons)), Ok(effects))
  }

  // ---- rule objects ----

  /** CacheHandler.Write and upsertRuleObject */
  function ObjectWrite(env: Env, w: World, cmd: Command): Step
    requires IsRuleType(cmd.typ)
  {
    match ParamsOf(env, cmd.typ, cmd.params)
    case Err(_) => Keep(w, BadParams)
    case Ok(parsed) =>
      var objects := w.db.objects[ObjKey(cmd.typ, cmd.scope) := Object(cmd.params, parsed)];
      Step(w.(db := w.db.(objects := objects)), Ok(RELOAD))
  }

  predicate Referenced(bindings: set<Binding>, k: ObjKey) {
    exists b | b in bindings :: b.typ == k.typ && b.name == k.name
  }

  /** CacheHandler.Delete and deleteRuleObject */
  function ObjectDelete(w: World, cmd: Command): Step {
    var k := ObjKey(cmd.typ, cmd.scope);
    if Referenced(w.db.bindings, k) then Keep(w, CascadeBlocked)
    else if k !in w.db.objects then Step(w, Ok(NO_EFFECTS))
    else Step(w.(db := w.db.(objects := w.db.objects - {k})), Ok(RELOAD))
  }

  // ---- bindings ----

  predicate HasDisplay(domains: map<string, Row>, display: string) {
    exists c | c in domains :: domains[c].display == display
  }

  /** BindHandler.Write */
  function BindWrite(w: World, cmd: Command): Step
    requires ParseObjectRef(cmd.params).Ok?
  {
    var o := ParseObjectRef(cmd.params).value;
    if ObjKey(o.typ, o.name) !in w.db.objects then Keep(w, NotFound)
    else if !HasDisplay(w.db.domains, cmd.scope) then Keep(w, NotFound)
    else
      var bindings := w.db.bindings + {Binding(cmd.scope, o.typ, o.name)};
      Step(w.(db := w.db.(bindings := bindings)), Ok(RELOAD))
  }

  /** BindHandler.Delete; "-" removes every binding of the scope. */
  function BindDelete(w: World, cmd: Command): Step
    requires ParseObjectRef(cmd.params).Ok?
  {
    var o := ParseObjectRef(cmd.params).value;
    var gone :=
      if IsPlaceholder(cmd.params) then set b | b in w.db.bindings && b.scope == cmd.scope
      else {Binding(cmd.scope, o.typ, o.name)} * w.db.bindings;
    Step(w.(db := w.db.(bindings := w.db.bindings - gone)), Ok(if gone == {} then NO_EFFECTS else RELOAD))
  }

  // ---- internal commands ----

  /** A character with an ASCII lower-case form is mapped as unicode.ToLower maps it. */
  function Lower(c: char): char {
    if 'A' <= c <= 'Z' then (c as int + 32) as char
    else if c == '\U{0130}' then 'i'
    else if c == '\U{212A}' then 'k'
    else c
  }

  function ToLower(s: string): string {
    seq(|s|, i requires 0 <= i < |s| => Lower(s[i]))
  }

  const CHINESE: string := "\U{4E2D}\U{6587}"

  /** i18n.Parse, giving the canonical language code */
  function ParseLang(s: string): Option<string> {
    var l := ToLower(TrimSpace(s));
    if l in ["cn", "zh", "zh-cn", "zh_cn", "chinese", CHINESE] then Some("cn")
    else if l in ["en", "en-us", "en_us", "eng", "english"] then Some("en")
    else None
  }

  predicate IsLang(l: string) {
    l == "cn" || l == "en"
  }

  datatype Op = PeerAdd | PeerRemove | SetBot | SetLang | OtherOp

  /** The operation of an internal command is named by its scope. */
  function OpOf(scope: string): Op {
    if scope == "peer-add" then PeerAdd
    else if scope == "peer-remove" then PeerRemove
    else if scope == "set-bot" then SetBot
    else if scope == "set-lang" then SetLang
    else OtherOp
  }

  /** InternalHandler.Validate, on the fields of the parameters; None means accepted. */
  function OpCheck(env: Env, op: Op, verb: Verb, f: seq<string>): Option<ErrorCode> {
    match op
    case PeerAdd =>
      if f == [] then Some(BadParams)
      else if !env.parseIP(f[0]) then Some(BadFormat)
      else if verb.Write? && (|f| < 2 || (ParseInt(f[1]).None? && f[1] != "-")) then Some(BadParams)
      else None
    case PeerRemove =>
      if f == [] then Some(BadParams) else if !env.parseIP(f[0]) then Some(BadFormat) else None
    case SetBot =>
      if f == [] then Some(BadParams) else if f[0] != "-" && !env.parseIP(f[0]) then Some(BadFormat) else None
    case SetLang =>
      if f == [] || (f[0] != "-" && ParseLang(f[0]).None?) then Some(BadParams) else None
    case OtherOp => Some(BadFormat)
  }

  function OrderOf(f: seq<string>): int {
    if |f| >= 2 && f[1] != "-" && ParseInt(f[1]).Some? then ParseInt(f[1]).value else 0
  }

  function WithPeer(w: World, ip: string, order: int): World {
    World(w.db.(peers := w.db.peers[ip := order]),
          if w.file.Some? then Some(Added(w.file.value, ip)) else None)
  }

  function WithoutPeer(w: World, ip: string): World {
    World(w.db.(peers := w.db.peers - {ip}),
          if w.file.Some? then Some(Removed(w.file.value, ip)) else None)
  }

  /** InternalHandler.Write */
  function InternalWrite(env: Env, w: World, op: Op, f: seq<string>): Step
    requires OpCheck(env, op, Write, f).None?
  {
    match op
    case PeerAdd => Step(WithPeer(w, f[0], OrderOf(f)), Ok(NO_EFFECTS))
    case PeerRemove => Step(WithoutPeer(w, f[0]), Ok(NO_EFFECTS))
    case SetBot => Step(w.(db := w.db.(bot := if f[0] == "-" then "" else f[0])), Ok(NO_EFFECTS))
    case SetLang =>
      Step(w.(db := w.db.(lang := if f[0] == "-" then "" else ParseLang(f[0]).value)), Ok(NO_EFFECTS))
  }

  /** InternalHandler.Delete: both peer forms remove the peer, the others have no delete. */
  function InternalDelete(env: Env, w: World, op: Op, f: seq<string>): Step
    requires OpCheck(env, op, Delete, f).None?
  {
    if op.PeerAdd? || op.PeerRemove? then Step(WithoutPeer(w, f[0]), Ok(NO_EFFECTS)) else Keep(w, BadFormat)
  }

  // ---- read-shaped commands that write cluster_meta ----

  /** TargetHandler.View */
  function TargetView(w: World, cmd: Command): Step {
    if w.file.Some? && !HasIP(w.file.value, cmd.scope) then Keep(w, NotFound)
    else
      var current := if w.db.bot == "" && w.file.Some? then DefaultBot(w.file.value) else w.db.bot;
      if current == cmd.scope then Step(w, Ok(NO_EFFECTS))
      else Step(w.(db := w.db.(bot := cmd.scope)), Ok(FORCE_BUMP))
  }

  /** LangHandler.View */
  function LangView(w: World, cmd: Command): Step
    requires IsPlaceholder(cmd.scope) || ParseLang(cmd.scope).Some?
  {
    var current := match ParseLang(w.db.lang) case Some(l) => l case None => "cn";
    if IsPlaceholder(cmd.scope) || ParseLang(cmd.scope).value == current then Step(w, Ok(NO_EFFECTS))
    else Step(w.(db := w.db.(lang := ParseLang(cmd.scope).value)), Ok(FORCE_BUMP))
  }

  // ---- one command: registry lookup, validation and dispatch ----

  datatype Kind = DomainKind | RuleKind | BindKind | InternalKind | TargetKind | LangKind | ExternalKind | UnknownKind

  /** Registered types whose handlers touch none of the tables above. */
  predicate IsExternalType(t: string) {
    t in ["ssl", "sslfile", "export", "status", "nodes", "stats", "sync", "upgrade", "help", "menu", "confirm", "ai"]
  }

  /** The handler registered for a type. */
  function KindOf(t: string): Kind {
    if t == "domain" then DomainKind
    else if IsRuleType(t) then RuleKind
    else if t == "bind" then BindKind
    else if t == "internal" then InternalKind
    else if t == "target" then TargetKind
    else if t == "lang" then LangKind
    else if IsExternalType(t) then ExternalKind
    else UnknownKind
  }

  lemma {:induction false} KindNames()
    ensures KindOf("domain") == DomainKind && KindOf("bind") == BindKind && KindOf("internal") == InternalKind
    ensures KindOf("target") == TargetKind && KindOf("lang") == LangKind
  {
  }

  lemma {:induction false} RuleKindIff(t: string)
    ensures KindOf(t) == RuleKind <==> IsRuleType(t)
  {
  }

  lemma {:induction false} OpNames()
    ensures OpOf("peer-add") == PeerAdd && OpOf("set-bot") == SetBot && OpOf("set-lang") == SetLang
  {
  }

  /** DomainHandler.Validate */
  function DomainCheck(cmd: Command): Option<ErrorCode> {
    if cmd.verb.View? then
      if !IsPlaceholder(cmd.scope) && DomainScopeOf(cmd.scope).Err? then Some(BadFormat)
      else if !IsPlaceholder(cmd.params) then Some(BadParams)
      else None
    else if IsPlaceholder(cmd.scope) || DomainScopeOf(cmd.scope).Err? then Some(BadFormat)
    else if cmd.verb.Write? && !OriginAccepted(cmd.params) then Some(BadParams)
    else None
  }

  function RunDomain(w: World, cmd: Command): Step {
    match DomainCheck(cmd)
    case Some(code) => Keep(w, code)
    case None =>
      match cmd.verb
      case View => Step(w, Ok(NO_EFFECTS))
      case Write => DomainWrite(w, cmd)
      case Delete => DomainDelete(w, cmd)
  }

  /** CacheHandler.Validate and validateRuleObject */
  function ObjectCheck(env: Env, cmd: Command): Option<ErrorCode>
    requires IsRuleType(cmd.typ)
  {
    if cmd.verb.View? then None
    else if IsPlaceholder(cmd.scope) || !IsObjectName(cmd.scope) then Some(BadFormat)
    else if cmd.verb.Write? && !ParamsAccepted(env, cmd.typ, cmd.params) then Some(BadParams)
    else None
  }

  function RunObject(env: Env, w: World, cmd: Command): Step
    requires IsRuleType(cmd.typ)
  {
    match ObjectCheck(env, cmd)
    case Some(code) => Keep(w, code)
    case None =>
      match cmd.verb
      case View => Step(w, Ok(NO_EFFECTS))
      case Write => ObjectWrite(env, w, cmd)
      case Delete => ObjectDelete(w, cmd)
  }

  /** BindHandler.Validate */
  function BindCheck(cmd: Command): Option<ErrorCode> {
    if cmd.verb.View? then None
    else if IsPlaceholder(cmd.scope) || DomainScopeOf(cmd.scope).Err? then Some(BadFormat)
    else
      match ParseObjectRef(cmd.params)
      case Err(_) => Some(BadParams)
      case Ok(o) =>
        if o.typ == "" && cmd.verb.Write? then Some(BadParams)
        else if o.typ != "" && !IsRuleType(o.typ) then Some(BadParams)
        else if o.name != "" && !IsObjectName(o.name) then Some(BadParams)
        else None
  }

  function RunBind(w: World, cmd: Command): Step {
    match BindCheck(cmd)
    case Some(code) => Keep(w, code)
    case None =>
      match cmd.verb
      case View => if ParseObjectRef(cmd.params).Err? then Keep(w, BadParams) else Step(w, Ok(NO_EFFECTS))
      case Write => BindWrite(w, cmd)
      case Delete => BindDelete(w, cmd)
  }

  function RunInternal(env: Env, w: World, cmd: Command): Step {
    var op, f := OpOf(cmd.scope), Fields(cmd.params);
    match OpCheck(env, op, cmd.verb, f)
    case Some(code) => Keep(w, code)
    case None =>
      match cmd.verb
      case View => Step(w, Ok(NO_EFFECTS))
      case Write => InternalWrite(env, w, op, f)
      case Delete => InternalDelete(env, w, op, f)
  }

  function RunTarget(env: Env, w: World, cmd: Command): Step {
    if !cmd.verb.View? || IsPlaceholder(cmd.scope) || !env.parseIP(cmd.scope) then Keep(w, BadFormat)
    else TargetView(w, cmd)
  }

  function RunLang(w: World, cmd: Command): Step {
    if !cmd.verb.View? then Keep(w, BadFormat)
    else if !IsPlaceholder(cmd.scope) && ParseLang(cmd.scope).None? then Keep(w, BadParams)
    else LangView(w, cmd)
  }

  /** Look up the handler, validate and run one parsed command. extOk says whether a
      command of an external type succeeds. */
  function Run(env: Env, w: World, cmd: Command, extOk: bool): Step {
    match KindOf(cmd.typ)
    case DomainKind => RunDomain(w, cmd)
    case RuleKind => RunObject(env, w, cmd)
    case BindKind => RunBind(w, cmd)
    case InternalKind => RunInternal(env, w, cmd)
    case TargetKind => RunTarget(env, w, cmd)
    case LangKind => RunLang(w, cmd)
    case ExternalKind => Step(w, if extOk then Ok(NO_EFFECTS) else Err(Internal))
    case UnknownKind => Keep(w, Internal)
  }

  // ---- port protocols ----

  datatype Enforced = Enforced(ports: map<int, string>, ok: bool)

  /** EnforcePortBindings: a conflict stops it and leaves the earlier rows written. */
  function Enforce(ports: map<int, string>, bindings: seq<PortBinding>, force: bool): Enforced
    decreases |bindings|
  {
    if bindings == [] then Enforced(ports, true)
    else
      var b := bindings[0];
      if b.port !in ports then Enforce(ports[b.port := b.protocol], bindings[1..], force)
      else if ports[b.port] == b.protocol then Enforce(ports, bindings[1..], force)
      else if force then Enforce(ports[b.port := b.protocol], bindings[1..], force)
      else Enforced(ports, false)
  }

  predicate Conflicts(ports: map<int, string>, bindings: seq<PortBinding>) {
    exists i | 0 <= i < |bindings| :: bindings[i].port in ports && ports[bindings[i].port] != bindings[i].protocol
  }

  ghost predicate OnePortEach(bindings: seq<PortBinding>) {
    forall i, j | 0 <= i < j < |bindings| :: bindings[i].port != bindings[j].port
  }

  /** The meaning of EnforcePortBindings for one command's ports: it fails exactly on an
      unforced clash with the table; on success every named port carries the protocol
      asked for and no other port moves; existing ports never disappear. */
  lemma {:induction false} EnforceMeaning(ports: map<int, string>, bindings: seq<PortBinding>, force: bool)
    requires OnePortEach(bindings)
    ensures var e := Enforce(ports, bindings, force);
      && (e.ok <==> force || !Conflicts(ports, bindings))
      && ports.Keys <= e.ports.Keys
      && (forall p | p in ports && (!force || !Names(bindings, p)) :: e.ports[p] == ports[p])
      && (forall p | p in e.ports && p !in ports :: Names(bindings, p))
      && (e.ok ==> forall i | 0 <= i < |bindings| ::
           bindings[i].port in e.ports && e.ports[bindings[i].port] == bindings[i].protocol)
  {
    EnforceOk(ports, bindings, force);
    EnforceKept(ports, bindings, force);
    if Enforce(ports, bindings, force).ok {
      EnforceDone(ports, bindings, force);
    }
  }

  function EnforceNext(ports: map<int, string>, b: PortBinding): map<int, string> {
    if b.port in ports && ports[b.port] == b.protocol then ports else ports[b.port := b.protocol]
  }

  lemma {:induction false} EnforceStep(ports: map<int, string>, bindings: seq<PortBinding>, force: bool)
    requires bindings != []
    ensures var b := bindings[0];
      Enforce(ports, bindings, force) ==
      if b.port in ports && ports[b.port] != b.protocol && !force then Enforced(ports, false)
      else Enforce(EnforceNext(ports, b), bindings[1..], force)
  {
  }

  lemma {:induction false} EnforceOk(ports: map<int, string>, bindings: seq<PortBinding>, force: bool)
    requires OnePortEach(bindings)
    ensures Enforce(ports, bindings, force).ok <==> force || !Conflicts(ports, bindings)
    decreases |bindings|
  {
    hide Enforce;
    if bindings == [] {
      EnforceNothing(ports, force);
    } else {
      var b := bindings[0];
      EnforceStep(ports, bindings, force);
      if b.port in ports && ports[b.port] != b.protocol && !force {
        assert Conflicts(ports, bindings);
      } else {
        EnforceOk(EnforceNext(ports, b), bindings[1..], force);
        if !force {
          EnforceConflictStep(ports, EnforceNext(ports, b), bindings);
        }
      }
    }
  }

  lemma {:induction false} EnforceNothing(ports: map<int, string>, force: bool)
    ensures Enforce(ports, [], force) == Enforced(ports, true)
  {
  }

  ghost predicate Names(bindings: seq<PortBinding>, port: int) {
    exists i :: 0 <= i < |bindings| && bindings[i].port == port
  }

  lemma {:induction false} NamesTail(bindings: seq<PortBinding>, port: int)
    requires bindings != []
    ensures Names(bindings, port) <==> bindings[0].port == port || Names(bindings[1..], port)
  {
    var rest := bindings[1..];
    if Names(bindings, port) {
      var i :| 0 <= i < |bindings| && bindings[i].port == port;
      assert i > 0 ==> rest[i - 1].port == port;
    }
    if Names(rest, port) {
      var i :| 0 <= i < |rest| && rest[i].port == port;
      assert bindings[i + 1].port == port;
    }
  }

  lemma {:induction false} EnforceKept(ports: map<int, string>, bindings: seq<PortBinding>, force: bool)
    ensures var e := Enforce(ports, bindings, force);
      && ports.Keys <= e.ports.Keys
      && (forall p | p in ports && (!force || !Names(bindings, p)) :: e.ports[p] == ports[p])
      && (forall p | p in e.ports && p !in ports :: Names(bindings, p))
    decreases |bindings|
  {
    hide Enforce, Names;
    if bindings == [] {
      EnforceNothing(ports, force);
    } else {
      EnforceStep(ports, bindings, force);
      EnforceKept(EnforceNext(ports, bindings[0]), bindings[1..], force);
      forall p: int
        ensures Names(bindings, p) <==> bindings[0].port == p || Names(bindings[1..], p)
      {
        NamesTail(bindings, p);
      }
    }
  }

  lemma {:induction false} EnforceDone(ports: map<int, string>, bindings: seq<PortBinding>, force: bool)
    requires OnePortEach(bindings) && Enforce(ports, bindings, force).ok
    ensures var e := Enforce(ports, bindings, force);
      forall i | 0 <= i < |bindings| :: bindings[i].port in e.ports && e.ports[bindings[i].port] == bindings[i].protocol
    decreases |bindings|
  {
    hide Enforce;
    if bindings != [] {
      var b, rest := bindings[0], bindings[1..];
      EnforceStep(ports, bindings, force);
      EnforceDone(EnforceNext(ports, b), rest, force);
      EnforceKept(EnforceNext(ports, b), rest, force);
      assert !Names(rest, b.port);
      assert forall i | 0 < i < |bindings| :: bindings[i] == rest[i - 1];
    }
  }

  lemma {:induction false} EnforceConflictStep(ports: map<int, string>, next: map<int, string>, bindings: seq<PortBinding>)
    requires bindings != [] && OnePortEach(bindings)
    requires next == ports || next == ports[bindings[0].port := bindings[0].protocol]
    requires !(bindings[0].port in ports && ports[bindings[0].port] != bindings[0].protocol)
    ensures Conflicts(ports, bindings) <==> Conflicts(next, bindings[1..])
  {
    var rest := bindings[1..];
    if Conflicts(ports, bindings) {
      var i :| 0 <= i < |bindings| && bindings[i].port in ports && ports[bindings[i].port] != bindings[i].protocol;
      assert rest[i - 1] == bindings[i];
    }
    if Conflicts(next, rest) {
      var i :| 0 <= i < |rest| && rest[i].port in next && next[rest[i].port] != rest[i].protocol;
      assert rest[i] == bindings[i + 1];
    }
  }
}
