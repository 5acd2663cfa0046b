/** What an export of the database consists of, section by section, and what running
    each section does (internal/snapshot/snapshot.go, internal/command/executor.go). */
module Exports {
  import opened Text
  import opened Commands
  import opened Scopes
  import opened Rules
  import opened Peers
  import opened Store
  import opened Invariants
  import opened Batches
  import opened Snapshots

  // ---- what Export writes ----

  /** The order in which Export visits each table. */
  datatype Order = Order(peers: seq<string>, displays: seq<string>, objects: seq<ObjKey>, bindings: seq<Binding>)

  /** s visits each element of elems once. */
  ghost predicate Visits<T(!new)>(s: seq<T>, elems: set<T>) {
    && (forall x :: x in s <==> x in elems)
    && (forall i, j | 0 <= i < j < |s| :: s[i] != s[j])
  }

  function Displays(domains: map<string, Row>): set<string> {
    set c | c in domains :: domains[c].display
  }

  /** SELECT display_scope, MIN(origin) ... GROUP BY display_scope */
  ghost predicate IsMinOrigin(domains: map<string, Row>, display: string, origin: string) {
    && (exists c | c in domains :: domains[c] == Row(display, origin))
    && (forall c | c in domains && domains[c].display == display :: !Less(domains[c].origin, origin))
  }

  function PeerCommand(ip: string, order: int): Command {
    Command(Write, "internal", "peer-add", ip + " " + Itoa(order))
  }

  function BotCommands(bot: string): seq<Command> {
    if bot == "" then [] else [Command(Write, "internal", "set-bot", bot)]
  }

  function LangCommands(lang: string): seq<Command> {
    if lang == "" then [] else [Command(Write, "internal", "set-lang", lang)]
  }

  function DomainCommand(display: string, origin: string): Command {
    Command(Write, "domain", display, origin)
  }

  function ObjectCommand(k: ObjKey, text: string): Command {
    Command(Write, k.typ, k.name, text)
  }

  function BindCommand(b: Binding): Command {
    Command(Write, "bind", b.scope, PrintObjectRef(ObjectRef(b.typ, b.name)))
  }

  ghost predicate PeerSection(db: DB, order: seq<string>, cmds: seq<Command>) {
    && Visits(order, db.peers.Keys)
    && |cmds| == |order|
    && forall i | 0 <= i < |order| :: cmds[i] == PeerCommand(order[i], db.peers[order[i]])
  }

  ghost predicate DomainSection(db: DB, order: seq<string>, cmds: seq<Command>) {
    && Visits(order, Displays(db.domains))
    && |cmds| == |order|
    && forall i | 0 <= i < |order| ::
         cmds[i] == DomainCommand(order[i], cmds[i].params) && IsMinOrigin(db.domains, order[i], cmds[i].params)
  }

  ghost predicate ObjectSection(db: DB, order: seq<ObjKey>, cmds: seq<Command>) {
    && Visits(order, db.objects.Keys)
    && |cmds| == |order|
    && forall i | 0 <= i < |order| :: cmds[i] == ObjectCommand(order[i], db.objects[order[i]].text)
  }

  ghost predicate BindSection(db: DB, order: seq<Binding>, cmds: seq<Command>) {
    && Visits(order, db.bindings)
    && |cmds| == |order|
    && forall i | 0 <= i < |order| :: cmds[i] == BindCommand(order[i])
  }

  datatype Sections = Sections(peers: seq<Command>, domains: seq<Command>, objects: seq<Command>, bindings: seq<Command>)

  function AllCommands(db: DB, s: Sections): seq<Command> {
    s.peers + BotCommands(db.bot) + LangCommands(db.lang) + s.domains + s.objects + s.bindings
  }

  /** The sections Export may write, one command per row or group, in some visiting order. */
  ghost predicate IsExport(db: DB, o: Order, s: Sections) {
    && PeerSection(db, o.peers, s.peers)
    && DomainSection(db, o.displays, s.domains)
    && ObjectSection(db, o.objects, s.objects)
    && BindSection(db, o.bindings, s.bindings)
  }

  function Printed(cmds: seq<Command>): seq<string> {
    seq(|cmds|, i requires 0 <= i < |cmds| => Print(cmds[i]))
  }

  ghost predicate IsSnapshotOf(db: DB, o: Order, s: Sections, snap: Snapshot) {
    && IsExport(db, o, s)
    && snap.header.version == db.version
    && snap.commands == Printed(AllCommands(db, s))
  }

  // ---- running a list of commands that all succeed ----

  /** The world after running every command, None when one of them fails. */
  function RunAll(env: Env, forced: bool, w: World, cmds: seq<Command>): Option<World>
    decreases |cmds|
  {
    if cmds == [] then Some(w)
    else
      var res := RunOne(env, forced, w, cmds[0], false);
      if res.outcome.r.Err? then None else RunAll(env, forced, res.w, cmds[1..])
  }

  lemma {:induction false} RunAllAppend(env: Env, forced: bool, w: World, a: seq<Command>, b: seq<Command>)
    requires RunAll(env, forced, w, a).Some?
    ensures RunAll(env, forced, w, a + b) == RunAll(env, forced, RunAll(env, forced, w, a).value, b)
    decreases |a|
  {
    if a == [] {
      assert a + b == b;
    } else {
      assert (a + b)[1..] == a[1..] + b;
      RunAllAppend(env, forced, RunOne(env, forced, w, a[0], false).w, a[1..], b);
    }
  }

  lemma {:induction false} RunAllSingle(env: Env, forced: bool, w: World, cmd: Command)
    ensures RunAll(env, forced, w, [cmd]) ==
      var res := RunOne(env, forced, w, cmd, false);
      if res.outcome.r.Err? then None else Some(res.w)
  {
    assert [cmd][1..] == [];
  }

  /** The entries of m whose keys are listed. */
  function Restrict<K, V>(m: map<K, V>, keys: seq<K>): map<K, V> {
    map k | k in m && k in keys :: m[k]
  }

  lemma {:induction false} RestrictEmpty<K, V>(start: map<K, V>, m: map<K, V>)
    ensures start + Restrict(m, []) == start
  {
    assert Restrict(m, []) == map[];
  }

  lemma {:induction false} RestrictStep<K, V>(start: map<K, V>, m: map<K, V>, keys: seq<K>)
    requires keys != [] && keys[0] in m
    ensures start[keys[0] := m[keys[0]]] + Restrict(m, keys[1..]) == start + Restrict(m, keys)
  {
    assert keys == [keys[0]] + keys[1..];
  }

  lemma {:induction false} RestrictAll<K, V>(m: map<K, V>, keys: seq<K>)
    requires forall k | k in m :: k in keys
    ensures Restrict(m, keys) == m
  {
  }

  // ---- single commands of an export ----

  lemma {:induction false} PairFields(a: string, b: string)
    requires Token(a) && Token(b)
    ensures Fields(a + " " + b) == [a, b]
    ensures Normal(a + " " + b)
  {
    FieldsJoin([a, b]);
    assert [a, b][1..] == [b];
    assert Join([a, b], " ") == a + " " + b;
    JoinIsNormal([a, b]);
  }

  lemma {:induction false} RunOneQuiet(env: Env, forced: bool, w: World, cmd: Command)
    requires !IsDomainWrite(cmd)
    ensures var s := Run(env, w, cmd, false); RunOne(env, forced, w, cmd, false) == LineResult(s.w, Outcome(s.r, false))
  {
    RunFrame(env, w, cmd, false);
  }

  lemma {:induction false} InternalWriteRuns(env: Env, forced: bool, w: World, scope: string, params: string)
    requires OpCheck(env, OpOf(scope), Write, Fields(params)).None?
    ensures var s := InternalWrite(env, w, OpOf(scope), Fields(params));
      RunOne(env, forced, w, Command(Write, "internal", scope, params), false) == LineResult(s.w, Outcome(s.r, false))
  {
    KindNames();
    RunOneQuiet(env, forced, w, Command(Write, "internal", scope, params));
  }

  lemma {:induction false} PeerCommandRuns(env: Env, forced: bool, w: World, ip: string, order: int)
    requires Token(ip) && env.parseIP(ip) && IsInt64(order)
    ensures RunOne(env, forced, w, PeerCommand(ip, order), false) ==
            LineResult(WithPeer(w, ip, order), Outcome(Ok(NO_EFFECTS), false))
  {
    ItoaToken(order);
    OpNames();
    PairFields(ip, Itoa(order));
    PeerFieldsRead(env, w, ip, order);
    InternalWriteRuns(env, forced, w, "peer-add", ip + " " + Itoa(order));
  }

  lemma {:induction false} PeerFieldsRead(env: Env, w: World, ip: string, order: int)
    requires env.parseIP(ip) && IsInt64(order)
    ensures OpCheck(env, PeerAdd, Write, [ip, Itoa(order)]).None?
    ensures InternalWrite(env, w, PeerAdd, [ip, Itoa(order)]) == Step(WithPeer(w, ip, order), Ok(NO_EFFECTS))
  {
    ParseItoa(order);
    NotDash(order);
  }

  lemma {:induction false} NotDash(n: int)
    requires IsInt64(n)
    ensures Itoa(n) != "-"
  {
    ParseItoa(n);
    assert ParseInt("-").None?;
  }

  lemma {:induction false} LangCodeFixed(l: string)
    requires IsLang(l)
    ensures Token(l) && l != "-" && ParseLang(l) == Some(l)
  {
    assert ToLower(l) == l;
  }

  lemma {:induction false} BotCommandsRun(env: Env, forced: bool, w: World, bot: string)
    requires bot == "" || (Token(bot) && env.parseIP(bot) && bot != "-")
    ensures RunAll(env, forced, w, BotCommands(bot)) ==
            Some(w.(db := w.db.(bot := if bot == "" then w.db.bot else bot)))
  {
    if bot != "" {
      TokenIsNormal(bot);
      OpNames();
      InternalWriteRuns(env, forced, w, "set-bot", bot);
      RunAllSingle(env, forced, w, BotCommands(bot)[0]);
    }
  }

  lemma {:induction false} LangCommandsRun(env: Env, forced: bool, w: World, lang: string)
    requires lang == "" || IsLang(lang)
    ensures RunAll(env, forced, w, LangCommands(lang)) ==
            Some(w.(db := w.db.(lang := if lang == "" then w.db.lang else lang)))
  {
    if lang != "" {
      LangCodeFixed(lang);
      TokenIsNormal(lang);
      OpNames();
      InternalWriteRuns(env, forced, w, "set-lang", lang);
      RunAllSingle(env, forced, w, LangCommands(lang)[0]);
    }
  }

  // ---- the peers section ----

  function FileAfter(file: Option<seq<Peer>>, ips: seq<string>): (r: Option<seq<Peer>>)
    ensures r.Some? == file.Some?
    decreases |ips|
  {
    if ips == [] then file
    else FileAfter(if file.Some? then Some(Added(file.value, ips[0])) else None, ips[1..])
  }

  lemma {:induction false} PeersSectionRuns(env: Env, forced: bool, w: World, peers: map<string, int>,
                                            order: seq<string>, cmds: seq<Command>)
    requires PeersOk(env, peers) && |cmds| == |order|
    requires forall i | 0 <= i < |order| :: order[i] in peers && cmds[i] == PeerCommand(order[i], peers[order[i]])
    ensures RunAll(env, forced, w, cmds) ==
      Some(World(w.db.(peers := w.db.peers + Restrict(peers, order)), FileAfter(w.file, order)))
    decreases |cmds|
  {
    if cmds == [] {
      RestrictEmpty(w.db.peers, peers);
    } else {
      var ip := order[0];
      PeerCommandRuns(env, forced, w, ip, peers[ip]);
      var w1 := WithPeer(w, ip, peers[ip]);
      PeersSectionRuns(env, forced, w1, peers, order[1..], cmds[1..]);
      RestrictStep(w.db.peers, peers, order);
    }
  }

  // ---- the domains section ----

  /** rows holds part of the database's rows. */
  ghost predicate Within(rows: map<string, Row>, domains: map<string, Row>) {
    forall c | c in rows :: c in domains && domains[c] == rows[c]
  }

  function RowsOf(domains: map<string, Row>, displays: seq<string>): map<string, Row> {
    map c | c in domains && domains[c].display in displays :: domains[c]
  }

  /** canons are exactly the endpoints of a display scope, all stored as the same row. */
  ghost predicate IsGroup(domains: map<string, Row>, display: string, origin: string, canons: set<string>) {
    && canons <= domains.Keys
    && (forall c | c in canons :: domains[c] == Row(display, origin))
    && (forall c | c in domains && domains[c].display == display :: c in canons)
  }

  /** MIN(origin) over a group is the group's one origin. */
  lemma {:induction false} GroupOfMin(domains: map<string, Row>, display: string, origin: string)
    requires DomainsOk(domains) && IsMinOrigin(domains, display, origin)
    ensures DomainScopeOf(display).Ok? && OriginAccepted(origin) && Normal(origin)
    ensures IsGroup(domains, display, origin, CanonSet(DomainScopeOf(display).value))
  {
    var w :| w in domains && domains[w] == Row(display, origin);
    assert RowOk(domains, w);
    forall c | c in domains && domains[c].display == display
      ensures c in CanonSet(DomainScopeOf(display).value)
    {
      assert RowOk(domains, c);
    }
  }

  /** Writing a group back under its display scope is allowed over any part of the rows,
      and stores exactly the group's rows. */
  lemma {:induction false} GroupRows(domains: map<string, Row>, rows: map<string, Row>, display: string, origin: string,
                                     canons: set<string>)
    requires IsGroup(domains, display, origin, canons) && Within(rows, domains)
    ensures !OwnedByOther(rows, canons, display)
    ensures (map c | c in canons :: Row(display, origin)) == RowsOf(domains, [display])
  {
  }

  lemma {:induction false} DomainCommandIsWrite(display: string, origin: string)
    requires DomainScopeOf(display).Ok? && OriginAccepted(origin)
    ensures IsDomainWrite(DomainCommand(display, origin))
  {
    KindNames();
    ScopeParsed(display);
  }

  /** What one exported domain command does: it succeeds, adds its group's rows, and
      leaves everything but the rows and the port table alone. */
  lemma {:induction false} DomainCommandRuns(env: Env, forced: bool, w: World, domains: map<string, Row>,
                                             display: string, origin: string)
    requires DomainsOk(domains) && Within(w.db.domains, domains)
    requires IsMinOrigin(domains, display, origin)
    requires forced || PortsAgree(domains, w.db.ports)
    ensures DomainScopeOf(display).Ok?
    ensures var res := RunOne(env, forced, w, DomainCommand(display, origin), false);
      var sc := DomainScopeOf(display).value;
      && res.outcome.r.Ok? && ScopeOk(sc)
      && res.w == World(w.db.(domains := w.db.domains + RowsOf(domains, [display]),
                              ports := Enforce(w.db.ports, PortBindings(sc), forced).ports), w.file)
  {
    var cmd := DomainCommand(display, origin);
    GroupOfMin(domains, display, origin);
    var sc := DomainScopeOf(display).value;
    GroupRows(domains, w.db.domains, display, origin, CanonSet(sc));
    ScopeParsed(display);
    DomainCommandIsWrite(display, origin);
    DomainWriteRuns(env, forced, w, cmd);
    if forced {
      EnforceForced(w.db.ports, sc);
    } else {
      EnforceUnforced(w.db.ports, sc);
      NoConflict(domains, w.db.ports, sc);
    }
  }

  lemma {:induction false} DomainWriteRuns(env: Env, forced: bool, w: World, cmd: Command)
    requires IsDomainWrite(cmd)
    requires !OwnedByOther(w.db.domains, CanonSet(DomainScopeOf(cmd.scope).value), cmd.scope)
    ensures var sc := DomainScopeOf(cmd.scope).value;
      var e := Enforce(w.db.ports, PortBindings(sc), forced);
      var res := RunOne(env, forced, w, cmd, false);
      && ScopeOk(sc)
      && res.outcome.r.Ok? == e.ok
      && res.w == World(w.db.(domains := w.db.domains + (map c | c in CanonSet(sc) :: Row(cmd.scope, cmd.params)),
                              ports := e.ports), w.file)
  {
    ScopeParsed(cmd.scope);
    RunFrame(env, w, cmd, false);
    PortBindingsOnce(DomainScopeOf(cmd.scope).value);
  }

  lemma {:induction false} NoConflict(domains: map<string, Row>, ports: map<int, string>, sc: DomainScope)
    requires ScopeOk(sc) && CanonSet(sc) <= domains.Keys && PortsAgree(domains, ports)
    ensures !Conflicts(ports, PortBindings(sc))
    ensures forall i | 0 <= i < |sc.ports| :: sc.ports[i] in ports && ports[sc.ports[i]] == sc.proto
  {
    forall c | c in CanonSet(sc)
      ensures RowAgrees(c, ports)
    {
    }
    AgreeingRows(sc, ports);
  }

  /** The ports a set of rows uses, each under the protocol of some row. */
  function PortsOf(domains: map<string, Row>): set<int> {
    set c | c in domains && EndpointOf(c).Some? :: EndpointOf(c).value.port
  }

  ghost predicate PortsFrom(domains: map<string, Row>, ports: map<int, string>) {
    && ports.Keys == PortsOf(domains)
    && forall p | p in ports :: UsedAs(domains, p, ports[p])
  }

  ghost predicate UsedAs(domains: map<string, Row>, port: int, proto: string) {
    exists c | c in domains :: EndpointOf(c).Some? && EndpointOf(c).value.port == port && EndpointOf(c).value.proto == proto
  }

  lemma {:induction false} EndpointsOfScope(sc: DomainScope)
    requires ScopeOk(sc)
    ensures forall c | c in CanonSet(sc) ::
      EndpointOf(c).Some? && EndpointOf(c).value.port in sc.ports && EndpointOf(c).value.proto == sc.proto
    ensures forall p | p in sc.ports :: exists c :: c in CanonSet(sc) && EndpointOf(c).value.port == p
  {
    forall i | 0 <= i < |sc.ports|
      ensures var c := Canonical(sc.proto, sc.host, sc.ports[i]);
        c in CanonSet(sc) && EndpointOf(c).Some? && EndpointOf(c).value.port == sc.ports[i]
        && EndpointOf(c).value.proto == sc.proto
    {
      EndpointOfCanonical(sc, i);
    }
  }

  lemma {:induction false} ScopePorts(sc: DomainScope, more: map<string, Row>)
    requires ScopeOk(sc) && more.Keys == CanonSet(sc)
    ensures PortsOf(more) == set p | p in sc.ports
  {
    EndpointsOfScope(sc);
  }

  lemma {:induction false} PortsOfUnion(rows: map<string, Row>, more: map<string, Row>)
    ensures PortsOf(rows + more) == PortsOf(rows) + PortsOf(more)
  {
    var all := rows + more;
    assert all.Keys == rows.Keys + more.Keys;
    forall p | p in PortsOf(rows) + PortsOf(more)
      ensures p in PortsOf(all)
    {
      var c :| (c in rows || c in more) && EndpointOf(c).Some? && EndpointOf(c).value.port == p;
      assert c in all;
    }
  }

  lemma {:induction false} MorePorts(rows: map<string, Row>, sc: DomainScope, more: map<string, Row>)
    requires ScopeOk(sc) && more.Keys == CanonSet(sc)
    ensures PortsOf(rows + more) == PortsOf(rows) + (set p | p in sc.ports)
  {
    ScopePorts(sc, more);
    PortsOfUnion(rows, more);
  }

  lemma {:induction false} UsedAsMore(rows: map<string, Row>, more: map<string, Row>, port: int, proto: string)
    requires UsedAs(rows, port, proto) || UsedAs(more, port, proto)
    ensures UsedAs(rows + more, port, proto)
  {
    var all := rows + more;
    if UsedAs(rows, port, proto) {
      var c :| c in rows && EndpointOf(c).Some? && EndpointOf(c).value.port == port && EndpointOf(c).value.proto == proto;
      assert c in all;
    } else {
      var c :| c in more && EndpointOf(c).Some? && EndpointOf(c).value.port == port && EndpointOf(c).value.proto == proto;
      assert c in all;
    }
  }

  lemma {:induction false} ScopeUses(sc: DomainScope, more: map<string, Row>, port: int)
    requires ScopeOk(sc) && more.Keys == CanonSet(sc) && port in sc.ports
    ensures UsedAs(more, port, sc.proto)
  {
    EndpointsOfScope(sc);
    var c :| c in CanonSet(sc) && EndpointOf(c).value.port == port;
    assert c in more;
  }

  lemma {:induction false} PortsFromStep(rows: map<string, Row>, ports: map<int, string>, sc: DomainScope,
                                         more: map<string, Row>, ports': map<int, string>)
    requires ScopeOk(sc) && more.Keys == CanonSet(sc)
    requires PortsFrom(rows, ports)
    requires ports'.Keys == ports.Keys + (set p | p in sc.ports)
    requires forall p | p in ports' :: ports'[p] == if p in sc.ports then sc.proto else ports[p]
    ensures PortsFrom(rows + more, ports')
  {
    MorePorts(rows, sc, more);
    forall p | p in ports'
      ensures UsedAs(rows + more, p, ports'[p])
    {
      if p in sc.ports {
        ScopeUses(sc, more, p);
      }
      UsedAsMore(rows, more, p, ports'[p]);
    }
  }

  lemma {:induction false} RowsSplit(domains: map<string, Row>, rows: map<string, Row>, order: seq<string>)
    requires order != []
    ensures rows + RowsOf(domains, [order[0]]) + RowsOf(domains, order[1..]) == rows + RowsOf(domains, order)
    ensures Within(rows, domains) ==> Within(rows + RowsOf(domains, [order[0]]), domains)
  {
    assert order == [order[0]] + order[1..];
  }

  lemma {:induction false} PortsFromForced(rows: map<string, Row>, ports: map<int, string>, sc: DomainScope, more: map<string, Row>)
    requires ScopeOk(sc) && more.Keys == CanonSet(sc) && PortsFrom(rows, ports)
    ensures PortsFrom(rows + more, Enforce(ports, PortBindings(sc), true).ports)
  {
    EnforceForced(ports, sc);
    PortsFromStep(rows, ports, sc, more, Enforce(ports, PortBindings(sc), true).ports);
  }

  /** The domain commands of an export, one per display visited. */
  ghost predicate DomainRun(domains: map<string, Row>, order: seq<string>, cmds: seq<Command>) {
    && |cmds| == |order|
    && forall i | 0 <= i < |order| ::
         cmds[i] == DomainCommand(order[i], cmds[i].params) && IsMinOrigin(domains, order[i], cmds[i].params)
  }

  lemma {:induction false} DomainRunTail(domains: map<string, Row>, order: seq<string>, cmds: seq<Command>)
    requires DomainRun(domains, order, cmds) && cmds != []
    ensures DomainRun(domains, order[1..], cmds[1..])
    ensures cmds[0] == DomainCommand(order[0], cmds[0].params) && IsMinOrigin(domains, order[0], cmds[0].params)
  {
  }

  lemma {:induction false} ForcedStep(env: Env, w: World, domains: map<string, Row>, display: string, origin: string)
    requires DomainsOk(domains) && Within(w.db.domains, domains) && PortsFrom(w.db.domains, w.db.ports)
    requires IsMinOrigin(domains, display, origin)
    ensures var res := RunOne(env, true, w, DomainCommand(display, origin), false);
      res.outcome.r.Ok? && RowsStored(w, res.w, RowsOf(domains, [display]))
  {
    hide Enforce, DomainScopeOf, CanonSet, RunOne, PortBindings, DomainsOk, IsMinOrigin, Within, PortsFrom;
    DomainCommandRuns(env, true, w, domains, display, origin);
    GroupOfMin(domains, display, origin);
    var sc := DomainScopeOf(display).value;
    GroupRows(domains, w.db.domains, display, origin, CanonSet(sc));
    PortsFromForced(w.db.domains, w.db.ports, sc, RowsOf(domains, [display]));
  }

  lemma {:induction false} NoRows(rows: map<string, Row>, domains: map<string, Row>)
    ensures rows + RowsOf(domains, []) == rows
  {
    assert RowsOf(domains, []) == map[];
  }

  /** Replaying the domain commands in force stores exactly the rows of the displays
      visited, and a port table that records exactly the ports of the rows stored. */
  lemma {:induction false} DomainsSectionForced(env: Env, w: World, domains: map<string, Row>,
                                                order: seq<string>, cmds: seq<Command>)
    requires DomainsOk(domains) && Within(w.db.domains, domains) && PortsFrom(w.db.domains, w.db.ports)
    requires DomainRun(domains, order, cmds)
    ensures RunAll(env, true, w, cmds).Some?
    ensures RowsStored(w, RunAll(env, true, w, cmds).value, RowsOf(domains, order))
    decreases |cmds|
  {
    if cmds == [] {
      NoRows(w.db.domains, domains);
    } else {
      DomainRunTail(domains, order, cmds);
      ForcedStep(env, w, domains, order[0], cmds[0].params);
      RowsSplit(domains, w.db.domains, order);
      var w1 := RunOne(env, true, w, cmds[0], false).w;
      RunAllCons(env, true, w, cmds, w1);
      DomainsSectionForced(env, w1, domains, order[1..], cmds[1..]);
      RowsStoredTwice(w, w1, RunAll(env, true, w1, cmds[1..]).value, domains, order);
    }
  }

  /** w' is w with more rows and a port table that matches all its rows. */
  ghost predicate RowsStored(w: World, w': World, more: map<string, Row>) {
    && w' == World(w.db.(domains := w.db.domains + more, ports := w'.db.ports), w.file)
    && PortsFrom(w'.db.domains, w'.db.ports)
  }

  lemma {:induction false} RowsStoredTwice(w: World, w1: World, w2: World, domains: map<string, Row>, order: seq<string>)
    requires order != []
    requires RowsStored(w, w1, RowsOf(domains, [order[0]])) && RowsStored(w1, w2, RowsOf(domains, order[1..]))
    ensures RowsStored(w, w2, RowsOf(domains, order))
  {
    RowsSplit(domains, w.db.domains, order);
  }

  lemma {:induction false} RunAllCons(env: Env, forced: bool, w: World, cmds: seq<Command>, w1: World)
    requires cmds != []
    requires var res := RunOne(env, forced, w, cmds[0], false); res.outcome.r.Ok? && res.w == w1
    ensures RunAll(env, forced, w, cmds) == RunAll(env, forced, w1, cmds[1..])
  {
  }

  lemma {:induction false} UnforcedStep(env: Env, w: World, display: string, origin: string)
    requires DomainsOk(w.db.domains) && PortsAgree(w.db.domains, w.db.ports)
    requires IsMinOrigin(w.db.domains, display, origin)
    ensures var res := RunOne(env, false, w, DomainCommand(display, origin), false);
      res.outcome.r.Ok? && res.w == w
  {
    DomainCommandRuns(env, false, w, w.db.domains, display, origin);
    SettledDisplay(w.db.domains, w.db.ports, display, origin);
  }

  lemma {:induction false} SettledDisplay(domains: map<string, Row>, ports: map<int, string>, display: string, origin: string)
    requires DomainsOk(domains) && PortsAgree(domains, ports) && IsMinOrigin(domains, display, origin)
    requires DomainScopeOf(display).Ok?
    ensures Enforce(ports, PortBindings(DomainScopeOf(display).value), false).ports == ports
    ensures domains + RowsOf(domains, [display]) == domains
  {
    GroupOfMin(domains, display, origin);
    ScopeParsed(display);
    SettledScope(domains, ports, DomainScopeOf(display).value);
  }

  lemma {:induction false} SettledScope(domains: map<string, Row>, ports: map<int, string>, sc: DomainScope)
    requires ScopeOk(sc) && CanonSet(sc) <= domains.Keys && PortsAgree(domains, ports)
    ensures Enforce(ports, PortBindings(sc), false).ports == ports
  {
    NoConflict(domains, ports, sc);
    EnforceSettled(ports, PortBindings(sc));
  }

  /** Executing the same commands unforced over tables that agree changes nothing. */
  lemma {:induction false} DomainsSectionUnforced(env: Env, w: World, order: seq<string>, cmds: seq<Command>)
    requires DomainsOk(w.db.domains) && PortsAgree(w.db.domains, w.db.ports)
    requires DomainRun(w.db.domains, order, cmds)
    ensures RunAll(env, false, w, cmds) == Some(w)
    decreases |cmds|
  {
    if cmds != [] {
      DomainRunTail(w.db.domains, order, cmds);
      UnforcedStep(env, w, order[0], cmds[0].params);
      DomainsSectionUnforced(env, w, order[1..], cmds[1..]);
    }
  }

  lemma {:induction false} EnforceSettled(ports: map<int, string>, bindings: seq<PortBinding>)
    requires forall i | 0 <= i < |bindings| :: bindings[i].port in ports && ports[bindings[i].port] == bindings[i].protocol
    ensures Enforce(ports, bindings, false).ports == ports
    decreases |bindings|
  {
    if bindings != [] {
      EnforceSettled(ports, bindings[1..]);
    }
  }

  // ---- the rule objects section ----

  lemma {:induction false} ObjectCommandRuns(env: Env, forced: bool, w: World, k: ObjKey, o: Object)
    requires ObjectOk(env, k, o)
    ensures RunOne(env, forced, w, ObjectCommand(k, o.text), false) ==
            LineResult(w.(db := w.db.(objects := w.db.objects[k := o])), Outcome(Ok(RELOAD), false))
  {
    ObjectNameIsToken(k.name);
    RuleTypeIsToken(k.typ);
    RuleKindIff(k.typ);
    var cmd := ObjectCommand(k, o.text);
    RunOneQuiet(env, forced, w, cmd);
    assert o == Object(o.text, ParamsOf(env, k.typ, o.text).value);
    assert RunObject(env, w, cmd) == ObjectWrite(env, w, cmd);
  }

  /** The object commands of an export, one per object visited. */
  ghost predicate ObjectRun(objects: map<ObjKey, Object>, order: seq<ObjKey>, cmds: seq<Command>) {
    && |cmds| == |order|
    && forall i | 0 <= i < |order| :: order[i] in objects && cmds[i] == ObjectCommand(order[i], objects[order[i]].text)
  }

  lemma {:induction false} ObjectRunTail(objects: map<ObjKey, Object>, order: seq<ObjKey>, cmds: seq<Command>)
    requires ObjectRun(objects, order, cmds) && cmds != []
    ensures ObjectRun(objects, order[1..], cmds[1..])
    ensures order[0] in objects && cmds[0] == ObjectCommand(order[0], objects[order[0]].text)
  {
  }

  lemma {:induction false} ObjectsSectionRuns(env: Env, forced: bool, w: World, objects: map<ObjKey, Object>,
                                              order: seq<ObjKey>, cmds: seq<Command>)
    requires ObjectsOk(env, objects) && ObjectRun(objects, order, cmds)
    ensures RunAll(env, forced, w, cmds) ==
      Some(w.(db := w.db.(objects := w.db.objects + Restrict(objects, order))))
    decreases |cmds|
  {
    if cmds == [] {
      RestrictEmpty(w.db.objects, objects);
    } else {
      var k := order[0];
      ObjectRunTail(objects, order, cmds);
      ObjectCommandRuns(env, forced, w, k, objects[k]);
      var w1 := w.(db := w.db.(objects := w.db.objects[k := objects[k]]));
      ObjectsSectionRuns(env, forced, w1, objects, order[1..], cmds[1..]);
      RestrictStep(w.db.objects, objects, order);
    }
  }

  // ---- the bindings section ----

  lemma {:induction false} BindCommandRuns(env: Env, forced: bool, w: World, b: Binding)
    requires ObjKey(b.typ, b.name) in w.db.objects && HasDisplay(w.db.domains, b.scope)
    requires IsRuleType(b.typ) && IsObjectName(b.name) && DomainScopeOf(b.scope).Ok?
    ensures RunOne(env, forced, w, BindCommand(b), false) ==
            LineResult(w.(db := w.db.(bindings := w.db.bindings + {b})), Outcome(Ok(RELOAD), false))
  {
    hide RunDomain, RunObject, RunInternal, RunTarget, RunLang, DomainScopeOf, IsRuleType, IsObjectName, ParseObjectRef, Enforce;
    var cmd := BindCommand(b);
    ObjectNameIsToken(b.name);
    RuleTypeIsToken(b.typ);
    ScopeParsed(b.scope);
    ParsePrintObjectRef(ObjectRef(b.typ, b.name));
    KindNames();
    RunOneQuiet(env, forced, w, cmd);
    assert ParseObjectRef(cmd.params) == Ok(ObjectRef(b.typ, b.name));
    assert BindCheck(cmd).None?;
    assert RunBind(w, cmd) == BindWrite(w, cmd);
  }

  ghost predicate BindRun(db: DB, order: seq<Binding>, cmds: seq<Command>) {
    && |cmds| == |order|
    && forall i | 0 <= i < |order| :: order[i] in db.bindings && cmds[i] == BindCommand(order[i])
  }

  lemma {:induction false} BindStep(env: Env, forced: bool, w: World, db: DB, b: Binding)
    requires Inv(env, db) && w.db.domains == db.domains && w.db.objects == db.objects && b in db.bindings
    ensures RunOne(env, forced, w, BindCommand(b), false) ==
            LineResult(w.(db := w.db.(bindings := w.db.bindings + {b})), Outcome(Ok(RELOAD), false))
  {
    assert ObjectOk(env, ObjKey(b.typ, b.name), db.objects[ObjKey(b.typ, b.name)]);
    GroupIsExpansion(db.domains, b.scope);
    BindCommandRuns(env, forced, w, b);
  }

  lemma {:induction false} BindingsSectionRuns(env: Env, forced: bool, w: World, db: DB, order: seq<Binding>, cmds: seq<Command>)
    requires Inv(env, db) && w.db.domains == db.domains && w.db.objects == db.objects
    requires BindRun(db, order, cmds)
    ensures RunAll(env, forced, w, cmds) == Some(w.(db := w.db.(bindings := w.db.bindings + set b | b in order)))
    decreases |cmds|
  {
    if cmds == [] {
      assert w.db.bindings + (set b | b in order) == w.db.bindings;
    } else {
      BindStep(env, forced, w, db, order[0]);
      BindRunTail(db, order, cmds);
      BindingsSectionRuns(env, forced, w.(db := w.db.(bindings := w.db.bindings + {order[0]})), db, order[1..], cmds[1..]);
      SetOfCons(w.db.bindings, order);
    }
  }

  lemma {:induction false} BindRunTail(db: DB, order: seq<Binding>, cmds: seq<Command>)
    requires BindRun(db, order, cmds) && cmds != []
    ensures BindRun(db, order[1..], cmds[1..]) && cmds[0] == BindCommand(order[0])
  {
  }

  lemma {:induction false} SetOfCons(start: set<Binding>, order: seq<Binding>)
    requires order != []
    ensures start + {order[0]} + (set b | b in order[1..]) == start + (set b | b in order)
  {
    assert order == [order[0]] + order[1..];
  }
}
