/** One node's configuration database and the methods that change it: the handlers,
    the port table, batch execution, import, membership reconciliation and export
    (internal/command/executor.go, internal/command/portproto.go,
    internal/command/handlers, internal/snapshot). Each method is tied to the step
    function it computes, about which the other modules prove their theorems. */
module Executor {
  import opened Text
  import opened Commands
  import opened Scopes
  import opened Rules
  import opened Peers
  import opened Store
  import opened Invariants
  import opened Batches
  import opened Snapshots
  import opened Exports
  import opened Orders

  lemma {:induction false} CanonPrefixNext(sc: DomainScope, i: nat)
    requires i < |sc.ports|
    ensures CanonPrefix(sc, i + 1) == CanonPrefix(sc, i) + {Canonical(sc.proto, sc.host, sc.ports[i])}
  {
    hide Canonical;
  }

  lemma {:induction false} CanonPrefixEnds(sc: DomainScope)
    ensures CanonPrefix(sc, 0) == {} && CanonPrefix(sc, |sc.ports|) == CanonSet(sc)
  {
  }

  lemma {:induction false} NoneOwned(domains: map<string, Row>, sc: DomainScope, display: string)
    ensures OwnedByOther(domains, CanonPrefix(sc, |sc.ports|), display) <==> OwnedByOther(domains, CanonSet(sc), display)
    ensures !OwnedByOther(domains, CanonPrefix(sc, 0), display)
  {
    CanonPrefixEnds(sc);
  }

  lemma {:induction false} OwnedStep(domains: map<string, Row>, sc: DomainScope, i: nat, display: string)
    requires i < |sc.ports|
    ensures var c := Canonical(sc.proto, sc.host, sc.ports[i]);
      OwnedByOther(domains, CanonPrefix(sc, i + 1), display) <==>
      OwnedByOther(domains, CanonPrefix(sc, i), display) || (c in domains && domains[c].display != display)
  {
    CanonPrefixNext(sc, i);
  }

  lemma {:induction false} OwnedLater(domains: map<string, Row>, sc: DomainScope, i: nat, display: string)
    requires i <= |sc.ports| && OwnedByOther(domains, CanonPrefix(sc, i), display)
    ensures OwnedByOther(domains, CanonSet(sc), display)
  {
    var c :| c in CanonPrefix(sc, i) && c in domains && domains[c].display != display;
    assert c in CanonSet(sc);
  }

  function RowsFor(canons: set<string>, row: Row): map<string, Row> {
    map c | c in canons :: row
  }

  lemma {:induction false} RowsForNext(start: map<string, Row>, sc: DomainScope, i: nat, row: Row)
    requires i < |sc.ports|
    ensures (start + RowsFor(CanonPrefix(sc, i), row))[Canonical(sc.proto, sc.host, sc.ports[i]) := row] ==
            start + RowsFor(CanonPrefix(sc, i + 1), row)
  {
    hide CanonPrefix, Canonical, RowsFor;
    CanonPrefixNext(sc, i);
    OneMoreRow(start, CanonPrefix(sc, i), Canonical(sc.proto, sc.host, sc.ports[i]), row);
  }

  lemma {:induction false} OneMoreRow(start: map<string, Row>, canons: set<string>, c: string, row: Row)
    ensures (start + RowsFor(canons, row))[c := row] == start + RowsFor(canons + {c}, row)
  {
  }

  lemma {:induction false} RowsForEnds(start: map<string, Row>, sc: DomainScope, row: Row)
    ensures start + RowsFor(CanonPrefix(sc, 0), row) == start
    ensures RowsFor(CanonPrefix(sc, |sc.ports|), row) == RowsFor(CanonSet(sc), row)
  {
    CanonPrefixEnds(sc);
    assert RowsFor({}, row) == map[];
  }

  lemma {:induction false} EndpointOwned(domains: map<string, Row>, sc: DomainScope, i: nat, display: string)
    requires i < |sc.ports| && !OwnedByOther(domains, CanonSet(sc), display)
    ensures var c := Canonical(sc.proto, sc.host, sc.ports[i]); c in domains ==> domains[c].display == display
  {
    assert Canonical(sc.proto, sc.host, sc.ports[i]) in CanonSet(sc);
  }

  lemma {:induction false} SortedHasIP(list: seq<Peer>, ip: string)
    ensures (exists i :: 0 <= i < |ByOrder(list)| && ByOrder(list)[i].ip == ip) <==> HasIP(list, ip)
  {
    ByOrderSorts(list);
    var s := ByOrder(list);
    assert forall p :: p in s <==> p in multiset(s);
    assert forall p :: p in list <==> p in multiset(list);
    if HasIP(list, ip) {
      var i :| 0 <= i < |list| && list[i].ip == ip;
      assert list[i] in s;
    }
    if i :| 0 <= i < |s| && s[i].ip == ip {
      assert s[i] in list;
    }
  }

  /** The first pass of ExecuteBatch. */
  function ParsedLine(line: string): Result<Command> {
    if TrimSpace(line) == "" then Err(BadFormat) else Parse(line)
  }

  method ParseBatch(lines: seq<string>) returns (parsed: seq<Result<Command>>)
    ensures |parsed| == |lines| && forall i | 0 <= i < |lines| :: parsed[i] == ParsedLine(lines[i])
  {
    parsed := [];
    for i := 0 to |lines|
      invariant |parsed| == i && forall k | 0 <= k < i :: parsed[k] == ParsedLine(lines[k])
    {
      parsed := parsed + [ParsedLine(lines[i])];
    }
  }

  lemma {:induction false} RunLinesNext(env: Env, forced: bool, w: World, lines: seq<string>, i: nat, ext: nat -> bool)
    requires i < |lines|
    ensures var b := RunLines(env, forced, w, lines[..i], ext);
      RunLines(env, forced, w, lines[..i + 1], ext) == Extend(b, lines[i], RunLine(env, forced, b.w, lines[i], ext(i)))
  {
    assert lines[..i + 1][..i] == lines[..i];
  }

  lemma {:induction false} ReconciledFileIs(before: seq<Peer>, after: seq<Peer>, self: string, declared: map<string, int>)
    requires Lists(ByOrder(after), Members(declared, before, self))
    requires if Lists(ByOrder(before), Members(declared, before, self)) then after == before else after == ByOrder(after)
    ensures after == ReconciledFile(before, self, declared)
  {
    hide Lists, Members, ByOrder;
    var members := Members(declared, before, self);
    var next := MemberList(members);
    ListingUnique(ByOrder(after), next, members);
    if Lists(ByOrder(before), members) {
      ListingUnique(ByOrder(before), next, members);
    }
  }

  lemma {:induction false} MutatesParsed(env: Env, forced: bool, w: World, line: string, extOk: bool)
    requires RunLine(env, forced, w, line, extOk).outcome.r.Ok?
    ensures ParsedLine(line).Ok? && (Mutates(line) <==> ParsedLine(line).value.verb.IsMutating())
  {
  }

  lemma {:induction false} KeptIsPruned(peers: map<string, int>, self: string, declared: map<string, int>)
    ensures var keep := if self != "" then declared.Keys + {self} else declared.Keys;
      (map ip | ip in peers && ip in keep :: peers[ip]) == PrunedPeers(peers, self, declared)
  {
  }

  lemma {:induction false} PeerLine(ip: string, order: int)
    ensures "/w internal peer-add " + ip + " " + Itoa(order) == Print(PeerCommand(ip, order))
  {
    assert "/w internal peer-add " == "/" + "w" + " " + "internal" + " " + "peer-add" + " ";
    var head, tail := "/w internal peer-add ", ip + " " + Itoa(order);
    assert head + ip + " " + Itoa(order) == head + tail;
    assert Print(PeerCommand(ip, order)) == ("/" + "w" + " " + "internal" + " " + "peer-add" + " ") + tail;
  }

  lemma {:induction false} PrintedNext(cmds: seq<Command>, cmd: Command)
    ensures Printed(cmds + [cmd]) == Printed(cmds) + [Print(cmd)]
  {
  }

  lemma {:induction false} PeersVisited(list: seq<Peer>, peers: map<string, int>, order: seq<string>)
    requires Lists(list, peers) && |order| == |list|
    requires forall k | 0 <= k < |list| :: order[k] == list[k].ip
    ensures Visits(order, peers.Keys)
    ensures PeersAscending(peers, order)
  {
    forall i | 0 <= i < |list|
      ensures order[i] in peers && peers[order[i]] == list[i].order
    {
      assert list[i] in list;
    }
    forall ip | ip in peers
      ensures ip in order
    {
      var p := Peer(ip, peers[ip]);
      assert p in list;
      var i :| 0 <= i < |list| && list[i] == p;
      assert order[i] == ip;
    }
    forall i, j | 0 <= i < j < |order|
      ensures order[i] != order[j]
    {
      assert Before(list[i], list[j]);
      BeforeIrreflexive(list[i]);
      assert list[i] in list && list[j] in list;
    }
  }

  ghost predicate PeersAscending(peers: map<string, int>, order: seq<string>) {
    forall i, j | 0 <= i < j < |order| :: order[i] in peers && order[j] in peers && peers[order[i]] <= peers[order[j]]
  }

  /** The order the export's queries ask for. */
  ghost predicate InQueryOrder(db: DB, o: Order) {
    && PeersAscending(db.peers, o.peers)
    && Sorted(o.displays, ByText)
    && Sorted(o.objects, ByTypeName)
    && Sorted(o.bindings, ByColumns)
  }

  /** MIN(origin) of a group is the origin of the group's rows. */
  lemma {:induction false} MinOfGroup(domains: map<string, Row>, display: string, origin: string)
    requires exists c :: c in domains && domains[c].display == display && domains[c].origin == origin
    requires forall c | c in domains && domains[c].display == display :: !Less(domains[c].origin, origin)
    ensures IsMinOrigin(domains, display, origin)
  {
    var c :| c in domains && domains[c].display == display && domains[c].origin == origin;
    assert domains[c] == Row(display, origin);
  }

  lemma {:induction false} DomainLine(display: string, origin: string)
    ensures "/w domain " + display + " " + origin == Print(DomainCommand(display, origin))
  {
    assert "/w domain " == "/" + "w" + " " + "domain" + " ";
  }

  lemma {:induction false} ObjectLine(k: ObjKey, text: string)
    ensures "/w " + k.typ + " " + k.name + " " + text == Print(ObjectCommand(k, text))
  {
    assert "/w " == "/" + "w" + " ";
  }

  lemma {:induction false} BindLine(b: Binding)
    ensures "/w bind " + b.scope + " " + b.typ + ":" + b.name == Print(BindCommand(b))
  {
    assert "/w bind " == "/" + "w" + " " + "bind" + " ";
    var head := "/w bind " + b.scope + " ";
    assert head + b.typ + ":" + b.name == head + (b.typ + ":" + b.name);
  }

  function MetaText(bot: string, lang: string): seq<string> {
    (if bot == "" then [] else ["/w internal set-bot " + bot])
    + if lang == "" then [] else ["/w internal set-lang " + lang]
  }

  lemma {:induction false} MetaLines(bot: string, lang: string)
    ensures MetaText(bot, lang) == Printed(BotCommands(bot) + LangCommands(lang))
  {
    hide Print;
    MetaPrinted(bot, lang);
  }

  lemma {:induction false} MetaPrinted(bot: string, lang: string)
    ensures Print(Command(Write, "internal", "set-bot", bot)) == "/w internal set-bot " + bot
    ensures Print(Command(Write, "internal", "set-lang", lang)) == "/w internal set-lang " + lang
  {
    assert "/w internal set-bot " == "/" + "w" + " " + "internal" + " " + "set-bot" + " ";
    assert "/w internal set-lang " == "/" + "w" + " " + "internal" + " " + "set-lang" + " ";
  }

  lemma {:induction false} PrintedAppend(a: seq<Command>, b: seq<Command>)
    ensures Printed(a + b) == Printed(a) + Printed(b)
  {
  }

  lemma {:induction false} PrintedSections(db: DB, s: Sections)
    ensures Printed(AllCommands(db, s)) ==
      Printed(s.peers) + Printed(BotCommands(db.bot) + LangCommands(db.lang)) + Printed(s.domains)
      + Printed(s.objects) + Printed(s.bindings)
  {
    hide Print, Printed;
    var meta := BotCommands(db.bot) + LangCommands(db.lang);
    var a := s.peers + meta;
    assert AllCommands(db, s) == a + s.domains + s.objects + s.bindings;
    PrintedAppend(s.peers, meta);
    PrintedAppend(a, s.domains);
    PrintedAppend(a + s.domains, s.objects);
    PrintedAppend(a + s.domains + s.objects, s.bindings);
  }

  lemma {:induction false} ShownDisplay(domains: map<string, Row>, display: string)
    ensures display in Displays(domains) <==> HasDisplay(domains, display)
  {
  }

  class Node {
    const mgr: Manager?
    const self: string
    var domains: map<string, Row>
    var ports: map<int, string>
    var objects: map<ObjKey, Object>
    var bindings: set<Binding>
    var peers: map<string, int>
    var version: int
    var bot: string
    var lang: string

    constructor (mgr: Manager?, self: string, db: DB)
      ensures this.mgr == mgr && this.self == self && Tables() == db
    {
      this.mgr, this.self := mgr, self;
      domains, ports, objects, bindings := db.domains, db.ports, db.objects, db.bindings;
      peers, version, bot, lang := db.peers, db.version, db.bot, db.lang;
    }

    function Tables(): DB
      reads this
    {
      DB(domains, ports, objects, bindings, peers, version, bot, lang)
    }

    function State(): World
      reads this, mgr
    {
      World(Tables(), if mgr == null then None else Some(mgr.list))
    }

    /** Roll the tables back to a saved state; peers.json is outside the transaction. */
    method Restore(db: DB)
      modifies this
      ensures Tables() == db
    {
      domains, ports, objects, bindings := db.domains, db.ports, db.objects, db.bindings;
      peers, version, bot, lang := db.peers, db.version, db.bot, db.lang;
    }

    // ---- domain ----

    /** Whether another display scope owns one of the endpoints. */
    method OwnedElsewhere(sc: DomainScope, display: string) returns (owned: bool)
      ensures owned <==> OwnedByOther(domains, CanonSet(sc), display)
    {
      hide OwnedByOther, CanonPrefix, CanonSet;
      NoneOwned(domains, sc, display);
      for i := 0 to |sc.ports|
        invariant !OwnedByOther(domains, CanonPrefix(sc, i), display)
      {
        var canon := Canonical(sc.proto, sc.host, sc.ports[i]);
        OwnedStep(domains, sc, i, display);
        if canon in domains && domains[canon].display != display {
          OwnedLater(domains, sc, i + 1, display);
          return true;
        }
      }
      return false;
    }

    /** Insert or update the row of every endpoint, and ask for its port. */
    method StoreRows(sc: DomainScope, row: Row) returns (asked: seq<PortBinding>)
      modifies this`domains
      ensures domains == old(domains) + (map c | c in CanonSet(sc) :: row)
      ensures asked == PortBindings(sc)
    {
      hide CanonPrefix, CanonSet, Canonical;
      asked := [];
      RowsForEnds(domains, sc, row);
      for i := 0 to |sc.ports|
        invariant domains == old(domains) + RowsFor(CanonPrefix(sc, i), row)
        invariant |asked| == i && forall k | 0 <= k < i :: asked[k] == PortBinding(sc.ports[k], sc.proto)
      {
        RowsForNext(old(domains), sc, i, row);
        domains := domains[Canonical(sc.proto, sc.host, sc.ports[i]) := row];
        asked := asked + [PortBinding(sc.ports[i], sc.proto)];
      }
      assert asked == PortBindings(sc);
    }

    /** Delete the rows of the endpoints that carry the display scope. */
    method DeleteRows(sc: DomainScope, display: string) returns (deleted: nat)
      requires !OwnedByOther(domains, CanonSet(sc), display)
      modifies this`domains
      ensures domains == old(domains) - CanonSet(sc)
      ensures deleted == 0 <==> CanonSet(sc) !! old(domains).Keys
    {
      hide CanonPrefix, CanonSet, OwnedByOther, Canonical;
      deleted := 0;
      CanonPrefixEnds(sc);
      for i := 0 to |sc.ports|
        invariant domains == old(domains) - CanonPrefix(sc, i)
        invariant deleted == 0 <==> CanonPrefix(sc, i) !! old(domains).Keys
      {
        var canon := Canonical(sc.proto, sc.host, sc.ports[i]);
        CanonPrefixNext(sc, i);
        EndpointOwned(old(domains), sc, i, display);
        if canon in domains && domains[canon].display == display {
          domains := domains - {canon};
          deleted := deleted + 1;
        }
      }
    }

    method DomainWrite(cmd: Command) returns (r: Result<Effects>)
      requires DomainScopeOf(cmd.scope).Ok?
      modifies this`domains
      ensures Step(State(), r) == Store.DomainWrite(old(State()), cmd)
    {
      hide DomainScopeOf, CanonSet, OwnedByOther, PortBindings;
      var sc := ParseDomainScope(cmd.scope);
      var owned := OwnedElsewhere(sc.value, cmd.scope);
      if owned {
        return Err(PortConflict);
      }
      var asked := StoreRows(sc.value, Row(cmd.scope, cmd.params));
      return Ok(Effects(true, false, asked));
    }

    method DomainDelete(cmd: Command) returns (r: Result<Effects>)
      requires DomainScopeOf(cmd.scope).Ok?
      modifies this`domains
      ensures Step(State(), r) == Store.DomainDelete(old(State()), cmd)
    {
      hide DomainScopeOf, CanonSet, OwnedByOther, PortBindings;
      var sc := ParseDomainScope(cmd.scope);
      var owned := OwnedElsewhere(sc.value, cmd.scope);
      if owned {
        return Err(BadFormat);
      }
      if exists b | b in bindings :: b.scope == cmd.scope {
        return Err(CascadeBlocked);
      }
      var deleted := DeleteRows(sc.value, cmd.scope);
      return Ok(if deleted == 0 then NO_EFFECTS else RELOAD);
    }

    // ---- rule objects ----

    method ObjectWrite(env: Env, cmd: Command) returns (r: Result<Effects>)
      requires IsRuleType(cmd.typ)
      modifies this`objects
      ensures Step(State(), r) == Store.ObjectWrite(env, old(State()), cmd)
    {
      hide ParamsOf;
      var parsed := ParseParams(env, cmd.typ, cmd.params);
      if parsed.Err? {
        return Err(BadParams);
      }
      objects := objects[ObjKey(cmd.typ, cmd.scope) := Object(cmd.params, parsed.value)];
      return Ok(RELOAD);
    }

    /** The scopes whose bindings name the object are collected; any blocks the delete. */
    method ObjectDelete(cmd: Command) returns (r: Result<Effects>)
      modifies this`objects
      ensures Step(State(), r) == Store.ObjectDelete(old(State()), cmd)
    {
      var k := ObjKey(cmd.typ, cmd.scope);
      var refs := set b | b in bindings && b.typ == cmd.typ && b.name == cmd.scope :: b.scope;
      assert refs != {} <==> Referenced(bindings, k) by {
        if Referenced(bindings, k) {
          var b :| b in bindings && b.typ == k.typ && b.name == k.name;
          assert b.scope in refs;
        }
      }
      if refs != {} {
        return Err(CascadeBlocked);
      }
      if k !in objects {
        return Ok(NO_EFFECTS);
      }
      objects := objects - {k};
      return Ok(RELOAD);
    }

    // ---- bindings ----

    method BindWrite(cmd: Command) returns (r: Result<Effects>)
      requires ParseObjectRef(cmd.params).Ok?
      modifies this`bindings
      ensures Step(State(), r) == Store.BindWrite(old(State()), cmd)
    {
      hide ParseObjectRef;
      var o := ParseObjectRef(cmd.params).value;
      if ObjKey(o.typ, o.name) !in objects || !HasDisplay(domains, cmd.scope) {
        return Err(NotFound);
      }
      bindings := bindings + {Binding(cmd.scope, o.typ, o.name)};
      return Ok(RELOAD);
    }

    method BindDelete(cmd: Command) returns (r: Result<Effects>)
      requires ParseObjectRef(cmd.params).Ok?
      modifies this`bindings
      ensures Step(State(), r) == Store.BindDelete(old(State()), cmd)
    {
      hide ParseObjectRef;
      var o := ParseObjectRef(cmd.params).value;
      var one := Binding(cmd.scope, o.typ, o.name);
      var gone := if IsPlaceholder(cmd.params) then set b | b in bindings && b.scope == cmd.scope else {one} * bindings;
      bindings := bindings - gone;
      return Ok(if |gone| == 0 then NO_EFFECTS else RELOAD);
    }

    // ---- internal commands ----

    method AddPeer(env: Env, ip: string, order: int)
      requires env.parseIP(ip)
      modifies this`peers, mgr
      ensures State() == WithPeer(old(State()), ip, order)
    {
      if mgr != null {
        var p := mgr.Add(env.parseIP, ip);
      }
      peers := peers[ip := order];
    }

    method RemovePeer(ip: string)
      modifies this`peers, mgr
      ensures State() == WithoutPeer(old(State()), ip)
    {
      if mgr != null {
        mgr.Remove(ip);
      }
      peers := peers - {ip};
    }

    method InternalWrite(env: Env, op: Op, f: seq<string>) returns (r: Result<Effects>)
      requires OpCheck(env, op, Write, f).None?
      modifies this`peers, this`bot, this`lang, mgr
      ensures Step(State(), r) == Store.InternalWrite(env, old(State()), op, f)
    {
      match op
      case PeerAdd =>
        var order := 0;
        if |f| >= 2 && f[1] != "-" {
          var n := ParseInt(f[1]);
          order := if n.Some? then n.value else 0;
        }
        AddPeer(env, f[0], order);
        return Ok(NO_EFFECTS);
      case PeerRemove =>
        RemovePeer(f[0]);
        return Ok(NO_EFFECTS);
      case SetBot =>
        bot := if f[0] == "-" then "" else f[0];
        return Ok(NO_EFFECTS);
      case SetLang =>
        lang := if f[0] == "-" then "" else ParseLang(f[0]).value;
        return Ok(NO_EFFECTS);
    }

    method InternalDelete(env: Env, op: Op, f: seq<string>) returns (r: Result<Effects>)
      requires OpCheck(env, op, Delete, f).None?
      modifies this`peers, mgr
      ensures Step(State(), r) == Store.InternalDelete(env, old(State()), op, f)
    {
      if op.PeerAdd? || op.PeerRemove? {
        RemovePeer(f[0]);
        return Ok(NO_EFFECTS);
      }
      return Err(BadFormat);
    }

    // ---- read-shaped commands that write cluster_meta ----

    method TargetView(cmd: Command) returns (r: Result<Effects>)
      modifies this`bot
      ensures Step(State(), r) == Store.TargetView(old(State()), cmd)
    {
      var current := bot;
      if mgr != null {
        var all := mgr.All();
        var known := exists i :: 0 <= i < |all| && all[i].ip == cmd.scope;
        SortedHasIP(mgr.list, cmd.scope);
        if !known {
          return Err(NotFound);
        }
        if current == "" {
          current := mgr.BotNodeIP();
        }
      }
      if current == cmd.scope {
        return Ok(NO_EFFECTS);
      }
      bot := cmd.scope;
      return Ok(FORCE_BUMP);
    }

    method LangView(cmd: Command) returns (r: Result<Effects>)
      requires IsPlaceholder(cmd.scope) || ParseLang(cmd.scope).Some?
      modifies this`lang
      ensures Step(State(), r) == Store.LangView(old(State()), cmd)
    {
      hide ParseLang;
      var stored := ParseLang(lang);
      var current := if stored.Some? then stored.value else "cn";
      if IsPlaceholder(cmd.scope) {
        return Ok(NO_EFFECTS);
      }
      var target := ParseLang(cmd.scope).value;
      if target == current {
        return Ok(NO_EFFECTS);
      }
      lang := target;
      return Ok(FORCE_BUMP);
    }

    // ---- one command ----

    method Dispatch(env: Env, cmd: Command, extOk: bool) returns (r: Result<Effects>)
      modifies this, mgr
      ensures version == old(version) && ports == old(ports)
      ensures Step(State(), r) == Run(env, old(State()), cmd, extOk)
    {
      hide Store.DomainWrite, Store.DomainDelete, Store.ObjectWrite, Store.ObjectDelete, Store.BindWrite, Store.BindDelete,
        Store.InternalWrite, Store.InternalDelete, Store.TargetView, Store.LangView, DomainScopeOf, OpCheck, Fields;
      match KindOf(cmd.typ)
      case DomainKind =>
        var bad := DomainCheck(cmd);
        if bad.Some? {
          return Err(bad.value);
        }
        match cmd.verb {
          case View => return Ok(NO_EFFECTS);
          case Write => r := DomainWrite(cmd);
          case Delete => r := DomainDelete(cmd);
        }
      case RuleKind =>
        var bad := ObjectCheck(env, cmd);
        if bad.Some? {
          return Err(bad.value);
        }
        match cmd.verb {
          case View => return Ok(NO_EFFECTS);
          case Write => r := ObjectWrite(env, cmd);
          case Delete => r := ObjectDelete(cmd);
        }
      case BindKind =>
        var bad := BindCheck(cmd);
        if bad.Some? {
          return Err(bad.value);
        }
        match cmd.verb {
          case View => return if ParseObjectRef(cmd.params).Err? then Err(BadParams) else Ok(NO_EFFECTS);
          case Write => r := BindWrite(cmd);
          case Delete => r := BindDelete(cmd);
        }
      case InternalKind =>
        var op, f := OpOf(cmd.scope), Fields(cmd.params);
        var bad := OpCheck(env, op, cmd.verb, f);
        if bad.Some? {
          return Err(bad.value);
        }
        match cmd.verb {
          case View => return Ok(NO_EFFECTS);
          case Write => r := InternalWrite(env, op, f);
          case Delete => r := InternalDelete(env, op, f);
        }
      case TargetKind =>
        if !cmd.verb.View? || IsPlaceholder(cmd.scope) || !env.parseIP(cmd.scope) {
          return Err(BadFormat);
        }
        r := TargetView(cmd);
      case LangKind =>
        if !cmd.verb.View? {
          return Err(BadFormat);
        }
        if !IsPlaceholder(cmd.scope) && ParseLang(cmd.scope).None? {
          return Err(BadParams);
        }
        r := LangView(cmd);
      case ExternalKind => return if extOk then Ok(NO_EFFECTS) else Err(Internal);
      case UnknownKind => return Err(Internal);
    }

    // ---- port protocols ----

    /** EnforcePortBindings: a conflict stops it and leaves the earlier rows written. */
    method EnforcePortBindings(asked: seq<PortBinding>, force: bool) returns (ok: bool)
      modifies this`ports
      ensures Enforced(ports, ok) == Enforce(old(ports), asked, force)
    {
      for i := 0 to |asked|
        invariant Enforce(ports, asked[i..], force) == Enforce(old(ports), asked, force)
      {
        var b := asked[i];
        assert asked[i..][1..] == asked[i + 1..];
        if b.port !in ports {
          ports := ports[b.port := b.protocol];
        } else if ports[b.port] != b.protocol {
          if !force {
            return false;
          }
          ports := ports[b.port := b.protocol];
        }
      }
      return true;
    }

    /** Run a parsed command and enforce the ports it asks for. */
    method RunCommand(env: Env, forced: bool, cmd: Command, extOk: bool) returns (o: Outcome)
      modifies this, mgr
      ensures LineResult(State(), o) == RunOne(env, forced, old(State()), cmd, extOk)
    {
      hide Run, Enforce;
      var r := Dispatch(env, cmd, extOk);
      if r.Err? || r.value.ports == [] {
        return Outcome(r, false);
      }
      var ok := EnforcePortBindings(r.value.ports, forced);
      if !ok {
        return Outcome(Err(PortConflict), true);
      }
      return Outcome(r, false);
    }

    // ---- a batch ----

    /** One line whose parse is at hand. */
    method RunParsed(env: Env, forced: bool, line: string, cmd: Result<Command>, extOk: bool) returns (o: Outcome)
      requires cmd == ParsedLine(line)
      modifies this, mgr
      ensures LineResult(State(), o) == RunLine(env, forced, old(State()), line, extOk)
    {
      hide RunOne, Parse, TrimSpace;
      if cmd.Err? {
        return Outcome(Err(cmd.code), false);
      }
      o := RunCommand(env, forced, cmd.value, extOk);
    }

    /** The loop of ExecuteBatch. */
    method RunBatch(env: Env, forced: bool, lines: seq<string>, ext: nat -> bool)
      returns (outcomes: seq<Outcome>, agg: Effects, any: bool, mutated: bool)
      modifies this, mgr
      ensures Batch(State(), outcomes, agg, any, mutated) == RunLines(env, forced, old(State()), lines, ext)
    {
      var parsed := ParseBatch(lines);
      outcomes, agg, any, mutated := [], NO_EFFECTS, false, false;
      assert lines[..0] == [];
      for i := 0 to |lines|
        invariant Batch(State(), outcomes, agg, any, mutated) == RunLines(env, forced, old(State()), lines[..i], ext)
      {
        hide RunLine, RunLines, Parse, TrimSpace;
        RunLinesNext(env, forced, old(State()), lines, i, ext);
        var o := RunParsed(env, forced, lines[i], parsed[i], ext(i));
        outcomes := outcomes + [o];
        if o.r.Err? {
          continue;
        }
        MutatesParsed(env, forced, RunLines(env, forced, old(State()), lines[..i], ext).w, lines[i], ext(i));
        agg, any := agg.Merge(o.r.value), true;
        if parsed[i].value.verb.IsMutating() {
          mutated := true;
        }
      }
      assert lines[..|lines|] == lines;
    }

    /** ExecuteBatch: parse every line, run the accepted ones in one transaction, bump the
        version once, commit when anything succeeded. */
    method ExecuteBatch(env: Env, forced: bool, text: string, ext: nat -> bool) returns (rep: Report)
      modifies this, mgr
      ensures rep == Execute(env, forced, old(State()), text, ext)
      ensures State() == rep.w
    {
      hide RunLines, BatchLines;
      var saved, oldVersion := Tables(), version;
      var outcomes, agg, any, mutated := RunBatch(env, forced, BatchLines(text), ext);
      var newVersion := oldVersion;
      if mutated || agg.forceBump {
        version := version + 1;
        newVersion := version;
      }
      if !any {
        Restore(saved);
      }
      return Report(State(), oldVersion, newVersion, outcomes, agg);
    }

    // ---- import ----

    /** replayOneInTxForce */
    method ReplayOne(env: Env, line: string, extOk: bool) returns (o: Outcome)
      modifies this, mgr
      ensures LineResult(State(), o) == ReplayLine(env, old(State()), line, extOk)
    {
      hide RunOne, Parse, TrimSpace;
      var trimmed := TrimSpace(line);
      if trimmed == "" {
        return Outcome(Ok(NO_EFFECTS), false);
      }
      var cmd := Parse(trimmed);
      if cmd.Err? {
        return Outcome(Err(cmd.code), false);
      }
      if cmd.value.verb.View? {
        return Outcome(Ok(NO_EFFECTS), false);
      }
      o := RunCommand(env, true, cmd.value, extOk);
    }

    /** Snapshot.Import */
    method Import(env: Env, s: Snapshot, ext: nat -> bool) returns (applied: nat, errors: map<nat, ErrorCode>)
      modifies this, mgr
      ensures Replayed(State(), applied, errors) == Imported(env, old(State()), s, ext)
    {
      hide ReplayLine;
      domains, ports, objects, bindings := map[], map[], map[], {};
      applied, errors := 0, map[];
      for i := 0 to |s.commands|
        invariant Replayed(State(), applied, errors) == Replay(env, Wiped(old(State())), s.commands[..i], ext)
      {
        assert s.commands[..i + 1][..i] == s.commands[..i];
        var o := ReplayOne(env, s.commands[i], ext(i));
        if o.r.Err? {
          errors := errors[i := o.r.code];
          continue;
        }
        applied := applied + 1;
      }
      assert s.commands[..|s.commands|] == s.commands;
      version := s.header.version;
    }

    // ---- membership ----

    /** pruneDBPeers: delete the rows whose address is not kept. */
    method PruneDBPeers(keep: set<string>)
      modifies this`peers
      ensures peers == map ip | ip in old(peers) && ip in keep :: old(peers)[ip]
    {
      var drop := set ip | ip in peers && ip !in keep;
      while drop != {}
        invariant peers.Keys == old(peers).Keys - ((old(peers).Keys - keep) - drop)
        invariant forall ip | ip in peers :: peers[ip] == old(peers)[ip]
        invariant drop <= old(peers).Keys - keep
      {
        var ip :| ip in drop;
        peers := peers - {ip};
        drop := drop - {ip};
      }
    }

    /** reconcilePeers: the mirror table first, then peers.json. */
    method ReconcilePeers(declaration: Option<map<string, int>>)
      modifies this`peers, mgr
      ensures State() == ReconciledWorld(old(State()), self, declaration)
    {
      if declaration.None? {
        return;
      }
      hide PrunedPeers, ReconciledFile, Lists, Members, ByOrder;
      var declared := declaration.value;
      KeptIsPruned(peers, self, declared);
      PruneDBPeers(if self != "" then declared.Keys + {self} else declared.Keys);
      if mgr == null {
        return;
      }
      ghost var before := mgr.list;
      ReconcileFile(mgr, self, declared);
      ReconciledFileIs(before, mgr.list, self, declared);
    }

    /** ApplySnapshot, without the nginx regeneration and the saved copy. */
    method ApplySnapshot(env: Env, text: string, ext: nat -> bool) returns (applied: nat, errors: map<nat, ErrorCode>)
      modifies this, mgr
      ensures State() == Applied(env, old(State()), self, text, ext)
      ensures var r := Imported(env, old(State()), SnapshotOf(text), ext); applied == r.applied && errors == r.errors
    {
      hide Imported, SnapshotOf;
      var s := ParseText(text);
      applied, errors := Import(env, s, ext);
      var declaration := DeclaredPeers(s);
      ReconcilePeers(declaration);
    }

    /** MaybeRebuildFromSnapshot: only an untouched database is rebuilt, and only from a
        saved snapshot that holds commands. */
    method MaybeRebuild(env: Env, saved: Option<Snapshot>, ext: nat -> bool) returns (rebuilt: bool)
      modifies this, mgr
      ensures rebuilt <==> old(version) <= 0 && saved.Some? && saved.value.commands != []
      ensures State() == if rebuilt then Applied(env, old(State()), self, TextOf(saved.value), ext) else old(State())
    {
      hide Applied, TextOf, Imported;
      if version > 0 || saved.None? || |saved.value.commands| == 0 {
        return false;
      }
      var applied, errors := ApplySnapshot(env, TextOf(saved.value), ext);
      return true;
    }

    // ---- export ----

    method ExportPeers() returns (lines: seq<string>, ghost order: seq<string>, ghost cmds: seq<Command>)
      ensures PeerSection(Tables(), order, cmds) && lines == Printed(cmds)
      ensures PeersAscending(peers, order)
    {
      var list := SortedMembers(peers);
      lines, order, cmds := [], [], [];
      for i := 0 to |list|
        invariant |order| == i && |cmds| == i && lines == Printed(cmds)
        invariant forall k | 0 <= k < i ::
          order[k] == list[k].ip && list[k].ip in peers && cmds[k] == PeerCommand(order[k], peers[order[k]])
      {
        hide Print;
        assert list[i] in list;
        var p := list[i];
        PeerLine(p.ip, p.order);
        PrintedNext(cmds, PeerCommand(p.ip, p.order));
        lines := lines + ["/w internal peer-add " + p.ip + " " + Itoa(p.order)];
        order, cmds := order + [p.ip], cmds + [PeerCommand(p.ip, p.order)];
      }
      PeersVisited(list, peers, order);
    }

    /** exportBotNode and exportLanguage */
    method ExportMeta() returns (lines: seq<string>)
      ensures lines == Printed(BotCommands(bot) + LangCommands(lang))
    {
      hide Printed;
      lines := [];
      if bot != "" {
        lines := lines + ["/w internal set-bot " + bot];
      }
      if lang != "" {
        lines := lines + ["/w internal set-lang " + lang];
      }
      assert lines == MetaText(bot, lang);
      MetaLines(bot, lang);
    }

    /** MIN(origin) over the rows of a display scope. */
    method MinOrigin(display: string) returns (origin: string)
      requires HasDisplay(domains, display)
      ensures exists c :: c in domains && domains[c].display == display && domains[c].origin == origin
      ensures forall c | c in domains && domains[c].display == display :: !Less(domains[c].origin, origin)
    {
      var c0 :| c0 in domains && domains[c0].display == display;
      origin := domains[c0].origin;
      LessIrreflexive(origin);
      var rest := (set c | c in domains && domains[c].display == display) - {c0};
      while rest != {}
        invariant rest <= domains.Keys
        invariant exists c :: c in domains && domains[c].display == display && domains[c].origin == origin
        invariant forall c | c in domains && domains[c].display == display && c !in rest :: !Less(domains[c].origin, origin)
      {
        var c :| c in rest;
        LessIrreflexive(domains[c].origin);
        if Less(domains[c].origin, origin) {
          forall k | k in domains && domains[k].display == display && k !in rest
            ensures !Less(domains[k].origin, domains[c].origin)
          {
            if Less(domains[k].origin, domains[c].origin) {
              LessTransitive(domains[k].origin, domains[c].origin, origin);
            }
          }
          origin := domains[c].origin;
        }
        rest := rest - {c};
      }
    }

    method ExportDomains() returns (lines: seq<string>, ghost order: seq<string>, ghost cmds: seq<Command>)
      ensures DomainSection(Tables(), order, cmds) && lines == Printed(cmds)
      ensures Sorted(order, ByText)
    {
      hide Print, IsMinOrigin, Sorted, HasDisplay;
      var displays := Listing(Displays(domains), ByText);
      SortedDistinct(displays, ByText);
      order, lines, cmds := displays, [], [];
      for i := 0 to |displays|
        invariant |cmds| == i && lines == Printed(cmds)
        invariant forall k | 0 <= k < i ::
          cmds[k] == DomainCommand(displays[k], cmds[k].params) && IsMinOrigin(domains, displays[k], cmds[k].params)
      {
        ShownDisplay(domains, displays[i]);
        var origin := MinOrigin(displays[i]);
        MinOfGroup(domains, displays[i], origin);
        DomainLine(displays[i], origin);
        PrintedNext(cmds, DomainCommand(displays[i], origin));
        lines := lines + ["/w domain " + displays[i] + " " + origin];
        cmds := cmds + [DomainCommand(displays[i], origin)];
      }
    }

    method ExportRuleObjects() returns (lines: seq<string>, ghost order: seq<ObjKey>, ghost cmds: seq<Command>)
      ensures ObjectSection(Tables(), order, cmds) && lines == Printed(cmds)
      ensures Sorted(order, ByTypeName)
    {
      var keys := Listing(objects.Keys, ByTypeName);
      SortedDistinct(keys, ByTypeName);
      order, lines, cmds := keys, [], [];
      for i := 0 to |keys|
        invariant |cmds| == i && lines == Printed(cmds)
        invariant forall k | 0 <= k < i :: cmds[k] == ObjectCommand(keys[k], objects[keys[k]].text)
      {
        hide Print, Sorted;
        var k := keys[i];
        ObjectLine(k, objects[k].text);
        PrintedNext(cmds, ObjectCommand(k, objects[k].text));
        lines := lines + ["/w " + k.typ + " " + k.name + " " + objects[k].text];
        cmds := cmds + [ObjectCommand(k, objects[k].text)];
      }
    }

    method ExportBindings() returns (lines: seq<string>, ghost order: seq<Binding>, ghost cmds: seq<Command>)
      ensures BindSection(Tables(), order, cmds) && lines == Printed(cmds)
      ensures Sorted(order, ByColumns)
    {
      var all := Listing(bindings, ByColumns);
      SortedDistinct(all, ByColumns);
      order, lines, cmds := all, [], [];
      for i := 0 to |all|
        invariant |cmds| == i && lines == Printed(cmds)
        invariant forall k | 0 <= k < i :: cmds[k] == BindCommand(all[k])
      {
        hide Print, Sorted;
        var b := all[i];
        BindLine(b);
        PrintedNext(cmds, BindCommand(b));
        lines := lines + ["/w bind " + b.scope + " " + b.typ + ":" + b.name];
        cmds := cmds + [BindCommand(b)];
      }
    }

    /** Exporter.Export: the version, then every table as commands in query order. */
    method Export(exported: string, program: string)
      returns (snap: Snapshot, ghost o: Order, ghost s: Sections)
      ensures IsSnapshotOf(Tables(), o, s, snap) && InQueryOrder(Tables(), o)
      ensures snap.header.exported == exported && snap.header.program == program
    {
      hide PeerSection, DomainSection, ObjectSection, BindSection, Print, PeersAscending, Sorted;
      var p, po, pc := ExportPeers();
      var d, dd, dc := ExportDomains();
      var r, ro, rc := ExportRuleObjects();
      var b, bo, bc := ExportBindings();
      var meta := ExportMeta();
      o, s := Order(po, dd, ro, bo), Sections(pc, dc, rc, bc);
      PrintedSections(Tables(), s);
      snap := Snapshot(Header.Header(version, exported, program), p + meta + d + r + b);
    }
  }

  // ---- the export is a function of the tables ----

  predicate DistinctOrders(peers: map<string, int>) {
    forall a, b | a in peers && b in peers && a != b :: peers[a] != peers[b]
  }

  lemma {:induction false} AscendingUnique(s: seq<string>, t: seq<string>, peers: map<string, int>)
    requires DistinctOrders(peers) && PeersAscending(peers, s) && PeersAscending(peers, t)
    requires (forall x | x in s :: x in peers) && (forall x :: x in s <==> x in t)
    requires (forall i, j | 0 <= i < j < |s| :: s[i] != s[j]) && (forall i, j | 0 <= i < j < |t| :: t[i] != t[j])
    ensures s == t
  {
    assert t != [] ==> t[0] in t;
    if s != [] {
      assert s[0] in t && t != [] && t[0] in s;
      assert s == [s[0]] + s[1..] && t == [t[0]] + t[1..];
      FirstAscending(s, t, peers);
      forall x
        ensures x in s[1..] <==> x in t[1..]
      {
        RestOf(s, x);
        RestOf(t, x);
      }
      AscendingUnique(s[1..], t[1..], peers);
    }
  }

  lemma {:induction false} RestOf(s: seq<string>, x: string)
    requires s != [] && forall i, j | 0 <= i < j < |s| :: s[i] != s[j]
    ensures x in s[1..] <==> x in s && x != s[0]
  {
    assert s == [s[0]] + s[1..];
    if x in s[1..] {
      var i :| 0 <= i < |s[1..]| && s[1..][i] == x;
      assert s[i + 1] == x;
    }
  }

  lemma {:induction false} FirstAscending(s: seq<string>, t: seq<string>, peers: map<string, int>)
    requires s != [] && t != [] && s[0] in t && t[0] in s && s[0] in peers && t[0] in peers
    requires DistinctOrders(peers) && PeersAscending(peers, s) && PeersAscending(peers, t)
    ensures s[0] == t[0]
  {
    var i :| 0 <= i < |t| && t[i] == s[0];
    var j :| 0 <= j < |s| && s[j] == t[0];
    if i > 0 && j > 0 {
      assert peers[t[0]] <= peers[t[i]] && peers[s[0]] <= peers[s[j]];
    }
  }

  lemma {:induction false} MinOriginUnique(domains: map<string, Row>, display: string, a: string, b: string)
    requires IsMinOrigin(domains, display, a) && IsMinOrigin(domains, display, b)
    ensures a == b
  {
    LessTotal(a, b);
  }

  /** Two exports of the same tables in query order hold the same commands, as long as join
      orders are distinct (the peers query leaves ties open). */
  lemma {:induction false} ExportDetermined(db: DB, o1: Order, s1: Sections, snap1: Snapshot,
                                            o2: Order, s2: Sections, snap2: Snapshot)
    requires DistinctOrders(db.peers)
    requires IsSnapshotOf(db, o1, s1, snap1) && InQueryOrder(db, o1)
    requires IsSnapshotOf(db, o2, s2, snap2) && InQueryOrder(db, o2)
    ensures snap1.commands == snap2.commands && snap1.header.version == snap2.header.version
  {
    hide Sorted, PeersAscending, DistinctOrders, IsMinOrigin, Print, Displays;
    AscendingUnique(o1.peers, o2.peers, db.peers);
    SortedUnique(o1.displays, o2.displays, ByText);
    SortedUnique(o1.objects, o2.objects, ByTypeName);
    SortedUnique(o1.bindings, o2.bindings, ByColumns);
    forall i | 0 <= i < |s1.domains|
      ensures s1.domains[i] == s2.domains[i]
    {
      MinOriginUnique(db.domains, o1.displays[i], s1.domains[i].params, s2.domains[i].params);
    }
    assert s1.peers == s2.peers && s1.domains == s2.domains && s1.objects == s2.objects && s1.bindings == s2.bindings;
  }
}
