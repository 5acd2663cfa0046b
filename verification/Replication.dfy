/** Replication by export, print, parse, wipe and replay: whatever database exports,
    any other database that imports the text ends with the same rule tables. */
module Replication {
  import opened Text
  import opened Commands
  import opened Scopes
  import opened Rules
  import opened Store
  import opened Invariants
  import opened Batches
  import opened Snapshots
  import opened Exports

  // ---- exported commands print to lines that parse back ----

  /** A write to one of the tables, in the form the parser produces. */
  predicate Exportable(cmd: Command) {
    WellFormed(cmd) && cmd.verb.Write? && KindOf(cmd.typ) != ExternalKind
  }

  ghost predicate AllExportable(cmds: seq<Command>) {
    forall i | 0 <= i < |cmds| :: Exportable(cmds[i])
  }

  lemma {:induction false} Words()
    ensures Token("internal") && Token("domain") && Token("bind")
    ensures Token("peer-add") && Token("set-bot") && Token("set-lang")
  {
  }

  lemma {:induction false} PeerExportable(ip: string, order: int)
    requires Token(ip)
    ensures Exportable(PeerCommand(ip, order))
  {
    Words();
    KindNames();
    ItoaToken(order);
    PairFields(ip, Itoa(order));
  }

  lemma {:induction false} BotExportable(bot: string)
    requires bot == "" || Token(bot)
    ensures AllExportable(BotCommands(bot))
  {
    if bot != "" {
      Words();
      KindNames();
      TokenIsNormal(bot);
    }
  }

  lemma {:induction false} LangExportable(lang: string)
    requires lang == "" || IsLang(lang)
    ensures AllExportable(LangCommands(lang))
  {
    if lang != "" {
      Words();
      KindNames();
      LangCodeFixed(lang);
      TokenIsNormal(lang);
    }
  }

  lemma {:induction false} DomainExportable(display: string, origin: string)
    requires DomainScopeOf(display).Ok? && Normal(origin)
    ensures Exportable(DomainCommand(display, origin))
  {
    Words();
    KindNames();
    ScopeParsed(display);
  }

  lemma {:induction false} ObjectExportable(env: Env, k: ObjKey, o: Object)
    requires ObjectOk(env, k, o)
    ensures Exportable(ObjectCommand(k, o.text))
  {
    RuleTypeIsToken(k.typ);
    RuleKindIff(k.typ);
    ObjectNameIsToken(k.name);
  }

  lemma {:induction false} BindExportable(b: Binding)
    requires IsRuleType(b.typ) && IsObjectName(b.name) && DomainScopeOf(b.scope).Ok?
    ensures Exportable(BindCommand(b))
  {
    Words();
    KindNames();
    RuleTypeIsToken(b.typ);
    ObjectNameIsToken(b.name);
    ScopeParsed(b.scope);
    NoSpaceConcat(b.typ, ":");
    NoSpaceConcat(b.typ + ":", b.name);
    TokenIsNormal(BindCommand(b).params);
  }

  lemma {:induction false} SectionsExportable(env: Env, db: DB, o: Order, s: Sections)
    requires Inv(env, db) && IsExport(db, o, s)
    ensures AllExportable(s.peers) && AllExportable(s.domains) && AllExportable(s.objects) && AllExportable(s.bindings)
  {
    forall i | 0 <= i < |s.peers|
      ensures Exportable(s.peers[i])
    {
      assert o.peers[i] in db.peers;
      PeerExportable(o.peers[i], db.peers[o.peers[i]]);
    }
    forall i | 0 <= i < |s.domains|
      ensures Exportable(s.domains[i])
    {
      GroupOfMin(db.domains, o.displays[i], s.domains[i].params);
      DomainExportable(o.displays[i], s.domains[i].params);
    }
    forall i | 0 <= i < |s.objects|
      ensures Exportable(s.objects[i])
    {
      assert o.objects[i] in db.objects;
      ObjectExportable(env, o.objects[i], db.objects[o.objects[i]]);
    }
    forall i | 0 <= i < |s.bindings|
      ensures Exportable(s.bindings[i])
    {
      var b := o.bindings[i];
      assert b in db.bindings;
      assert ObjectOk(env, ObjKey(b.typ, b.name), db.objects[ObjKey(b.typ, b.name)]);
      GroupIsExpansion(db.domains, b.scope);
      BindExportable(b);
    }
  }

  lemma {:induction false} ExportableConcat(a: seq<Command>, b: seq<Command>)
    requires AllExportable(a) && AllExportable(b)
    ensures AllExportable(a + b)
  {
  }

  lemma {:induction false} ExportIsExportable(env: Env, db: DB, o: Order, s: Sections)
    requires Inv(env, db) && IsExport(db, o, s)
    ensures AllExportable(AllCommands(db, s))
  {
    SectionsExportable(env, db, o, s);
    BotExportable(db.bot);
    LangExportable(db.lang);
    var a := s.peers + BotCommands(db.bot);
    var b := a + LangCommands(db.lang);
    ExportableConcat(s.peers, BotCommands(db.bot));
    ExportableConcat(a, LangCommands(db.lang));
    ExportableConcat(b, s.domains);
    ExportableConcat(b + s.domains, s.objects);
    ExportableConcat(b + s.domains + s.objects, s.bindings);
  }

  // ---- running a whole export ----

  /** The rule and membership tables after an export of db has been run over w. */
  ghost predicate IsCopy(db: DB, w: World, o: Order, w': World) {
    && w'.db.domains == db.domains
    && w'.db.objects == db.objects
    && w'.db.bindings == db.bindings
    && PortsFrom(db.domains, w'.db.ports)
    && w'.db.peers == w.db.peers + db.peers
    && w'.db.version == w.db.version
    && w'.db.bot == (if db.bot == "" then w.db.bot else db.bot)
    && w'.db.lang == (if db.lang == "" then w.db.lang else db.lang)
    && w'.file == FileAfter(w.file, o.peers)
  }

  /** The state after the peer, bot and language commands. */
  function AfterMeta(db: DB, w: World, o: Order): World {
    World(w.db.(peers := w.db.peers + db.peers,
                bot := if db.bot == "" then w.db.bot else db.bot,
                lang := if db.lang == "" then w.db.lang else db.lang),
          FileAfter(w.file, o.peers))
  }

  lemma {:induction false} HeadRuns(env: Env, forced: bool, db: DB, w: World, o: Order, s: Sections)
    requires Inv(env, db) && PeerSection(db, o.peers, s.peers)
    ensures RunAll(env, forced, w, s.peers + BotCommands(db.bot) + LangCommands(db.lang)) == Some(AfterMeta(db, w, o))
  {
    PeersSectionRuns(env, forced, w, db.peers, o.peers, s.peers);
    RestrictAll(db.peers, o.peers);
    var w1 := World(w.db.(peers := w.db.peers + db.peers), FileAfter(w.file, o.peers));
    assert RunAll(env, forced, w, s.peers) == Some(w1);
    BotCommandsRun(env, forced, w1, db.bot);
    RunAllAppend(env, forced, w, s.peers, BotCommands(db.bot));
    var w2 := w1.(db := w1.db.(bot := if db.bot == "" then w1.db.bot else db.bot));
    LangCommandsRun(env, forced, w2, db.lang);
    RunAllAppend(env, forced, w, s.peers + BotCommands(db.bot), LangCommands(db.lang));
  }

  lemma {:induction false} AllRows(domains: map<string, Row>, order: seq<string>)
    requires Visits(order, Displays(domains))
    ensures RowsOf(domains, order) == domains
  {
    assert forall c | c in domains :: domains[c].display in Displays(domains);
  }

  lemma {:induction false} DomainSectionIsRun(db: DB, order: seq<string>, cmds: seq<Command>)
    requires DomainSection(db, order, cmds)
    ensures DomainRun(db.domains, order, cmds)
  {
  }

  lemma {:induction false} MergeInto<K, V>(a: map<K, V>, b: map<K, V>)
    requires a == map[] || a == b
    ensures a + b == b
  {
  }

  lemma {:induction false} ObjectSectionIsRun(db: DB, order: seq<ObjKey>, cmds: seq<Command>)
    requires ObjectSection(db, order, cmds)
    ensures ObjectRun(db.objects, order, cmds) && forall k | k in db.objects :: k in order
  {
    assert forall i | 0 <= i < |order| :: order[i] in order;
  }

  lemma {:induction false} BindSectionIsRun(db: DB, order: seq<Binding>, cmds: seq<Command>)
    requires BindSection(db, order, cmds)
    ensures BindRun(db, order, cmds) && (set b | b in order) == db.bindings
  {
    assert forall i | 0 <= i < |order| :: order[i] in order;
  }

  lemma {:induction false} ObjectsRun(env: Env, forced: bool, db: DB, w: World, order: seq<ObjKey>, cmds: seq<Command>)
    requires Inv(env, db) && ObjectSection(db, order, cmds)
    requires w.db.objects == map[] || w.db.objects == db.objects
    ensures RunAll(env, forced, w, cmds) == Some(w.(db := w.db.(objects := db.objects)))
  {
    ObjectSectionIsRun(db, order, cmds);
    ObjectsSectionRuns(env, forced, w, db.objects, order, cmds);
    RestrictAll(db.objects, order);
    MergeInto(w.db.objects, db.objects);
  }

  lemma {:induction false} BindingsRun(env: Env, forced: bool, db: DB, w: World, order: seq<Binding>, cmds: seq<Command>)
    requires Inv(env, db) && BindSection(db, order, cmds)
    requires w.db.domains == db.domains && w.db.objects == db.objects
    ensures RunAll(env, forced, w, cmds) == Some(w.(db := w.db.(bindings := w.db.bindings + db.bindings)))
  {
    BindSectionIsRun(db, order, cmds);
    BindingsSectionRuns(env, forced, w, db, order, cmds);
  }

  /** Objects and bindings, run over tables that already hold the exporter's domains. */
  lemma {:induction false} TailRuns(env: Env, forced: bool, db: DB, w: World, o: Order, s: Sections)
    requires Inv(env, db) && ObjectSection(db, o.objects, s.objects) && BindSection(db, o.bindings, s.bindings)
    requires w.db.domains == db.domains && (w.db.objects == map[] || w.db.objects == db.objects)
    ensures RunAll(env, forced, w, s.objects + s.bindings) ==
            Some(w.(db := w.db.(objects := db.objects, bindings := w.db.bindings + db.bindings)))
  {
    ObjectsRun(env, forced, db, w, o.objects, s.objects);
    BindingsRun(env, forced, db, w.(db := w.db.(objects := db.objects)), o.bindings, s.bindings);
    RunAllAppend(env, forced, w, s.objects, s.bindings);
  }

  lemma {:induction false} RunParts(env: Env, forced: bool, w: World, a: seq<Command>, w1: World, b: seq<Command>, w2: World,
                                    c: seq<Command>, w3: World)
    requires RunAll(env, forced, w, a) == Some(w1)
    requires RunAll(env, forced, w1, b) == Some(w2)
    requires RunAll(env, forced, w2, c) == Some(w3)
    ensures RunAll(env, forced, w, a + (b + c)) == Some(w3)
  {
    RunAllAppend(env, forced, w1, b, c);
    RunAllAppend(env, forced, w, a, b + c);
  }

  lemma {:induction false} DomainsRun(env: Env, db: DB, w: World, order: seq<string>, cmds: seq<Command>)
    requires Inv(env, db) && DomainSection(db, order, cmds) && w.db.domains == map[] && w.db.ports == map[]
    ensures RunAll(env, true, w, cmds).Some?
    ensures RowsStored(w, RunAll(env, true, w, cmds).value, db.domains)
  {
    NothingStored(w, db.domains);
    DomainSectionIsRun(db, order, cmds);
    DomainsSectionForced(env, w, db.domains, order, cmds);
    AllRows(db.domains, order);
  }

  lemma {:induction false} NothingStored(w: World, domains: map<string, Row>)
    requires w.db.domains == map[] && w.db.ports == map[]
    ensures Within(w.db.domains, domains) && PortsFrom(w.db.domains, w.db.ports)
    ensures w.db.domains + domains == domains
  {
  }

  lemma {:induction false} ThreeParts(db: DB, s: Sections)
    ensures AllCommands(db, s) ==
      (s.peers + BotCommands(db.bot) + LangCommands(db.lang)) + (s.domains + (s.objects + s.bindings))
  {
  }

  /** Running an export in force over wiped tables succeeds on every command and rebuilds
      the exporter's rule tables. */
  lemma {:induction false} ExportRunsForced(env: Env, db: DB, w: World, o: Order, s: Sections)
    requires Inv(env, db) && IsExport(db, o, s)
    ensures RunAll(env, true, Wiped(w), AllCommands(db, s)).Some?
    ensures IsCopy(db, w, o, RunAll(env, true, Wiped(w), AllCommands(db, s)).value)
  {
    hide RunAll, PeerSection, DomainSection, ObjectSection, BindSection, Inv, AllCommands;
    var w0 := Wiped(w);
    HeadRuns(env, true, db, w0, o, s);
    var w1 := AfterMeta(db, w0, o);
    DomainsRun(env, db, w1, o.displays, s.domains);
    NothingStored(w1, db.domains);
    var w2 := RunAll(env, true, w1, s.domains).value;
    TailRuns(env, true, db, w2, o, s);
    var w3 := w2.(db := w2.db.(objects := db.objects, bindings := w2.db.bindings + db.bindings));
    RunParts(env, true, w0, s.peers + BotCommands(db.bot) + LangCommands(db.lang), w1, s.domains, w2, s.objects + s.bindings, w3);
    ThreeParts(db, s);
    assert w2.db.bindings + db.bindings == db.bindings;
  }

  lemma {:induction false} HeadInPlace(w: World, o: Order)
    ensures AfterMeta(w.db, w, o) == World(w.db, FileAfter(w.file, o.peers))
  {
    MergeInto(w.db.peers, w.db.peers);
  }

  lemma {:induction false} TailInPlace(w: World)
    ensures w.(db := w.db.(objects := w.db.objects, bindings := w.db.bindings + w.db.bindings)) == w
  {
    assert w.db.bindings + w.db.bindings == w.db.bindings;
  }

  /** Running a database's own export over itself, unforced and under port agreement,
      succeeds on every command and changes no table. */
  lemma {:induction false} ExportRunsInPlace(env: Env, w: World, o: Order, s: Sections)
    requires Inv(env, w.db) && IsExport(w.db, o, s) && PortsAgree(w.db.domains, w.db.ports)
    ensures RunAll(env, false, w, AllCommands(w.db, s)) == Some(World(w.db, FileAfter(w.file, o.peers)))
  {
    HeadRuns(env, false, w.db, w, o, s);
    HeadInPlace(w, o);
    var w1 := World(w.db, FileAfter(w.file, o.peers));
    DomainSectionIsRun(w.db, o.displays, s.domains);
    DomainsSectionUnforced(env, w1, o.displays, s.domains);
    TailRuns(env, false, w.db, w1, o, s);
    TailInPlace(w1);
    RunParts(env, false, w, s.peers + BotCommands(w.db.bot) + LangCommands(w.db.lang), w1, s.domains, w1,
             s.objects + s.bindings, w1);
    ThreeParts(w.db, s);
  }

  // ---- replaying the printed lines ----

  lemma {:induction false} ExtIrrelevant(env: Env, forced: bool, w: World, cmd: Command, extOk: bool)
    requires KindOf(cmd.typ) != ExternalKind
    ensures RunOne(env, forced, w, cmd, extOk) == RunOne(env, forced, w, cmd, false)
  {
  }

  lemma {:induction false} ReplayPrintedLine(env: Env, w: World, cmd: Command, extOk: bool)
    requires Exportable(cmd)
    ensures ReplayLine(env, w, Print(cmd), extOk) == RunOne(env, true, w, cmd, false)
  {
    PrintIsOneLine(cmd);
    TrimOfTrimmed(Print(cmd));
    ParsePrint(cmd);
    ExtIrrelevant(env, true, w, cmd, extOk);
  }

  lemma {:induction false} RunAllInit(env: Env, forced: bool, w: World, a: seq<Command>, b: seq<Command>)
    requires RunAll(env, forced, w, a + b).Some?
    ensures RunAll(env, forced, w, a).Some?
    decreases |a|
  {
    if a != [] {
      assert (a + b)[1..] == a[1..] + b;
      RunAllInit(env, forced, RunOne(env, forced, w, a[0], false).w, a[1..], b);
    }
  }

  lemma {:induction false} RunAllLast(env: Env, forced: bool, w: World, cmds: seq<Command>)
    requires cmds != [] && RunAll(env, forced, w, cmds).Some?
    ensures var n := |cmds| - 1;
      && RunAll(env, forced, w, cmds[..n]).Some?
      && (var res := RunOne(env, forced, RunAll(env, forced, w, cmds[..n]).value, cmds[n], false);
          res.outcome.r.Ok? && RunAll(env, forced, w, cmds) == Some(res.w))
  {
    hide RunOne;
    var n := |cmds| - 1;
    assert cmds == cmds[..n] + [cmds[n]];
    RunAllInit(env, forced, w, cmds[..n], [cmds[n]]);
    RunAllAppend(env, forced, w, cmds[..n], [cmds[n]]);
    RunAllSingle(env, forced, RunAll(env, forced, w, cmds[..n]).value, cmds[n]);
  }

  lemma {:induction false} ReplayPrinted(env: Env, w: World, cmds: seq<Command>, ext: nat -> bool)
    requires AllExportable(cmds) && RunAll(env, true, w, cmds).Some?
    ensures Replay(env, w, Printed(cmds), ext) == Replayed(RunAll(env, true, w, cmds).value, |cmds|, map[])
    decreases |cmds|
  {
    hide RunOne, ReplayLine, Print, Exportable;
    if cmds != [] {
      var n := |cmds| - 1;
      RunAllLast(env, true, w, cmds);
      ReplayPrinted(env, w, cmds[..n], ext);
      assert Printed(cmds)[..n] == Printed(cmds[..n]);
      ReplayPrintedLine(env, RunAll(env, true, w, cmds[..n]).value, cmds[n], ext(n));
    }
  }

  lemma {:induction false} ExportIsPrintable(cmds: seq<Command>, snap: Snapshot)
    requires AllExportable(cmds) && snap.commands == Printed(cmds)
    requires IsInt64(snap.header.version) && '\n' !in snap.header.exported && '\n' !in snap.header.program
    ensures Printable(snap)
  {
    forall i | 0 <= i < |cmds|
      ensures '\n' !in Print(cmds[i]) && IsCommandLine(Print(cmds[i]))
    {
      PrintIsOneLine(cmds[i]);
      TrimOfTrimmed(Print(cmds[i]));
    }
  }

  // ---- the theorems ----

  /** An exported snapshot: its header holds the version and two one-line texts. */
  ghost predicate Exported(db: DB, o: Order, s: Sections, snap: Snapshot) {
    && IsSnapshotOf(db, o, s, snap)
    && IsInt64(db.version)
    && '\n' !in snap.header.exported && '\n' !in snap.header.program
  }

  /** Export, print, parse and import into any other database: no line fails, the rule
      tables are the exporter's, the version is the exporter's, and the port table
      records exactly the ports in use. The bot and language overrides replicate when
      they are set. */
  lemma {:induction false} Replicates(env: Env, db: DB, o: Order, s: Sections, snap: Snapshot, w: World, ext: nat -> bool)
    requires Inv(env, db) && Exported(db, o, s, snap)
    ensures var r := Imported(env, w, SnapshotOf(TextOf(snap)), ext);
      && r.errors == map[] && r.applied == |snap.commands|
      && IsCopy(db, w, o, r.w.(db := r.w.db.(version := w.db.version)))
      && r.w.db.version == db.version
  {
    var cmds := AllCommands(db, s);
    ExportIsExportable(env, db, o, s);
    ExportIsPrintable(cmds, snap);
    ParsePrintedSnapshot(snap);
    ExportRunsForced(env, db, w, o, s);
    ReplayPrinted(env, Wiped(w), cmds, ext);
  }

  /** Under port agreement the imported port table is the exporter's, restricted to the
      ports in use, and still agrees. */
  lemma {:induction false} PortsReplicate(db: DB, ports: map<int, string>)
    requires PortsAgree(db.domains, db.ports) && PortsFrom(db.domains, ports)
    ensures ports == map p | p in db.ports && p in PortsOf(db.domains) :: db.ports[p]
    ensures PortsAgree(db.domains, ports)
  {
    hide EndpointOf;
    forall p | p in ports
      ensures p in db.ports && ports[p] == db.ports[p]
    {
      assert UsedAs(db.domains, p, ports[p]);
      var c :| c in db.domains && EndpointOf(c).Some? && EndpointOf(c).value.port == p && EndpointOf(c).value.proto == ports[p];
      assert RowAgrees(c, db.ports);
    }
    forall c | c in db.domains
      ensures RowAgrees(c, ports)
    {
      assert RowAgrees(c, db.ports);
      assert EndpointOf(c).value.port in PortsOf(db.domains);
    }
  }
}
