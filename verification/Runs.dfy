/** Whole runs of one node: batches and imported snapshots in any order, what every run
    keeps, what an import leaves of the membership, the rebuild after a wipe, and the
    clash that a committed batch may carry (internal/command/executor.go,
    internal/snapshot, internal/cli/boot.go). */
module Runs {
  import opened Text
  import opened Rules
  import opened Peers
  import opened Store
  import opened Invariants
  import opened Batches
  import opened Agreement
  import opened Snapshots
  import opened Exports
  import opened Replication
  import opened Membership
  import opened Policies

  // ---- runs ----

  datatype Event =
    | RunBatch(forced: bool, text: string, ext: nat -> bool)
    | TakeSnapshot(snapshot: string, ext: nat -> bool)

  ghost function StepBy(env: Env, self: string, w: World, e: Event): World {
    match e
    case RunBatch(forced, text, ext) => Execute(env, forced, w, text, ext).w
    case TakeSnapshot(text, ext) => Applied(env, w, self, text, ext)
  }

  /** The state after a sequence of batches and imports. */
  ghost function After(env: Env, self: string, w: World, events: seq<Event>): World {
    if events == [] then w
    else StepBy(env, self, After(env, self, w, events[..|events| - 1]), events[|events| - 1])
  }

  /** Referential integrity, domain grouping and object parsing hold after any sequence of
      batches, forced or not, and imports of any text. */
  lemma {:induction false} RunKeepsInv(env: Env, self: string, w: World, events: seq<Event>)
    requires Inv(env, w.db)
    ensures Inv(env, After(env, self, w, events).db)
  {
    hide Inv, Execute, Applied;
    if events != [] {
      var n := |events| - 1;
      RunKeepsInv(env, self, w, events[..n]);
      var p := After(env, self, w, events[..n]);
      match events[n]
      case RunBatch(forced, text, ext) => ExecuteKeeps(env, forced, p, text, ext);
      case TakeSnapshot(text, ext) => AppliedKeeps(env, p, self, text, ext);
    }
  }

  ghost predicate AgreeingExport(env: Env, text: string, db: DB, o: Order, s: Sections, snap: Snapshot) {
    Inv(env, db) && PortsAgree(db.domains, db.ports) && Exported(db, o, s, snap) && text == TextOf(snap)
  }

  /** An unforced batch in which nothing succeeds, or no line clashes at its turn, or every
      scope that clashed is deleted again; or the import of an export made under port
      agreement. */
  ghost predicate CleanEvent(env: Env, w: World, e: Event) {
    match e
    case RunBatch(forced, text, ext) =>
      var lines := BatchLines(text);
      && !forced
      && (SomeTurnSucceeds(env, w, lines, ext) ==>
           NoTurnClashes(env, w, lines, ext) || (Inv(env, w.db) && Stuck(env, w, lines, ext) == {}))
    case TakeSnapshot(text, _) => exists db, o, s, snap :: AgreeingExport(env, text, db, o, s, snap)
  }

  lemma {:induction false} ImportAgrees(env: Env, self: string, w: World, text: string, ext: nat -> bool)
    requires CleanEvent(env, w, TakeSnapshot(text, ext))
    ensures var db := Applied(env, w, self, text, ext).db; PortsAgree(db.domains, db.ports)
  {
    hide Inv, Applied, Exported, TextOf, PortsAgree, PortsFrom;
    var db, o, s, snap :| AgreeingExport(env, text, db, o, s, snap);
    AppliedExport(env, db, o, s, snap, w, self, ext);
    PortsReplicate(db, Applied(env, w, self, text, ext).db.ports);
  }

  /** Along any run of unforced batches that leave no clash, and imports of agreeing
      exports, every domain row's protocol is the one recorded for its port. */
  lemma {:induction false} RunKeepsAgreement(env: Env, self: string, w: World, events: seq<Event>)
    requires PortsAgree(w.db.domains, w.db.ports)
    requires forall k | 0 <= k < |events| :: CleanEvent(env, After(env, self, w, events[..k]), events[k])
    ensures var db := After(env, self, w, events).db; PortsAgree(db.domains, db.ports)
  {
    hide Execute, Applied, PortsAgree, CleanEvent;
    if events != [] {
      var n := |events| - 1;
      assert forall k | 0 <= k < n :: events[..n][..k] == events[..k];
      RunKeepsAgreement(env, self, w, events[..n]);
      var p := After(env, self, w, events[..n]);
      assert CleanEvent(env, p, events[n]);
      CleanStepAgrees(env, self, p, events[n]);
    }
  }

  lemma {:induction false} CleanStepAgrees(env: Env, self: string, w: World, e: Event)
    requires PortsAgree(w.db.domains, w.db.ports) && CleanEvent(env, w, e)
    ensures var db := StepBy(env, self, w, e).db; PortsAgree(db.domains, db.ports)
  {
    hide Execute, Applied, PortsAgree, AgreeingExport, BatchLines, SomeTurnSucceeds, NoTurnClashes, Stuck, Inv;
    match e
    case RunBatch(forced, text, ext) =>
      var lines := BatchLines(text);
      if SomeTurnSucceeds(env, w, lines, ext) ==> NoTurnClashes(env, w, lines, ext) {
        BatchAgrees(env, w, text, ext);
      } else {
        BatchAgreesIff(env, w, text, ext);
      }
    case TakeSnapshot(text, ext) => ImportAgrees(env, self, w, text, ext);
  }

  ghost predicate Reachable(env: Env, w: World) {
    exists self, events, file :: w == After(env, self, World(EMPTY, file), events)
  }

  lemma {:induction false} ReachableInv(env: Env, w: World)
    requires Reachable(env, w)
    ensures Inv(env, w.db)
  {
    var self, events, file :| w == After(env, self, World(EMPTY, file), events);
    EmptyInv(env, EMPTY);
    RunKeepsInv(env, self, World(EMPTY, file), events);
  }

  /** For any two reachable databases, exporting one and importing the text into the other
      fails on no line and reproduces the exporter's rule tables and version. */
  lemma {:induction false} ReachableReplicates(env: Env, from: World, o: Order, s: Sections, snap: Snapshot,
                                               to: World, ext: nat -> bool)
    requires Reachable(env, from) && Reachable(env, to) && Exported(from.db, o, s, snap)
    ensures var r := Imported(env, to, SnapshotOf(TextOf(snap)), ext);
      && r.errors == map[]
      && r.w.db.domains == from.db.domains && r.w.db.objects == from.db.objects && r.w.db.bindings == from.db.bindings
      && r.w.db.version == from.db.version
      && Inv(env, r.w.db)
  {
    ReachableInv(env, from);
    ReachableInv(env, to);
    Replicates(env, from.db, o, s, snap, to, ext);
    ImportKeeps(env, to, TextOf(snap), ext);
  }

  /** ... and with the tables, the policy of every server block. */
  lemma {:induction false} PoliciesReplicate(env: Env, from: World, o: Order, s: Sections, snap: Snapshot, to: World,
                                             ext: nat -> bool, p: map<string, Policy>, q: map<string, Policy>)
    requires Reachable(env, from) && Reachable(env, to) && Exported(from.db, o, s, snap)
    requires IsPolicies(from.db, p)
    requires IsPolicies(Imported(env, to, SnapshotOf(TextOf(snap)), ext).w.db, q)
    ensures p == q
  {
    hide Imported, IsPolicies, Reachable, Exported, Inv, TextOf, SnapshotOf;
    ReachableReplicates(env, from, o, s, snap, to, ext);
    PoliciesDetermined(from.db, p, Imported(env, to, SnapshotOf(TextOf(snap)), ext).w.db, q);
  }

  /** In a reachable database the lifetimes bound to a scope are non-negative, so the
      merged policy is the strictest whatever the order of the bindings. */
  lemma {:induction false} StoredLifetimes(env: Env, db: DB, display: string, list: seq<Binding>)
    requires ObjectsOk(env, db.objects) && IsBoundList(db, display, list)
    ensures NonNegativeLifetimes(ParsedOf(db.objects, list))
  {
    hide ParamsOf, ParamsAccepted;
    var bound := ParsedOf(db.objects, list);
    forall b | b in bound && b.Cache?
      ensures b.browserTTL >= 0
    {
      var i :| 0 <= i < |bound| && bound[i] == b;
      assert list[i] in list;
      var k := ObjKey(list[i].typ, list[i].name);
      assert ObjectOk(env, k, db.objects[k]);
      AcceptedRanges(env, k.typ, db.objects[k].text);
    }
  }

  lemma {:induction false} CopyIntoEmpty(db: DB, o: Order, w: World)
    requires IsCopy(db, World(EMPTY, None), o, w)
    ensures w.db.domains == db.domains && w.db.objects == db.objects && w.db.bindings == db.bindings
    ensures w.db.peers == db.peers && w.db.bot == db.bot && w.db.lang == db.lang
  {
    MergeInto(map[], db.peers);
  }

  /** Two databases with the same exported text have the same rule tables: the export
      loses nothing of them. */
  lemma {:induction false} ExportIsFaithful(env: Env, db1: DB, o1: Order, s1: Sections, snap1: Snapshot,
                                            db2: DB, o2: Order, s2: Sections, snap2: Snapshot)
    requires Inv(env, db1) && Exported(db1, o1, s1, snap1)
    requires Inv(env, db2) && Exported(db2, o2, s2, snap2)
    requires TextOf(snap1) == TextOf(snap2)
    ensures db1.domains == db2.domains && db1.objects == db2.objects && db1.bindings == db2.bindings
    ensures db1.peers == db2.peers && db1.version == db2.version && db1.bot == db2.bot && db1.lang == db2.lang
  {
    hide Imported, Inv, TextOf, SnapshotOf, IsCopy, Exported;
    var w := World(EMPTY, None);
    var r := Imported(env, w, SnapshotOf(TextOf(snap1)), (_: nat) => false);
    Replicates(env, db1, o1, s1, snap1, w, (_: nat) => false);
    Replicates(env, db2, o2, s2, snap2, w, (_: nat) => false);
    CopyIntoEmpty(db1, o1, r.w.(db := r.w.db.(version := 0)));
    CopyIntoEmpty(db2, o2, r.w.(db := r.w.db.(version := 0)));
  }

  // ---- saved copies ----

  predicate OneLineHeader(s: Snapshot) {
    '\n' !in s.header.exported && '\n' !in s.header.program
  }

  lemma {:induction false} TrimNoChar(s: string, c: char)
    requires c !in s
    ensures c !in TrimSpace(s)
  {
    TrimLeftNoChar(s, c);
    var t := TrimLeft(s);
    assert TrimRight(t) <= t;
  }

  lemma {:induction false} TrimLeftNoChar(s: string, c: char)
    requires c !in s
    ensures c !in TrimLeft(s)
  {
    if s != "" && IsSpace(s[0]) {
      TrimLeftNoChar(s[1..], c);
    }
  }

  lemma {:induction false} HeaderStaysOneLine(line: string, s: Snapshot)
    requires '\n' !in line && OneLineHeader(s)
    ensures OneLineHeader(s.(header := ParseHeaderLine(line, s.header)))
  {
    hide TrimSpace, IndexOf, ParseInt;
    var start := if HasPrefix(line, "#") then line[1..] else line;
    var body := TrimSpace(start);
    TrimNoChar(start, '\n');
    var colon := IndexOf(body, ':');
    if colon != -1 {
      TrimNoChar(body[colon + 1..], '\n');
    }
  }

  lemma {:induction false} LineStaysOneLine(line: string, s: Snapshot)
    requires '\n' !in line && OneLineHeader(s)
    ensures OneLineHeader(ParseLine(s, line))
  {
    hide TrimSpace, ParseHeaderLine;
    TrimNoChar(line, '\n');
    HeaderStaysOneLine(TrimSpace(line), s);
  }

  lemma {:induction false} FoldStaysOneLine(s: Snapshot, lines: seq<string>)
    requires NoneHas(lines, '\n') && OneLineHeader(s)
    ensures OneLineHeader(FoldLines(ParseLine, s, lines))
    decreases |lines|
  {
    hide ParseLine;
    if lines != [] {
      LineStaysOneLine(lines[0], s);
      FoldStaysOneLine(ParseLine(s, lines[0]), lines[1..]);
    }
  }

  /** A parsed export is an export again: the copy a node saves can be printed, parsed and
      applied any number of times. */
  lemma {:induction false} ReadCopyIsExport(env: Env, db: DB, o: Order, s: Sections, snap: Snapshot)
    requires Inv(env, db) && Exported(db, o, s, snap)
    ensures Exported(db, o, s, SnapshotOf(TextOf(snap)))
  {
    hide Inv, IsExport, AllCommands, TextOf, ParseLine;
    ExportIsExportable(env, db, o, s);
    ExportIsPrintable(AllCommands(db, s), snap);
    ParsePrintedSnapshot(snap);
    FoldStaysOneLine(NOTHING, Split(TextOf(snap), '\n'));
  }

  // ---- rebuild after the runtime directory is wiped ----

  /** Nothing an export would write. */
  predicate HasNothing(db: DB) {
    db.peers == map[] && db.bot == "" && db.lang == "" && db.domains == map[] && db.objects == map[] && db.bindings == {}
  }

  lemma {:induction false} SomeDisplay(domains: map<string, Row>, order: seq<string>)
    requires Visits(order, Displays(domains)) && domains != map[]
    ensures order != []
  {
    var c :| c in domains;
    assert domains[c].display in Displays(domains);
  }

  lemma {:induction false} EmptyExport(db: DB, o: Order, s: Sections)
    requires IsExport(db, o, s) && AllCommands(db, s) == []
    ensures HasNothing(db)
  {
    assert |s.peers| == 0 && |s.domains| == 0 && |s.objects| == 0 && |s.bindings| == 0;
    assert |BotCommands(db.bot)| == 0 && |LangCommands(db.lang)| == 0;
    if db.domains != map[] {
      SomeDisplay(db.domains, o.displays);
    }
    assert db.peers.Keys == {} && db.objects.Keys == {};
  }

  /** Rebuilding an empty database from the saved copy of an export gives the database back,
      its port table cut down to the ports in use. Only when there was nothing to export is
      the copy ignored, and then the version is lost. */
  lemma {:induction false} RebuildAfterWipe(env: Env, db: DB, o: Order, s: Sections, snap: Snapshot,
                                            file: Option<seq<Peer>>, self: string, ext: nat -> bool)
    requires Inv(env, db) && Exported(db, o, s, snap)
    ensures var saved := SnapshotOf(TextOf(snap));
      var r := Applied(env, World(EMPTY, file), self, TextOf(saved), ext);
      if saved.commands == [] then HasNothing(db)
      else r.db == db.(ports := r.db.ports) && PortsFrom(db.domains, r.db.ports)
  {
    hide Inv, IsExport, AllCommands, TextOf, SnapshotOf, Applied, PortsFrom;
    var saved := SnapshotOf(TextOf(snap));
    ReadCopyIsExport(env, db, o, s, snap);
    if saved.commands == [] {
      EmptyExport(db, o, s);
    } else {
      AppliedExport(env, db, o, s, saved, World(EMPTY, file), self, ext);
    }
  }
}
