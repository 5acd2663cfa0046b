/** What a snapshot declares about membership, and what applying another node's export
    leaves of the peer list and its mirror table (internal/snapshot/snapshot.go,
    internal/command/executor.go, internal/cli/boot.go). */
module Membership {
  import opened Text
  import opened Commands
  import opened Rules
  import opened Peers
  import opened Store
  import opened Invariants
  import opened Snapshots
  import opened Exports
  import opened Replication

  // ---- reading the declaration back ----

  lemma {:induction false} JoinSlash(first: string, rest: seq<string>)
    ensures "/" + Join([first] + rest, " ") == Join(["/" + first] + rest, " ")
  {
    assert ([first] + rest)[1..] == rest && (["/" + first] + rest)[1..] == rest;
  }

  lemma {:induction false} PrintFields(cmd: Command)
    requires WellFormed(cmd)
    ensures Fields(Print(cmd)) == ["/" + VerbText(cmd.verb), cmd.typ, cmd.scope] + Fields(cmd.params)
  {
    hide Fields, Join, Print, Normal;
    PrintShape(cmd);
    var rest := [cmd.typ, cmd.scope] + Fields(cmd.params);
    assert Segments(cmd) == [VerbText(cmd.verb)] + rest;
    JoinSlash(VerbText(cmd.verb), rest);
    var all := ["/" + VerbText(cmd.verb)] + rest;
    AsciiToken("/" + VerbText(cmd.verb));
    FieldsJoin(all);
    assert all == ["/" + VerbText(cmd.verb), cmd.typ, cmd.scope] + Fields(cmd.params);
  }

  predicate IsPeerCommand(cmd: Command) {
    cmd.typ == "internal" && cmd.scope == "peer-add"
  }

  lemma {:induction false} OtherLine(cmd: Command)
    requires WellFormed(cmd) && !IsPeerCommand(cmd)
    ensures !IsPeerLine(Fields(Print(cmd)))
  {
    hide Fields, Print, Normal;
    PrintFields(cmd);
  }

  lemma {:induction false} PeerLineRead(ip: string, order: int)
    requires Token(ip) && IsInt64(order)
    ensures var f := Fields(Print(PeerCommand(ip, order)));
      IsPeerLine(f) && f[3] == ip && ParseInt(f[4]) == Some(order)
  {
    hide Fields, Print, ParseInt;
    PeerExportable(ip, order);
    PrintFields(PeerCommand(ip, order));
    ItoaToken(order);
    PairFields(ip, Itoa(order));
    ParseItoa(order);
  }

  lemma {:induction false} DeclaredNext(cmds: seq<Command>, ip: string, order: int)
    requires cmds != [] && cmds[|cmds| - 1] == PeerCommand(ip, order)
    requires var f := Fields(Print(PeerCommand(ip, order)));
      IsPeerLine(f) && f[3] == ip && ParseInt(f[4]) == Some(order)
    ensures PeersDeclared(Printed(cmds)) == PeersDeclared(Printed(cmds[..|cmds| - 1]))[ip := order]
  {
    hide Print, Fields, ParseInt;
    assert Printed(cmds)[..|cmds| - 1] == Printed(cmds[..|cmds| - 1]);
  }

  lemma {:induction false} RestrictLast(m: map<string, int>, keys: seq<string>)
    requires keys != [] && keys[|keys| - 1] in m
    ensures Restrict(m, keys) == Restrict(m, keys[..|keys| - 1])[keys[|keys| - 1] := m[keys[|keys| - 1]]]
  {
    var n := |keys| - 1;
    assert keys == keys[..n] + [keys[n]];
  }

  lemma {:induction false} DeclaredByPeers(env: Env, peers: map<string, int>, order: seq<string>, cmds: seq<Command>)
    requires PeersOk(env, peers) && |cmds| == |order|
    requires forall i | 0 <= i < |order| :: order[i] in peers && cmds[i] == PeerCommand(order[i], peers[order[i]])
    ensures PeersDeclared(Printed(cmds)) == Restrict(peers, order)
    decreases |cmds|
  {
    hide Print, Fields, IsPeerLine;
    if cmds == [] {
      RestrictEmpty(map[], peers);
    } else {
      var n := |cmds| - 1;
      DeclaredByPeers(env, peers, order[..n], cmds[..n]);
      PeerLineRead(order[n], peers[order[n]]);
      DeclaredNext(cmds, order[n], peers[order[n]]);
      RestrictLast(peers, order);
    }
  }

  lemma {:induction false} DeclaredByOthers(a: seq<string>, b: seq<string>)
    requires forall i | 0 <= i < |b| :: !IsPeerLine(Fields(b[i]))
    ensures PeersDeclared(a + b) == PeersDeclared(a)
    decreases |b|
  {
    hide IsPeerLine, Fields;
    if b == [] {
      assert a + b == a;
    } else {
      var n := |b| - 1;
      assert (a + b)[..|a| + n] == a + b[..n];
      DeclaredByOthers(a, b[..n]);
    }
  }

  predicate NoPeerCommand(cmds: seq<Command>) {
    forall i | 0 <= i < |cmds| :: !IsPeerCommand(cmds[i])
  }

  lemma {:induction false} RestHasNoPeers(env: Env, db: DB, o: Order, s: Sections)
    requires Inv(env, db) && IsExport(db, o, s)
    ensures NoPeerCommand(BotCommands(db.bot) + LangCommands(db.lang) + s.domains + s.objects + s.bindings)
  {
    hide IsMinOrigin, DomainsOk, BindingsOk, PeersOk, MetaOk;
    forall i | 0 <= i < |s.objects|
      ensures !IsPeerCommand(s.objects[i])
    {
      assert o.objects[i] in db.objects;
      assert ObjectOk(env, o.objects[i], db.objects[o.objects[i]]);
    }
    assert NoPeerCommand(BotCommands(db.bot)) && NoPeerCommand(LangCommands(db.lang));
    assert NoPeerCommand(s.domains) && NoPeerCommand(s.bindings) && NoPeerCommand(s.objects);
  }

  /** The lines of an export declare exactly the exporter's peers. */
  lemma {:induction false} ExportDeclares(env: Env, db: DB, o: Order, s: Sections)
    requires Inv(env, db) && IsExport(db, o, s)
    ensures Declaration(Printed(AllCommands(db, s))) == if db.peers == map[] then None else Some(db.peers)
  {
    hide Print, IsPeerLine, Fields, DomainSection, ObjectSection, BindSection, PeersDeclared, AllExportable, NoPeerCommand;
    hide DomainsOk, ObjectsOk, BindingsOk, PeersOk, MetaOk;
    var rest := BotCommands(db.bot) + LangCommands(db.lang) + s.domains + s.objects + s.bindings;
    assert AllCommands(db, s) == s.peers + rest;
    assert Printed(s.peers + rest) == Printed(s.peers) + Printed(rest);
    DeclaredByPeers(env, db.peers, o.peers, s.peers);
    RestrictAll(db.peers, o.peers);
    RestHasNoPeers(env, db, o, s);
    ExportIsExportable(env, db, o, s);
    RestDeclaresNone(s.peers, rest);
    DeclaredByOthers(Printed(s.peers), Printed(rest));
  }

  lemma {:induction false} RestDeclaresNone(peers: seq<Command>, rest: seq<Command>)
    requires AllExportable(peers + rest) && NoPeerCommand(rest)
    ensures forall i | 0 <= i < |rest| :: !IsPeerLine(Fields(Printed(rest)[i]))
  {
    hide Print, IsPeerLine, Fields, WellFormed;
    forall i | 0 <= i < |rest|
      ensures !IsPeerLine(Fields(Printed(rest)[i]))
    {
      assert rest[i] == (peers + rest)[|peers| + i];
      OtherLine(rest[i]);
    }
  }

  // ---- after applying ----

  /** m is the least order stored for self, -1 when there is none. */
  ghost predicate IsSelfOrder(list: seq<Peer>, self: string, m: int) {
    if exists p :: p in list && p.ip == self
    then (exists p :: p in list && p.ip == self && p.order == m) && forall p | p in list && p.ip == self :: m <= p.order
    else m == -1
  }

  lemma {:induction false} AscendingSelfOrder(s: seq<Peer>, self: string)
    requires Ascending(s)
    ensures IsSelfOrder(s, self, SelfOrder(s, self))
  {
    if s != [] {
      AscendingSelfOrder(s[1..], self);
      assert s == [s[0]] + s[1..] && s[0] in s;
      assert forall p :: p in s <==> p == s[0] || p in s[1..];
    }
  }

  /** The order this node is reconciled under is the least one its file stores for it. */
  lemma {:induction false} SelfOrderIsLeast(list: seq<Peer>, self: string)
    ensures IsSelfOrder(list, self, SelfOrder(ByOrder(list), self))
  {
    ByOrderSorts(list);
    AscendingSelfOrder(ByOrder(list), self);
    assert forall p :: p in ByOrder(list) <==> p in multiset(ByOrder(list));
    assert forall p :: p in list <==> p in multiset(list);
  }

  /** Taking in other peers does not move this node. */
  lemma {:induction false} SelfKeepsItsPlace(file: seq<Peer>, ips: seq<string>, self: string)
    requires self !in ips
    ensures SelfOrder(ByOrder(FileAfter(Some(file), ips).value), self) == SelfOrder(ByOrder(file), self)
    decreases |ips|
  {
    if ips != [] {
      AddedElsewhere(file, ips[0], self);
      SelfKeepsItsPlace(Added(file, ips[0]), ips[1..], self);
    }
  }

  lemma {:induction false} AddedElsewhere(file: seq<Peer>, ip: string, self: string)
    requires ip != self
    ensures SelfOrder(ByOrder(Added(file, ip)), self) == SelfOrder(ByOrder(file), self)
  {
    SelfOrderIsLeast(file, self);
    SelfOrderIsLeast(Added(file, ip), self);
    assert forall p: Peer | p.ip == self :: p in Added(file, ip) <==> p in file;
  }

  /** The peer rows left: the declared ones, and this node's own. */
  function PeersLeft(mine: map<string, int>, declared: map<string, int>, self: string): map<string, int> {
    if declared == map[] then mine
    else if self != "" && self in mine && self !in declared then declared[self := mine[self]]
    else declared
  }

  lemma {:induction false} PrunedUnion(mine: map<string, int>, declared: map<string, int>, self: string)
    ensures PrunedPeers(mine + declared, self, declared) ==
      if self != "" && self in mine && self !in declared then declared[self := mine[self]] else declared
  {
  }

  /** Applying another node's export: its rule tables and version, its peers plus this
      node, and, when there is a peer file and the export names a peer, exactly those
      members in the file, this node at the place it had. */
  lemma {:induction false} AppliedExport(env: Env, db: DB, o: Order, s: Sections, snap: Snapshot, w: World, self: string,
                                         ext: nat -> bool)
    requires Inv(env, db) && Exported(db, o, s, snap)
    ensures var r := Applied(env, w, self, TextOf(snap), ext);
      && r.db.domains == db.domains && r.db.objects == db.objects && r.db.bindings == db.bindings
      && PortsFrom(db.domains, r.db.ports)
      && r.db.version == db.version
      && r.db.peers == PeersLeft(w.db.peers, db.peers, self)
      && r.db.bot == (if db.bot == "" then w.db.bot else db.bot)
      && r.db.lang == (if db.lang == "" then w.db.lang else db.lang)
      && (db.peers == map[] ==> r.file == w.file)
      && (db.peers != map[] && w.file.Some? ==>
           r.file.Some? && Lists(ByOrder(r.file.value), Members(db.peers, w.file.value, self)))
  {
    hide Inv, TextOf, SnapshotOf, Imported, AllCommands, IsExport, Lists, ByOrder, SelfOrder, PrunedPeers;
    Replicates(env, db, o, s, snap, w, ext);
    var imported := Imported(env, w, SnapshotOf(TextOf(snap)), ext).w;
    ExportIsExportable(env, db, o, s);
    ExportIsPrintable(AllCommands(db, s), snap);
    ParsePrintedSnapshot(snap);
    ExportDeclares(env, db, o, s);
    if db.peers == map[] {
      NoPeersNoFile(db, o, s, w);
    } else {
      PrunedUnion(w.db.peers, db.peers, self);
      if w.file.Some? {
        MembersAfter(db, o, s, w.file.value, self);
        ReconciledFileLists(imported.file.value, self, db.peers);
      }
    }
  }

  lemma {:induction false} SomethingVisited(s: seq<string>, elems: set<string>)
    requires Visits(s, elems) && s != []
    ensures elems != {}
  {
    assert s[0] in s;
  }

  lemma {:induction false} NoPeersNoFile(db: DB, o: Order, s: Sections, w: World)
    requires IsExport(db, o, s) && db.peers == map[]
    ensures FileAfter(w.file, o.peers) == w.file && w.db.peers + db.peers == w.db.peers
  {
    if o.peers != [] {
      SomethingVisited(o.peers, db.peers.Keys);
    }
  }

  lemma {:induction false} MembersAfter(db: DB, o: Order, s: Sections, file: seq<Peer>, self: string)
    requires IsExport(db, o, s)
    ensures Members(db.peers, FileAfter(Some(file), o.peers).value, self) == Members(db.peers, file, self)
  {
    if self !in db.peers {
      SelfKeepsItsPlace(file, o.peers, self);
    }
  }

  lemma {:induction false} ReconciledFileLists(list: seq<Peer>, self: string, declared: map<string, int>)
    ensures Lists(ByOrder(ReconciledFile(list, self, declared)), Members(declared, list, self))
  {
    var next := MemberList(Members(declared, list, self));
    StrictIsAscending(next);
    ByOrderOfAscending(next);
  }

  /** Two nodes an export names end with the same peer file listing and default bot. */
  lemma {:induction false} NamedNodesAgree(env: Env, db: DB, o: Order, s: Sections, snap: Snapshot,
                                           w1: World, self1: string, w2: World, self2: string, ext: nat -> bool)
    requires Inv(env, db) && Exported(db, o, s, snap)
    requires self1 in db.peers && self2 in db.peers && w1.file.Some? && w2.file.Some?
    ensures var f1, f2 := Applied(env, w1, self1, TextOf(snap), ext).file, Applied(env, w2, self2, TextOf(snap), ext).file;
      f1.Some? && f2.Some? && ByOrder(f1.value) == ByOrder(f2.value) && DefaultBot(f1.value) == DefaultBot(f2.value)
    ensures Applied(env, w1, self1, TextOf(snap), ext).db.peers == db.peers
  {
    hide Applied, TextOf, Inv, Exported, Lists, ByOrder;
    AppliedExport(env, db, o, s, snap, w1, self1, ext);
    AppliedExport(env, db, o, s, snap, w2, self2, ext);
    var f1, f2 := Applied(env, w1, self1, TextOf(snap), ext).file, Applied(env, w2, self2, TextOf(snap), ext).file;
    ListingUnique(ByOrder(f1.value), ByOrder(f2.value), db.peers);
    SameDefaultBot(f1.value, f2.value);
  }

  lemma {:induction false} SameDefaultBot(a: seq<Peer>, b: seq<Peer>)
    requires ByOrder(a) == ByOrder(b)
    ensures DefaultBot(a) == DefaultBot(b)
  {
    ByOrderSorts(a);
    ByOrderSorts(b);
    assert |multiset(ByOrder(a))| == |multiset(a)| && |multiset(ByOrder(b))| == |multiset(b)|;
  }
}
