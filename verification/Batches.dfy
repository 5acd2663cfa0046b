/** Batch execution: one transaction per batch, failed commands skipped, one version
    step (internal/command/executor.go, internal/command/portproto.go). */
module Batches {
  import opened Text
  import opened Commands
  import opened Scopes
  import opened Rules
  import opened Store
  import opened Invariants

  /** clash marks a failure raised by EnforcePortBindings, after the handler has
      already written its rows. */
  datatype Outcome = Outcome(r: Result<Effects>, clash: bool)

  datatype LineResult = LineResult(w: World, outcome: Outcome)

  /** One accepted command and, when it asks for ports, the enforcement of them. */
  function RunOne(env: Env, forced: bool, w: World, cmd: Command, extOk: bool): LineResult {
    var s := Run(env, w, cmd, extOk);
    if s.r.Err? || s.r.value.ports == [] then LineResult(s.w, Outcome(s.r, false))
    else
      var e := Enforce(s.w.db.ports, s.r.value.ports, forced);
      var w' := s.w.(db := s.w.db.(ports := e.ports));
      if e.ok then LineResult(w', Outcome(s.r, false))
      else LineResult(w', Outcome(Err(PortConflict), true))
  }

  function RunLine(env: Env, forced: bool, w: World, line: string, extOk: bool): LineResult {
    if TrimSpace(line) == "" then LineResult(w, Outcome(Err(BadFormat), false))
    else
      match Parse(line)
      case Err(code) => LineResult(w, Outcome(Err(code), false))
      case Ok(cmd) => RunOne(env, forced, w, cmd, extOk)
  }

  predicate Mutates(line: string) {
    Parse(line).Ok? && Parse(line).value.verb.IsMutating()
  }

  /** The transaction after some lines, and the flags the executor keeps beside it. */
  datatype Batch = Batch(w: World, outcomes: seq<Outcome>, agg: Effects, any: bool, mutated: bool)

  function Extend(b: Batch, line: string, res: LineResult): Batch {
    match res.outcome.r
    case Err(_) => Batch(res.w, b.outcomes + [res.outcome], b.agg, b.any, b.mutated)
    case Ok(eff) =>
      Batch(res.w, b.outcomes + [res.outcome], b.agg.Merge(eff), true, b.mutated || Mutates(line))
  }

  /** The left-to-right fold of the lines over the transaction. */
  function RunLines(env: Env, forced: bool, w: World, lines: seq<string>, ext: nat -> bool): (b: Batch)
    ensures |b.outcomes| == |lines|
  {
    if lines == [] then Batch(w, [], NO_EFFECTS, false, false)
    else
      var n := |lines| - 1;
      var b := RunLines(env, forced, w, lines[..n], ext);
      Extend(b, lines[n], RunLine(env, forced, b.w, lines[n], ext(n)))
  }

  function ReplaceCRLF(s: string): string {
    if |s| < 2 then s
    else if s[..2] == "\r\n" then "\n" + ReplaceCRLF(s[2..])
    else [s[0]] + ReplaceCRLF(s[1..])
  }

  function BatchLines(text: string): seq<string> {
    Split(ReplaceCRLF(text), '\n')
  }

  datatype Report = Report(w: World, oldVersion: int, newVersion: int, outcomes: seq<Outcome>, agg: Effects)

  predicate Bumped(b: Batch) {
    b.mutated || b.agg.forceBump
  }

  /** Commit when anything succeeded, roll the tables back otherwise. */
  function Finish(w: World, b: Batch): Report {
    var version := if Bumped(b) then b.w.db.version + 1 else w.db.version;
    var db := if Bumped(b) then b.w.db.(version := version) else b.w.db;
    Report(World(if b.any then db else w.db, b.w.file), w.db.version, version, b.outcomes, b.agg)
  }

  function Execute(env: Env, forced: bool, w: World, text: string, ext: nat -> bool): Report {
    Finish(w, RunLines(env, forced, w, BatchLines(text), ext))
  }

  ghost predicate Clashed(outcomes: seq<Outcome>) {
    exists i :: 0 <= i < |outcomes| && outcomes[i].clash
  }

  // ---- every batch keeps the invariant ----

  lemma {:induction false} PortsOutsideInv(env: Env, db: DB, ports: map<int, string>)
    requires Inv(env, db)
    ensures Inv(env, db.(ports := ports))
  {
    assert BindingsOk(db);
  }

  lemma {:induction false} RunOneKeeps(env: Env, forced: bool, w: World, cmd: Command, extOk: bool)
    requires Inv(env, w.db) && WellFormed(cmd)
    ensures Inv(env, RunOne(env, forced, w, cmd, extOk).w.db)
  {
    RunKeeps(env, w, cmd, extOk);
    var s := Run(env, w, cmd, extOk);
    if s.r.Ok? {
      PortsOutsideInv(env, s.w.db, Enforce(s.w.db.ports, s.r.value.ports, forced).ports);
    }
  }

  lemma {:induction false} RunLineKeeps(env: Env, forced: bool, w: World, line: string, extOk: bool)
    requires Inv(env, w.db)
    ensures Inv(env, RunLine(env, forced, w, line, extOk).w.db)
  {
    if TrimSpace(line) != "" && Parse(line).Ok? {
      ParsedIsWellFormed(line);
      RunOneKeeps(env, forced, w, Parse(line).value, extOk);
    }
  }

  lemma {:induction false} RunLinesKeep(env: Env, forced: bool, w: World, lines: seq<string>, ext: nat -> bool)
    requires Inv(env, w.db)
    ensures Inv(env, RunLines(env, forced, w, lines, ext).w.db)
  {
    if lines != [] {
      var n := |lines| - 1;
      RunLinesKeep(env, forced, w, lines[..n], ext);
      RunLineKeeps(env, forced, RunLines(env, forced, w, lines[..n], ext).w, lines[n], ext(n));
    }
  }

  /** Referential integrity, domain grouping and object parsing survive every batch,
      forced or not, whatever fails in it. */
  lemma {:induction false} ExecuteKeeps(env: Env, forced: bool, w: World, text: string, ext: nat -> bool)
    requires Inv(env, w.db)
    ensures Inv(env, Execute(env, forced, w, text, ext).w.db)
  {
    RunLinesKeep(env, forced, w, BatchLines(text), ext);
  }

  // ---- the version ----

  /** Some /w or /d line succeeded, or a read-shaped command forced a bump. */
  ghost predicate DeservesBump(lines: seq<string>, outcomes: seq<Outcome>)
    requires |lines| == |outcomes|
  {
    exists i :: 0 <= i < |lines| && Deserves(lines[i], outcomes[i])
  }

  ghost predicate SomeSucceeded(outcomes: seq<Outcome>) {
    exists i :: 0 <= i < |outcomes| && outcomes[i].r.Ok?
  }

  predicate Deserves(line: string, o: Outcome) {
    o.r.Ok? && (Mutates(line) || o.r.value.forceBump)
  }

  lemma {:induction false} DeservesBumpStep(lines: seq<string>, outcomes: seq<Outcome>, line: string, o: Outcome)
    requires |lines| == |outcomes|
    ensures DeservesBump(lines + [line], outcomes + [o]) <==> DeservesBump(lines, outcomes) || Deserves(line, o)
  {
    var ls, os, n := lines + [line], outcomes + [o], |lines|;
    if DeservesBump(ls, os) {
      var i :| 0 <= i < |ls| && Deserves(ls[i], os[i]);
      assert i < n ==> ls[i] == lines[i] && os[i] == outcomes[i];
    }
    if DeservesBump(lines, outcomes) {
      var i :| 0 <= i < n && Deserves(lines[i], outcomes[i]);
      assert Deserves(ls[i], os[i]);
    }
    if Deserves(line, o) {
      assert Deserves(ls[n], os[n]);
    }
  }

  lemma {:induction false} SucceededStep(outcomes: seq<Outcome>, o: Outcome)
    ensures SomeSucceeded(outcomes + [o]) <==> SomeSucceeded(outcomes) || o.r.Ok?
  {
    var os, n := outcomes + [o], |outcomes|;
    if SomeSucceeded(os) {
      var i :| 0 <= i < |os| && os[i].r.Ok?;
      assert i < n ==> os[i] == outcomes[i];
    }
    if SomeSucceeded(outcomes) {
      var i :| 0 <= i < n && outcomes[i].r.Ok?;
      assert os[i].r.Ok?;
    }
    if o.r.Ok? {
      assert os[n].r.Ok?;
    }
  }

  lemma {:induction false} FlagsMeaning(env: Env, forced: bool, w: World, lines: seq<string>, ext: nat -> bool)
    ensures var b := RunLines(env, forced, w, lines, ext);
      && (Bumped(b) <==> DeservesBump(lines, b.outcomes))
      && (b.any <==> SomeSucceeded(b.outcomes))
      && b.w.db.version == w.db.version
      && (!b.any ==> b.w.file == w.file)
  {
    if lines != [] {
      var n := |lines| - 1;
      var p := RunLines(env, forced, w, lines[..n], ext);
      var res := RunLine(env, forced, p.w, lines[n], ext(n));
      FlagsMeaning(env, forced, w, lines[..n], ext);
      DeservesBumpStep(lines[..n], p.outcomes, lines[n], res.outcome);
      SucceededStep(p.outcomes, res.outcome);
      assert lines[..n] + [lines[n]] == lines;
      LineFrame(env, forced, p.w, lines[n], ext(n));
    }
  }

  /** What one line leaves alone. Only a clash lets a failed line change the database. */
  lemma {:induction false} LineFrame(env: Env, forced: bool, w: World, line: string, extOk: bool)
    ensures var res := RunLine(env, forced, w, line, extOk);
      && res.w.db.version == w.db.version
      && (res.outcome.clash ==> res.outcome.r == Err(PortConflict) && res.w.file == w.file && !forced)
      && (res.outcome.r.Err? && !res.outcome.clash ==> res.w == w)
      && (res.outcome.r.Ok? && !Mutates(line) && !res.outcome.r.value.forceBump ==> res.w == w)
  {
    if TrimSpace(line) != "" && Parse(line).Ok? {
      var cmd := Parse(line).value;
      RunFrame(env, w, cmd, extOk);
      if IsDomainWrite(cmd) {
        ScopeParsed(cmd.scope);
        var sc := DomainScopeOf(cmd.scope).value;
        PortBindingsOnce(sc);
        EnforceMeaning(w.db.ports, PortBindings(sc), forced);
      }
    }
  }

  /** The version rises by exactly one when a /w or /d succeeded or a bump was forced,
      and stays otherwise; a batch in which nothing succeeded changes nothing. */
  lemma {:induction false} BatchVersion(env: Env, forced: bool, w: World, text: string, ext: nat -> bool)
    ensures var rep := Execute(env, forced, w, text, ext);
      && |rep.outcomes| == |BatchLines(text)|
      && rep.oldVersion == w.db.version
      && rep.newVersion == rep.oldVersion + (if DeservesBump(BatchLines(text), rep.outcomes) then 1 else 0)
      && rep.w.db.version == rep.newVersion
      && (!SomeSucceeded(rep.outcomes) ==> rep.w == w)
  {
    FlagsMeaning(env, forced, w, BatchLines(text), ext);
    var b := RunLines(env, forced, w, BatchLines(text), ext);
    if DeservesBump(BatchLines(text), b.outcomes) {
      var i :| 0 <= i < |b.outcomes| && Deserves(BatchLines(text)[i], b.outcomes[i]);
      assert b.outcomes[i].r.Ok?;
    }
  }

  // ---- port agreement, command by command ----

  /** The endpoints of other rows on the ports of sc, all under sc's protocol. */
  ghost predicate OthersFollow(domains: map<string, Row>, sc: DomainScope) {
    forall c | c in domains && EndpointOf(c).Some? && EndpointOf(c).value.port in sc.ports ::
      EndpointOf(c).value.proto == sc.proto
  }

  lemma {:induction false} ConflictMeaning(ports: map<int, string>, sc: DomainScope)
    ensures Conflicts(ports, PortBindings(sc)) <==>
      exists i :: 0 <= i < |sc.ports| && sc.ports[i] in ports && ports[sc.ports[i]] != sc.proto
  {
    var bs := PortBindings(sc);
    if Conflicts(ports, bs) {
      var i :| 0 <= i < |bs| && bs[i].port in ports && ports[bs[i].port] != bs[i].protocol;
      assert sc.ports[i] in ports && ports[sc.ports[i]] != sc.proto;
    }
    if i :| 0 <= i < |sc.ports| && sc.ports[i] in ports && ports[sc.ports[i]] != sc.proto {
      assert bs[i].port == sc.ports[i] && bs[i].protocol == sc.proto;
    }
  }

  /** A domain write that owns its endpoints stores its rows, then enforces its ports. */
  lemma {:induction false} DomainWriteResult(env: Env, forced: bool, w: World, cmd: Command, extOk: bool)
    requires IsDomainWrite(cmd) && DomainWrite(w, cmd).r.Ok?
    ensures var sc := DomainScopeOf(cmd.scope).value;
      var res := RunOne(env, forced, w, cmd, extOk);
      var e := Enforce(w.db.ports, PortBindings(sc), forced);
      && ScopeOk(sc)
      && res.outcome.clash == !e.ok
      && res.outcome.r.Ok? == e.ok
      && res.w.db.ports == e.ports
      && res.w.db.domains == w.db.domains + (map c | c in CanonSet(sc) :: Row(cmd.scope, cmd.params))
      && res.w.db.domains.Keys == w.db.domains.Keys + CanonSet(sc)
  {
    ScopeParsed(cmd.scope);
    RunFrame(env, w, cmd, extOk);
    PortBindingsOnce(DomainScopeOf(cmd.scope).value);
  }

  /** An unforced domain write whose rows were stored keeps port agreement exactly when
      none of its ports is recorded under the other protocol. The failed write that a
      clash reports has stored its rows all the same. */
  lemma {:induction false} UnforcedWriteAgrees(env: Env, w: World, cmd: Command, extOk: bool)
    requires IsDomainWrite(cmd) && DomainWrite(w, cmd).r.Ok?
    requires PortsAgree(w.db.domains, w.db.ports)
    ensures var res := RunOne(env, false, w, cmd, extOk);
      var sc := DomainScopeOf(cmd.scope).value;
      && (res.outcome.clash <==> Conflicts(w.db.ports, PortBindings(sc)))
      && (PortsAgree(res.w.db.domains, res.w.db.ports) <==> !res.outcome.clash)
      && res.w.db.domains == w.db.domains + (map c | c in CanonSet(sc) :: Row(cmd.scope, cmd.params))
      && (res.outcome.clash ==> !(CanonSet(sc) <= w.db.domains.Keys))
  {
    DomainWriteResult(env, false, w, cmd, extOk);
    var sc := DomainScopeOf(cmd.scope).value;
    EnforceUnforced(w.db.ports, sc);
    var e := Enforce(w.db.ports, PortBindings(sc), false);
    UnforcedRows(w.db.domains, w.db.ports, sc, w.db.domains.Keys + CanonSet(sc), e);
  }

  lemma {:induction false} UnforcedRows(domains: map<string, Row>, ports: map<int, string>, sc: DomainScope,
                     keys: set<string>, e: Enforced)
    requires PortsAgree(domains, ports)
    requires keys == domains.Keys + CanonSet(sc)
    requires forall p | p in ports :: p in e.ports && e.ports[p] == ports[p]
    requires e.ok ==> forall c | c in CanonSet(sc) :: RowAgrees(c, e.ports)
    requires !e.ok ==> exists c | c in CanonSet(sc) :: !RowAgrees(c, ports) && !RowAgrees(c, e.ports)
    ensures (forall c | c in keys :: RowAgrees(c, e.ports)) <==> e.ok
    ensures !e.ok ==> !(CanonSet(sc) <= domains.Keys)
  {
    forall c | c in domains
      ensures RowAgrees(c, e.ports)
    {
      assert RowAgrees(c, ports);
    }
  }

  /** Unforced enforcement fails exactly on a conflict; it never changes a recorded port;
      on success every endpoint of the scope agrees, on failure one of them cannot. */
  lemma {:induction false} EnforceUnforced(ports: map<int, string>, sc: DomainScope)
    requires ScopeOk(sc)
    ensures var e := Enforce(ports, PortBindings(sc), false);
      && (e.ok <==> !Conflicts(ports, PortBindings(sc)))
      && (forall p | p in ports :: p in e.ports && e.ports[p] == ports[p])
      && (e.ok ==> forall c | c in CanonSet(sc) :: RowAgrees(c, e.ports))
      && (!e.ok ==> exists c | c in CanonSet(sc) :: !RowAgrees(c, ports) && !RowAgrees(c, e.ports))
  {
    PortBindingsOnce(sc);
    EnforceMeaning(ports, PortBindings(sc), false);
    var e := Enforce(ports, PortBindings(sc), false);
    if e.ok {
      AgreesAfter(sc, e.ports);
    } else {
      ConflictMeaning(ports, sc);
      var i :| 0 <= i < |sc.ports| && sc.ports[i] in ports && ports[sc.ports[i]] != sc.proto;
      EndpointOfCanonical(sc, i);
      assert Canonical(sc.proto, sc.host, sc.ports[i]) in CanonSet(sc);
    }
  }

  lemma {:induction false} AgreesAfter(sc: DomainScope, ports: map<int, string>)
    requires ScopeOk(sc)
    requires forall i | 0 <= i < |PortBindings(sc)| ::
      PortBindings(sc)[i].port in ports && ports[PortBindings(sc)[i].port] == PortBindings(sc)[i].protocol
    ensures forall c | c in CanonSet(sc) :: RowAgrees(c, ports)
  {
    forall i | 0 <= i < |sc.ports|
      ensures sc.ports[i] in ports && ports[sc.ports[i]] == sc.proto
    {
      assert PortBindings(sc)[i] == PortBinding(sc.ports[i], sc.proto);
    }
    AgreeingRows(sc, ports);
  }

  /** A forced domain write never clashes. It keeps port agreement exactly when the rows
      already stored on its ports use its protocol. */
  lemma {:induction false} ForcedWriteAgrees(env: Env, w: World, cmd: Command, extOk: bool)
    requires IsDomainWrite(cmd) && DomainWrite(w, cmd).r.Ok?
    requires PortsAgree(w.db.domains, w.db.ports)
    ensures var res := RunOne(env, true, w, cmd, extOk);
      var sc := DomainScopeOf(cmd.scope).value;
      && !res.outcome.clash
      && (PortsAgree(res.w.db.domains, res.w.db.ports) <==> OthersFollow(w.db.domains, sc))
  {
    DomainWriteResult(env, true, w, cmd, extOk);
    var sc := DomainScopeOf(cmd.scope).value;
    EnforceForced(w.db.ports, sc);
    var after := RunOne(env, true, w, cmd, extOk).w.db;
    ForcedRows(w.db.domains, w.db.ports, sc, after.domains, after.ports);
  }

  lemma {:induction false} ForcedRows(domains: map<string, Row>, ports: map<int, string>, sc: DomainScope,
                   domains': map<string, Row>, ports': map<int, string>)
    requires ScopeOk(sc) && PortsAgree(domains, ports)
    requires domains'.Keys == domains.Keys + CanonSet(sc)
    requires forall p | p in ports :: p in ports' && ports'[p] == if p in sc.ports then sc.proto else ports[p]
    requires forall c | c in CanonSet(sc) :: RowAgrees(c, ports')
    ensures PortsAgree(domains', ports') <==> OthersFollow(domains, sc)
  {
    forall c | c in domains
      ensures RowAgrees(c, ports') <==>
        (EndpointOf(c).Some? && EndpointOf(c).value.port in sc.ports ==> EndpointOf(c).value.proto == sc.proto)
    {
      assert RowAgrees(c, ports);
    }
    if PortsAgree(domains', ports') {
      assert forall c | c in domains :: c in domains';
    }
  }

  /** Forced enforcement always succeeds; the ports of the scope take its protocol, the
      others keep theirs. */
  lemma {:induction false} EnforceForced(ports: map<int, string>, sc: DomainScope)
    requires ScopeOk(sc)
    ensures var e := Enforce(ports, PortBindings(sc), true);
      && e.ok
      && PortBindings(sc) != []
      && (forall p | p in ports :: p in e.ports && e.ports[p] == if p in sc.ports then sc.proto else ports[p])
      && (forall p | p in sc.ports :: p in e.ports && e.ports[p] == sc.proto)
      && e.ports.Keys == ports.Keys + (set p | p in sc.ports)
      && (forall c | c in CanonSet(sc) :: RowAgrees(c, e.ports))
  {
    hide Names, Enforce, CanonSet;
    PortBindingsOnce(sc);
    var bs := PortBindings(sc);
    EnforceMeaning(ports, bs, true);
    var e := Enforce(ports, bs, true);
    AgreesAfter(sc, e.ports);
    assert forall i | 0 <= i < |bs| :: bs[i] == PortBinding(sc.ports[i], sc.proto);
    forall p | p in sc.ports
      ensures p in e.ports && e.ports[p] == sc.proto
    {
      var i :| 0 <= i < |sc.ports| && sc.ports[i] == p;
      assert bs[i].port == p;
    }
    BindingNames(sc);
    assert e.ports.Keys == ports.Keys + (set p | p in sc.ports) by {
      var named := set p | p in sc.ports;
      forall p | p in e.ports
        ensures p in ports.Keys + named
      {
        assert p !in ports ==> Names(bs, p);
      }
      assert named <= e.ports.Keys;
    }
  }

  lemma {:induction false} BindingNames(sc: DomainScope)
    ensures forall p :: Names(PortBindings(sc), p) <==> p in sc.ports
  {
    var bs := PortBindings(sc);
    forall p | p in sc.ports
      ensures Names(bs, p)
    {
      var i :| 0 <= i < |sc.ports| && sc.ports[i] == p;
      assert bs[i].port == p;
    }
  }

  /** Deleting and every other command keeps agreement: rows only disappear. */
  lemma {:induction false} OtherCommandsAgree(env: Env, forced: bool, w: World, cmd: Command, extOk: bool)
    requires PortsAgree(w.db.domains, w.db.ports)
    requires !IsDomainWrite(cmd) || DomainWrite(w, cmd).r.Err?
    ensures var res := RunOne(env, forced, w, cmd, extOk);
      PortsAgree(res.w.db.domains, res.w.db.ports) && !res.outcome.clash
  {
    RunFrame(env, w, cmd, extOk);
    var s := Run(env, w, cmd, extOk);
    if !IsDomainWrite(cmd) {
      FewerRowsAgree(w.db.domains, s.w.db.domains, w.db.ports);
    }
  }

  lemma {:induction false} FewerRowsAgree(domains: map<string, Row>, fewer: map<string, Row>, ports: map<int, string>)
    requires PortsAgree(domains, ports) && fewer.Keys <= domains.Keys
    ensures PortsAgree(fewer, ports)
  {
  }

  lemma {:induction false} ClashedAppend(outcomes: seq<Outcome>, o: Outcome)
    ensures Clashed(outcomes + [o]) <==> Clashed(outcomes) || o.clash
  {
    var all := outcomes + [o];
    if Clashed(outcomes) {
      var i :| 0 <= i < |outcomes| && outcomes[i].clash;
      assert all[i].clash;
    }
    if o.clash {
      assert all[|outcomes|].clash;
    }
    if Clashed(all) {
      var i :| 0 <= i < |all| && all[i].clash;
      if i < |outcomes| {
        assert outcomes[i].clash;
      }
    }
  }

  /** Forced batches never clash. */
  lemma {:induction false} ForcedNeverClashes(env: Env, w: World, lines: seq<string>, ext: nat -> bool)
    ensures !Clashed(RunLines(env, true, w, lines, ext).outcomes)
  {
    if lines != [] {
      var n := |lines| - 1;
      var p := RunLines(env, true, w, lines[..n], ext);
      ForcedNeverClashes(env, w, lines[..n], ext);
      ClashedAppend(p.outcomes, RunLine(env, true, p.w, lines[n], ext(n)).outcome);
      LineFrame(env, true, p.w, lines[n], ext(n));
    }
  }
}
