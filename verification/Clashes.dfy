/** The port clash a committed batch can carry: the rows of a domain write that
    EnforcePortBindings refused are committed when anything else in the batch succeeds,
    without a version bump and against the port table (internal/command/executor.go:173-207). */
module Clashes {
  import opened Text
  import opened Commands
  import opened Scopes
  import opened Rules
  import opened Store
  import opened Invariants
  import opened Batches
  import opened Replication
  import opened Reupload
  import opened Runs

  const LIST_DOMAINS := Command(View, "domain", "-", "-")

  lemma {:induction false} ListDomains(env: Env, w: World, extOk: bool)
    ensures WellFormed(LIST_DOMAINS)
    ensures RunLine(env, false, w, Print(LIST_DOMAINS), extOk) == LineResult(w, Outcome(Ok(NO_EFFECTS), false))
    ensures !Mutates(Print(LIST_DOMAINS))
  {
    hide Fields, Print;
    Words();
    KindNames();
    AsciiToken("-");
    TokenIsNormal("-");
    PrintIsOneLine(LIST_DOMAINS);
    TrimOfTrimmed(Print(LIST_DOMAINS));
    ParsePrint(LIST_DOMAINS);
  }

  lemma {:induction false} TwoLines(a: Command, b: Command)
    requires WellFormed(a) && WellFormed(b)
    ensures BatchLines(Join([Print(a), Print(b)], "\n")) == [Print(a), Print(b)]
  {
    hide Print;
    PrintIsOneLine(a);
    PrintIsOneLine(b);
    JoinNoCR([Print(a), Print(b)]);
    NothingToReplace(Join([Print(a), Print(b)], "\n"));
    SplitJoin([Print(a), Print(b)], '\n');
  }

  lemma {:induction false} OneLine(a: Command)
    requires WellFormed(a)
    ensures BatchLines(Print(a)) == [Print(a)]
  {
    hide Print;
    PrintIsOneLine(a);
    NothingToReplace(Print(a));
    SplitJoin([Print(a)], '\n');
  }

  /** Whenever a domain write clashes over tables that agree, putting a listing after it
      in the batch commits its rows: no version bump, and agreement is gone. */
  lemma {:induction false} ClashCommitted(env: Env, w: World, cmd: Command, ext: nat -> bool)
    requires WellFormed(cmd) && IsDomainWrite(cmd) && DomainWrite(w, cmd).r.Ok?
    requires PortsAgree(w.db.domains, w.db.ports)
    requires Conflicts(w.db.ports, PortBindings(DomainScopeOf(cmd.scope).value))
    ensures var rep := Execute(env, false, w, Join([Print(cmd), Print(LIST_DOMAINS)], "\n"), ext);
      && |rep.outcomes| == 2 && rep.outcomes[0].r == Err(PortConflict) && rep.outcomes[1].r.Ok?
      && rep.newVersion == rep.oldVersion
      && rep.w.db.domains != w.db.domains
      && rep.w.db.domains == w.db.domains + (map c | c in CanonSet(DomainScopeOf(cmd.scope).value) :: Row(cmd.scope, cmd.params))
      && !PortsAgree(rep.w.db.domains, rep.w.db.ports)
  {
    hide Print, Enforce, PortsAgree, Conflicts, DomainScopeOf, DomainWrite, CanonSet, RunOne, Mutates, RunLines, RunLine;
    UnforcedWriteAgrees(env, w, cmd, ext(0));
    KindNames();
    DomainKindOnly(cmd);
    LineOfCommand(env, false, w, cmd, ext(0));
    LineFrame(env, false, w, Print(cmd), ext(0));
    var w1 := RunOne(env, false, w, cmd, ext(0)).w;
    ExtIrrelevant(env, false, w, cmd, ext(0));
    ListDomains(env, w1, ext(1));
    TwoLines(cmd, LIST_DOMAINS);
    TwoSteps(env, w, Print(cmd), Print(LIST_DOMAINS), ext);
    RowsAreNew(w.db.domains, CanonSet(DomainScopeOf(cmd.scope).value), Row(cmd.scope, cmd.params));
  }

  lemma {:induction false} RowsAreNew(domains: map<string, Row>, canons: set<string>, row: Row)
    requires !(canons <= domains.Keys)
    ensures domains + (map c | c in canons :: row) != domains
  {
    var c :| c in canons && c !in domains;
    assert c in domains + (map c | c in canons :: row);
  }

  lemma {:induction false} DomainKindOnly(cmd: Command)
    requires WellFormed(cmd) && IsDomainWrite(cmd)
    ensures Exportable(cmd)
  {
  }

  lemma {:induction false} TwoSteps(env: Env, w: World, a: string, b: string, ext: nat -> bool)
    ensures RunLines(env, false, w, [a, b], ext) ==
      var r1 := RunLine(env, false, w, a, ext(0));
      Extend(Extend(Batch(w, [], NO_EFFECTS, false, false), a, r1), b, RunLine(env, false, r1.w, b, ext(1)))
  {
    hide RunLine;
    assert [a, b][..1] == [a] && [a][..0] == [];
    assert RunLines(env, false, w, [], ext) == Batch(w, [], NO_EFFECTS, false, false);
  }

  lemma {:induction false} OneStep(env: Env, w: World, a: string, ext: nat -> bool)
    ensures RunLines(env, false, w, [a], ext) ==
      Extend(Batch(w, [], NO_EFFECTS, false, false), a, RunLine(env, false, w, a, ext(0)))
  {
    hide RunLine;
    assert [a][..0] == [];
    assert RunLines(env, false, w, [], ext) == Batch(w, [], NO_EFFECTS, false, false);
  }

  // ---- such a state is reachable ----

  const DISPLAY: string := Canonical("http", "a", 443)
  const WRITE_HTTP := Command(Write, "domain", DISPLAY, "-")
  const DELETE_HTTP := Command(Delete, "domain", DISPLAY, "-")
  const WRITE_HTTPS := Command(Write, "domain", Canonical("https", "a", 443), "-")

  lemma {:induction false} DomainCommandForm(verb: Verb, proto: string)
    requires IsProto(proto) && !verb.View?
    ensures var cmd := Command(verb, "domain", Canonical(proto, "a", 443), "-");
      && WellFormed(cmd) && KindOf(cmd.typ) == DomainKind && DomainCheck(cmd).None?
      && DomainScopeOf(cmd.scope) == Ok(DomainScope(proto, "a", [443]))
  {
    hide DomainScopeOf, Fields, Canonical;
    ScopeOfCanonical(proto, "a", 443);
    ScopeParsed(Canonical(proto, "a", 443));
    AsciiToken("-");
    AsciiToken("domain");
    TokenIsNormal("-");
    KindNames();
  }

  lemma {:induction false} OneCommandBatch(env: Env, w: World, cmd: Command, ext: nat -> bool)
    requires WellFormed(cmd) && cmd.verb.IsMutating() && KindOf(cmd.typ) != ExternalKind
    requires RunOne(env, false, w, cmd, false).outcome.r.Ok?
    ensures var r := RunOne(env, false, w, cmd, false).w;
      Execute(env, false, w, Print(cmd), ext).w == r.(db := r.db.(version := r.db.version + 1))
  {
    hide RunOne, Print, KindOf;
    OneLine(cmd);
    OneStep(env, w, Print(cmd), ext);
    ParsePrint(cmd);
    PrintIsOneLine(cmd);
    TrimOfTrimmed(Print(cmd));
    ExtIrrelevant(env, false, w, cmd, ext(0));
  }

  lemma {:induction false} OneEndpoint(proto: string)
    ensures CanonSet(DomainScope(proto, "a", [443])) == {Canonical(proto, "a", 443)}
    ensures PortBindings(DomainScope(proto, "a", [443])) == [PortBinding(443, proto)]
  {
    hide Canonical;
    var sc := DomainScope(proto, "a", [443]);
    assert sc.ports[0] == 443;
    assert Canonical(proto, "a", 443) in CanonSet(sc);
  }

  lemma {:induction false} EnforceOne(port: int, proto: string)
    ensures Enforce(map[], [PortBinding(port, proto)], false) == Enforced(map[port := proto], true)
  {
    assert [PortBinding(port, proto)][1..] == [];
  }

  lemma {:induction false} WriteToEmpty(env: Env, w: World)
    requires w.db.domains == map[] && w.db.ports == map[]
    ensures RunOne(env, false, w, WRITE_HTTP, false) ==
      LineResult(w.(db := w.db.(domains := map[DISPLAY := Row(DISPLAY, "-")], ports := map[443 := "http"])),
                 Outcome(Ok(Effects(true, false, [PortBinding(443, "http")])), false))
  {
    hide DomainScopeOf, Canonical, Enforce, CanonSet, PortBindings, WellFormed;
    DomainCommandForm(Write, "http");
    OneEndpoint("http");
    EnforceOne(443, "http");
    assert !OwnedByOther(w.db.domains, {DISPLAY}, DISPLAY);
    assert DomainWrite(w, WRITE_HTTP).w.db.domains == map[DISPLAY := Row(DISPLAY, "-")];
    assert Run(env, w, WRITE_HTTP, false) == DomainWrite(w, WRITE_HTTP);
  }

  lemma {:induction false} DeleteNothing(env: Env, w: World)
    requires w.db.domains == map[] && w.db.bindings == {}
    ensures RunOne(env, false, w, DELETE_HTTP, false) == LineResult(w, Outcome(Ok(NO_EFFECTS), false))
  {
    hide DomainScopeOf, Canonical, Enforce, CanonSet, WellFormed;
    DomainCommandForm(Delete, "http");
    OneEndpoint("http");
    assert w.db.domains - {DISPLAY} == map[];
    assert Run(env, w, DELETE_HTTP, false) == DomainDelete(w, DELETE_HTTP);
  }

  lemma {:induction false} DeleteAgain(env: Env, w: World)
    requires w.db.domains == map[DISPLAY := Row(DISPLAY, "-")] && w.db.bindings == {}
    ensures RunOne(env, false, w, DELETE_HTTP, false) ==
      LineResult(w.(db := w.db.(domains := map[])), Outcome(Ok(RELOAD), false))
  {
    hide DomainScopeOf, Canonical, Enforce, CanonSet, WellFormed;
    DomainCommandForm(Delete, "http");
    OneEndpoint("http");
    assert w.db.domains - {DISPLAY} == map[];
    assert DISPLAY in w.db.domains;
    assert Run(env, w, DELETE_HTTP, false) == DomainDelete(w, DELETE_HTTP);
  }

  /** A state in which a domain write clashes: a row stored under http and deleted leaves
      its port recorded as http. */
  lemma {:induction false} ClashReachable(env: Env, ext: nat -> bool)
    ensures exists w, cmd ::
      && Reachable(env, w)
      && WellFormed(cmd) && IsDomainWrite(cmd) && DomainWrite(w, cmd).r.Ok?
      && PortsAgree(w.db.domains, w.db.ports)
      && Conflicts(w.db.ports, PortBindings(DomainScopeOf(cmd.scope).value))
  {
    hide DomainScopeOf, Canonical, Enforce, CanonSet, PortBindings, WellFormed, RunOne, Execute, Print, Fields;
    var w0 := World(EMPTY, None);
    DomainCommandForm(Write, "http");
    DomainCommandForm(Delete, "http");
    DomainCommandForm(Write, "https");
    WriteToEmpty(env, w0);
    OneCommandBatch(env, w0, WRITE_HTTP, ext);
    var w1 := Execute(env, false, w0, Print(WRITE_HTTP), ext).w;
    DeleteAgain(env, w1);
    OneCommandBatch(env, w1, DELETE_HTTP, ext);
    var w2 := Execute(env, false, w1, Print(DELETE_HTTP), ext).w;
    var e1, e2 := RunBatch(false, Print(WRITE_HTTP), ext), RunBatch(false, Print(DELETE_HTTP), ext);
    TwoEvents(env, "", w0, e1, e2);
    assert Reachable(env, w2);
    OneEndpoint("https");
    assert PortBindings(DomainScopeOf(WRITE_HTTPS.scope).value)[0] == PortBinding(443, "https");
    assert w2.db.ports == map[443 := "http"];
    assert Conflicts(w2.db.ports, PortBindings(DomainScopeOf(WRITE_HTTPS.scope).value));
    assert DomainWrite(w2, WRITE_HTTPS).r.Ok?;
  }

  lemma {:induction false} TwoEvents(env: Env, self: string, w: World, e1: Event, e2: Event)
    ensures After(env, self, w, [e1, e2]) == StepBy(env, self, StepBy(env, self, w, e1), e2)
  {
    hide StepBy;
    assert [e1, e2][..1] == [e1] && [e1][..0] == [];
    assert After(env, self, w, []) == w;
  }
}
