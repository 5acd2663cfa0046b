/** When a batch clashes, read off the tables it starts from, and what a clash leaves:
    which batches change tables without a version step, and which lose the agreement of
    rows and port table (internal/command/executor.go:165-210, internal/command/portproto.go). */
module Agreement {
  import opened Text
  import opened Commands
  import opened Scopes
  import opened Rules
  import opened Store
  import opened Invariants
  import opened Batches

  // ---- the guard of a clash ----

  /** A domain write that owns its endpoints, over a port recorded under the other protocol. */
  predicate StoresConflict(db: DB, cmd: Command) {
    && IsDomainWrite(cmd)
    && var sc := DomainScopeOf(cmd.scope).value;
    && !OwnedByOther(db.domains, CanonSet(sc), cmd.scope)
    && Conflicts(db.ports, PortBindings(sc))
  }

  predicate WillClash(db: DB, line: string) {
    TrimSpace(line) != "" && Parse(line).Ok? && StoresConflict(db, Parse(line).value)
  }

  lemma {:induction false} CommandClashIff(env: Env, forced: bool, w: World, cmd: Command, extOk: bool)
    ensures RunOne(env, forced, w, cmd, extOk).outcome.clash <==> !forced && StoresConflict(w.db, cmd)
  {
    hide Enforce, Conflicts, CanonSet, PortBindings, OwnedByOther, DomainScopeOf;
    RunFrame(env, w, cmd, extOk);
    if IsDomainWrite(cmd) && DomainWrite(w, cmd).r.Ok? {
      DomainWriteResult(env, forced, w, cmd, extOk);
      var sc := DomainScopeOf(cmd.scope).value;
      PortBindingsOnce(sc);
      EnforceMeaning(w.db.ports, PortBindings(sc), forced);
    }
  }

  /** A line clashes exactly when its guard holds on the tables before it. */
  lemma {:induction false} LineClashIff(env: Env, forced: bool, w: World, line: string, extOk: bool)
    ensures RunLine(env, forced, w, line, extOk).outcome.clash <==> !forced && WillClash(w.db, line)
  {
    hide RunOne, StoresConflict, Parse;
    if TrimSpace(line) != "" && Parse(line).Ok? {
      CommandClashIff(env, forced, w, Parse(line).value, extOk);
    }
  }

  /** A view the tables let succeed. */
  predicate ViewSucceeds(env: Env, w: World, line: string, extOk: bool) {
    && TrimSpace(line) != "" && Parse(line).Ok?
    && Parse(line).value.verb.View? && Run(env, w, Parse(line).value, extOk).r.Ok?
  }

  ghost predicate AnyClash(db: DB, lines: seq<string>) {
    exists i :: 0 <= i < |lines| && WillClash(db, lines[i])
  }

  ghost predicate AnyView(env: Env, w: World, lines: seq<string>, ext: nat -> bool) {
    exists i :: 0 <= i < |lines| && ViewSucceeds(env, w, lines[i], ext(i))
  }

  lemma {:induction false} AnyClashStep(db: DB, lines: seq<string>)
    requires lines != []
    ensures var n := |lines| - 1; AnyClash(db, lines) <==> AnyClash(db, lines[..n]) || WillClash(db, lines[n])
  {
    hide WillClash;
    var n := |lines| - 1;
    if AnyClash(db, lines) {
      var i :| 0 <= i < |lines| && WillClash(db, lines[i]);
      assert i < n ==> lines[..n][i] == lines[i];
    }
    if AnyClash(db, lines[..n]) {
      var i :| 0 <= i < n && WillClash(db, lines[..n][i]);
      assert WillClash(db, lines[i]);
    }
  }

  lemma {:induction false} AnyViewStep(env: Env, w: World, lines: seq<string>, ext: nat -> bool)
    requires lines != []
    ensures var n := |lines| - 1;
      AnyView(env, w, lines, ext) <==> AnyView(env, w, lines[..n], ext) || ViewSucceeds(env, w, lines[n], ext(n))
  {
    hide ViewSucceeds;
    var n := |lines| - 1;
    if AnyView(env, w, lines, ext) {
      var i :| 0 <= i < |lines| && ViewSucceeds(env, w, lines[i], ext(i));
      assert i < n ==> lines[..n][i] == lines[i];
    }
    if AnyView(env, w, lines[..n], ext) {
      var i :| 0 <= i < n && ViewSucceeds(env, w, lines[..n][i], ext(i));
      assert ViewSucceeds(env, w, lines[i], ext(i));
    }
  }

  // ---- no bump means no change, exactly when no clash is committed ----

  /** w' differs from w in domain rows and recorded ports only. */
  predicate OnlyRows(w: World, w': World) {
    w' == w.(db := w.db.(domains := w'.db.domains, ports := w'.db.ports))
  }

  lemma {:induction false} ClashOnlyRows(env: Env, w: World, line: string, extOk: bool)
    requires RunLine(env, false, w, line, extOk).outcome.clash
    ensures OnlyRows(w, RunLine(env, false, w, line, extOk).w)
    ensures w.db.domains.Keys <= RunLine(env, false, w, line, extOk).w.db.domains.Keys
    ensures PortsAgree(w.db.domains, w.db.ports) ==>
      w.db.domains.Keys != RunLine(env, false, w, line, extOk).w.db.domains.Keys
  {
    hide Parse, Enforce, CanonSet, PortBindings, DomainScopeOf, PortsAgree, Conflicts;
    var cmd := Parse(line).value;
    RunFrame(env, w, cmd, extOk);
    DomainWriteResult(env, false, w, cmd, extOk);
    if PortsAgree(w.db.domains, w.db.ports) {
      UnforcedWriteAgrees(env, w, cmd, extOk);
    }
  }

  /** Views look at neither the rows nor the ports. */
  lemma {:induction false} ViewsIgnoreRows(env: Env, w: World, w': World, cmd: Command, extOk: bool)
    requires cmd.verb.View? && OnlyRows(w, w')
    ensures Run(env, w, cmd, extOk).r == Run(env, w', cmd, extOk).r
    ensures Run(env, w, cmd, extOk).r.Ok? ==> Run(env, w, cmd, extOk).r.value.ports == []
  {
    hide DomainCheck, OpCheck, Fields, ParseObjectRef, ParseLang, KindOf;
  }

  lemma {:induction false} ViewLine(env: Env, w: World, w': World, line: string, extOk: bool)
    requires OnlyRows(w, w')
    ensures var r := RunLine(env, false, w', line, extOk).outcome.r;
      r.Ok? && !Mutates(line) <==> ViewSucceeds(env, w, line, extOk)
  {
    hide Run, Parse, Enforce;
    if TrimSpace(line) != "" && Parse(line).Ok? && Parse(line).value.verb.View? {
      ViewsIgnoreRows(env, w, w', Parse(line).value, extOk);
    }
  }

  /** Where an unbumped transaction stands, told from the tables it started with. */
  ghost predicate UnbumpedAt(env: Env, w: World, lines: seq<string>, ext: nat -> bool, b: Batch) {
    && OnlyRows(w, b.w) && w.db.domains.Keys <= b.w.db.domains.Keys
    && (!AnyClash(w.db, lines) ==> b.w == w)
    && (AnyClash(w.db, lines) && PortsAgree(w.db.domains, w.db.ports) ==> b.w.db.domains.Keys != w.db.domains.Keys)
    && (b.any <==> AnyView(env, w, lines, ext))
  }

  lemma {:induction false} UnbumpedStep(env: Env, w: World, lines: seq<string>, ext: nat -> bool, p: Batch)
    requires lines != []
    requires var n := |lines| - 1;
      && UnbumpedAt(env, w, lines[..n], ext, p)
      && !Bumped(Extend(p, lines[n], RunLine(env, false, p.w, lines[n], ext(n))))
    ensures var n := |lines| - 1;
      UnbumpedAt(env, w, lines, ext, Extend(p, lines[n], RunLine(env, false, p.w, lines[n], ext(n))))
  {
    hide RunLine, PortsAgree, WillClash, ViewSucceeds, Mutates, AnyClash, AnyView;
    var n := |lines| - 1;
    var res := RunLine(env, false, p.w, lines[n], ext(n));
    AnyClashStep(w.db, lines);
    AnyViewStep(env, w, lines, ext);
    LineFrame(env, false, p.w, lines[n], ext(n));
    LineClashIff(env, false, p.w, lines[n], ext(n));
    ViewLine(env, w, p.w, lines[n], ext(n));
    if res.outcome.clash {
      ClashOnlyRows(env, p.w, lines[n], ext(n));
    }
  }

  lemma {:induction false} UnbumpedLines(env: Env, w: World, lines: seq<string>, ext: nat -> bool)
    requires !Bumped(RunLines(env, false, w, lines, ext))
    ensures UnbumpedAt(env, w, lines, ext, RunLines(env, false, w, lines, ext))
  {
    hide RunLine, UnbumpedAt, Mutates;
    if lines == [] {
      NothingRun(env, w, ext);
    } else {
      UnbumpedLines(env, w, lines[..|lines| - 1], ext);
      UnbumpedStep(env, w, lines, ext, RunLines(env, false, w, lines[..|lines| - 1], ext));
    }
  }

  lemma {:induction false} NothingRun(env: Env, w: World, ext: nat -> bool)
    ensures UnbumpedAt(env, w, [], ext, RunLines(env, false, w, [], ext))
  {
  }

  /** A line of the batch would clash, and a view of it would succeed, on the tables the
      batch starts from: the clash is committed without a version step. */
  ghost predicate CommitsClash(env: Env, forced: bool, w: World, lines: seq<string>, ext: nat -> bool) {
    !forced && AnyClash(w.db, lines) && AnyView(env, w, lines, ext)
  }

  /** A batch over agreeing tables that does not bump the version leaves the database as it
      was, if and only if it has no line that clashes on these tables or no view that
      succeeds on them. */
  lemma {:induction false} UnbumpedUnchangedIff(env: Env, forced: bool, w: World, text: string, ext: nat -> bool)
    requires PortsAgree(w.db.domains, w.db.ports)
    requires var rep := Execute(env, forced, w, text, ext); rep.newVersion == rep.oldVersion
    ensures Execute(env, forced, w, text, ext).w.db == w.db <==> !CommitsClash(env, forced, w, BatchLines(text), ext)
  {
    hide PortsAgree, AnyClash, AnyView, BatchLines, RunLines;
    FlagsMeaning(env, forced, w, BatchLines(text), ext);
    if forced {
      ForcedUnbumped(env, w, BatchLines(text), ext);
    } else {
      UnbumpedLines(env, w, BatchLines(text), ext);
    }
  }

  lemma {:induction false} ForcedUnbumped(env: Env, w: World, lines: seq<string>, ext: nat -> bool)
    requires !Bumped(RunLines(env, true, w, lines, ext))
    ensures RunLines(env, true, w, lines, ext).w == w
  {
    hide RunLine, Mutates;
    if lines != [] {
      var n := |lines| - 1;
      ForcedUnbumped(env, w, lines[..n], ext);
      LineFrame(env, true, w, lines[n], ext(n));
    }
  }

  /** From any database, agreeing or not, changed tables imply a bump unless the batch
      commits a clash. */
  lemma {:induction false} ChangeImpliesBump(env: Env, forced: bool, w: World, text: string, ext: nat -> bool)
    requires !CommitsClash(env, forced, w, BatchLines(text), ext)
    requires Execute(env, forced, w, text, ext).w.db != w.db
    ensures var rep := Execute(env, forced, w, text, ext); rep.newVersion == rep.oldVersion + 1
  {
    hide PortsAgree, AnyClash, AnyView, BatchLines, RunLines;
    FlagsMeaning(env, forced, w, BatchLines(text), ext);
    if !Bumped(RunLines(env, forced, w, BatchLines(text), ext)) {
      if forced {
        ForcedUnbumped(env, w, BatchLines(text), ext);
      } else {
        UnbumpedLines(env, w, BatchLines(text), ext);
      }
    }
  }

  // ---- port agreement over a batch without a clash, from any database ----

  /** No line clashes on the tables its turn finds. */
  ghost predicate NoTurnClashes(env: Env, w: World, lines: seq<string>, ext: nat -> bool) {
    forall k | 0 <= k < |lines| :: !WillClash(RunLines(env, false, w, lines[..k], ext).w.db, lines[k])
  }

  lemma {:induction false} UnforcedLineAgrees(env: Env, w: World, line: string, extOk: bool)
    requires PortsAgree(w.db.domains, w.db.ports) && !WillClash(w.db, line)
    ensures var db := RunLine(env, false, w, line, extOk).w.db; PortsAgree(db.domains, db.ports)
  {
    hide PortsAgree, RunOne, Conflicts, CanonSet, PortBindings, DomainScopeOf;
    if TrimSpace(line) != "" && Parse(line).Ok? {
      var cmd := Parse(line).value;
      CommandClashIff(env, false, w, cmd, extOk);
      if IsDomainWrite(cmd) && DomainWrite(w, cmd).r.Ok? {
        UnforcedWriteAgrees(env, w, cmd, extOk);
      } else {
        OtherCommandsAgree(env, false, w, cmd, extOk);
      }
    }
  }

  lemma {:induction false} UnforcedLinesAgree(env: Env, w: World, lines: seq<string>, ext: nat -> bool)
    requires PortsAgree(w.db.domains, w.db.ports) && NoTurnClashes(env, w, lines, ext)
    ensures var db := RunLines(env, false, w, lines, ext).w.db; PortsAgree(db.domains, db.ports)
  {
    hide PortsAgree, RunLine, WillClash, Mutates;
    if lines != [] {
      var n := |lines| - 1;
      assert forall k | 0 <= k < n :: lines[..n][..k] == lines[..k];
      UnforcedLinesAgree(env, w, lines[..n], ext);
      UnforcedLineAgrees(env, RunLines(env, false, w, lines[..n], ext).w, lines[n], ext(n));
    }
  }

  /** An unforced batch over any agreeing tables keeps agreement when nothing in it succeeds
      or no line of it clashes at its turn. */
  lemma {:induction false} BatchAgrees(env: Env, w: World, text: string, ext: nat -> bool)
    requires PortsAgree(w.db.domains, w.db.ports)
    requires var lines := BatchLines(text); SomeTurnSucceeds(env, w, lines, ext) ==> NoTurnClashes(env, w, lines, ext)
    ensures var db := Execute(env, false, w, text, ext).w.db; PortsAgree(db.domains, db.ports)
  {
    hide PortsAgree, BatchLines, RunLines, SomeTurnSucceeds, NoTurnClashes;
    FlagsMeaning(env, false, w, BatchLines(text), ext);
    SucceedsAtTurn(env, w, BatchLines(text), ext);
    if SomeTurnSucceeds(env, w, BatchLines(text), ext) {
      UnforcedLinesAgree(env, w, BatchLines(text), ext);
    }
  }

  // ---- port agreement over a batch, exactly ----

  /** The row c stands on a port recorded under the other protocol. */
  predicate Off(c: string, ports: map<int, string>) {
    match EndpointOf(c)
    case None => false
    case Some(e) => e.port in ports && ports[e.port] != e.proto
  }

  predicate DeletesScope(w: World, line: string) {
    && TrimSpace(line) != "" && Parse(line).Ok?
    && var cmd := Parse(line).value;
    && KindOf(cmd.typ) == DomainKind && cmd.verb.Delete? && DomainCheck(cmd).None?
    && DomainDelete(w, cmd).r.Ok?
  }

  function ScopeOfLine(line: string): string
    requires Parse(line).Ok?
  {
    Parse(line).value.scope
  }

  /** The display scopes whose line clashed at its turn and that no later line deleted. */
  function Stuck(env: Env, w: World, lines: seq<string>, ext: nat -> bool): set<string> {
    if lines == [] then {}
    else
      var n := |lines| - 1;
      var before, turn := Stuck(env, w, lines[..n], ext), RunLines(env, false, w, lines[..n], ext).w;
      StuckAfter(before, turn, lines[n])
  }

  function StuckAfter(before: set<string>, turn: World, line: string): set<string> {
    if WillClash(turn.db, line) then before + {ScopeOfLine(line)}
    else if DeletesScope(turn, line) then before - {ScopeOfLine(line)}
    else before
  }

  /** The rows that disagree with the port table are rows of these display scopes, and each
      of the scopes has one that no unforced command can bring to agree. */
  ghost predicate Marks(db: DB, stuck: set<string>) {
    && (forall d | d in stuck :: exists c :: c in db.domains && db.domains[c].display == d && Off(c, db.ports))
    && (forall c | c in db.domains && !RowAgrees(c, db.ports) :: db.domains[c].display in stuck)
  }

  lemma {:induction false} MarksAgree(db: DB, stuck: set<string>)
    requires Marks(db, stuck)
    ensures PortsAgree(db.domains, db.ports) <==> stuck == {}
  {
    hide EndpointOf;
    if d :| d in stuck {
      var c :| c in db.domains && db.domains[c].display == d && Off(c, db.ports);
      assert !RowAgrees(c, db.ports);
    }
  }

  /** After an unforced enforcement recorded ports are as they were; on success the rows of
      the scope agree, on a clash one of them is off. */
  lemma {:induction false} EnforcedRows(ports: map<int, string>, sc: DomainScope)
    requires ScopeOk(sc)
    ensures var e := Enforce(ports, PortBindings(sc), false);
      && (forall p | p in ports :: p in e.ports && e.ports[p] == ports[p])
      && (e.ok ==> forall c | c in CanonSet(sc) :: RowAgrees(c, e.ports))
      && (e.ok ==> forall c | c in CanonSet(sc) :: !Off(c, ports))
      && (!e.ok ==> exists c :: c in CanonSet(sc) && Off(c, e.ports))
  {
    hide Enforce, Conflicts;
    EnforceUnforced(ports, sc);
    var e := Enforce(ports, PortBindings(sc), false);
    if e.ok {
      forall c | c in CanonSet(sc)
        ensures !Off(c, ports)
      {
        assert RowAgrees(c, e.ports);
      }
    } else {
      ConflictMeaning(ports, sc);
      var i :| 0 <= i < |sc.ports| && sc.ports[i] in ports && ports[sc.ports[i]] != sc.proto;
      EndpointOfCanonical(sc, i);
      assert Off(Canonical(sc.proto, sc.host, sc.ports[i]), e.ports);
      assert Canonical(sc.proto, sc.host, sc.ports[i]) in CanonSet(sc);
    }
  }

  /** Rows for the endpoints of a scope nobody else owns part of, over a grown port table. */
  lemma {:induction false} MarksRows(db: DB, db': DB, stuck: set<string>, canons: set<string>, row: Row, ok: bool)
    requires Marks(db, stuck) && !OwnedByOther(db.domains, canons, row.display)
    requires db'.domains == db.domains + (map c | c in canons :: row)
    requires forall p | p in db.ports :: p in db'.ports && db'.ports[p] == db.ports[p]
    requires ok ==> forall c | c in canons :: RowAgrees(c, db'.ports)
    requires !ok ==> exists c :: c in canons && Off(c, db'.ports)
    ensures Marks(db', if ok then stuck else stuck + {row.display})
  {
    hide EndpointOf;
    var stuck' := if ok then stuck else stuck + {row.display};
    forall d | d in stuck'
      ensures exists c :: c in db'.domains && db'.domains[c].display == d && Off(c, db'.ports)
    {
      if d in stuck {
        var c :| c in db.domains && db.domains[c].display == d && Off(c, db.ports);
        assert db'.domains[c].display == d && Off(c, db'.ports);
      } else {
        var c :| c in canons && Off(c, db'.ports);
        assert db'.domains[c] == row;
      }
    }
    forall c | c in db'.domains && !RowAgrees(c, db'.ports)
      ensures db'.domains[c].display in stuck'
    {
      if c !in canons {
        assert !RowAgrees(c, db.ports);
      }
    }
  }

  lemma {:induction false} MarksWrite(env: Env, w: World, cmd: Command, extOk: bool, stuck: set<string>)
    requires Marks(w.db, stuck) && IsDomainWrite(cmd) && DomainWrite(w, cmd).r.Ok?
    ensures Marks(RunOne(env, false, w, cmd, extOk).w.db,
                  if StoresConflict(w.db, cmd) then stuck + {cmd.scope} else stuck)
  {
    hide Marks, Enforce, Conflicts, PortBindings, DomainScopeOf, RunOne, Off, RowAgrees, CanonSet;
    var sc := DomainScopeOf(cmd.scope).value;
    CommandClashIff(env, false, w, cmd, extOk);
    DomainWriteResult(env, false, w, cmd, extOk);
    EnforcedRows(w.db.ports, sc);
    MarksRows(w.db, RunOne(env, false, w, cmd, extOk).w.db, stuck, CanonSet(sc), Row(cmd.scope, cmd.params),
              Enforce(w.db.ports, PortBindings(sc), false).ok);
  }

  /** Deleting a scope takes out its whole group and no other row. */
  lemma {:induction false} MarksDelete(w: World, cmd: Command, stuck: set<string>)
    requires Marks(w.db, stuck) && DomainsOk(w.db.domains)
    requires DomainScopeOf(cmd.scope).Ok? && DomainDelete(w, cmd).r.Ok?
    ensures Marks(DomainDelete(w, cmd).w.db, stuck - {cmd.scope})
  {
    hide DomainScopeOf, CanonSet, Off, RowAgrees;
    var canons := CanonSet(DomainScopeOf(cmd.scope).value);
    var db' := DomainDelete(w, cmd).w.db;
    forall d | d in stuck - {cmd.scope}
      ensures exists c :: c in db'.domains && db'.domains[c].display == d && Off(c, db'.ports)
    {
      var c :| c in w.db.domains && w.db.domains[c].display == d && Off(c, w.db.ports);
      assert c !in canons;
      assert c in db'.domains && db'.domains[c].display == d;
    }
    forall c | c in db'.domains && !RowAgrees(c, db'.ports)
      ensures db'.domains[c].display in stuck - {cmd.scope}
    {
      assert RowOk(w.db.domains, c);
    }
  }

  /** Every other command leaves the domain rows alone. */
  lemma {:induction false} RowsFrame(env: Env, w: World, cmd: Command, extOk: bool)
    requires !IsDomainWrite(cmd)
    requires KindOf(cmd.typ) == DomainKind && cmd.verb.Delete? && DomainCheck(cmd).None? ==> DomainDelete(w, cmd).r.Err?
    ensures Run(env, w, cmd, extOk).w.db.domains == w.db.domains
  {
    hide DomainScopeOf, CanonSet, OpCheck, Fields, ParseObjectRef, ParseLang, ObjectCheck, DomainCheck;
    match KindOf(cmd.typ)
    case DomainKind =>
    case RuleKind =>
    case BindKind =>
    case InternalKind =>
    case TargetKind =>
    case LangKind =>
    case ExternalKind =>
    case UnknownKind =>
  }

  lemma {:induction false} MarksCommand(env: Env, w: World, cmd: Command, extOk: bool, stuck: set<string>)
    requires Marks(w.db, stuck) && DomainsOk(w.db.domains)
    ensures var deletes := KindOf(cmd.typ) == DomainKind && cmd.verb.Delete? && DomainCheck(cmd).None? && DomainDelete(w, cmd).r.Ok?;
      Marks(RunOne(env, false, w, cmd, extOk).w.db,
            if StoresConflict(w.db, cmd) then stuck + {cmd.scope} else if deletes then stuck - {cmd.scope} else stuck)
  {
    hide Marks, Enforce, Conflicts, CanonSet, PortBindings, DomainsOk, KindOf;
    RunFrame(env, w, cmd, extOk);
    if IsDomainWrite(cmd) && DomainWrite(w, cmd).r.Ok? {
      MarksWrite(env, w, cmd, extOk, stuck);
    } else if KindOf(cmd.typ) == DomainKind && cmd.verb.Delete? && DomainCheck(cmd).None? && DomainDelete(w, cmd).r.Ok? {
      MarksDelete(w, cmd, stuck);
    } else if !IsDomainWrite(cmd) {
      RowsFrame(env, w, cmd, extOk);
      MarksSame(w.db, Run(env, w, cmd, extOk).w.db, stuck);
    }
  }

  lemma {:induction false} MarksSame(db: DB, db': DB, stuck: set<string>)
    requires Marks(db, stuck) && db'.domains == db.domains && db'.ports == db.ports
    ensures Marks(db', stuck)
  {
  }

  lemma {:induction false} MarksLine(env: Env, w: World, line: string, extOk: bool, stuck: set<string>)
    requires Marks(w.db, stuck) && DomainsOk(w.db.domains)
    ensures Marks(RunLine(env, false, w, line, extOk).w.db, StuckAfter(stuck, w, line))
  {
    hide Marks, RunOne, StoresConflict, Parse, DomainDelete, DomainCheck, KindOf;
    if TrimSpace(line) != "" && Parse(line).Ok? {
      MarksCommand(env, w, Parse(line).value, extOk, stuck);
    }
  }

  lemma {:induction false} MarksLines(env: Env, w: World, lines: seq<string>, ext: nat -> bool)
    requires Inv(env, w.db) && PortsAgree(w.db.domains, w.db.ports)
    ensures Marks(RunLines(env, false, w, lines, ext).w.db, Stuck(env, w, lines, ext))
  {
    hide RunLine, StuckAfter, ObjectsOk, BindingsOk, PeersOk, MetaOk, DomainsOk;
    if lines != [] {
      var n := |lines| - 1;
      hide Marks, PortsAgree;
      MarksLines(env, w, lines[..n], ext);
      RunLinesKeep(env, false, w, lines[..n], ext);
      MarksLine(env, RunLines(env, false, w, lines[..n], ext).w, lines[n], ext(n), Stuck(env, w, lines[..n], ext));
    }
  }

  /** Some line succeeds on the tables its turn finds. */
  ghost predicate SomeTurnSucceeds(env: Env, w: World, lines: seq<string>, ext: nat -> bool) {
    exists k :: 0 <= k < |lines| && TurnSucceeds(env, w, lines, ext, k)
  }

  predicate TurnSucceeds(env: Env, w: World, lines: seq<string>, ext: nat -> bool, k: nat)
    requires k < |lines|
  {
    RunLine(env, false, RunLines(env, false, w, lines[..k], ext).w, lines[k], ext(k)).outcome.r.Ok?
  }

  lemma {:induction false} OutcomeAtTurn(env: Env, w: World, lines: seq<string>, ext: nat -> bool, k: nat)
    requires k < |lines|
    ensures RunLines(env, false, w, lines, ext).outcomes[k] ==
            RunLine(env, false, RunLines(env, false, w, lines[..k], ext).w, lines[k], ext(k)).outcome
    decreases |lines|
  {
    hide RunLine, Mutates;
    var n := |lines| - 1;
    if k < n {
      OutcomeAtTurn(env, w, lines[..n], ext, k);
      assert lines[..n][..k] == lines[..k];
    }
  }

  lemma {:induction false} SucceedsAtTurn(env: Env, w: World, lines: seq<string>, ext: nat -> bool)
    ensures SomeSucceeded(RunLines(env, false, w, lines, ext).outcomes) <==> SomeTurnSucceeds(env, w, lines, ext)
  {
    hide RunLine, RunLines;
    forall k | 0 <= k < |lines|
      ensures RunLines(env, false, w, lines, ext).outcomes[k].r.Ok? <==> TurnSucceeds(env, w, lines, ext, k)
    {
      OutcomeAtTurn(env, w, lines, ext, k);
    }
  }

  /** An unforced batch keeps port agreement if and only if nothing in it succeeds or every
      scope that clashed at its turn is deleted by a later line. */
  lemma {:induction false} BatchAgreesIff(env: Env, w: World, text: string, ext: nat -> bool)
    requires Inv(env, w.db) && PortsAgree(w.db.domains, w.db.ports)
    ensures var db, lines := Execute(env, false, w, text, ext).w.db, BatchLines(text);
      PortsAgree(db.domains, db.ports) <==>
      !SomeTurnSucceeds(env, w, lines, ext) || Stuck(env, w, lines, ext) == {}
  {
    hide Inv, PortsAgree, Stuck, Marks, BatchLines, RunLines, SomeTurnSucceeds;
    SucceedsAtTurn(env, w, BatchLines(text), ext);
    FlagsMeaning(env, false, w, BatchLines(text), ext);
    MarksLines(env, w, BatchLines(text), ext);
    MarksAgree(RunLines(env, false, w, BatchLines(text), ext).w.db, Stuck(env, w, BatchLines(text), ext));
  }
}
