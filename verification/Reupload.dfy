/** An uploaded command file: how its lines are classed, the batch text it becomes, and
    re-uploading a node's own export (internal/bot/config_import.go,
    internal/command/executor.go). */
module Reupload {
  import opened Text
  import opened Commands
  import opened Rules
  import opened Store
  import opened Invariants
  import opened Batches
  import opened Snapshots
  import opened Exports
  import opened Replication

  // ---- reading a file ----

  datatype LineClass = Comment | WriteLine | DeleteLine | ViewLine | Malformed

  datatype MalformedLine = MalformedLine(lineNo: nat, content: string)

  datatype ParsedImport = ParsedImport(
    commandLines: seq<string>,
    writes: nat,
    deletes: nat,
    views: nat,
    comments: nat,
    malformed: seq<MalformedLine>)

  /** The class of a line, trimmed. */
  function ClassOf(line: string): LineClass {
    if line == "" || HasPrefix(line, "#") then Comment
    else if HasPrefix(line, "/w ") then WriteLine
    else if HasPrefix(line, "/d ") then DeleteLine
    else if HasPrefix(line, "/v ") then ViewLine
    else Malformed
  }

  function Shown(line: string): string {
    if |line| > 80 then line[..77] + "..." else line
  }

  function Count(lines: seq<string>, class_: LineClass): nat {
    if lines == [] then 0
    else Count(lines[..|lines| - 1], class_) + if ClassOf(TrimSpace(lines[|lines| - 1])) == class_ then 1 else 0
  }

  /** The trimmed write and delete lines, in file order. */
  function CommandsIn(lines: seq<string>): seq<string> {
    if lines == [] then []
    else
      var line := TrimSpace(lines[|lines| - 1]);
      CommandsIn(lines[..|lines| - 1]) + if ClassOf(line).WriteLine? || ClassOf(line).DeleteLine? then [line] else []
  }

  /** The lines of no known class, numbered from one. */
  function MalformedIn(lines: seq<string>): seq<MalformedLine> {
    if lines == [] then []
    else
      var line := TrimSpace(lines[|lines| - 1]);
      MalformedIn(lines[..|lines| - 1]) + if ClassOf(line).Malformed? then [MalformedLine(|lines|, Shown(line))] else []
  }

  const BOM: string := "\U{FEFF}"

  function ReplaceCR(s: string): string {
    if s == "" then "" else [if s[0] == '\r' then '\n' else s[0]] + ReplaceCR(s[1..])
  }

  function ImportLines(body: string): seq<string> {
    var text := if HasPrefix(body, BOM) then body[|BOM|..] else body;
    Split(ReplaceCR(ReplaceCRLF(text)), '\n')
  }

  function Summary(lines: seq<string>): ParsedImport {
    ParsedImport(CommandsIn(lines), Count(lines, WriteLine), Count(lines, DeleteLine), Count(lines, ViewLine),
                 Count(lines, Comment), MalformedIn(lines))
  }

  lemma {:induction false} SummaryNext(lines: seq<string>, i: nat)
    requires i < |lines|
    ensures var p, line := Summary(lines[..i]), TrimSpace(lines[i]);
      Summary(lines[..i + 1]) ==
      match ClassOf(line)
      case Comment => p.(comments := p.comments + 1)
      case WriteLine => p.(writes := p.writes + 1, commandLines := p.commandLines + [line])
      case DeleteLine => p.(deletes := p.deletes + 1, commandLines := p.commandLines + [line])
      case ViewLine => p.(views := p.views + 1)
      case Malformed => p.(malformed := p.malformed + [MalformedLine(i + 1, Shown(line))])
  {
    hide ClassOf, TrimSpace, Shown;
    assert lines[..i + 1][..i] == lines[..i];
  }

  /** parseImportFile */
  method ParseImportFile(body: string) returns (out: ParsedImport)
    ensures out == Summary(ImportLines(body))
  {
    hide TrimSpace, Summary, ImportLines;
    var lines := ImportLines(body);
    out := ParsedImport([], 0, 0, 0, 0, []);
    NoLines(lines);
    for i := 0 to |lines|
      invariant out == Summary(lines[..i])
    {
      SummaryNext(lines, i);
      var line := TrimSpace(lines[i]);
      if line == "" {
        out := out.(comments := out.comments + 1);
        continue;
      }
      if HasPrefix(line, "#") {
        out := out.(comments := out.comments + 1);
        continue;
      }
      if HasPrefix(line, "/w ") {
        out := out.(writes := out.writes + 1, commandLines := out.commandLines + [line]);
      } else if HasPrefix(line, "/d ") {
        out := out.(deletes := out.deletes + 1, commandLines := out.commandLines + [line]);
      } else if HasPrefix(line, "/v ") {
        out := out.(views := out.views + 1);
      } else {
        out := out.(malformed := out.malformed + [MalformedLine(i + 1, Shown(line))]);
      }
    }
    assert lines[..|lines|] == lines;
  }

  lemma {:induction false} NoLines(lines: seq<string>)
    ensures Summary(lines[..0]) == ParsedImport([], 0, 0, 0, 0, [])
  {
  }

  /** Every line is counted in exactly one class, and every write or delete is executed. */
  lemma {:induction false} LinesAccounted(lines: seq<string>)
    ensures Count(lines, WriteLine) + Count(lines, DeleteLine) + Count(lines, ViewLine) + Count(lines, Comment)
            + |MalformedIn(lines)| == |lines|
    ensures |CommandsIn(lines)| == Count(lines, WriteLine) + Count(lines, DeleteLine)
    ensures |MalformedIn(lines)| == Count(lines, Malformed)
  {
    hide ClassOf, TrimSpace, Shown;
    if lines != [] {
      LinesAccounted(lines[..|lines| - 1]);
    }
  }

  /** batchText */
  function BatchText(p: ParsedImport): string {
    Join(p.commandLines, "\n")
  }

  // ---- texts without carriage returns ----

  lemma {:induction false} NothingToReplace(s: string)
    requires '\r' !in s
    ensures ReplaceCRLF(s) == s && ReplaceCR(s) == s
    decreases |s|
  {
    if s != "" {
      NothingToReplace(s[1..]);
      assert s == [s[0]] + s[1..];
    }
  }

  lemma {:induction false} LinesNoChar(lines: seq<string>, c: char)
    requires NoneHas(lines, c) && c != '\n'
    ensures c !in Lines(lines)
  {
    if lines != [] {
      LinesNoChar(lines[1..], c);
    }
  }

  lemma {:induction false} JoinNoCR(lines: seq<string>)
    requires NoneHas(lines, '\r')
    ensures '\r' !in Join(lines, "\n")
  {
    if |lines| > 1 {
      JoinNoCR(lines[1..]);
    }
  }

  // ---- running printed commands as one batch ----

  /** A batch in which everything succeeded. */
  ghost predicate AllSucceeded(rep: Report) {
    forall i | 0 <= i < |rep.outcomes| :: rep.outcomes[i].r.Ok? && !rep.outcomes[i].clash
  }

  lemma {:induction false} LineOfCommand(env: Env, forced: bool, w: World, cmd: Command, extOk: bool)
    requires Exportable(cmd)
    ensures RunLine(env, forced, w, Print(cmd), extOk) == RunOne(env, forced, w, cmd, false)
    ensures Mutates(Print(cmd))
  {
    hide RunOne, KindOf;
    PrintIsOneLine(cmd);
    TrimOfTrimmed(Print(cmd));
    ParsePrint(cmd);
    ExtIrrelevant(env, forced, w, cmd, extOk);
  }

  ghost predicate CleanBatch(b: Batch, w: World, n: nat) {
    && b.w == w
    && |b.outcomes| == n
    && (forall i | 0 <= i < n :: b.outcomes[i].r.Ok? && !b.outcomes[i].clash)
    && (b.any <==> n > 0) && (b.mutated <==> n > 0)
  }

  lemma {:induction false} BatchOfCommands(env: Env, forced: bool, w: World, cmds: seq<Command>, ext: nat -> bool)
    requires AllExportable(cmds) && RunAll(env, forced, w, cmds).Some?
    ensures CleanBatch(RunLines(env, forced, w, Printed(cmds), ext), RunAll(env, forced, w, cmds).value, |cmds|)
    decreases |cmds|
  {
    hide RunOne, RunLine, Print, Exportable, Mutates;
    if cmds != [] {
      var n := |cmds| - 1;
      RunAllLast(env, forced, w, cmds);
      BatchOfCommands(env, forced, w, cmds[..n], ext);
      assert Printed(cmds)[..n] == Printed(cmds[..n]);
      var w1 := RunAll(env, forced, w, cmds[..n]).value;
      LineOfCommand(env, forced, w1, cmds[n], ext(n));
      QuietSuccess(env, forced, w1, cmds[n]);
    }
  }

  lemma {:induction false} QuietSuccess(env: Env, forced: bool, w: World, cmd: Command)
    ensures RunOne(env, forced, w, cmd, false).outcome.r.Ok? ==> !RunOne(env, forced, w, cmd, false).outcome.clash
  {
    hide Run, Enforce;
  }

  lemma {:induction false} LinesOfBatch(cmds: seq<Command>)
    requires AllExportable(cmds) && cmds != []
    ensures BatchLines(Join(Printed(cmds), "\n")) == Printed(cmds)
  {
    hide Print;
    forall i | 0 <= i < |cmds|
      ensures '\r' !in Print(cmds[i]) && '\n' !in Print(cmds[i])
    {
      PrintIsOneLine(cmds[i]);
    }
    JoinNoCR(Printed(cmds));
    NothingToReplace(Join(Printed(cmds), "\n"));
    SplitJoin(Printed(cmds), '\n');
  }

  // ---- re-uploading an export ----

  lemma {:induction false} CommandClass(cmd: Command)
    requires Exportable(cmd)
    ensures TrimSpace(Print(cmd)) == Print(cmd) && ClassOf(Print(cmd)) == WriteLine
  {
    PrintIsOneLine(cmd);
    TrimOfTrimmed(Print(cmd));
    var s := Print(cmd);
    assert s[..3] == "/w ";
  }

  lemma {:induction false} HeaderClass(h: Header)
    ensures forall i | 0 <= i < |HeaderLines(h)| :: ClassOf(TrimSpace(HeaderLines(h)[i])) == Comment
  {
    hide HeaderLine, TrimSpace, ClassOf;
    HashLine("version", Itoa(h.version));
    HashLine("exported", h.exported);
    HashLine("program", h.program);
  }

  lemma {:induction false} HashLine(key: string, value: string)
    requires Token(key) && ':' !in key
    ensures ClassOf(TrimSpace(HeaderLine(key, value))) == Comment
  {
    hide HeaderLine, TrimSpace, ParseHeaderLine, SetField;
    HeaderLineRead(key, value, NO_HEADER);
  }

  lemma {:induction false} CommentsOnly(lines: seq<string>)
    requires forall i | 0 <= i < |lines| :: ClassOf(TrimSpace(lines[i])) == Comment
    ensures CommandsIn(lines) == [] && MalformedIn(lines) == [] && Count(lines, ViewLine) == 0
  {
    hide ClassOf, TrimSpace;
    if lines != [] {
      CommentsOnly(lines[..|lines| - 1]);
    }
  }

  lemma {:induction false} WriteNext(lines: seq<string>, line: string)
    requires TrimSpace(line) == line && ClassOf(line) == WriteLine
    ensures CommandsIn(lines + [line]) == CommandsIn(lines) + [line]
    ensures MalformedIn(lines + [line]) == MalformedIn(lines)
    ensures Count(lines + [line], ViewLine) == Count(lines, ViewLine)
  {
    hide ClassOf, TrimSpace;
    assert (lines + [line])[..|lines|] == lines;
  }

  lemma {:induction false} ThenWrites(head: seq<string>, writes: seq<string>)
    requires forall i | 0 <= i < |writes| :: TrimSpace(writes[i]) == writes[i] && ClassOf(writes[i]) == WriteLine
    requires CommandsIn(head) == [] && MalformedIn(head) == [] && Count(head, ViewLine) == 0
    ensures var lines := head + writes;
      CommandsIn(lines) == writes && MalformedIn(lines) == [] && Count(lines, ViewLine) == 0
    decreases |writes|
  {
    hide ClassOf, TrimSpace, CommandsIn, MalformedIn, Count;
    if writes == [] {
      assert head + writes == head;
    } else {
      var n := |writes| - 1;
      ThenWrites(head, writes[..n]);
      WriteNext(head + writes[..n], writes[n]);
      assert head + writes[..n] + [writes[n]] == head + writes;
      assert writes[..n] + [writes[n]] == writes;
    }
  }

  /** The printed file has no carriage return and starts with a comment, so its lines are
      the header, the commands and the empty text after the last newline. */
  lemma {:induction false} PrintedFileLines(snap: Snapshot, cmds: seq<Command>)
    requires AllExportable(cmds) && snap.commands == Printed(cmds) && Printable(snap)
    requires '\r' !in snap.header.exported && '\r' !in snap.header.program
    ensures ImportLines(TextOf(snap)) == HeaderLines(snap.header) + Printed(cmds) + [""]
  {
    hide Print, IsCommandLine;
    var all := HeaderLines(snap.header) + Printed(cmds);
    HeaderNoNewline(snap.header);
    ItoaToken(snap.header.version);
    TokenNoSpaceChar(Itoa(snap.header.version), '\r');
    forall i | 0 <= i < |cmds|
      ensures '\r' !in Print(cmds[i]) && '\n' !in Print(cmds[i])
    {
      PrintIsOneLine(cmds[i]);
    }
    assert NoneHas(all, '\r') && NoneHas(all, '\n');
    LinesNoChar(all, '\r');
    NothingToReplace(TextOf(snap));
    FirstCharacter(snap);
    SplitLines(all);
  }

  lemma {:induction false} FirstCharacter(snap: Snapshot)
    ensures TextOf(snap) != "" && TextOf(snap)[0] == '#'
  {
    var all := HeaderLines(snap.header) + snap.commands;
    assert all[0] == HeaderLine("version", Itoa(snap.header.version));
  }

  /** An uploaded export is read as exactly its command list: nothing malformed, no view. */
  lemma {:induction false} UploadedCommands(snap: Snapshot, cmds: seq<Command>)
    requires AllExportable(cmds) && snap.commands == Printed(cmds) && Printable(snap)
    requires '\r' !in snap.header.exported && '\r' !in snap.header.program
    ensures var lines := ImportLines(TextOf(snap));
      CommandsIn(lines) == snap.commands && MalformedIn(lines) == [] && Count(lines, ViewLine) == 0
  {
    hide Print, ClassOf, TrimSpace, IsCommandLine, HeaderLines, ImportLines, TextOf;
    PrintedFileLines(snap, cmds);
    HeaderClass(snap.header);
    CommentsOnly(HeaderLines(snap.header));
    forall i | 0 <= i < |cmds|
      ensures TrimSpace(Print(cmds[i])) == Print(cmds[i]) && ClassOf(Print(cmds[i])) == WriteLine
    {
      CommandClass(cmds[i]);
    }
    ThenWrites(HeaderLines(snap.header), Printed(cmds));
    LastLine(HeaderLines(snap.header) + Printed(cmds));
  }

  lemma {:induction false} LastLine(lines: seq<string>)
    ensures CommandsIn(lines + [""]) == CommandsIn(lines) && MalformedIn(lines + [""]) == MalformedIn(lines)
    ensures Count(lines + [""], ViewLine) == Count(lines, ViewLine)
  {
    assert (lines + [""])[..|lines|] == lines;
  }

  /** Uploading a node's own export and executing it, under port agreement: every line
      succeeds, no table changes and the version rises by one. With nothing to execute
      the batch is one empty line that fails and nothing changes. */
  lemma {:induction false} ReuploadIsNoOp(env: Env, w: World, o: Order, s: Sections, snap: Snapshot, ext: nat -> bool)
    requires Inv(env, w.db) && Exported(w.db, o, s, snap) && PortsAgree(w.db.domains, w.db.ports)
    requires '\r' !in snap.header.exported && '\r' !in snap.header.program
    ensures var lines := ImportLines(TextOf(snap));
      var rep := Execute(env, false, w, BatchText(Summary(lines)), ext);
      && CommandsIn(lines) == snap.commands && MalformedIn(lines) == [] && Count(lines, ViewLine) == 0
      && (snap.commands == [] ==> rep.w == w && |rep.outcomes| == 1 && rep.outcomes[0].r == Err(BadFormat))
      && (snap.commands != [] ==>
           AllSucceeded(rep) && |rep.outcomes| == |snap.commands|
           && rep.w.db == w.db.(version := w.db.version + 1))
  {
    hide Inv, IsExport, AllCommands, TextOf, ImportLines, PortsAgree, RunLine, Print;
    var cmds := AllCommands(w.db, s);
    ExportIsExportable(env, w.db, o, s);
    ExportIsPrintable(cmds, snap);
    UploadedCommands(snap, cmds);
    if cmds == [] {
      EmptyBatch(env, w, ext);
    } else {
      ExportRunsInPlace(env, w, o, s);
      LinesOfBatch(cmds);
      BatchOfCommands(env, false, w, cmds, ext);
    }
  }

  lemma {:induction false} EmptyBatch(env: Env, w: World, ext: nat -> bool)
    ensures var rep := Execute(env, false, w, "", ext);
      rep.w == w && |rep.outcomes| == 1 && rep.outcomes[0].r == Err(BadFormat)
  {
    assert BatchLines("") == [""];
    assert [""][..0] == [];
    var b := RunLines(env, false, w, [], ext);
    var res := RunLine(env, false, w, "", ext(0));
    assert res == LineResult(w, Outcome(Err(BadFormat), false));
    assert RunLines(env, false, w, [""], ext) == Extend(b, "", res);
  }
}
