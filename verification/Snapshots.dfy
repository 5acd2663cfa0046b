/** Snapshots: the export of a database as command text, its parser, and the import
    that wipes the rule tables and replays the text (internal/snapshot/snapshot.go,
    internal/snapshot/import.go, internal/command/executor.go). */
module Snapshots {
  import opened Text
  import opened Commands
  import opened Rules
  import opened Peers
  import opened Store
  import opened Invariants
  import opened Batches

  datatype Header = Header(version: int, exported: string, program: string)
  datatype Snapshot = Snapshot(header: Header, commands: seq<string>)

  const NO_HEADER := Header.Header(0, "", "")

  // ---- the printer ----

  function HeaderLine(key: string, value: string): string {
    "# " + key + ": " + value
  }

  function HeaderLines(h: Header): seq<string> {
    [HeaderLine("version", Itoa(h.version)), HeaderLine("exported", h.exported)]
    + if h.program != "" then [HeaderLine("program", h.program)] else []
  }

  /** Snapshot.String */
  function TextOf(s: Snapshot): string {
    Lines(HeaderLines(s.header) + s.commands)
  }

  lemma {:induction false} OneMoreLine(lines: seq<string>, line: string)
    ensures Lines(lines + [line]) == Lines(lines) + line + "\n"
  {
    LinesAppend(lines, [line]);
    assert [line][1..] == [];
    assert Lines([line]) == line + ['\n'] + "";
    assert Lines(lines) + (line + ['\n']) == Lines(lines) + line + "\n";
  }

  /** Snapshot.String, building its text line by line. */
  method Render(s: Snapshot) returns (text: string)
    ensures text == TextOf(s)
  {
    hide Lines, Itoa;
    text := "";
    NoLinesYet();
    ghost var lines: seq<string> := [];
    OneMoreLine(lines, HeaderLine("version", Itoa(s.header.version)));
    text, lines := text + HeaderLine("version", Itoa(s.header.version)) + "\n", lines + [HeaderLine("version", Itoa(s.header.version))];
    OneMoreLine(lines, HeaderLine("exported", s.header.exported));
    text, lines := text + HeaderLine("exported", s.header.exported) + "\n", lines + [HeaderLine("exported", s.header.exported)];
    if s.header.program != "" {
      OneMoreLine(lines, HeaderLine("program", s.header.program));
      text, lines := text + HeaderLine("program", s.header.program) + "\n", lines + [HeaderLine("program", s.header.program)];
    }
    assert lines == HeaderLines(s.header);
    for i := 0 to |s.commands|
      invariant lines == HeaderLines(s.header) + s.commands[..i]
      invariant text == Lines(lines)
    {
      hide HeaderLines;
      OneMoreLine(lines, s.commands[i]);
      assert HeaderLines(s.header) + s.commands[..i] + [s.commands[i]] == HeaderLines(s.header) + s.commands[..i + 1];
      text := text + s.commands[i];
      text := text + "\n";
      lines := lines + [s.commands[i]];
    }
    assert s.commands[..|s.commands|] == s.commands;
  }

  lemma {:induction false} NoLinesYet()
    ensures Lines([]) == ""
  {
  }

  // ---- the parser ----

  /** parseHeaderLine; the exported timestamp is kept as text. */
  function ParseHeaderLine(line: string, h: Header): Header {
    var body := TrimSpace(if HasPrefix(line, "#") then line[1..] else line);
    var colon := IndexOf(body, ':');
    if colon == -1 then h
    else SetField(h, TrimSpace(body[..colon]), TrimSpace(body[colon + 1..]))
  }

  function SetField(h: Header, key: string, val: string): Header {
    if key == "version" then
      match ParseInt(val)
      case Some(v) => h.(version := v)
      case None => h
    else if key == "exported" then h.(exported := val)
    else if key == "program" then h.(program := val)
    else h
  }

  function ParseLine(s: Snapshot, line: string): Snapshot {
    var trimmed := TrimSpace(line);
    if trimmed == "" then s
    else if trimmed[0] == '#' then s.(header := ParseHeaderLine(trimmed, s.header))
    else s.(commands := s.commands + [line])
  }

  const NOTHING := Snapshot(NO_HEADER, [])

  /** What ParseText reads. */
  function SnapshotOf(text: string): Snapshot {
    FoldLines(ParseLine, NOTHING, Split(text, '\n'))
  }

  method ParseText(text: string) returns (s: Snapshot)
    ensures s == SnapshotOf(text)
  {
    var lines := Split(text, '\n');
    s := NOTHING;
    for i := 0 to |lines|
      invariant FoldLines(ParseLine, s, lines[i..]) == SnapshotOf(text)
    {
      FoldNext(ParseLine, s, lines, i);
      s := ReadLine(s, lines[i]);
    }
  }

  method ReadLine(s: Snapshot, line: string) returns (r: Snapshot)
    ensures r == ParseLine(s, line)
  {
    var trimmed := TrimSpace(line);
    if trimmed == "" {
      return s;
    }
    if trimmed[0] == '#' {
      return s.(header := ParseHeaderLine(trimmed, s.header));
    }
    return s.(commands := s.commands + [line]);
  }

  /** A header line "# key: value", once trimmed. */
  lemma {:induction false} HeaderLineTrimmed(key: string, value: string)
    requires Token(key)
    ensures TrimSpace(HeaderLine(key, value)) == "# " + key + ":" + TrimRight(" " + value)
  {
    var head := "# " + key + ":";
    assert "# " + key + ": " + value == head + (" " + value);
    TrimRightConcat(head, " " + value);
  }

  lemma {:induction false} HeaderBody(key: string, tail: string)
    requires Token(key) && TrimRight(tail) == tail
    ensures TrimSpace(" " + key + ":" + tail) == key + ":" + tail
  {
    var body := key + ":" + tail;
    assert body[0] == key[0];
    TrimLeftBlank(body);
    assert " " + key + ":" + tail == " " + body;
    TrimRightConcat(key + ":", tail);
  }

  lemma {:induction false} HeaderTokenRead(key: string, value: string, h: Header)
    requires Token(key) && ':' !in key && Token(value)
    ensures ParseHeaderLine(TrimSpace(HeaderLine(key, value)), h) == SetField(h, key, value)
    ensures HasPrefix(TrimSpace(HeaderLine(key, value)), "#")
  {
    HeaderLineRead(key, value, h);
    TrimSpaceBlank(value);
  }

  /** A header line "# key: value" is read as that key. */
  lemma {:induction false} HeaderLineRead(key: string, value: string, h: Header)
    requires Token(key) && ':' !in key
    ensures ParseHeaderLine(TrimSpace(HeaderLine(key, value)), h) == SetField(h, key, TrimSpace(TrimRight(" " + value)))
    ensures HasPrefix(TrimSpace(HeaderLine(key, value)), "#")
  {
    var tail := TrimRight(" " + value);
    HeaderLineTrimmed(key, value);
    var t := "# " + key + ":" + tail;
    assert t[1..] == " " + key + ":" + tail;
    HeaderBody(key, tail);
    IndexUnique(key, ':', tail);
    var body := key + ":" + tail;
    assert body == key + [':'] + tail;
    assert body[..|key|] == key && body[|key| + 1..] == tail;
    TrimOfTrimmed(key);
  }

  /** A line the parser keeps as a command. */
  predicate IsCommandLine(line: string) {
    TrimSpace(line) != "" && TrimSpace(line)[0] != '#'
  }

  ghost predicate Appends(step: (Snapshot, string) -> Snapshot, line: string) {
    forall s :: step(s, line) == Snapshot(s.header, s.commands + [line])
  }

  ghost predicate SetsVersion(step: (Snapshot, string) -> Snapshot, line: string, version: int) {
    forall s :: step(s, line) == s.(header := s.header.(version := version))
  }

  predicate SameBody(s: Snapshot, t: Snapshot) {
    s.commands == t.commands && s.header.version == t.header.version
  }

  ghost predicate KeepsBody(step: (Snapshot, string) -> Snapshot, line: string) {
    forall s :: SameBody(step(s, line), s)
  }

  lemma {:induction false} FoldCommandStep(step: (Snapshot, string) -> Snapshot, s: Snapshot, b: seq<string>)
    requires b != [] && Appends(step, b[0])
    requires FoldLines(step, Snapshot(s.header, s.commands + [b[0]]), b[1..]) ==
             Snapshot(s.header, s.commands + [b[0]] + b[1..])
    ensures FoldLines(step, s, b) == Snapshot(s.header, s.commands + b)
  {
    assert s.commands + [b[0]] + b[1..] == s.commands + b;
  }

  lemma {:induction false} FoldCommands(step: (Snapshot, string) -> Snapshot, s: Snapshot, b: seq<string>)
    requires forall i | 0 <= i < |b| :: Appends(step, b[i])
    ensures FoldLines(step, s, b) == Snapshot(s.header, s.commands + b)
    decreases |b|
  {
    if b == [] {
      assert s.commands + [] == s.commands;
    } else {
      FoldCommands(step, Snapshot(s.header, s.commands + [b[0]]), b[1..]);
      FoldCommandStep(step, s, b);
    }
  }

  predicate Printable(s: Snapshot) {
    && IsInt64(s.header.version)
    && '\n' !in s.header.exported && '\n' !in s.header.program
    && (forall i | 0 <= i < |s.commands| :: '\n' !in s.commands[i] && IsCommandLine(s.commands[i]))
  }

  lemma {:induction false} VersionLineParsed(n: int)
    requires IsInt64(n)
    ensures SetsVersion(ParseLine, HeaderLine("version", Itoa(n)), n)
  {
    hide Itoa, ParseInt, TrimSpace, ParseHeaderLine, HeaderLine, Token;
    AsciiToken("version");
    ItoaToken(n);
    ParseItoa(n);
    forall s: Snapshot
      ensures ParseLine(s, HeaderLine("version", Itoa(n))) == s.(header := s.header.(version := n))
    {
      HeaderTokenRead("version", Itoa(n), s.header);
    }
  }

  lemma {:induction false} OtherLineParsed(key: string, value: string)
    requires Token(key) && ':' !in key && key != "version"
    ensures KeepsBody(ParseLine, HeaderLine(key, value))
  {
    forall s: Snapshot
      ensures SameBody(ParseLine(s, HeaderLine(key, value)), s)
    {
      HeaderLineRead(key, value, s.header);
    }
  }

  lemma {:induction false} ExportedLineParsed(value: string)
    ensures KeepsBody(ParseLine, HeaderLine("exported", value))
  {
    OtherLineParsed("exported", value);
  }

  lemma {:induction false} ProgramLineParsed(value: string)
    ensures KeepsBody(ParseLine, HeaderLine("program", value))
  {
    OtherLineParsed("program", value);
  }

  lemma {:induction false} FoldHeader(step: (Snapshot, string) -> Snapshot, h: Header)
    requires SetsVersion(step, HeaderLine("version", Itoa(h.version)), h.version)
    requires KeepsBody(step, HeaderLine("exported", h.exported))
    requires KeepsBody(step, HeaderLine("program", h.program))
    ensures FoldLines(step, NOTHING, HeaderLines(h)).header.version == h.version
    ensures FoldLines(step, NOTHING, HeaderLines(h)).commands == []
  {
    var l0, l1, l2 := HeaderLine("version", Itoa(h.version)), HeaderLine("exported", h.exported), HeaderLine("program", h.program);
    var s1 := step(NOTHING, l0);
    var s2 := step(s1, l1);
    assert [l0, l1, l2][1..] == [l1, l2] && [l1, l2][1..] == [l2] && [l0, l1][1..] == [l1];
    assert FoldLines(step, s1, [l1]) == FoldLines(step, s2, []);
    assert FoldLines(step, s2, [l2]) == FoldLines(step, step(s2, l2), []);
    assert HeaderLines(h) == if h.program != "" then [l0, l1, l2] else [l0, l1];
  }

  predicate ReadsBack(step: (Snapshot, string) -> Snapshot, s: Snapshot) {
    SameBody(FoldLines(step, NOTHING, HeaderLines(s.header) + s.commands + [""]), s)
  }

  /** A step that treats the three header lines, the command lines and the last empty
      line the way ParseLine does. */
  ghost predicate TreatsLines(step: (Snapshot, string) -> Snapshot, s: Snapshot) {
    && SetsVersion(step, HeaderLine("version", Itoa(s.header.version)), s.header.version)
    && KeepsBody(step, HeaderLine("exported", s.header.exported))
    && KeepsBody(step, HeaderLine("program", s.header.program))
    && (forall i | 0 <= i < |s.commands| :: Appends(step, s.commands[i]))
    && KeepsBody(step, "")
  }

  /** The fold of such a step over a printed snapshot's lines reads the snapshot back. */
  lemma {:induction false} FoldPrinted(step: (Snapshot, string) -> Snapshot, s: Snapshot)
    requires TreatsLines(step, s)
    ensures ReadsBack(step, s)
  {
    var hs := HeaderLines(s.header);
    FoldHeader(step, s.header);
    FoldAppend(step, NOTHING, hs, s.commands);
    var t := FoldLines(step, NOTHING, hs);
    FoldCommands(step, t, s.commands);
    assert [] + s.commands == s.commands;
    var r := FoldLines(step, NOTHING, hs + s.commands);
    assert SameBody(r, s);
    FoldAppend(step, NOTHING, hs + s.commands, [""]);
    FoldLast(step, r);
  }

  lemma {:induction false} FoldLast(step: (Snapshot, string) -> Snapshot, r: Snapshot)
    requires KeepsBody(step, "")
    ensures SameBody(FoldLines(step, r, [""]), r)
  {
    assert FoldLines(step, r, [""]) == FoldLines(step, step(r, ""), [""][1..]);
  }

  lemma {:induction false} CommandLinesParsed(lines: seq<string>)
    requires forall i | 0 <= i < |lines| :: IsCommandLine(lines[i])
    ensures forall i | 0 <= i < |lines| :: Appends(ParseLine, lines[i])
    ensures KeepsBody(ParseLine, "")
  {
  }

  lemma {:induction false} PrintedLines(s: Snapshot)
    requires Printable(s)
    ensures SnapshotOf(TextOf(s)) == FoldLines(ParseLine, NOTHING, HeaderLines(s.header) + s.commands + [""])
  {
    HeaderNoNewline(s.header);
    SplitLines(HeaderLines(s.header) + s.commands);
  }

  lemma {:induction false} ParseTreatsLines(s: Snapshot)
    requires Printable(s)
    ensures TreatsLines(ParseLine, s)
  {
    hide ParseLine, SetsVersion, KeepsBody, Appends, IsCommandLine, HeaderLine, Itoa;
    VersionLineParsed(s.header.version);
    ExportedLineParsed(s.header.exported);
    ProgramLineParsed(s.header.program);
    CommandLinesParsed(s.commands);
  }

  /** Parsing a printed snapshot recovers its version and its command list. */
  lemma {:induction false} ParsePrintedSnapshot(s: Snapshot)
    requires Printable(s)
    ensures SnapshotOf(TextOf(s)).header.version == s.header.version
    ensures SnapshotOf(TextOf(s)).commands == s.commands
  {
    PrintedLines(s);
    ParseTreatsLines(s);
    FoldPrinted(ParseLine, s);
  }

  lemma {:induction false} HeaderNoNewline(h: Header)
    requires '\n' !in h.exported && '\n' !in h.program
    ensures NoneHas(HeaderLines(h), '\n')
  {
    ItoaToken(h.version);
    TokenNoSpaceChar(Itoa(h.version), '\n');
  }

  // ---- declared membership ----

  predicate IsPeerLine(f: seq<string>) {
    |f| >= 5 && f[0] == "/w" && f[1] == "internal" && f[2] == "peer-add" && ParseInt(f[4]).Some?
  }

  function PeersDeclared(lines: seq<string>): map<string, int> {
    if lines == [] then map[]
    else
      var m := PeersDeclared(lines[..|lines| - 1]);
      var f := Fields(lines[|lines| - 1]);
      if IsPeerLine(f) then m[f[3] := ParseInt(f[4]).value] else m
  }

  /** Snapshot.DeclaredPeers: None (nil) when the snapshot names no peer. */
  method DeclaredPeers(s: Snapshot) returns (r: Option<map<string, int>>)
    ensures r == Declaration(s.commands)
  {
    var out: map<string, int> := map[];
    for i := 0 to |s.commands|
      invariant out == PeersDeclared(s.commands[..i])
    {
      assert s.commands[..i + 1][..i] == s.commands[..i];
      var f := Fields(s.commands[i]);
      if !IsPeerLine(f) {
        continue;
      }
      out := out[f[3] := ParseInt(f[4]).value];
    }
    assert s.commands[..|s.commands|] == s.commands;
    if |out| == 0 {
      return None;
    }
    return Some(out);
  }

  function Declaration(lines: seq<string>): Option<map<string, int>> {
    if |PeersDeclared(lines)| == 0 then None else Some(PeersDeclared(lines))
  }

  // ---- import ----

  /** The four rule tables emptied; peers and cluster_meta stay. */
  function Wiped(w: World): World {
    w.(db := w.db.(domains := map[], ports := map[], objects := map[], bindings := {}))
  }

  /** replayOneInTxForce */
  function ReplayLine(env: Env, w: World, line: string, extOk: bool): LineResult {
    if TrimSpace(line) == "" then LineResult(w, Outcome(Ok(NO_EFFECTS), false))
    else
      match Parse(TrimSpace(line))
      case Err(code) => LineResult(w, Outcome(Err(code), false))
      case Ok(cmd) =>
        if cmd.verb.View? then LineResult(w, Outcome(Ok(NO_EFFECTS), false))
        else RunOne(env, true, w, cmd, extOk)
  }

  datatype Replayed = Replayed(w: World, applied: nat, errors: map<nat, ErrorCode>)

  function Replay(env: Env, w: World, lines: seq<string>, ext: nat -> bool): Replayed {
    if lines == [] then Replayed(w, 0, map[])
    else
      var n := |lines| - 1;
      var p := Replay(env, w, lines[..n], ext);
      var res := ReplayLine(env, p.w, lines[n], ext(n));
      match res.outcome.r
      case Ok(_) => Replayed(res.w, p.applied + 1, p.errors)
      case Err(code) => Replayed(res.w, p.applied, p.errors[n := code])
  }

  /** Snapshot.Import: wipe, replay what can be replayed, take the header's version. */
  function Imported(env: Env, w: World, s: Snapshot, ext: nat -> bool): Replayed {
    var r := Replay(env, Wiped(w), s.commands, ext);
    r.(w := r.w.(db := r.w.db.(version := s.header.version)))
  }

  lemma {:induction false} WipedKeeps(env: Env, w: World)
    requires Inv(env, w.db)
    ensures Inv(env, Wiped(w).db)
  {
  }

  lemma {:induction false} ReplayLineKeeps(env: Env, w: World, line: string, extOk: bool)
    requires Inv(env, w.db)
    ensures Inv(env, ReplayLine(env, w, line, extOk).w.db)
  {
    if TrimSpace(line) != "" && Parse(TrimSpace(line)).Ok? {
      var cmd := Parse(TrimSpace(line)).value;
      ParsedIsWellFormed(TrimSpace(line));
      if !cmd.verb.View? {
        RunOneKeeps(env, true, w, cmd, extOk);
      }
    }
  }

  lemma {:induction false} ReplayKeeps(env: Env, w: World, lines: seq<string>, ext: nat -> bool)
    requires Inv(env, w.db)
    ensures Inv(env, Replay(env, w, lines, ext).w.db)
  {
    if lines != [] {
      var n := |lines| - 1;
      ReplayKeeps(env, w, lines[..n], ext);
      ReplayLineKeeps(env, Replay(env, w, lines[..n], ext).w, lines[n], ext(n));
    }
  }

  lemma {:induction false} VersionOutsideInv(env: Env, db: DB, version: int)
    requires Inv(env, db)
    ensures Inv(env, db.(version := version))
  {
    assert BindingsOk(db);
  }

  /** Importing any text at all keeps the invariant. */
  lemma {:induction false} ImportKeeps(env: Env, w: World, text: string, ext: nat -> bool)
    requires Inv(env, w.db)
    ensures Inv(env, Imported(env, w, SnapshotOf(text), ext).w.db)
  {
    WipedKeeps(env, w);
    ReplayKeeps(env, Wiped(w), SnapshotOf(text).commands, ext);
    VersionOutsideInv(env, Replay(env, Wiped(w), SnapshotOf(text).commands, ext).w.db, SnapshotOf(text).header.version);
  }

  // ---- membership after an import ----

  lemma {:induction false} ListExists(members: map<string, int>)
    ensures exists s :: Lists(s, members)
    decreases |members|
  {
    if members == map[] {
      assert Lists([], members);
    } else {
      var ip :| ip in members;
      var rest := members - {ip};
      assert rest.Keys == members.Keys - {ip};
      ListExists(rest);
      var s :| Lists(s, rest);
      var p := Peer(ip, members[ip]);
      InsertBeforeSorted(p, s);
      var s' := InsertBefore(p, s);
      forall k | k in members
        ensures Peer(k, members[k]) in s'
      {
        assert k != ip ==> k in rest;
      }
      assert Lists(s', members);
    }
  }

  /** The sorted listing of a membership. */
  ghost function MemberList(members: map<string, int>): (s: seq<Peer>)
    ensures Lists(s, members)
  {
    ListExists(members);
    var s :| Lists(s, members);
    s
  }

  ghost function ReconciledFile(list: seq<Peer>, self: string, declared: map<string, int>): seq<Peer> {
    var next := MemberList(Members(declared, list, self));
    if next == ByOrder(list) then list else next
  }

  function PrunedPeers(peers: map<string, int>, self: string, declared: map<string, int>): map<string, int> {
    map ip | ip in peers && (ip in declared || (self != "" && ip == self)) :: peers[ip]
  }

  /** reconcilePeers */
  ghost function ReconciledWorld(w: World, self: string, declaration: Option<map<string, int>>): World {
    match declaration
    case None => w
    case Some(declared) =>
      World(w.db.(peers := PrunedPeers(w.db.peers, self, declared)),
            match w.file
            case None => None
            case Some(list) => Some(ReconciledFile(list, self, declared)))
  }

  /** ApplySnapshot, as far as the database and the membership list go. */
  ghost function Applied(env: Env, w: World, self: string, text: string, ext: nat -> bool): World {
    var s := SnapshotOf(text);
    ReconciledWorld(Imported(env, w, s, ext).w, self, Declaration(s.commands))
  }

  /** Applying any text keeps the invariant, and sets the version the text states. */
  lemma {:induction false} AppliedKeeps(env: Env, w: World, self: string, text: string, ext: nat -> bool)
    requires Inv(env, w.db)
    ensures Inv(env, Applied(env, w, self, text, ext).db)
    ensures Applied(env, w, self, text, ext).db.version == SnapshotOf(text).header.version
  {
    ImportKeeps(env, w, text, ext);
    assert BindingsOk(Imported(env, w, SnapshotOf(text), ext).w.db);
  }
}
