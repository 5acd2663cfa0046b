/** The command language: the strict four-segment form, its parser and printer,
    key=value parameters and object references (internal/command/types.go). */
module Commands {
  import opened Text

  datatype ErrorCode =
    | BadFormat
    | BadParams
    | NotFound
    | PortConflict
    | CascadeBlocked
    | Internal

  datatype Result<+T> = Ok(value: T) | Err(code: ErrorCode)

  datatype Verb = Write | Delete | View {
    predicate IsMutating() {
      Write? || Delete?
    }
  }

  datatype Command = Command(verb: Verb, typ: string, scope: string, params: string)

  /** A port-to-protocol assertion made by a domain command. */
  datatype PortBinding = PortBinding(port: int, protocol: string)

  /** The effects of a command that the batch executor and this model look at. */
  datatype Effects = Effects(reload: bool, forceBump: bool, ports: seq<PortBinding>) {
    /** Effects.Merge */
    function Merge(other: Effects): Effects {
      Effects(reload || other.reload, forceBump || other.forceBump, ports + other.ports)
    }
  }

  const NO_EFFECTS := Effects(false, false, [])
  const RELOAD := Effects(true, false, [])
  const FORCE_BUMP := Effects(false, true, [])

  const PLACEHOLDER := "-"

  predicate IsPlaceholder(s: string) {
    s == PLACEHOLDER
  }

  function VerbOf(s: string): Option<Verb> {
    if s == "w" then Some(Write)
    else if s == "d" then Some(Delete)
    else if s == "v" then Some(View)
    else None
  }

  function VerbText(v: Verb): string {
    match v
    case Write => "w"
    case Delete => "d"
    case View => "v"
  }

  /** The fourth segment takes every remaining field, joined by single blanks. */
  function CommandOf(fields: seq<string>): Result<Command> {
    if |fields| < 4 then Err(Internal)
    else
      match VerbOf(fields[0])
      case None => Err(Internal)
      case Some(verb) => Ok(Command(verb, fields[1], fields[2], Join(fields[3..], " ")))
  }

  /** Parse */
  function Parse(line: string): (r: Result<Command>) {
    var s := TrimSpace(line);
    if s == "" || s[0] != '/' then Err(Internal) else CommandOf(Fields(s[1..]))
  }

  /** A parameter text the parser can produce: at least one field, single blanks. */
  predicate Normal(params: string) {
    Fields(params) != [] && params == Join(Fields(params), " ")
  }

  predicate WellFormed(cmd: Command) {
    Token(cmd.typ) && Token(cmd.scope) && Normal(cmd.params)
  }

  /** The four segments separated by single blanks, as the snapshot printer writes a command. */
  function Print(cmd: Command): string {
    "/" + VerbText(cmd.verb) + " " + cmd.typ + " " + cmd.scope + " " + cmd.params
  }

  function Segments(cmd: Command): seq<string> {
    [VerbText(cmd.verb), cmd.typ, cmd.scope] + Fields(cmd.params)
  }

  lemma {:induction false} TokenIsNormal(t: string)
    requires Token(t)
    ensures Normal(t) && Fields(t) == [t]
  {
    FieldsCons(t, "");
    assert t + "" == t;
  }

  lemma {:induction false} JoinIsNormal(toks: seq<string>)
    requires Tokens(toks) && toks != []
    ensures Normal(Join(toks, " "))
  {
    FieldsJoin(toks);
  }

  lemma {:induction false} ParsedIsWellFormed(line: string)
    requires Parse(line).Ok?
    ensures WellFormed(Parse(line).value)
  {
    var fields := Fields(TrimSpace(line)[1..]);
    JoinIsNormal(fields[3..]);
  }

  lemma {:induction false} PrintShape(cmd: Command)
    requires WellFormed(cmd)
    ensures Tokens(Segments(cmd))
    ensures Print(cmd) == "/" + Join(Segments(cmd), " ")
    ensures Fields(Print(cmd)[1..]) == Segments(cmd)
    ensures Trimmed(Print(cmd))
  {
    var segs := Segments(cmd);
    var v := VerbText(cmd.verb);
    JoinAppend([v, cmd.typ, cmd.scope], Fields(cmd.params), " ");
    assert [cmd.typ, cmd.scope][1..] == [cmd.scope];
    assert Join([cmd.typ, cmd.scope], " ") == cmd.typ + " " + cmd.scope;
    assert [v, cmd.typ, cmd.scope][1..] == [cmd.typ, cmd.scope];
    assert Join([v, cmd.typ, cmd.scope], " ") == v + " " + (cmd.typ + " " + cmd.scope);
    assert Print(cmd) == "/" + Join(segs, " ");
    FieldsJoin(segs);
    JoinTrimmed(segs);
  }

  lemma {:induction false} CommandOfSegments(cmd: Command)
    requires WellFormed(cmd)
    ensures CommandOf(Segments(cmd)) == Ok(cmd)
  {
    assert Segments(cmd)[3..] == Fields(cmd.params);
  }

  /** Parse of a printed command returns the command. */
  lemma {:induction false} ParsePrint(cmd: Command)
    requires WellFormed(cmd)
    ensures Parse(Print(cmd)) == Ok(cmd)
  {
    PrintShape(cmd);
    TrimOfTrimmed(Print(cmd));
    CommandOfSegments(cmd);
    var line := Print(cmd);
    assert TrimSpace(line) == line && line[0] == '/' && Fields(line[1..]) == Segments(cmd);
  }

  /** Normalisation is idempotent: reprinting and reparsing an accepted line changes nothing. */
  lemma {:induction false} ParseIdempotent(line: string)
    requires Parse(line).Ok?
    ensures Parse(Print(Parse(line).value)) == Parse(line)
  {
    ParsedIsWellFormed(line);
    ParsePrint(Parse(line).value);
  }

  /** A printed command is one line, is not blank and is not a comment. */
  lemma {:induction false} PrintIsOneLine(cmd: Command)
    requires WellFormed(cmd)
    ensures '\n' !in Print(cmd) && '\r' !in Print(cmd)
    ensures Trimmed(Print(cmd)) && |Print(cmd)| >= 3 && Print(cmd)[0] == '/'
    ensures Print(cmd)[..3] == "/" + VerbText(cmd.verb) + " "
  {
    PrintShape(cmd);
    JoinNoChar(Segments(cmd), '\n');
    JoinNoChar(Segments(cmd), '\r');
  }

  // ---- key=value parameters ----

  predicate IsPair(tok: string) {
    IndexOf(tok, '=') > 0
  }

  function KeyOf(tok: string): string
    requires IsPair(tok)
  {
    tok[..IndexOf(tok, '=')]
  }

  function ValueOf(tok: string): string
    requires IsPair(tok)
  {
    tok[IndexOf(tok, '=') + 1..]
  }

  function Pairs(toks: seq<string>): Result<map<string, string>> {
    if toks == [] then Ok(map[])
    else
      match Pairs(toks[..|toks| - 1])
      case Err(e) => Err(e)
      case Ok(m) =>
        var tok := toks[|toks| - 1];
        if !IsPair(tok) || KeyOf(tok) in m then Err(BadParams)
        else Ok(m[KeyOf(tok) := ValueOf(tok)])
  }

  function KeyValues(s: string): Result<map<string, string>> {
    if IsPlaceholder(s) || s == "" then Ok(map[]) else Pairs(Fields(s))
  }

  predicate DistinctPairs(toks: seq<string>) {
    && (forall i | 0 <= i < |toks| :: IsPair(toks[i]))
    && (forall i, j | 0 <= i < j < |toks| :: KeyOf(toks[i]) != KeyOf(toks[j]))
  }

  predicate HasKey(toks: seq<string>, k: string) {
    exists i :: 0 <= i < |toks| && IsPair(toks[i]) && KeyOf(toks[i]) == k
  }

  /** m holds exactly the pairs written. */
  predicate Describes(toks: seq<string>, m: map<string, string>) {
    && DistinctPairs(toks)
    && (forall i | 0 <= i < |toks| :: KeyOf(toks[i]) in m && m[KeyOf(toks[i])] == ValueOf(toks[i]))
    && (forall k | k in m :: HasKey(toks, k))
  }

  lemma {:induction false} DescribesStep(toks: seq<string>, tok: string, m: map<string, string>)
    requires Describes(toks, m) && IsPair(tok) && KeyOf(tok) !in m
    ensures Describes(toks + [tok], m[KeyOf(tok) := ValueOf(tok)])
  {
    var all, m' := toks + [tok], m[KeyOf(tok) := ValueOf(tok)];
    forall k | k in m'
      ensures HasKey(all, k)
    {
      if k in m {
        var i :| 0 <= i < |toks| && IsPair(toks[i]) && KeyOf(toks[i]) == k;
        assert all[i] == toks[i];
      } else {
        assert all[|toks|] == tok;
      }
    }
  }

  /** The accepted map holds exactly the pairs written. */
  lemma {:induction false} PairsContents(toks: seq<string>)
    requires Pairs(toks).Ok?
    ensures Describes(toks, Pairs(toks).value)
  {
    if toks != [] {
      var n := |toks| - 1;
      PairsContents(toks[..n]);
      DescribesStep(toks[..n], toks[n], Pairs(toks[..n]).value);
      assert toks[..n] + [toks[n]] == toks;
    }
  }

  /** Parameters are accepted exactly when every field is a pair and no key repeats. */
  lemma {:induction false} PairsAccepted(toks: seq<string>)
    ensures Pairs(toks).Ok? <==> DistinctPairs(toks)
  {
    if Pairs(toks).Ok? {
      PairsContents(toks);
    } else if DistinctPairs(toks) {
      var n := |toks| - 1;
      var init := toks[..n];
      assert forall i | 0 <= i < n :: init[i] == toks[i];
      PairsAccepted(init);
      PairsContents(init);
    }
  }

  /** ParseKeyValueParams */
  method ParseKeyValueParams(s: string) returns (r: Result<map<string, string>>)
    ensures r == KeyValues(s)
  {
    if IsPlaceholder(s) || s == "" {
      return Ok(map[]);
    }
    var toks := Fields(s);
    var out: map<string, string> := map[];
    for i := 0 to |toks|
      invariant Pairs(toks[..i]) == Ok(out)
    {
      assert toks[..i + 1][..i] == toks[..i];
      var tok := toks[i];
      if !IsPair(tok) || KeyOf(tok) in out {
        PairsErrPrefix(toks, i + 1);
        return Err(BadParams);
      }
      out := out[KeyOf(tok) := ValueOf(tok)];
    }
    assert toks[..|toks|] == toks;
    return Ok(out);
  }

  lemma {:induction false} PairsErrPrefix(toks: seq<string>, i: nat)
    requires i <= |toks| && Pairs(toks[..i]) == Err(BadParams)
    ensures Pairs(toks) == Err(BadParams)
    decreases |toks| - i
  {
    if i == |toks| {
      assert toks[..i] == toks;
    } else {
      assert toks[..i + 1][..i] == toks[..i];
      PairsErrPrefix(toks, i + 1);
    }
  }

  // ---- object references ----

  datatype ObjectRef = ObjectRef(typ: string, name: string)

  /** parseObjectRef: "-" names nothing, otherwise the text around the first colon. */
  function ParseObjectRef(s: string): Result<ObjectRef> {
    if IsPlaceholder(s) then Ok(ObjectRef("", ""))
    else
      var colon := IndexOf(s, ':');
      if colon <= 0 || colon == |s| - 1 then Err(BadParams)
      else Ok(ObjectRef(s[..colon], s[colon + 1..]))
  }

  function PrintObjectRef(o: ObjectRef): string {
    o.typ + ":" + o.name
  }

  lemma {:induction false} ParsePrintObjectRef(o: ObjectRef)
    requires o.typ != "" && o.name != "" && ':' !in o.typ
    ensures ParseObjectRef(PrintObjectRef(o)) == Ok(o)
  {
    IndexUnique(o.typ, ':', o.name);
    var s := PrintObjectRef(o);
    assert s == o.typ + [':'] + o.name;
    assert s[..|o.typ|] == o.typ && s[|o.typ| + 1..] == o.name;
  }

  lemma {:induction false} ObjectRefInverse(s: string)
    requires ParseObjectRef(s).Ok? && !IsPlaceholder(s)
    ensures var o := ParseObjectRef(s).value;
      PrintObjectRef(o) == s && o.typ != "" && o.name != "" && ':' !in o.typ
  {
  }
}
