/** Access statistics: an incremental reader of the append-only log that commits
    per-minute aggregates with its offset, prunes old minutes and may stop anywhere
    (internal/logs/collector.go, internal/logs/store.go). */
module Logs {
  import opened Text

  // ---- one line ----

  datatype LogLine = LogLine(time: string, host: string, status: int, bytes: int)

  /** The JSON decoder and the time parser: None for a malformed line, minute 0 for a
      malformed time. */
  datatype Reader = Reader(decode: string -> Option<LogLine>, minute: string -> int)

  datatype StatKey = StatKey(domain: string, minute: int, status: int)
  datatype Totals = Totals(hits: nat, bytes: nat)

  /** The bucket a line counts in, if it counts at all. */
  function KeyOf(rd: Reader, line: string): Option<StatKey> {
    match rd.decode(line)
    case None => None
    case Some(l) =>
      if l.host == "" || l.status == 0 || rd.minute(l.time) == 0 then None
      else Some(StatKey(l.host, rd.minute(l.time), l.status))
  }

  function BytesOf(rd: Reader, line: string): nat {
    match rd.decode(line)
    case None => 0
    case Some(l) => if l.bytes > 0 then l.bytes else 0
  }

  function Get(m: map<StatKey, Totals>, k: StatKey): Totals {
    if k in m then m[k] else Totals(0, 0)
  }

  /** accumulate */
  function Counted(rd: Reader, m: map<StatKey, Totals>, line: string): map<StatKey, Totals> {
    match KeyOf(rd, line)
    case None => m
    case Some(k) => m[k := Totals(Get(m, k).hits + 1, Get(m, k).bytes + BytesOf(rd, line))]
  }

  /** The one-shot aggregate of some lines. */
  function Aggregate(rd: Reader, lines: seq<string>): map<StatKey, Totals> {
    if lines == [] then map[] else Counted(rd, Aggregate(rd, lines[..|lines| - 1]), lines[|lines| - 1])
  }

  /** How many lines fall in a bucket, and how many bytes they carry. */
  function Hits(rd: Reader, lines: seq<string>, k: StatKey): nat {
    if lines == [] then 0
    else Hits(rd, lines[..|lines| - 1], k) + if KeyOf(rd, lines[|lines| - 1]) == Some(k) then 1 else 0
  }

  function Volume(rd: Reader, lines: seq<string>, k: StatKey): nat {
    if lines == [] then 0
    else
      Volume(rd, lines[..|lines| - 1], k)
      + if KeyOf(rd, lines[|lines| - 1]) == Some(k) then BytesOf(rd, lines[|lines| - 1]) else 0
  }

  /** The aggregate has a row for exactly the buckets some line falls in, holding their
      number of lines and their bytes. */
  lemma {:induction false} AggregateMeaning(rd: Reader, lines: seq<string>, k: StatKey)
    ensures k in Aggregate(rd, lines) <==> Hits(rd, lines, k) > 0
    ensures Get(Aggregate(rd, lines), k) == Totals(Hits(rd, lines, k), Volume(rd, lines, k))
  {
    hide KeyOf, BytesOf;
    if lines != [] {
      AggregateMeaning(rd, lines[..|lines| - 1], k);
    }
  }

  // ---- merging aggregates ----

  function Plus(a: map<StatKey, Totals>, b: map<StatKey, Totals>): map<StatKey, Totals> {
    map k | k in a.Keys + b.Keys :: Totals(Get(a, k).hits + Get(b, k).hits, Get(a, k).bytes + Get(b, k).bytes)
  }

  lemma {:induction false} PlusNothing(a: map<StatKey, Totals>)
    ensures Plus(a, map[]) == a
  {
  }

  /** The deltas whose keys are not among the rest. */
  function Part(deltas: map<StatKey, Totals>, rest: set<StatKey>): map<StatKey, Totals> {
    map k | k in deltas && k !in rest :: deltas[k]
  }

  lemma {:induction false} PartEnds(a: map<StatKey, Totals>, deltas: map<StatKey, Totals>)
    ensures Plus(a, Part(deltas, deltas.Keys)) == a && Part(deltas, {}) == deltas
  {
    assert Part(deltas, deltas.Keys) == map[];
    PlusNothing(a);
  }

  lemma {:induction false} PartNext(a: map<StatKey, Totals>, deltas: map<StatKey, Totals>, rest: set<StatKey>, k: StatKey)
    requires k in rest && rest <= deltas.Keys
    ensures var rows, d := Plus(a, Part(deltas, rest)), deltas[k];
      Plus(a, Part(deltas, rest - {k})) ==
      rows[k := if k in rows then Totals(rows[k].hits + d.hits, rows[k].bytes + d.bytes) else d]
  {
    hide Plus;
    assert Part(deltas, rest - {k}) == Part(deltas, rest)[k := deltas[k]];
    PlusPut(a, Part(deltas, rest), k, deltas[k]);
  }

  lemma {:induction false} PlusPut(a: map<StatKey, Totals>, p: map<StatKey, Totals>, k: StatKey, d: Totals)
    requires k !in p
    ensures Plus(a, p[k := d]) ==
      var rows := Plus(a, p); rows[k := if k in rows then Totals(rows[k].hits + d.hits, rows[k].bytes + d.bytes) else d]
  {
  }

  lemma {:induction false} PlusCounted(rd: Reader, a: map<StatKey, Totals>, b: map<StatKey, Totals>, line: string)
    ensures Plus(a, Counted(rd, b, line)) == Counted(rd, Plus(a, b), line)
  {
    hide KeyOf, BytesOf;
  }

  /** Aggregating in two parts and merging is aggregating at once. */
  lemma {:induction false} AggregateAppend(rd: Reader, a: seq<string>, b: seq<string>)
    ensures Aggregate(rd, a + b) == Plus(Aggregate(rd, a), Aggregate(rd, b))
    decreases |b|
  {
    hide Counted, Plus;
    if b == [] {
      assert a + b == a;
      PlusNothing(Aggregate(rd, a));
    } else {
      var n := |b| - 1;
      assert (a + b)[..|a| + n] == a + b[..n];
      AggregateAppend(rd, a, b[..n]);
      PlusCounted(rd, Aggregate(rd, a), Aggregate(rd, b[..n]), b[n]);
    }
  }

  /** The rows at or after a minute. */
  function Since(m: map<StatKey, Totals>, minute: int): map<StatKey, Totals> {
    map k | k in m && k.minute >= minute :: m[k]
  }

  lemma {:induction false} SincePlus(a: map<StatKey, Totals>, b: map<StatKey, Totals>, d: map<StatKey, Totals>, minute: int)
    requires Since(a, minute) == Since(b, minute)
    ensures Since(Plus(a, d), minute) == Since(Plus(b, d), minute)
  {
    var x, y := Since(Plus(a, d), minute), Since(Plus(b, d), minute);
    forall k: StatKey | k.minute >= minute
      ensures (k in a <==> k in b) && Get(a, k) == Get(b, k)
    {
      assert k in Since(a, minute) <==> k in a;
      assert k in Since(b, minute) <==> k in b;
    }
    assert x.Keys == y.Keys;
  }

  lemma {:induction false} SinceLater(a: map<StatKey, Totals>, b: map<StatKey, Totals>, minute: int, later: int)
    requires Since(a, minute) == Since(b, minute) && minute <= later
    ensures Since(a, later) == Since(b, later)
  {
    forall k: StatKey | k.minute >= later
      ensures (k in a <==> k in b) && Get(a, k) == Get(b, k)
    {
      assert k in Since(a, minute) <==> k in a;
      assert k in Since(b, minute) <==> k in b;
    }
  }

  lemma {:induction false} SinceTwice(m: map<StatKey, Totals>, minute: int, later: int)
    requires minute <= later
    ensures Since(Since(m, minute), later) == Since(m, later)
  {
  }

  // ---- the lines of the file ----

  /** The complete lines of a text, newline included. */
  function CompleteLines(s: string): seq<string>
    decreases |s|
  {
    var i := IndexOf(s, '\n');
    if i == -1 then [] else [s[..i + 1]] + CompleteLines(s[i + 1..])
  }

  function CompleteLength(s: string): (n: nat)
    ensures n <= |s|
    decreases |s|
  {
    var i := IndexOf(s, '\n');
    if i == -1 then 0 else i + 1 + CompleteLength(s[i + 1..])
  }

  /** The text breaks into whole lines at this position. */
  predicate LineBoundary(s: string, n: nat)
    requires n <= |s|
  {
    n == 0 || s[n - 1] == '\n'
  }

  lemma {:induction false} CompleteBoundary(s: string)
    ensures LineBoundary(s, CompleteLength(s))
    ensures '\n' !in s[CompleteLength(s)..]
    decreases |s|
  {
    hide IndexOf, CompleteLength;
    NextComplete(s);
    var i := IndexOf(s, '\n');
    if i == -1 {
      assert s[0..] == s;
    } else {
      var n := CompleteLength(s[i + 1..]);
      CompleteBoundary(s[i + 1..]);
      TailOfTail(s, i + 1, n);
    }
  }

  lemma {:induction false} TailOfTail(s: string, a: nat, n: nat)
    requires a + n <= |s|
    ensures s[a..][n..] == s[a + n..]
    ensures n > 0 ==> s[a..][n - 1] == s[a + n - 1]
  {
  }

  lemma {:induction false} IndexInPrefix(a: string, b: string, c: char)
    requires c in a
    ensures IndexOf(a + b, c) == IndexOf(a, c)
  {
    var i := IndexOf(a, c);
    IndexUnique(a[..i], c, a[i + 1..] + b);
    assert a + b == a[..i] + [c] + (a[i + 1..] + b);
  }

  /** Taking the first line off the front of a longer text. */
  lemma {:induction false} FirstLine(a: string, b: string)
    requires '\n' in a
    ensures var i := IndexOf(a, '\n');
      && CompleteLines(a + b) == [a[..i + 1]] + CompleteLines(a[i + 1..] + b)
      && CompleteLines(a) == [a[..i + 1]] + CompleteLines(a[i + 1..])
      && CompleteLength(a) == i + 1 + CompleteLength(a[i + 1..])
  {
    hide IndexOf, CompleteLines, CompleteLength;
    var i := IndexOf(a, '\n');
    IndexInPrefix(a, b, '\n');
    NextComplete(a);
    NextComplete(a + b);
    assert (a + b)[..i + 1] == a[..i + 1];
    assert (a + b)[i + 1..] == a[i + 1..] + b;
  }

  lemma {:induction false} Associate(x: seq<string>, y: seq<string>, z: seq<string>)
    ensures x + (y + z) == (x + y) + z
  {
  }

  /** At a line boundary the complete lines split in two. */
  lemma {:induction false} LinesSplit(a: string, b: string)
    requires LineBoundary(a, |a|)
    ensures CompleteLines(a + b) == CompleteLines(a) + CompleteLines(b)
    ensures CompleteLength(a) == |a|
    decreases |a|
  {
    hide IndexOf, CompleteLines, CompleteLength;
    if a == "" {
      assert a + b == b;
      EmptyComplete();
      assert [] + CompleteLines(b) == CompleteLines(b);
    } else {
      assert a[|a| - 1] in a;
      var i := IndexOf(a, '\n');
      FirstLine(a, b);
      LinesSplit(a[i + 1..], b);
      Associate([a[..i + 1]], CompleteLines(a[i + 1..]), CompleteLines(b));
    }
  }

  lemma {:induction false} EmptyComplete()
    ensures CompleteLines("") == [] && CompleteLength("") == 0
  {
  }

  lemma {:induction false} NextComplete(s: string)
    ensures IndexOf(s, '\n') == -1 ==> CompleteLines(s) == [] && CompleteLength(s) == 0
    ensures IndexOf(s, '\n') != -1 ==>
      var i := IndexOf(s, '\n');
      && CompleteLines(s) == [s[..i + 1]] + CompleteLines(s[i + 1..])
      && CompleteLength(s) == i + 1 + CompleteLength(s[i + 1..])
  {
    hide IndexOf, CompleteLines, CompleteLength;
    NextLines(s);
    NextLength(s);
  }

  lemma {:induction false} NextLines(s: string)
    ensures CompleteLines(s) ==
      if IndexOf(s, '\n') == -1 then [] else [s[..IndexOf(s, '\n') + 1]] + CompleteLines(s[IndexOf(s, '\n') + 1..])
  {
    hide IndexOf;
  }

  lemma {:induction false} NextLength(s: string)
    ensures CompleteLength(s) ==
      if IndexOf(s, '\n') == -1 then 0 else IndexOf(s, '\n') + 1 + CompleteLength(s[IndexOf(s, '\n') + 1..])
  {
    hide IndexOf;
  }

  // ---- the store and one pass ----

  datatype Stats = Stats(rows: map<StatKey, Totals>, offset: nat)

  class Store {
    var rows: map<StatKey, Totals>
    var offset: nat

    constructor ()
      ensures State() == Stats(map[], 0)
    {
      rows, offset := map[], 0;
    }

    function State(): Stats
      reads this
    {
      Stats(rows, offset)
    }

    /** Commit: every delta is added to its row, and the offset moves, in one transaction. */
    method Commit(deltas: map<StatKey, Totals>, newOffset: nat)
      modifies this
      ensures State() == Stats(Plus(old(rows), deltas), newOffset)
    {
      hide Plus, Part;
      var rest := deltas.Keys;
      PartEnds(old(rows), deltas);
      while rest != {}
        invariant rest <= deltas.Keys
        invariant rows == Plus(old(rows), Part(deltas, rest))
      {
        var k :| k in rest;
        PartNext(old(rows), deltas, rest, k);
        var d := deltas[k];
        if k in rows {
          rows := rows[k := Totals(rows[k].hits + d.hits, rows[k].bytes + d.bytes)];
        } else {
          rows := rows[k := d];
        }
        rest := rest - {k};
      }
      offset := newOffset;
    }

    method ResetOffset(off: nat)
      modifies this`offset
      ensures offset == off
    {
      offset := off;
    }

    method Prune(beforeMinute: int)
      modifies this`rows
      ensures rows == Since(old(rows), beforeMinute)
    {
      rows := map k | k in rows && !(k.minute < beforeMinute) :: rows[k];
    }
  }

  /** How far a pass gets before the process stops. */
  datatype Reach = BeforeReset | AfterReset | AfterCommit | Completed

  function StartOf(offset: nat, file: string): nat {
    if offset > |file| then 0 else offset
  }

  /** The offset and rows a pass over the file commits. */
  function Committed(rd: Reader, s: Stats, file: string): Stats {
    var start := StartOf(s.offset, file);
    Stats(Plus(s.rows, Aggregate(rd, CompleteLines(file[start..]))), start + CompleteLength(file[start..]))
  }

  function Pass(rd: Reader, s: Stats, file: string, cutoff: int, reach: Reach): Stats {
    match reach
    case BeforeReset => s
    case AfterReset => s.(offset := StartOf(s.offset, file))
    case AfterCommit => Committed(rd, s, file)
    case Completed => var c := Committed(rd, s, file); c.(rows := Since(c.rows, cutoff))
  }

  /** CollectOnce; reach says where the process dies, if it does. */
  method CollectOnce(rd: Reader, store: Store, file: Option<string>, cutoff: int, reach: Reach)
    modifies store
    ensures store.State() ==
      if file.None? then old(store.State()) else Pass(rd, old(store.State()), file.value, cutoff, reach)
  {
    hide CompleteLines, CompleteLength, Counted, Plus, Aggregate, IndexOf;
    if file.None? || reach.BeforeReset? {
      return;
    }
    var f := file.value;
    var start := store.offset;
    if start > |f| {
      start := 0;
      store.ResetOffset(0);
    }
    if reach.AfterReset? {
      return;
    }
    var deltas, consumed := ReadLines(rd, f, start);
    if |deltas| == 0 && consumed == start {
      PlusNothing(store.rows);
    } else {
      store.Commit(deltas, consumed);
    }
    if reach.AfterCommit? {
      return;
    }
    store.Prune(cutoff);
  }

  /** The reading loop: complete lines are accumulated, a partial last line is left. */
  method ReadLines(rd: Reader, file: string, start: nat) returns (deltas: map<StatKey, Totals>, consumed: nat)
    requires start <= |file|
    ensures deltas == Aggregate(rd, CompleteLines(file[start..]))
    ensures consumed == start + CompleteLength(file[start..])
  {
    hide CompleteLines, CompleteLength, Counted, KeyOf;
    deltas, consumed := map[], start;
    ghost var lines: seq<string> := [];
    while true
      invariant start <= consumed <= |file|
      invariant deltas == Aggregate(rd, lines)
      invariant lines + CompleteLines(file[consumed..]) == CompleteLines(file[start..])
      invariant consumed + CompleteLength(file[consumed..]) == start + CompleteLength(file[start..])
      decreases |file| - consumed
    {
      var rest := file[consumed..];
      NextComplete(rest);
      var i := IndexOf(rest, '\n');
      if i == -1 {
        assert lines + [] == lines;
        break;
      }
      var line := rest[..i + 1];
      assert rest[i + 1..] == file[consumed + i + 1..];
      assert lines + ([line] + CompleteLines(rest[i + 1..])) == lines + [line] + CompleteLines(rest[i + 1..]);
      assert (lines + [line])[..|lines|] == lines;
      consumed := consumed + |line|;
      deltas := Accumulate(rd, deltas, line);
      lines := lines + [line];
    }
  }

  /** accumulate */
  method Accumulate(rd: Reader, deltas: map<StatKey, Totals>, raw: string) returns (r: map<StatKey, Totals>)
    ensures r == Counted(rd, deltas, raw)
  {
    var ll := rd.decode(raw);
    if ll.None? {
      return deltas;
    }
    if ll.value.host == "" || ll.value.status == 0 {
      return deltas;
    }
    var minute := rd.minute(ll.value.time);
    if minute == 0 {
      return deltas;
    }
    var k := StatKey(ll.value.host, minute, ll.value.status);
    var d := if k in deltas then deltas[k] else Totals(0, 0);
    d := d.(hits := d.hits + 1);
    if ll.value.bytes > 0 {
      d := d.(bytes := d.bytes + ll.value.bytes);
    }
    return deltas[k := d];
  }

  // ---- whole runs over an append-only log ----

  datatype LogEvent =
    | Append(text: string)
    | Collect(cutoff: int, reach: Reach)

  datatype Logged = Logged(file: string, stats: Stats)

  const EMPTY_LOG := Logged("", Stats(map[], 0))

  function StepBy(rd: Reader, l: Logged, e: LogEvent): Logged {
    match e
    case Append(text) => l.(file := l.file + text)
    case Collect(cutoff, reach) => l.(stats := Pass(rd, l.stats, l.file, cutoff, reach))
  }

  /** nginx appending, passes that finish and passes that die anywhere, in any order. */
  function After(rd: Reader, events: seq<LogEvent>): Logged {
    if events == [] then EMPTY_LOG
    else StepBy(rd, After(rd, events[..|events| - 1]), events[|events| - 1])
  }

  /** The latest minute any completed pass pruned up to, at least floor. */
  function Newest(events: seq<LogEvent>, floor: int): int {
    if events == [] then floor
    else
      var n, e := Newest(events[..|events| - 1], floor), events[|events| - 1];
      if e.Collect? && e.reach.Completed? && e.cutoff > n then e.cutoff else n
  }

  /** The offset is a line boundary, and from minute c on the rows are exactly the one-shot
      aggregate of the lines before it. */
  ghost predicate Accounted(rd: Reader, l: Logged, c: int) {
    && l.stats.offset <= |l.file|
    && LineBoundary(l.file, l.stats.offset)
    && Since(l.stats.rows, c) == Since(Aggregate(rd, CompleteLines(l.file[..l.stats.offset])), c)
  }

  lemma {:induction false} AppendAccounted(rd: Reader, l: Logged, text: string, c: int)
    requires Accounted(rd, l, c)
    ensures Accounted(rd, l.(file := l.file + text), c)
  {
    hide CompleteLines, Aggregate, Since;
    assert (l.file + text)[..l.stats.offset] == l.file[..l.stats.offset];
  }

  lemma {:induction false} NoNewlineNoLine(s: string)
    requires '\n' !in s
    ensures CompleteLines(s) == []
  {
  }

  /** Reading on from a line boundary reaches the next one, and the lines before it are the
      lines already read and the ones read now. */
  lemma {:induction false} ReadOn(file: string, offset: nat)
    requires offset <= |file| && LineBoundary(file, offset)
    ensures var n := offset + CompleteLength(file[offset..]);
      && n <= |file| && LineBoundary(file, n)
      && CompleteLines(file[..n]) == CompleteLines(file[..offset]) + CompleteLines(file[offset..])
      && CompleteLines(file[..n]) == CompleteLines(file)
      && n == CompleteLength(file)
  {
    hide CompleteLines, CompleteLength;
    var rest := file[offset..];
    var m := CompleteLength(rest);
    CompleteBoundary(rest);
    var done, left := rest[..m], rest[m..];
    assert rest == done + left;
    assert m > 0 ==> done[m - 1] == rest[m - 1];
    LinesSplit(done, left);
    NoNewlineNoLine(left);
    assert CompleteLines(rest) == CompleteLines(done) + [];
    assert CompleteLines(done) + [] == CompleteLines(done);
    LinesSplit(file[..offset], done);
    LinesSplit(file[..offset], rest);
    assert file == file[..offset] + rest && file[..offset + m] == file[..offset] + done;
    assert m > 0 ==> file[offset + m - 1] == rest[m - 1];
    LengthSplit(file[..offset], rest);
  }

  lemma {:induction false} LengthSplit(a: string, b: string)
    requires LineBoundary(a, |a|)
    ensures CompleteLength(a + b) == |a| + CompleteLength(b)
    decreases |a|
  {
    hide IndexOf, CompleteLength;
    if a == "" {
      assert a + b == b;
    } else {
      assert a[|a| - 1] in a;
      var i := IndexOf(a, '\n');
      IndexInPrefix(a, b, '\n');
      NextComplete(a + b);
      assert (a + b)[i + 1..] == a[i + 1..] + b;
      LengthSplit(a[i + 1..], b);
    }
  }

  lemma {:induction false} CommitAccounted(rd: Reader, l: Logged, c: int)
    requires Accounted(rd, l, c)
    ensures Accounted(rd, l.(stats := Committed(rd, l.stats, l.file)), c)
  {
    hide CompleteLines, CompleteLength, Aggregate, Since, Plus;
    ReadOn(l.file, l.stats.offset);
    var before, more := CompleteLines(l.file[..l.stats.offset]), CompleteLines(l.file[l.stats.offset..]);
    AggregateAppend(rd, before, more);
    SincePlus(l.stats.rows, Aggregate(rd, before), Aggregate(rd, more), c);
  }

  lemma {:induction false} PruneAccounted(rd: Reader, l: Logged, c: int, cutoff: int, later: int)
    requires Accounted(rd, l, c) && c <= later && cutoff <= later
    ensures Accounted(rd, l.(stats := l.stats.(rows := Since(l.stats.rows, cutoff))), later)
  {
    hide CompleteLines, Aggregate, Since;
    SinceLater(l.stats.rows, Aggregate(rd, CompleteLines(l.file[..l.stats.offset])), c, later);
    SinceTwice(l.stats.rows, cutoff, later);
  }

  lemma {:induction false} PassAccounted(rd: Reader, l: Logged, c: int, cutoff: int, reach: Reach)
    requires Accounted(rd, l, c)
    ensures Accounted(rd, l.(stats := Pass(rd, l.stats, l.file, cutoff, reach)),
                      if reach.Completed? && cutoff > c then cutoff else c)
  {
    hide Committed, Since, Aggregate, CompleteLines;
    var later := if reach.Completed? && cutoff > c then cutoff else c;
    if reach.AfterCommit? || reach.Completed? {
      CommitAccounted(rd, l, c);
    }
    if reach.Completed? {
      PruneAccounted(rd, l.(stats := Committed(rd, l.stats, l.file)), c, cutoff, later);
    }
  }

  /** However appends, passes and crashes interleave, no line is lost or counted twice. */
  lemma {:induction false} RunAccounted(rd: Reader, events: seq<LogEvent>, floor: int)
    ensures Accounted(rd, After(rd, events), Newest(events, floor))
  {
    hide Accounted, Pass;
    if events == [] {
      NothingAccounted(rd, floor);
    } else {
      var n := |events| - 1;
      RunAccounted(rd, events[..n], floor);
      match events[n]
      case Append(text) => AppendAccounted(rd, After(rd, events[..n]), text, Newest(events[..n], floor));
      case Collect(cutoff, reach) =>
        PassAccounted(rd, After(rd, events[..n]), Newest(events[..n], floor), cutoff, reach);
    }
  }

  lemma {:induction false} NothingAccounted(rd: Reader, floor: int)
    ensures Accounted(rd, EMPTY_LOG, floor)
  {
    EmptyComplete();
    assert ""[..0] == "";
    assert Aggregate(rd, []) == map[];
  }

  /** After a completed pass every complete line of the log has been consumed, no row is
      older than the cutoff, and, when no earlier pass pruned further, the table is exactly
      the one-shot aggregate of the log's complete lines from the cutoff on. */
  lemma {:induction false} CompletedPass(rd: Reader, events: seq<LogEvent>, cutoff: int)
    ensures var l := After(rd, events + [Collect(cutoff, Completed)]);
      && l.stats.offset == CompleteLength(l.file)
      && (forall k | k in l.stats.rows :: k.minute >= cutoff)
      && (Newest(events, cutoff) == cutoff ==>
           l.stats.rows == Since(Aggregate(rd, CompleteLines(l.file)), cutoff))
  {
    hide CompleteLines, CompleteLength, Aggregate, Plus, Newest, Since;
    var all, p := events + [Collect(cutoff, Completed)], After(rd, events);
    assert all[..|events|] == events;
    RunAccounted(rd, events, cutoff);
    ReadOn(p.file, p.stats.offset);
    CommitAccounted(rd, p, Newest(events, cutoff));
    SinceKeys(Committed(rd, p.stats, p.file).rows, cutoff);
  }

  lemma {:induction false} SinceKeys(m: map<StatKey, Totals>, minute: int)
    ensures forall k | k in Since(m, minute) :: k.minute >= minute
  {
  }

  /** A log replaced by a shorter one is read from its top: every complete line of it is
      counted once on top of the rows there were, the offset lies in the new log again, and
      a crash right after the reset changes nothing of that. */
  lemma {:induction false} ShorterLogFromTop(rd: Reader, s: Stats, file: string, cutoff: int, k: StatKey)
    requires s.offset > |file| && k.minute >= cutoff
    ensures var after := Pass(rd, s, file, cutoff, Completed);
      && Get(after.rows, k) == Totals(Get(s.rows, k).hits + Hits(rd, CompleteLines(file), k),
                                      Get(s.rows, k).bytes + Volume(rd, CompleteLines(file), k))
      && after.offset == CompleteLength(file) <= |file| && LineBoundary(file, after.offset)
      && Pass(rd, Pass(rd, s, file, cutoff, AfterReset), file, cutoff, Completed) == after
  {
    hide CompleteLines, CompleteLength, Aggregate, Hits, Volume, LineBoundary;
    assert file[0..] == file;
    AggregateMeaning(rd, CompleteLines(file), k);
    CompleteBoundary(file);
  }

  // ---- queries ----

  function Add(a: Totals, b: Totals): Totals {
    Totals(a.hits + b.hits, a.bytes + b.bytes)
  }

  /** SUM(hits), SUM(bytes) */
  ghost function Total(m: map<StatKey, Totals>): Totals
    decreases |m|
  {
    if m == map[] then Totals(0, 0)
    else
      var k :| k in m;
      Add(m[k], Total(m - {k}))
  }

  lemma {:induction false} TotalWithout(m: map<StatKey, Totals>, k: StatKey)
    requires k in m
    ensures Total(m) == Add(m[k], Total(m - {k}))
    decreases |m|
  {
    TotalPick(m);
    hide Total;
    var j :| j in m && Total(m) == Add(m[j], Total(m - {j}));
    if j != k {
      BothOut(m, j, k);
      TotalWithout(m - {j}, k);
      TotalWithout(m - {k}, j);
    }
  }

  lemma {:induction false} BothOut(m: map<StatKey, Totals>, j: StatKey, k: StatKey)
    requires j in m && k in m && j != k
    ensures m - {j} - {k} == m - {k} - {j}
    ensures k in m - {j} && j in m - {k} && (m - {j})[k] == m[k] && (m - {k})[j] == m[j]
    ensures |m - {j}| < |m| && |m - {k}| < |m|
  {
    OneOut(m, j);
    OneOut(m, k);
  }

  lemma {:induction false} OneOut(m: map<StatKey, Totals>, k: StatKey)
    requires k in m
    ensures |m - {k}| < |m|
  {
    assert (m - {k}).Keys == m.Keys - {k};
  }

  lemma {:induction false} TotalPick(m: map<StatKey, Totals>)
    requires m != map[]
    ensures exists j :: j in m && Total(m) == Add(m[j], Total(m - {j}))
  {
  }

  /** Sums over disjoint sets of rows add up. */
  lemma {:induction false} TotalSplit(m: map<StatKey, Totals>, a: map<StatKey, Totals>, b: map<StatKey, Totals>)
    requires m == a + b && a.Keys !! b.Keys
    ensures Total(m) == Add(Total(a), Total(b))
    decreases |a|
  {
    hide Total;
    if a == map[] {
      NothingMoved(b);
    } else {
      var k :| k in a;
      MoveOut(m, a, b, k);
      TotalSplit(m - {k}, a - {k}, b);
      TotalMoved(m, a, b, k);
    }
  }

  lemma {:induction false} NothingMoved(b: map<StatKey, Totals>)
    ensures map[] + b == b && Total(map[]) == Totals(0, 0)
  {
  }

  lemma {:induction false} TotalMoved(m: map<StatKey, Totals>, a: map<StatKey, Totals>, b: map<StatKey, Totals>, k: StatKey)
    requires k in m && k in a && m[k] == a[k]
    requires Total(m - {k}) == Add(Total(a - {k}), Total(b))
    ensures Total(m) == Add(Total(a), Total(b))
  {
    hide Total;
    TotalWithout(a, k);
    TotalWithout(m, k);
  }

  lemma {:induction false} MoveOut(m: map<StatKey, Totals>, a: map<StatKey, Totals>, b: map<StatKey, Totals>, k: StatKey)
    requires m == a + b && a.Keys !! b.Keys && k in a
    ensures k in m && m[k] == a[k] && m - {k} == (a - {k}) + b && (a - {k}).Keys !! b.Keys && |a - {k}| < |a|
  {
    OneOut(a, k);
    assert k !in b.Keys;
    StillSum(a, b, k);
  }

  lemma {:induction false} StillSum(a: map<StatKey, Totals>, b: map<StatKey, Totals>, k: StatKey)
    requires k !in b
    ensures (a + b) - {k} == (a - {k}) + b
  {
  }

  /** How many counted lines fall at or after a minute. */
  function LinesSince(rd: Reader, lines: seq<string>, minute: int): nat {
    if lines == [] then 0
    else
      LinesSince(rd, lines[..|lines| - 1], minute)
      + match KeyOf(rd, lines[|lines| - 1]) case Some(k) => (if k.minute >= minute then 1 else 0) case None => 0
  }

  lemma {:induction false} TotalBumped(m: map<StatKey, Totals>, k: StatKey, bytes: nat)
    ensures Total(m[k := Totals(Get(m, k).hits + 1, Get(m, k).bytes + bytes)]).hits == Total(m).hits + 1
  {
    var m' := m[k := Totals(Get(m, k).hits + 1, Get(m, k).bytes + bytes)];
    TotalWithout(m', k);
    if k in m {
      TotalWithout(m, k);
      assert m' - {k} == m - {k};
    } else {
      assert m' - {k} == m;
    }
  }

  lemma {:induction false} SinceBumped(m: map<StatKey, Totals>, k: StatKey, t: Totals, minute: int)
    ensures Since(m[k := t], minute) == if k.minute >= minute then Since(m, minute)[k := t] else Since(m, minute)
    ensures k.minute >= minute ==> Get(Since(m, minute), k) == Get(m, k)
  {
  }

  /** Conservation: the hits stored since a minute are the lines counted since it. */
  lemma {:induction false} HitsConserved(rd: Reader, lines: seq<string>, minute: int)
    ensures Total(Since(Aggregate(rd, lines), minute)).hits == LinesSince(rd, lines, minute)
  {
    hide KeyOf, BytesOf, Since, Get, Total;
    if lines == [] {
      NothingSince(minute);
    } else {
      var n := |lines| - 1;
      HitsConserved(rd, lines[..n], minute);
      var m := Aggregate(rd, lines[..n]);
      match KeyOf(rd, lines[n])
      case None =>
      case Some(k) =>
        var t := Totals(Get(m, k).hits + 1, Get(m, k).bytes + BytesOf(rd, lines[n]));
        SinceBumped(m, k, t, minute);
        TotalBumped(Since(m, minute), k, BytesOf(rd, lines[n]));
    }
  }

  lemma {:induction false} NothingSince(minute: int)
    ensures Total(Since(map[], minute)) == Totals(0, 0)
  {
    assert Since(map[], minute) == map[];
  }

  datatype StatusRow = StatusRow(status: int, totals: Totals)
  datatype DomainTotal = DomainTotal(domain: string, totals: Totals)

  /** WHERE minute >= since, and the domain when one is given */
  function Selected(m: map<StatKey, Totals>, domain: string, since: int): map<StatKey, Totals> {
    map k | k in m && k.minute >= since && (domain == "" || k.domain == domain) :: m[k]
  }

  function OfStatus(m: map<StatKey, Totals>, status: int): map<StatKey, Totals> {
    map k | k in m && k.status == status :: m[k]
  }

  function OfDomain(m: map<StatKey, Totals>, domain: string): map<StatKey, Totals> {
    map k | k in m && k.domain == domain :: m[k]
  }

  function OtherStatus(m: map<StatKey, Totals>, status: int): map<StatKey, Totals> {
    map k | k in m && k.status != status :: m[k]
  }

  function OtherDomain(m: map<StatKey, Totals>, domain: string): map<StatKey, Totals> {
    map k | k in m && k.domain != domain :: m[k]
  }

  function SumStatus(rows: seq<StatusRow>): Totals {
    if rows == [] then Totals(0, 0) else Add(SumStatus(rows[..|rows| - 1]), rows[|rows| - 1].totals)
  }

  function SumDomains(rows: seq<DomainTotal>): Totals {
    if rows == [] then Totals(0, 0) else Add(SumDomains(rows[..|rows| - 1]), rows[|rows| - 1].totals)
  }

  predicate HasStatus(out: seq<StatusRow>, s: int) {
    exists i :: 0 <= i < |out| && out[i].status == s
  }

  /** Every status listed occurs in the rows. */
  ghost predicate StatusFrom(m: map<StatKey, Totals>, out: seq<StatusRow>) {
    forall i | 0 <= i < |out| :: exists k :: k in m && k.status == out[i].status
  }

  /** One row per status, ascending, each with the sums over its buckets. */
  ghost predicate IsBreakdown(m: map<StatKey, Totals>, out: seq<StatusRow>) {
    && (forall i, j | 0 <= i < j < |out| :: out[i].status < out[j].status)
    && (forall i | 0 <= i < |out| :: out[i].totals == Total(OfStatus(m, out[i].status)))
    && (forall k | k in m :: HasStatus(out, k.status))
    && StatusFrom(m, out)
  }

  lemma {:induction false} LeastStatus(m: map<StatKey, Totals>)
    requires m != map[]
    ensures exists k :: k in m && forall j | j in m :: k.status <= j.status
    decreases |m|
  {
    var a :| a in m;
    var least := a;
    if m - {a} != map[] {
      LeastStatus(m - {a});
      var x :| x in m - {a} && forall j | j in m - {a} :: x.status <= j.status;
      least := if x.status <= a.status then x else a;
    }
    forall j | j in m
      ensures least.status <= j.status
    {
      assert j != a ==> j in m - {a};
    }
  }

  lemma {:induction false} TakeStatus(m: map<StatKey, Totals>, s: int)
    ensures Total(m) == Add(Total(OfStatus(m, s)), Total(OtherStatus(m, s)))
  {
    assert m == OfStatus(m, s) + OtherStatus(m, s);
    TotalSplit(m, OfStatus(m, s), OtherStatus(m, s));
  }

  lemma {:induction false} TakeDomain(m: map<StatKey, Totals>, d: string)
    ensures Total(m) == Add(Total(OfDomain(m, d)), Total(OtherDomain(m, d)))
  {
    assert m == OfDomain(m, d) + OtherDomain(m, d);
    TotalSplit(m, OfDomain(m, d), OtherDomain(m, d));
  }

  method SumOf(m: map<StatKey, Totals>) returns (t: Totals)
    ensures t == Total(m)
  {
    hide Total;
    var hits, bytes := 0, 0;
    var rest := m;
    while rest != map[]
      invariant hits >= 0 && bytes >= 0
      invariant hits + Total(rest).hits == Total(m).hits && bytes + Total(rest).bytes == Total(m).bytes
      decreases |rest|
    {
      var k :| k in rest;
      TotalWithout(rest, k);
      hits, bytes := hits + rest[k].hits, bytes + rest[k].bytes;
      rest := rest - {k};
    }
    EmptyTotal();
    return Totals(hits, bytes);
  }

  lemma {:induction false} EmptyTotal()
    ensures Total(map[]) == Totals(0, 0)
  {
  }

  lemma {:induction false} SumStatusNext(rows: seq<StatusRow>, row: StatusRow)
    ensures SumStatus(rows + [row]) == Add(SumStatus(rows), row.totals)
  {
    assert (rows + [row])[..|rows|] == rows;
  }

  lemma {:induction false} OneMoreStatus(out: seq<StatusRow>, row: StatusRow)
    ensures forall s :: HasStatus(out + [row], s) <==> HasStatus(out, s) || s == row.status
  {
    var all := out + [row];
    assert all[|out|] == row;
    forall s | HasStatus(out, s)
      ensures HasStatus(all, s)
    {
      var i :| 0 <= i < |out| && out[i].status == s;
      assert all[i].status == s;
    }
  }

  /** rest holds the rows whose status out does not name yet. */
  ghost predicate StatusLeft(m: map<StatKey, Totals>, rest: map<StatKey, Totals>, out: seq<StatusRow>) {
    && (forall k :: k in rest <==> k in m && !HasStatus(out, k.status))
    && (forall k | k in rest :: rest[k] == m[k])
    && (forall i, k | 0 <= i < |out| && k in rest :: out[i].status < k.status)
    && StatusFrom(m, out)
  }

  lemma {:induction false} StatusTaken(m: map<StatKey, Totals>, rest: map<StatKey, Totals>, out: seq<StatusRow>, k: StatKey,
                                       row: StatusRow)
    requires StatusLeft(m, rest, out) && k in rest && row.status == k.status
    requires forall j | j in rest :: k.status <= j.status
    ensures StatusLeft(m, OtherStatus(rest, k.status), out + [row])
    ensures OfStatus(rest, k.status) == OfStatus(m, k.status)
  {
    OneMoreStatus(out, row);
    hide HasStatus;
    var all := out + [row];
    forall i | 0 <= i < |all|
      ensures exists j :: j in m && j.status == all[i].status
    {
      assert k in m;
    }
  }

  /** The GROUP BY status of a selection. Its rows add up to the selection's total. */
  method Breakdown(m: map<StatKey, Totals>) returns (out: seq<StatusRow>)
    ensures IsBreakdown(m, out)
    ensures SumStatus(out) == Total(m)
  {
    hide Total, SumStatus, HasStatus, OfStatus, OtherStatus, StatusLeft;
    out := [];
    var rest := m;
    NoStatusYet(m);
    while rest != map[]
      invariant StatusLeft(m, rest, out)
      invariant forall i | 0 <= i < |out| :: out[i].totals == Total(OfStatus(m, out[i].status))
      invariant forall i, j | 0 <= i < j < |out| :: out[i].status < out[j].status
      invariant Add(SumStatus(out), Total(rest)) == Total(m)
      decreases |rest|
    {
      LeastStatus(rest);
      var k :| k in rest && forall j | j in rest :: k.status <= j.status;
      var sum := SumOf(OfStatus(rest, k.status));
      var row := StatusRow(k.status, sum);
      StatusTaken(m, rest, out, k, row);
      StatusAbove(m, rest, out, k);
      TakeStatus(rest, k.status);
      SumStatusNext(out, row);
      FewerLeft(rest, k);
      out := out + [row];
      rest := OtherStatus(rest, k.status);
    }
    EmptyTotal();
    AllStatusTaken(m, rest, out);
  }

  lemma {:induction false} NoStatusYet(m: map<StatKey, Totals>)
    ensures StatusLeft(m, m, []) && SumStatus([]) == Totals(0, 0)
  {
  }

  lemma {:induction false} StatusAbove(m: map<StatKey, Totals>, rest: map<StatKey, Totals>, out: seq<StatusRow>, k: StatKey)
    requires StatusLeft(m, rest, out) && k in rest
    ensures forall i | 0 <= i < |out| :: out[i].status < k.status
  {
  }

  lemma {:induction false} AllStatusTaken(m: map<StatKey, Totals>, rest: map<StatKey, Totals>, out: seq<StatusRow>)
    requires StatusLeft(m, rest, out) && rest == map[]
    ensures forall k | k in m :: HasStatus(out, k.status)
    ensures StatusFrom(m, out)
  {
    hide HasStatus, StatusFrom;
    forall k | k in m
      ensures HasStatus(out, k.status)
    {
      assert k !in rest;
    }
  }

  lemma {:induction false} FewerLeft(rest: map<StatKey, Totals>, k: StatKey)
    requires k in rest
    ensures |OtherStatus(rest, k.status)| < |rest| && |OtherDomain(rest, k.domain)| < |rest|
  {
    SmallerMap(rest, OtherStatus(rest, k.status), k);
    SmallerMap(rest, OtherDomain(rest, k.domain), k);
  }

  lemma {:induction false} SmallerMap(m: map<StatKey, Totals>, part: map<StatKey, Totals>, k: StatKey)
    requires k in m && k !in part && part.Keys <= m.Keys
    ensures |part| < |m|
  {
    var rest := m.Keys - {k};
    assert part.Keys <= rest;
    SmallerSet(part.Keys, rest);
  }

  lemma {:induction false} SmallerSet(a: set<StatKey>, b: set<StatKey>)
    requires a <= b
    ensures |a| <= |b|
  {
    assert b == a + (b - a);
  }

  /** StatusBreakdown */
  method StatusBreakdown(store: Store, domain: string, since: int) returns (out: seq<StatusRow>)
    ensures IsBreakdown(Selected(store.rows, domain, since), out)
    ensures SumStatus(out) == Total(Selected(store.rows, domain, since))
  {
    out := Breakdown(Selected(store.rows, domain, since));
  }

  predicate HasDomain(out: seq<DomainTotal>, d: string) {
    exists i :: 0 <= i < |out| && out[i].domain == d
  }

  /** One row per domain with the sums over its buckets, highest hits first. */
  ghost predicate IsRanking(m: map<StatKey, Totals>, out: seq<DomainTotal>) {
    && Ranked(out)
    && (forall x | x in out :: x.totals == Total(OfDomain(m, x.domain)) && exists k :: k in m && k.domain == x.domain)
    && (forall k | k in m :: HasDomain(out, k.domain))
  }

  function Rank(row: DomainTotal, s: seq<DomainTotal>): seq<DomainTotal> {
    if s == [] || row.totals.hits > s[0].totals.hits then [row] + s else [s[0]] + Rank(row, s[1..])
  }

  lemma {:induction false} RankElements(row: DomainTotal, s: seq<DomainTotal>)
    ensures |Rank(row, s)| == |s| + 1
    ensures forall x :: x in Rank(row, s) <==> x == row || x in s
  {
    if s != [] {
      RankElements(row, s[1..]);
      assert s == [s[0]] + s[1..];
    }
  }

  predicate Ranked(s: seq<DomainTotal>) {
    forall i, j | 0 <= i < j < |s| :: s[i].totals.hits >= s[j].totals.hits && s[i].domain != s[j].domain
  }

  lemma {:induction false} RankRanked(row: DomainTotal, s: seq<DomainTotal>)
    requires Ranked(s) && forall x | x in s :: x.domain != row.domain
    ensures Ranked(Rank(row, s))
  {
    if s != [] && row.totals.hits <= s[0].totals.hits {
      var t := Rank(row, s[1..]);
      RankRanked(row, s[1..]);
      RankElements(row, s[1..]);
      assert s[0] in s;
      forall j | 0 <= j < |t|
        ensures s[0].totals.hits >= t[j].totals.hits && s[0].domain != t[j].domain
      {
        assert t[j] in t;
        if t[j] != row {
          var i :| 0 <= i < |s[1..]| && s[1..][i] == t[j];
          assert s[i + 1] == t[j];
        }
      }
    } else {
      assert forall j | 0 <= j < |s| :: s[j] in s;
    }
  }

  lemma {:induction false} RankSum(row: DomainTotal, s: seq<DomainTotal>)
    ensures SumDomains(Rank(row, s)) == Add(SumDomains(s), row.totals)
  {
    if s == [] || row.totals.hits > s[0].totals.hits {
      SumFirst([row] + s);
      assert ([row] + s)[1..] == s;
    } else {
      RankSum(row, s[1..]);
      SumFirst(s);
      SumFirst([s[0]] + Rank(row, s[1..]));
      assert ([s[0]] + Rank(row, s[1..]))[1..] == Rank(row, s[1..]);
    }
  }

  lemma {:induction false} SumFirst(s: seq<DomainTotal>)
    requires s != []
    ensures SumDomains(s) == Add(s[0].totals, SumDomains(s[1..]))
  {
    if |s| == 1 {
      assert s[..0] == [] && s[1..] == [];
    } else {
      var n := |s| - 1;
      SumFirst(s[..n]);
      assert s[..n][1..] == s[1..][..n - 1];
    }
  }

  lemma {:induction false} OneMoreDomain(out: seq<DomainTotal>, row: DomainTotal)
    ensures forall d :: HasDomain(Rank(row, out), d) <==> HasDomain(out, d) || d == row.domain
  {
    RankElements(row, out);
    var all := Rank(row, out);
    forall d: string
      ensures HasDomain(all, d) <==> HasDomain(out, d) || d == row.domain
    {
      assert HasDomain(all, d) <==> exists x :: x in all && x.domain == d;
      assert HasDomain(out, d) <==> exists x :: x in out && x.domain == d;
    }
  }

  /** rest holds the rows whose domain out does not name yet. */
  ghost predicate DomainLeft(m: map<StatKey, Totals>, rest: map<StatKey, Totals>, out: seq<DomainTotal>) {
    && (forall k :: k in rest <==> k in m && !HasDomain(out, k.domain))
    && (forall k | k in rest :: rest[k] == m[k])
  }

  lemma {:induction false} DomainTaken(m: map<StatKey, Totals>, rest: map<StatKey, Totals>, out: seq<DomainTotal>, k: StatKey,
                                       row: DomainTotal)
    requires DomainLeft(m, rest, out) && k in rest && row.domain == k.domain
    ensures DomainLeft(m, OtherDomain(rest, k.domain), Rank(row, out))
    ensures OfDomain(rest, k.domain) == OfDomain(m, k.domain)
    ensures k in m && !HasDomain(out, k.domain)
  {
    hide HasDomain, Rank;
    OneMoreDomain(out, row);
  }

  lemma {:induction false} NotRanked(out: seq<DomainTotal>, d: string)
    requires !HasDomain(out, d)
    ensures forall x | x in out :: x.domain != d
  {
  }

  lemma {:induction false} NoDomainYet(m: map<StatKey, Totals>)
    ensures DomainLeft(m, m, []) && Ranked([]) && SumDomains([]) == Totals(0, 0)
  {
  }

  lemma {:induction false} AllDomainsTaken(m: map<StatKey, Totals>, rest: map<StatKey, Totals>, out: seq<DomainTotal>)
    requires DomainLeft(m, rest, out) && rest == map[]
    ensures forall k | k in m :: HasDomain(out, k.domain)
  {
    hide HasDomain;
    forall k | k in m
      ensures HasDomain(out, k.domain)
    {
      assert k !in rest;
    }
  }

  /** The GROUP BY domain of a selection, ranked. Its rows add up to the selection's total. */
  method Ranking(m: map<StatKey, Totals>) returns (out: seq<DomainTotal>)
    ensures IsRanking(m, out)
    ensures SumDomains(out) == Total(m)
  {
    hide Total, SumDomains, HasDomain, OfDomain, OtherDomain, Rank, DomainLeft, Ranked;
    out := [];
    var rest := m;
    NoDomainYet(m);
    while rest != map[]
      invariant DomainLeft(m, rest, out) && Ranked(out)
      invariant forall x | x in out :: x.totals == Total(OfDomain(m, x.domain)) && exists k :: k in m && k.domain == x.domain
      invariant Add(SumDomains(out), Total(rest)) == Total(m)
      decreases |rest|
    {
      var k :| k in rest;
      var sum := SumOf(OfDomain(rest, k.domain));
      var row := DomainTotal(k.domain, sum);
      DomainTaken(m, rest, out, k, row);
      NotRanked(out, k.domain);
      TakeDomain(rest, k.domain);
      RankElements(row, out);
      RankRanked(row, out);
      RankSum(row, out);
      FewerLeft(rest, k);
      out := Rank(row, out);
      rest := OtherDomain(rest, k.domain);
    }
    EmptyTotal();
    AllDomainsTaken(m, rest, out);
  }

  /** TopDomains; a negative limit means all of them. What is left out of a limited ranking
      has no more hits than anything in it. */
  method TopDomains(store: Store, since: int, limit: int) returns (out: seq<DomainTotal>, ghost all: seq<DomainTotal>)
    ensures IsRanking(Selected(store.rows, "", since), all)
    ensures SumDomains(all) == Total(Selected(store.rows, "", since))
    ensures out == if 0 <= limit < |all| then all[..limit] else all
  {
    var ranked := Ranking(Selected(store.rows, "", since));
    all := ranked;
    out := if 0 <= limit < |ranked| then ranked[..limit] else ranked;
  }

  /** The status rows and the domain rows of one moment add up to the same totals: the hits
      counted since the minute. */
  lemma {:induction false} QueriesAgree(rd: Reader, rows: map<StatKey, Totals>, lines: seq<string>, since: int,
                                        status: seq<StatusRow>, domains: seq<DomainTotal>)
    requires Since(rows, since) == Since(Aggregate(rd, lines), since)
    requires SumStatus(status) == Total(Selected(rows, "", since))
    requires SumDomains(domains) == Total(Selected(rows, "", since))
    ensures SumStatus(status) == SumDomains(domains)
    ensures SumStatus(status).hits == LinesSince(rd, lines, since)
  {
    assert Selected(rows, "", since) == Since(rows, since);
    HitsConserved(rd, lines, since);
  }
}
