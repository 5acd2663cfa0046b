/** The string operations of Go's strings and strconv packages that the command
    system is built on, with the round-trip facts the printers and parsers need.
    Strings are sequences of code points. */
module Text {

  datatype Option<+T> = None | Some(value: T)

  /** The blanks outside ASCII. */
  const WIDE_SPACES: string :=
    "\U{0085}\U{00A0}\U{1680}\U{2000}\U{2001}\U{2002}\U{2003}\U{2004}\U{2005}\U{2006}\U{2007}\U{2008}\U{2009}\U{200A}\U{2028}\U{2029}\U{202F}\U{205F}\U{3000}"

  /** unicode.IsSpace */
  predicate IsSpace(c: char) {
    '\t' <= c <= '\r' || c == ' ' || (c > '~' && c in WIDE_SPACES)
  }

  predicate NoSpace(s: string) {
    forall i | 0 <= i < |s| :: !IsSpace(s[i])
  }

  lemma {:induction false} NoSpaceConcat(a: string, b: string)
    requires NoSpace(a) && NoSpace(b)
    ensures NoSpace(a + b)
  {
  }

  predicate Token(s: string) {
    s != "" && NoSpace(s)
  }

  lemma {:induction false} AsciiToken(s: string)
    requires s != "" && forall i | 0 <= i < |s| :: '!' <= s[i] <= '~'
    ensures Token(s)
  {
  }

  predicate HasPrefix(s: string, p: string) {
    p <= s
  }

  // ---- strings.Index, strings.Split, strings.Join ----

  /** strings.IndexByte: the first position of c, or -1. */
  function IndexOf(s: string, c: char): (i: int)
    ensures -1 <= i < |s|
    ensures i == -1 <==> c !in s
    ensures i >= 0 ==> s[i] == c && c !in s[..i]
  {
    if s == "" then -1
    else if s[0] == c then 0
    else
      var j := IndexOf(s[1..], c);
      if j == -1 then -1 else
        assert s[..j + 1] == [s[0]] + s[1..][..j];
        j + 1
  }

  /** strings.LastIndex for a single character. */
  function LastIndexOf(s: string, c: char): (i: int)
    ensures -1 <= i < |s|
    ensures i == -1 <==> c !in s
    ensures i >= 0 ==> s[i] == c && c !in s[i + 1..]
  {
    if s == "" then -1
    else if s[|s| - 1] == c then |s| - 1
    else
      var t := s[..|s| - 1];
      assert s == t + [s[|s| - 1]];
      var j := LastIndexOf(t, c);
      if j == -1 then -1 else
        assert s[j + 1..] == t[j + 1..] + [s[|s| - 1]];
        j
  }

  lemma {:induction false} LastIndexUnique(s: string, c: char, i: int)
    requires 0 <= i < |s| && s[i] == c && c !in s[i + 1..]
    ensures LastIndexOf(s, c) == i
  {
    if i < |s| - 1 {
      assert s[i + 1..][|s| - i - 2] == s[|s| - 1];
      var t := s[..|s| - 1];
      assert forall k | i < k < |t| :: s[i + 1..][k - i - 1] == t[k];
      LastIndexUnique(t, c, i);
    }
  }

  /** strings.Split(s, sep) for a one-character separator. */
  function Split(s: string, c: char): (parts: seq<string>)
    ensures |parts| >= 1
    ensures forall k | 0 <= k < |parts| :: c !in parts[k]
    decreases |s|
  {
    var i := IndexOf(s, c);
    if i == -1 then [s] else [s[..i]] + Split(s[i + 1..], c)
  }

  lemma {:induction false} IndexUnique(a: string, c: char, rest: string)
    requires c !in a
    ensures IndexOf(a + [c] + rest, c) == |a|
  {
    if a != "" {
      IndexUnique(a[1..], c, rest);
      assert (a + [c] + rest)[1..] == a[1..] + [c] + rest;
    }
  }

  lemma {:induction false} SplitStep(a: string, c: char, rest: string)
    requires c !in a
    ensures Split(a + [c] + rest, c) == [a] + Split(rest, c)
  {
    IndexUnique(a, c, rest);
    var s := a + [c] + rest;
    assert s[..|a|] == a;
    assert s[|a| + 1..] == rest;
  }

  function Join(parts: seq<string>, sep: string): string {
    if |parts| == 0 then ""
    else if |parts| == 1 then parts[0]
    else parts[0] + sep + Join(parts[1..], sep)
  }

  /** Every line followed by a newline, as the snapshot printer writes them. */
  function Lines(lines: seq<string>): string {
    if lines == [] then "" else lines[0] + ['\n'] + Lines(lines[1..])
  }

  lemma {:induction false} LinesAppend(a: seq<string>, b: seq<string>)
    ensures Lines(a + b) == Lines(a) + Lines(b)
  {
    if a == [] {
      assert a + b == b;
    } else {
      LinesAppend(a[1..], b);
      assert (a + b)[1..] == a[1..] + b;
      var h, u, v := a[0] + ['\n'], Lines(a[1..]), Lines(b);
      assert h + (u + v) == (h + u) + v;
    }
  }

  predicate NoneHas(lines: seq<string>, c: char) {
    forall i | 0 <= i < |lines| :: c !in lines[i]
  }

  lemma {:induction false} SplitLinesStep(head: string, tail: seq<string>)
    requires '\n' !in head
    requires Split(Lines(tail), '\n') == tail + [""]
    ensures Split(Lines([head] + tail), '\n') == [head] + tail + [""]
  {
    hide Split, Lines;
    SplitStep(head, '\n', Lines(tail));
    FirstOfLines(head, tail);
    assert [head] + (tail + [""]) == [head] + tail + [""];
  }

  lemma {:induction false} FirstOfLines(head: string, tail: seq<string>)
    ensures Lines([head] + tail) == head + ['\n'] + Lines(tail)
  {
    assert ([head] + tail)[1..] == tail;
  }

  /** Splitting printed lines gives the lines back, and the empty text after the last newline. */
  lemma {:induction false} SplitLines(lines: seq<string>)
    requires NoneHas(lines, '\n')
    ensures Split(Lines(lines), '\n') == lines + [""]
  {
    if lines == [] {
    } else {
      SplitLines(lines[1..]);
      SplitLinesStep(lines[0], lines[1..]);
      assert [lines[0]] + lines[1..] == lines;
    }
  }

  lemma {:induction false} SplitJoin(lines: seq<string>, c: char)
    requires lines != [] && NoneHas(lines, c)
    ensures Split(Join(lines, [c]), c) == lines
  {
    if |lines| == 1 {
      assert IndexOf(lines[0], c) == -1;
    } else {
      SplitJoin(lines[1..], c);
      SplitStep(lines[0], c, Join(lines[1..], [c]));
    }
  }

  /** A loop over lines that updates a state, as a fold. */
  function FoldLines<S>(step: (S, string) -> S, init: S, lines: seq<string>): S
    decreases |lines|
  {
    if lines == [] then init else FoldLines(step, step(init, lines[0]), lines[1..])
  }

  lemma {:induction false} FoldAppend<S>(step: (S, string) -> S, init: S, a: seq<string>, b: seq<string>)
    ensures FoldLines(step, init, a + b) == FoldLines(step, FoldLines(step, init, a), b)
    decreases |a|
  {
    if a == [] {
      assert a + b == b;
    } else {
      assert (a + b)[1..] == a[1..] + b;
      FoldAppend(step, step(init, a[0]), a[1..], b);
    }
  }

  lemma {:induction false} FoldNext<S>(step: (S, string) -> S, s: S, lines: seq<string>, i: nat)
    requires i < |lines|
    ensures FoldLines(step, s, lines[i..]) == FoldLines(step, step(s, lines[i]), lines[i + 1..])
  {
    assert lines[i..][1..] == lines[i + 1..];
  }

  // ---- strings.TrimSpace, strings.Fields ----

  function TrimLeft(s: string): (r: string)
    ensures r == "" || !IsSpace(r[0])
  {
    if s != "" && IsSpace(s[0]) then TrimLeft(s[1..]) else s
  }

  function TrimRight(s: string): (r: string)
    ensures r == "" || !IsSpace(r[|r| - 1])
    ensures r <= s
  {
    if s != "" && IsSpace(s[|s| - 1]) then TrimRight(s[..|s| - 1]) else s
  }

  function TrimSpace(s: string): (r: string)
    ensures r == "" || (!IsSpace(r[0]) && !IsSpace(r[|r| - 1]))
  {
    TrimRight(TrimLeft(s))
  }

  /** A string with no blank at either end is its own trimming. */
  predicate Trimmed(s: string) {
    s == "" || (!IsSpace(s[0]) && !IsSpace(s[|s| - 1]))
  }

  lemma {:induction false} TrimOfTrimmed(s: string)
    requires Trimmed(s)
    ensures TrimSpace(s) == s
  {
  }

  lemma {:induction false} TrimRightConcat(a: string, b: string)
    requires a != "" && !IsSpace(a[|a| - 1])
    ensures TrimRight(a + b) == a + TrimRight(b)
  {
    if b != "" && IsSpace(b[|b| - 1]) {
      var b' := b[..|b| - 1];
      TrimRightConcat(a, b');
      assert (a + b)[..|a + b| - 1] == a + b';
    } else if b == "" {
      assert a + b == a;
    }
  }

  lemma {:induction false} TrimLeftBlank(s: string)
    requires s != "" && !IsSpace(s[0])
    ensures TrimLeft(" " + s) == s
  {
    assert (" " + s)[1..] == s;
  }

  lemma {:induction false} TrimSpaceBlank(s: string)
    requires s != "" && Trimmed(s)
    ensures TrimSpace(" " + s) == s
    ensures TrimRight(" " + s) == " " + s
  {
    TrimLeftBlank(s);
  }

  /** Length of the leading run of non-blank characters. */
  function TokenLen(s: string): (n: nat)
    ensures n <= |s|
    ensures NoSpace(s[..n])
    ensures n < |s| ==> IsSpace(s[n])
  {
    if s == "" || IsSpace(s[0]) then 0
    else
      var m := TokenLen(s[1..]);
      assert s[..m + 1] == [s[0]] + s[1..][..m];
      m + 1
  }

  function Fields(s: string): (fs: seq<string>)
    ensures forall k | 0 <= k < |fs| :: Token(fs[k])
    decreases |s|
  {
    if s == "" then []
    else if IsSpace(s[0]) then Fields(s[1..])
    else
      var n := TokenLen(s);
      [s[..n]] + Fields(s[n..])
  }

  lemma {:induction false} TokenLenOf(tok: string, rest: string)
    requires NoSpace(tok)
    requires rest == "" || IsSpace(rest[0])
    ensures TokenLen(tok + rest) == |tok|
  {
    if tok == "" {
      assert tok + rest == rest;
    } else {
      var s := tok + rest;
      assert s[0] == tok[0] && !IsSpace(tok[0]);
      TokenLenOf(tok[1..], rest);
      assert s[1..] == tok[1..] + rest;
    }
  }

  lemma {:induction false} FieldsCons(tok: string, rest: string)
    requires Token(tok)
    requires rest == "" || IsSpace(rest[0])
    ensures Fields(tok + rest) == [tok] + Fields(rest)
  {
    TokenLenOf(tok, rest);
    var s := tok + rest;
    assert s[0] == tok[0];
    assert s[..|tok|] == tok && s[|tok|..] == rest;
  }

  predicate Tokens(toks: seq<string>) {
    forall k | 0 <= k < |toks| :: Token(toks[k])
  }

  /** strings.Fields undoes strings.Join with a single blank. */
  lemma {:induction false} FieldsJoin(toks: seq<string>)
    requires Tokens(toks)
    ensures Fields(Join(toks, " ")) == toks
  {
    if |toks| == 0 {
    } else if |toks| == 1 {
      FieldsCons(toks[0], "");
      assert toks[0] + "" == toks[0];
    } else {
      var rest := Join(toks[1..], " ");
      FieldsJoin(toks[1..]);
      assert (" " + rest)[1..] == rest;
      assert Fields(" " + rest) == Fields(rest);
      FieldsCons(toks[0], " " + rest);
      assert toks[0] + " " + rest == toks[0] + (" " + rest);
    }
  }

  lemma {:induction false} JoinTrimmed(toks: seq<string>)
    requires Tokens(toks) && toks != []
    ensures Join(toks, " ") != "" && Trimmed(Join(toks, " "))
  {
    if |toks| > 1 {
      JoinTrimmed(toks[1..]);
    }
  }

  lemma {:induction false} JoinAppend(a: seq<string>, b: seq<string>, sep: string)
    requires a != [] && b != []
    ensures Join(a + b, sep) == Join(a, sep) + sep + Join(b, sep)
  {
    if |a| == 1 {
      assert (a + b)[1..] == b;
    } else {
      JoinAppend(a[1..], b, sep);
      assert (a + b)[1..] == a[1..] + b;
      assert a[0] + sep + (Join(a[1..], sep) + sep + Join(b, sep)) ==
             (a[0] + sep + Join(a[1..], sep)) + sep + Join(b, sep);
    }
  }

  lemma {:induction false} JoinNoChar(toks: seq<string>, c: char)
    requires forall k | 0 <= k < |toks| :: c !in toks[k]
    requires c != ' '
    ensures c !in Join(toks, " ")
  {
    if |toks| > 1 {
      JoinNoChar(toks[1..], c);
    }
  }

  lemma {:induction false} TokenNoSpaceChar(t: string, c: char)
    requires NoSpace(t) && IsSpace(c)
    ensures c !in t
  {
  }

  // ---- strconv ----

  const MAX_INT64: int := 0x7fff_ffff_ffff_ffff
  const MIN_INT64: int := -0x8000_0000_0000_0000

  predicate IsInt64(n: int) {
    MIN_INT64 <= n <= MAX_INT64
  }

  predicate IsDigit(c: char) {
    '0' <= c <= '9'
  }

  predicate AllDigits(s: string) {
    forall i | 0 <= i < |s| :: IsDigit(s[i])
  }

  function DigitChar(d: nat): (c: char)
    requires d < 10
    ensures IsDigit(c) && c as int - '0' as int == d
  {
    (d + '0' as int) as char
  }

  function NatToString(n: nat): (s: string)
    ensures s != "" && AllDigits(s)
  {
    if n < 10 then [DigitChar(n)] else NatToString(n / 10) + [DigitChar(n % 10)]
  }

  function DigitsValue(s: string): (v: nat)
    requires AllDigits(s)
  {
    if s == "" then 0 else 10 * DigitsValue(s[..|s| - 1]) + (s[|s| - 1] as int - '0' as int)
  }

  /** strconv.Itoa and the %d verb */
  function Itoa(n: int): (s: string)
    ensures s != ""
  {
    if n < 0 then "-" + NatToString(-n) else NatToString(n)
  }

  /** strconv.Atoi and strconv.ParseInt(s, 10, 64) on a 64-bit machine */
  function ParseInt(s: string): (r: Option<int>)
    ensures r.Some? ==> IsInt64(r.value)
  {
    var neg := s != "" && s[0] == '-';
    var body := if s != "" && (s[0] == '-' || s[0] == '+') then s[1..] else s;
    if body == "" || !AllDigits(body) then None
    else
      var v: int := (if neg then -1 else 1) * DigitsValue(body);
      if IsInt64(v) then Some(v) else None
  }

  lemma {:induction false} DigitsOfNat(n: nat)
    ensures DigitsValue(NatToString(n)) == n
  {
    if n >= 10 {
      DigitsOfNat(n / 10);
      var s := NatToString(n);
      assert s[..|s| - 1] == NatToString(n / 10);
    }
  }

  /** Parsing a printed number gives the number back. */
  lemma {:induction false} ParseItoa(n: int)
    requires IsInt64(n)
    ensures ParseInt(Itoa(n)) == Some(n)
  {
    if n < 0 {
      DigitsOfNat(-n);
      assert Itoa(n)[1..] == NatToString(-n);
    } else {
      DigitsOfNat(n);
      assert IsDigit(Itoa(n)[0]);
    }
  }

  lemma {:induction false} ItoaToken(n: int)
    ensures Token(Itoa(n))
    ensures forall i | 0 <= i < |Itoa(n)| :: IsDigit(Itoa(n)[i]) || Itoa(n)[i] == '-'
    ensures n >= 0 ==> AllDigits(Itoa(n))
  {
    var s := Itoa(n);
    if n < 0 {
      assert s == "-" + NatToString(-n);
    }
  }

  // ---- byte-wise string order, as SQLite's ORDER BY and Go's < use it ----

  predicate Less(a: string, b: string) {
    b != "" && (a == "" || a[0] < b[0] || (a[0] == b[0] && Less(a[1..], b[1..])))
  }

  lemma {:induction false} LessIrreflexive(a: string)
    ensures !Less(a, a)
  {
    if a != "" {
      LessIrreflexive(a[1..]);
    }
  }

  lemma {:induction false} LessTransitive(a: string, b: string, c: string)
    requires Less(a, b) && Less(b, c)
    ensures Less(a, c)
  {
    if a != "" && a[0] == b[0] && b[0] == c[0] {
      LessTransitive(a[1..], b[1..], c[1..]);
    }
  }

  lemma {:induction false} LessTotal(a: string, b: string)
    ensures a == b || Less(a, b) || Less(b, a)
  {
    if a != "" && b != "" && a[0] == b[0] {
      LessTotal(a[1..], b[1..]);
      if a[1..] == b[1..] {
        assert a == [a[0]] + a[1..] && b == [b[0]] + b[1..];
      }
    }
  }
}
