/** The policy of a server block: every rule object bound to its display scope, merged
    with the stricter value winning (internal/nginx/precedence.go). */
module Policies {
  import opened Text
  import opened Rules
  import opened Store
  import opened Orders

  // ---- locations ----

  datatype Location = Location(modifier: string, matcher: string, precedence: nat)

  /** patternToNginxLocation */
  function LocationOf(pattern: string): (l: Location)
    ensures l.precedence <= 3
  {
    var p := TrimSpace(pattern);
    if HasPrefix(p, "= ") then Location("=", TrimSpace(p[2..]), 0)
    else if HasPrefix(p, "^~ ") then Location("^~", TrimSpace(p[3..]), 1)
    else if HasPrefix(p, "~ ") then Location("~", TrimSpace(p[2..]), 2)
    else if HasPrefix(p, "~* ") then Location("~*", TrimSpace(p[3..]), 2)
    else if HasPrefix(p, "*.") then Location("~*", "\\." + p[2..] + "$", 3)
    else if HasPrefix(p, "/") then Location("", p, 1)
    else Location("~*", "(^|/)" + p + "$", 3)
  }

  /** pathPrecedence */
  function PathPrecedence(from: string, regex: bool): nat {
    if regex then 2
    else if '*' in from || '?' in from || '[' in from || ']' in from then 3
    else 1
  }

  // ---- cache rules ----

  datatype CacheRule = CacheRule(pattern: string, location: Location, ttl: int, browserTTL: int, hsts: bool)

  /** One pattern of one bound cache object. */
  datatype Item = Item(pattern: string, ttl: int, browserTTL: int, hsts: bool)

  function ItemsOf(b: Params): (items: seq<Item>)
    ensures b.Cache? ==> |items| == |b.patterns|
  {
    if b.Cache? then seq(|b.patterns|, i requires 0 <= i < |b.patterns| => Item(b.patterns[i], b.ttl, b.browserTTL, b.hsts))
    else []
  }

  /** What f takes from each bound object, in binding order. */
  function Gather<T>(f: Params -> seq<T>, bound: seq<Params>): seq<T> {
    if bound == [] then [] else Gather(f, bound[..|bound| - 1]) + f(bound[|bound| - 1])
  }

  predicate Occurs(items: seq<Item>, pattern: string) {
    exists i :: 0 <= i < |items| && items[i].pattern == pattern
  }

  /** The lifetime is the least of the pattern's. */
  ghost predicate LeastTTL(items: seq<Item>, pattern: string, ttl: int) {
    && (exists it :: it in items && it.pattern == pattern && it.ttl == ttl)
    && (forall it | it in items && it.pattern == pattern :: ttl <= it.ttl)
  }

  /** The browser lifetime is the least positive one of the pattern's, 0 when none is positive. */
  ghost predicate LeastBrowserTTL(items: seq<Item>, pattern: string, ttl: int) {
    && ttl >= 0
    && (ttl > 0 ==> exists it :: it in items && it.pattern == pattern && it.browserTTL == ttl)
    && (forall it | it in items && it.pattern == pattern && it.browserTTL > 0 :: 0 < ttl <= it.browserTTL)
  }

  ghost predicate AnyHSTS(items: seq<Item>, pattern: string) {
    exists it :: it in items && it.pattern == pattern && it.hsts
  }

  ghost predicate Strictest(items: seq<Item>, r: CacheRule) {
    && r.location == LocationOf(r.pattern)
    && LeastTTL(items, r.pattern, r.ttl)
    && LeastBrowserTTL(items, r.pattern, r.browserTTL)
    && (r.hsts <==> AnyHSTS(items, r.pattern))
  }

  /** The rules collected so far: one per pattern seen, each the strictest. */
  ghost predicate Collected(items: seq<Item>, m: map<string, CacheRule>) {
    && (forall p :: p in m <==> Occurs(items, p))
    && (forall p | p in m :: m[p].pattern == p && Strictest(items, m[p]))
  }

  predicate NonNegativeItems(items: seq<Item>) {
    forall i | 0 <= i < |items| :: items[i].browserTTL >= 0
  }

  /** The merge of one more occurrence of a pattern. */
  function Merge(r: CacheRule, it: Item): CacheRule {
    CacheRule(r.pattern, r.location,
              if it.ttl < r.ttl then it.ttl else r.ttl,
              if it.browserTTL > 0 && (r.browserTTL == 0 || it.browserTTL < r.browserTTL) then it.browserTTL else r.browserTTL,
              r.hsts || it.hsts)
  }

  function Collect(m: map<string, CacheRule>, it: Item): map<string, CacheRule> {
    if it.pattern !in m
    then m[it.pattern := CacheRule(it.pattern, LocationOf(it.pattern), it.ttl, it.browserTTL, it.hsts)]
    else m[it.pattern := Merge(m[it.pattern], it)]
  }

  lemma {:induction false} MergeStrictest(items: seq<Item>, r: CacheRule, it: Item)
    requires Strictest(items, r) && it.pattern == r.pattern && it.browserTTL >= 0
    ensures Strictest(items + [it], Merge(r, it))
  {
    hide LocationOf;
    var all := items + [it];
    assert it in all && forall x :: x in all <==> x in items || x == it;
    var t :| t in items && t.pattern == r.pattern && t.ttl == r.ttl;
    assert t in all;
    if r.browserTTL > 0 {
      var b :| b in items && b.pattern == r.pattern && b.browserTTL == r.browserTTL;
      assert b in all;
    }
    if AnyHSTS(items, r.pattern) {
      var h :| h in items && h.pattern == r.pattern && h.hsts;
      assert h in all;
    }
  }

  lemma {:induction false} OtherPatternStrictest(items: seq<Item>, r: CacheRule, it: Item)
    requires it.pattern != r.pattern
    ensures Strictest(items + [it], r) <==> Strictest(items, r)
  {
    hide LocationOf;
    assert forall x: Item | x.pattern == r.pattern :: x in items + [it] <==> x in items;
  }

  lemma {:induction false} MemberOccurs(items: seq<Item>, it: Item)
    requires it in items
    ensures Occurs(items, it.pattern)
  {
    var i :| 0 <= i < |items| && items[i] == it;
    assert items[i].pattern == it.pattern;
  }

  lemma {:induction false} FirstStrictest(items: seq<Item>, it: Item)
    requires !Occurs(items, it.pattern) && it.browserTTL >= 0
    ensures Strictest(items + [it], CacheRule(it.pattern, LocationOf(it.pattern), it.ttl, it.browserTTL, it.hsts))
  {
    hide LocationOf;
    var all := items + [it];
    assert it in all;
    forall x | x in all && x.pattern == it.pattern
      ensures x == it
    {
      if x in items {
        MemberOccurs(items, x);
      }
    }
  }

  lemma {:induction false} OccursNext(items: seq<Item>, it: Item, p: string)
    ensures Occurs(items + [it], p) <==> Occurs(items, p) || p == it.pattern
  {
    var all := items + [it];
    assert all[|items|] == it;
    if Occurs(items, p) {
      var i :| 0 <= i < |items| && items[i].pattern == p;
      assert all[i].pattern == p;
    }
    if Occurs(all, p) {
      var i :| 0 <= i < |all| && all[i].pattern == p;
      assert i < |items| ==> items[i].pattern == p;
    }
  }

  lemma {:induction false} CollectedNext(items: seq<Item>, m: map<string, CacheRule>, it: Item)
    requires Collected(items, m) && it.browserTTL >= 0
    ensures Collected(items + [it], Collect(m, it))
  {
    hide Strictest, Occurs, LocationOf, Merge;
    var m' := Collect(m, it);
    forall p: string
      ensures p in m' <==> Occurs(items + [it], p)
    {
      OccursNext(items, it, p);
    }
    forall p | p in m'
      ensures m'[p].pattern == p && Strictest(items + [it], m'[p])
    {
      if p != it.pattern {
        OtherPatternStrictest(items, m[p], it);
      } else if p in m {
        MergeStrictest(items, m[p], it);
        MergedPattern(m[p], it);
      } else {
        FirstStrictest(items, it);
      }
    }
  }

  lemma {:induction false} MergedPattern(r: CacheRule, it: Item)
    ensures Merge(r, it).pattern == r.pattern
  {
  }

  /** Precedence first, then the pattern's text. */
  predicate RuleBefore(a: CacheRule, b: CacheRule) {
    a.location.precedence < b.location.precedence
    || (a.location.precedence == b.location.precedence && Less(a.pattern, b.pattern))
  }

  /** The list of cache rules of a policy: one rule per pattern, the strictest, in order. */
  ghost predicate IsCacheRules(rules: seq<CacheRule>, items: seq<Item>) {
    && (forall i, j | 0 <= i < j < |rules| :: RuleBefore(rules[i], rules[j]))
    && (forall r | r in rules :: Strictest(items, r))
    && (forall p | Occurs(items, p) :: exists r :: r in rules && r.pattern == p)
  }

  lemma {:induction false} StrictestUnique(items1: seq<Item>, items2: seq<Item>, r1: CacheRule, r2: CacheRule)
    requires forall it :: it in items1 <==> it in items2
    requires Strictest(items1, r1) && Strictest(items2, r2) && r1.pattern == r2.pattern
    ensures r1 == r2
  {
    hide LocationOf;
    var p := r1.pattern;
    assert r1.ttl == r2.ttl by {
      var a :| a in items1 && a.pattern == p && a.ttl == r1.ttl;
      var b :| b in items2 && b.pattern == p && b.ttl == r2.ttl;
      assert a in items2 && b in items1;
    }
    assert r1.browserTTL == r2.browserTTL by {
      if r1.browserTTL > 0 {
        var a :| a in items1 && a.pattern == p && a.browserTTL == r1.browserTTL;
        assert a in items2;
      }
      if r2.browserTTL > 0 {
        var b :| b in items2 && b.pattern == p && b.browserTTL == r2.browserTTL;
        assert b in items1;
      }
    }
    assert AnyHSTS(items1, p) <==> AnyHSTS(items2, p);
  }

  function RuleKey(r: CacheRule): seq<string> {
    [Itoa(r.location.precedence), r.pattern]
  }

  lemma {:induction false} DigitsOrder(a: nat, b: nat)
    requires a <= 3 && b <= 3
    ensures Less(Itoa(a), Itoa(b)) <==> a < b
    ensures Itoa(a) == Itoa(b) <==> a == b
  {
    assert Itoa(a) == [DigitChar(a)] && Itoa(b) == [DigitChar(b)];
    assert !Less(Itoa(a)[1..], Itoa(b)[1..]);
  }

  lemma {:induction false} KeyOrder(a: CacheRule, b: CacheRule)
    requires a.location.precedence <= 3 && b.location.precedence <= 3
    ensures Precedes(RuleKey(a), RuleKey(b)) <==> RuleBefore(a, b)
  {
    hide Itoa, Less;
    DigitsOrder(a.location.precedence, b.location.precedence);
    assert RuleKey(a)[1..] == [a.pattern] && RuleKey(b)[1..] == [b.pattern];
    assert Precedes([a.pattern], [b.pattern]) <==> Less(a.pattern, b.pattern) by {
      assert [a.pattern][1..] == [] && [b.pattern][1..] == [];
    }
  }

  /** The cache rules do not depend on the order of the bindings, nor on repetitions. */
  lemma {:induction false} CacheRulesUnique(rules1: seq<CacheRule>, items1: seq<Item>, rules2: seq<CacheRule>, items2: seq<Item>)
    requires forall it :: it in items1 <==> it in items2
    requires IsCacheRules(rules1, items1) && IsCacheRules(rules2, items2)
    ensures rules1 == rules2
  {
    SameRules(rules1, items1, rules2, items2);
    SameRules(rules2, items2, rules1, items1);
    RulesSorted(rules1, items1);
    RulesSorted(rules2, items2);
    SortedUnique(rules1, rules2, RuleKey);
  }

  lemma {:induction false} SameRules(rules1: seq<CacheRule>, items1: seq<Item>, rules2: seq<CacheRule>, items2: seq<Item>)
    requires forall it :: it in items1 <==> it in items2
    requires IsCacheRules(rules1, items1) && IsCacheRules(rules2, items2)
    ensures forall r | r in rules1 :: r in rules2
  {
    forall r | r in rules1
      ensures r in rules2
    {
      assert Strictest(items1, r);
      var it :| it in items1 && it.pattern == r.pattern;
      assert it in items2;
      var i :| 0 <= i < |items2| && items2[i] == it;
      assert Occurs(items2, r.pattern);
      var r2 :| r2 in rules2 && r2.pattern == r.pattern;
      StrictestUnique(items1, items2, r, r2);
    }
  }

  lemma {:induction false} RulesSorted(rules: seq<CacheRule>, items: seq<Item>)
    requires IsCacheRules(rules, items)
    ensures Sorted(rules, RuleKey)
  {
    hide LocationOf, RuleKey, RuleBefore;
    forall i, j | 0 <= i < j < |rules|
      ensures Precedes(RuleKey(rules[i]), RuleKey(rules[j]))
    {
      assert rules[i] in rules && rules[j] in rules;
      RankBounded(rules[i].pattern);
      RankBounded(rules[j].pattern);
      KeyOrder(rules[i], rules[j]);
    }
  }

  lemma {:induction false} RankBounded(pattern: string)
    ensures LocationOf(pattern).precedence <= 3
  {
  }

  /** All the rules of m, by precedence and then pattern. */
  ghost predicate ListsRules(rules: seq<CacheRule>, m: map<string, CacheRule>) {
    && (forall i, j | 0 <= i < j < |rules| :: RuleBefore(rules[i], rules[j]))
    && (forall r :: r in rules <==> r.pattern in m && m[r.pattern] == r)
  }

  ghost predicate Keyed(m: map<string, CacheRule>) {
    forall p | p in m :: m[p].pattern == p && m[p].location == LocationOf(p)
  }

  method ListRules(m: map<string, CacheRule>) returns (rules: seq<CacheRule>)
    requires Keyed(m)
    ensures ListsRules(rules, m)
  {
    hide LocationOf, RuleKey, RuleBefore;
    var all := set p | p in m :: m[p];
    forall r | r in all
      ensures r.location.precedence <= 3 && r.pattern in m && m[r.pattern] == r
    {
      RankBounded(r.pattern);
    }
    SameKeySamePattern();
    rules := Listing(all, RuleKey);
    forall i, j | 0 <= i < j < |rules|
      ensures RuleBefore(rules[i], rules[j])
    {
      assert rules[i] in rules && rules[j] in rules;
      KeyOrder(rules[i], rules[j]);
    }
  }

  lemma {:induction false} SameKeySamePattern()
    ensures forall a, b | RuleKey(a) == RuleKey(b) :: a.pattern == b.pattern
  {
    forall a, b | RuleKey(a) == RuleKey(b)
      ensures a.pattern == b.pattern
    {
      assert RuleKey(a)[1] == RuleKey(b)[1];
    }
  }

  function CollectAll(items: seq<Item>): map<string, CacheRule> {
    if items == [] then map[] else Collect(CollectAll(items[..|items| - 1]), items[|items| - 1])
  }

  lemma {:induction false} CollectAllNext(items: seq<Item>, it: Item)
    ensures CollectAll(items + [it]) == Collect(CollectAll(items), it)
  {
    hide Collect;
    assert (items + [it])[..|items|] == items;
  }

  lemma {:induction false} CollectedKeyed(items: seq<Item>)
    ensures Keyed(CollectAll(items))
  {
    hide LocationOf;
    if items != [] {
      CollectedKeyed(items[..|items| - 1]);
    }
  }

  lemma {:induction false} CollectedAll(items: seq<Item>)
    requires NonNegativeItems(items)
    ensures Collected(items, CollectAll(items))
  {
    hide Collect, Strictest;
    if items != [] {
      var n := |items| - 1;
      CollectedAll(items[..n]);
      CollectedNext(items[..n], CollectAll(items[..n]), items[n]);
      assert items == items[..n] + [items[n]];
    }
  }

  /** The listed rules are one per pattern, each with its strictest values. */
  lemma {:induction false} ListedMeaning(rules: seq<CacheRule>, items: seq<Item>)
    requires NonNegativeItems(items) && ListsRules(rules, CollectAll(items))
    ensures IsCacheRules(rules, items)
  {
    hide CollectAll, Strictest, RuleBefore, Occurs;
    CollectedAll(items);
    var m := CollectAll(items);
    forall p | Occurs(items, p)
      ensures exists r :: r in rules && r.pattern == p
    {
      assert m[p] in rules;
    }
  }

  // ---- body sizes ----

  const TWO_63: int := 0x8000_0000_0000_0000

  /** The value an int64 keeps of n. */
  function Wrap64(n: int): (r: int)
    ensures -TWO_63 <= r < TWO_63
    ensures 0 <= n < TWO_63 ==> r == n
  {
    (n + TWO_63) % (2 * TWO_63) - TWO_63
  }

  /** The multiplier a size suffix stands for; 1 for no suffix. */
  function Multiplier(c: char): (m: int)
    ensures m >= 1
  {
    if c == 'k' || c == 'K' then 1024
    else if c == 'm' || c == 'M' then 1024 * 1024
    else if c == 'g' || c == 'G' then 1024 * 1024 * 1024
    else 1
  }

  datatype SizeParts = SizeParts(count: nat, mult: int)

  function PartsOf(s: string): (r: Option<SizeParts>)
    ensures r.Some? ==> r.value.mult in {1, 1024, 1024 * 1024, 1024 * 1024 * 1024}
  {
    var t := TrimSpace(s);
    if t == "" then None
    else
      var mult := Multiplier(t[|t| - 1]);
      match ParseInt(if mult == 1 then t else t[..|t| - 1])
      case None => None
      case Some(n) => if n < 0 then None else Some(SizeParts(n, mult))
  }

  /** parseSizeToBytes, with its int64 product. */
  function Bytes(s: string): Option<int> {
    match PartsOf(s)
    case None => None
    case Some(p) => Some(Wrap64(p.count * p.mult))
  }

  /** The number of bytes the text denotes. */
  function TrueBytes(s: string): Option<nat> {
    match PartsOf(s)
    case None => None
    case Some(p) => Some(Product(p))
  }

  function Product(p: SizeParts): nat
    requires p.mult >= 1
  {
    ProductNat(p.count, p.mult);
    p.count * p.mult
  }

  lemma {:induction false} ProductNat(a: nat, b: nat)
    ensures a * b >= 0
  {
  }

  /** The body size kept when one more object sets one. */
  function Tighter(cur: string, new_: string): string {
    if new_ == "" then cur
    else if cur == "" then new_
    else if Bytes(new_).None? then cur
    else if Bytes(cur).None? || Bytes(new_).value < Bytes(cur).value then new_
    else cur
  }

  function Tightest(sizes: seq<string>): string {
    if sizes == [] then "" else Tighter(Tightest(sizes[..|sizes| - 1]), sizes[|sizes| - 1])
  }

  /** r is one of the sizes set, readable when one is, and of least byte count. */
  ghost predicate IsTightest(sizes: seq<string>, r: string) {
    && (r == "" <==> forall s | s in sizes :: s == "")
    && (r != "" ==> r in sizes)
    && (forall s | s in sizes && Bytes(s).Some? :: Bytes(r).Some? && Bytes(r).value <= Bytes(s).value)
  }

  lemma {:induction false} EmptySize()
    ensures Bytes("") == None
  {
  }

  lemma {:induction false} TighterStep(sizes: seq<string>, cur: string, size: string)
    requires IsTightest(sizes, cur)
    ensures IsTightest(sizes + [size], Tighter(cur, size))
  {
    hide Bytes;
    EmptySize();
    var all, r := sizes + [size], Tighter(cur, size);
    assert all[|sizes|] == size && size in all;
    assert forall s :: s in all <==> s in sizes || s == size;
    assert r == cur || r == size;
    forall s | s in all && Bytes(s).Some?
      ensures Bytes(r).Some? && Bytes(r).value <= Bytes(s).value
    {
      if s in sizes {
        assert Bytes(cur).Some? && Bytes(cur).value <= Bytes(s).value;
      }
    }
  }

  lemma {:induction false} TightestIsLeast(sizes: seq<string>)
    ensures IsTightest(sizes, Tightest(sizes))
  {
    hide Bytes;
    EmptySize();
    hide Tighter;
    if sizes != [] {
      var n := |sizes| - 1;
      TightestIsLeast(sizes[..n]);
      TighterStep(sizes[..n], Tightest(sizes[..n]), sizes[n]);
      assert sizes == sizes[..n] + [sizes[n]];
    }
  }

  /** The byte count of the size kept does not depend on the order of the bindings. */
  lemma {:induction false} TightestOrderFree(a: seq<string>, b: seq<string>)
    requires forall s :: s in a <==> s in b
    ensures Bytes(Tightest(a)) == Bytes(Tightest(b))
  {
    hide Bytes;
    EmptySize();
    TightestIsLeast(a);
    TightestIsLeast(b);
  }

  lemma {:induction false} WrappedMultiple(count: nat, mult: int)
    requires mult in {1024, 1024 * 1024, 1024 * 1024 * 1024}
    ensures Wrap64(count * mult) % 1024 == 0
  {
    var k: int := mult / 1024;
    var p := count * k;
    assert mult == 1024 * k;
    assert count * mult == 1024 * p by {
      Regroup(count, k);
    }
    var q := (1024 * p + TWO_63) / (2 * TWO_63);
    var r := (1024 * p + TWO_63) % (2 * TWO_63);
    assert 1024 * p + TWO_63 == 2 * TWO_63 * q + r;
    assert r == 1024 * (p + 0x20_0000_0000_0000 - 0x40_0000_0000_0000 * q);
  }

  lemma {:induction false} Regroup(a: int, k: int)
    ensures a * (1024 * k) == 1024 * (a * k)
  {
  }

  const LARGEST: string := Itoa(MAX_INT64)

  lemma {:induction false} LargestSize()
    ensures Bytes(LARGEST) == Some(MAX_INT64) && TrueBytes(LARGEST) == Some(MAX_INT64)
  {
    hide Itoa, ParseInt, TrimSpace;
    ItoaToken(MAX_INT64);
    ParseItoa(MAX_INT64);
    TrimOfTrimmed(LARGEST);
    var c := LARGEST[|LARGEST| - 1];
    assert IsDigit(c) && Multiplier(c) == 1;
    assert PartsOf(LARGEST) == Some(SizeParts(MAX_INT64, 1));
  }

  /** A size is compared by its true byte count with every size that fits an int64 if and
      only if it fits an int64 itself: a larger one wraps around and can displace a
      genuinely smaller limit. */
  lemma {:induction false} ComparedTrulyIff(s: string)
    requires Bytes(s).Some?
    ensures (forall t | Bytes(t).Some? && TrueBytes(t).value < TWO_63 ::
              Bytes(s).value < Bytes(t).value <==> TrueBytes(s).value < TrueBytes(t).value)
            <==> TrueBytes(s).value < TWO_63
  {
    hide PartsOf, Wrap64;
    if TrueBytes(s).value >= TWO_63 {
      var p := PartsOf(s).value;
      LargestSize();
      if p.mult == 1 {
        CountFits(s);
      } else {
        WrappedMultiple(p.count, p.mult);
        assert Bytes(s).value < Bytes(LARGEST).value;
      }
    }
  }

  lemma {:induction false} CountFits(s: string)
    requires PartsOf(s).Some? && PartsOf(s).value.mult == 1
    ensures TrueBytes(s).value < TWO_63
  {
  }

  /** So, as long as every readable size fits an int64, the size kept truly is the least. */
  lemma {:induction false} TightestTruly(sizes: seq<string>)
    requires forall s | s in sizes && TrueBytes(s).Some? :: TrueBytes(s).value < TWO_63
    ensures forall s | s in sizes && TrueBytes(s).Some? ::
      TrueBytes(Tightest(sizes)).Some? && TrueBytes(Tightest(sizes)).value <= TrueBytes(s).value
  {
    hide PartsOf, Wrap64;
    TightestIsLeast(sizes);
    EmptySize();
    forall s | s in sizes && TrueBytes(s).Some?
      ensures Bytes(s).Some? && Bytes(s).value == TrueBytes(s).value
    {
      FitsUnwrapped(s);
    }
  }

  lemma {:induction false} FitsUnwrapped(s: string)
    requires TrueBytes(s).Some? && TrueBytes(s).value < TWO_63
    ensures Bytes(s) == Some(TrueBytes(s).value)
  {
  }

  // ---- the merged policy ----

  datatype RedirectEntry = RedirectEntry(from: string, to: string, status: int, regex: bool, precedence: nat)

  datatype Policy = Policy(
    scope: string,
    cacheRules: seq<CacheRule>,
    requestAdd: map<string, string>,
    requestDel: seq<string>,
    responseAdd: map<string, string>,
    responseDel: seq<string>,
    redirects: seq<RedirectEntry>,
    blockIPs: seq<string>,
    allowIPs: seq<string>,
    blockUA: seq<string>,
    refAllowed: seq<string>,
    rateLimit: int,
    bodySize: string)

  function NewPolicy(scope: string): Policy {
    Policy(scope, [], map[], [], map[], [], [], [], [], [], [], 0, "")
  }

  predicate Blocks(b: Params)
    requires b.Defense?
  {
    b.action == "" || b.action == "block"
  }

  function BlockedIPs(b: Params): seq<string> { if b.Defense? && Blocks(b) then b.ips else [] }

  function AllowedIPs(b: Params): seq<string> { if b.Defense? && !Blocks(b) then b.ips else [] }

  function BlockedUA(b: Params): seq<string> { if b.Defense? && b.ua != "" then [b.ua] else [] }

  function Refs(b: Params): seq<string> { if b.Defense? then b.refs else [] }

  function Rates(b: Params): seq<int> { if b.Defense? then [b.rate] else [] }

  function Sizes(b: Params): seq<string> { if b.Defense? then [b.size] else [] }

  function RedirectsOf(b: Params): seq<RedirectEntry> {
    if b.Redirect?
    then [RedirectEntry(b.from, b.to, if b.status == 0 then 301 else b.status, b.regex, PathPrecedence(b.from, b.regex))]
    else []
  }

  function RequestDels(b: Params): seq<string> { if b.Header? then b.requestDel else [] }

  function ResponseDels(b: Params): seq<string> { if b.Header? then b.responseDel else [] }

  /** Headers to add: a later binding overrides an earlier one. */
  function RequestAdds(bound: seq<Params>): map<string, string> {
    if bound == [] then map[]
    else
      var m, b := RequestAdds(bound[..|bound| - 1]), bound[|bound| - 1];
      if b.Header? then m + b.requestAdd else m
  }

  function ResponseAdds(bound: seq<Params>): map<string, string> {
    if bound == [] then map[]
    else
      var m, b := ResponseAdds(bound[..|bound| - 1]), bound[|bound| - 1];
      if b.Header? then m + b.responseAdd else m
  }

  function Limited(cur: int, rate: int): int {
    if rate > 0 && (cur == 0 || rate < cur) then rate else cur
  }

  function LimitOf(rates: seq<int>): int {
    if rates == [] then 0 else Limited(LimitOf(rates[..|rates| - 1]), rates[|rates| - 1])
  }

  /** The least positive rate, 0 when there is none. */
  ghost predicate IsLeastPositive(rates: seq<int>, r: int) {
    && r >= 0
    && (r > 0 ==> r in rates)
    && (forall x | x in rates && x > 0 :: 0 < r <= x)
  }

  lemma {:induction false} LimitIsLeast(rates: seq<int>)
    ensures IsLeastPositive(rates, LimitOf(rates))
  {
    if rates != [] {
      var n := |rates| - 1;
      LimitIsLeast(rates[..n]);
      assert rates == rates[..n] + [rates[n]];
    }
  }

  /** Lower rank first, longer source path first; others keep their order. */
  predicate Earlier(a: RedirectEntry, b: RedirectEntry) {
    if a.precedence != b.precedence then a.precedence < b.precedence else |a.from| > |b.from|
  }

  function Place(e: RedirectEntry, s: seq<RedirectEntry>): seq<RedirectEntry> {
    if s == [] || !Earlier(s[0], e) then [e] + s else [s[0]] + Place(e, s[1..])
  }

  function StableSort(s: seq<RedirectEntry>): seq<RedirectEntry> {
    if s == [] then [] else Place(s[0], StableSort(s[1..]))
  }

  ghost predicate InRank(s: seq<RedirectEntry>) {
    forall i, j | 0 <= i < j < |s| :: !Earlier(s[j], s[i])
  }

  lemma {:induction false} PlaceElements(e: RedirectEntry, s: seq<RedirectEntry>)
    ensures multiset(Place(e, s)) == multiset{e} + multiset(s)
  {
    if s != [] && Earlier(s[0], e) {
      PlaceElements(e, s[1..]);
      assert s == [s[0]] + s[1..];
    }
  }

  lemma {:induction false} PlaceAfter(e: RedirectEntry, s: seq<RedirectEntry>, head: RedirectEntry)
    requires !Earlier(e, head) && forall i | 0 <= i < |s| :: !Earlier(s[i], head)
    ensures forall i | 0 <= i < |Place(e, s)| :: !Earlier(Place(e, s)[i], head)
  {
    if s != [] && Earlier(s[0], e) {
      PlaceAfter(e, s[1..], head);
    }
  }

  lemma {:induction false} PlaceInRank(e: RedirectEntry, s: seq<RedirectEntry>)
    requires InRank(s)
    ensures InRank(Place(e, s))
  {
    if s != [] && Earlier(s[0], e) {
      PlaceInRank(e, s[1..]);
      PlaceAfter(e, s[1..], s[0]);
    }
  }

  /** The sorted redirects are the redirects given, in rank order. */
  lemma {:induction false} SortedRedirects(s: seq<RedirectEntry>)
    ensures InRank(StableSort(s)) && multiset(StableSort(s)) == multiset(s)
  {
    hide InRank, Place;
    if s == [] {
      EmptyInRank();
    } else {
      SortedRedirects(s[1..]);
      PlaceElements(s[0], StableSort(s[1..]));
      PlaceInRank(s[0], StableSort(s[1..]));
      assert s == [s[0]] + s[1..];
    }
  }

  lemma {:induction false} EmptyInRank()
    ensures InRank([])
  {
  }

  /** The policy the bound objects, in this order, give a scope. */
  ghost predicate IsPolicy(scope: string, bound: seq<Params>, p: Policy) {
    && p.scope == scope
    && ListsRules(p.cacheRules, CollectAll(Gather(ItemsOf, bound)))
    && p.requestAdd == RequestAdds(bound)
    && p.requestDel == Gather(RequestDels, bound)
    && p.responseAdd == ResponseAdds(bound)
    && p.responseDel == Gather(ResponseDels, bound)
    && p.redirects == StableSort(Gather(RedirectsOf, bound))
    && p.blockIPs == Gather(BlockedIPs, bound)
    && p.allowIPs == Gather(AllowedIPs, bound)
    && p.blockUA == Gather(BlockedUA, bound)
    && p.refAllowed == Gather(Refs, bound)
    && p.rateLimit == LimitOf(Gather(Rates, bound))
    && p.bodySize == Tightest(Gather(Sizes, bound))
  }

  lemma {:induction false} GatherNext<T>(f: Params -> seq<T>, bound: seq<Params>, i: nat)
    requires i < |bound|
    ensures Gather(f, bound[..i + 1]) == Gather(f, bound[..i]) + f(bound[i])
  {
    assert bound[..i + 1][..i] == bound[..i];
  }

  /** The policy after some of the bound objects, before the two lists are sorted. */
  function Accumulated(scope: string, bound: seq<Params>): Policy {
    Policy(scope, [], RequestAdds(bound), Gather(RequestDels, bound), ResponseAdds(bound), Gather(ResponseDels, bound),
           Gather(RedirectsOf, bound), Gather(BlockedIPs, bound), Gather(AllowedIPs, bound), Gather(BlockedUA, bound),
           Gather(Refs, bound), LimitOf(Gather(Rates, bound)), Tightest(Gather(Sizes, bound)))
  }

  /** What one more object adds. */
  function WithObject(p: Policy, b: Params): Policy {
    p.(requestAdd := if b.Header? then p.requestAdd + b.requestAdd else p.requestAdd,
       requestDel := p.requestDel + RequestDels(b),
       responseAdd := if b.Header? then p.responseAdd + b.responseAdd else p.responseAdd,
       responseDel := p.responseDel + ResponseDels(b),
       redirects := p.redirects + RedirectsOf(b),
       blockIPs := p.blockIPs + BlockedIPs(b), allowIPs := p.allowIPs + AllowedIPs(b),
       blockUA := p.blockUA + BlockedUA(b), refAllowed := p.refAllowed + Refs(b),
       rateLimit := if b.Defense? then Limited(p.rateLimit, b.rate) else p.rateLimit,
       bodySize := if b.Defense? then Tighter(p.bodySize, b.size) else p.bodySize)
  }

  lemma {:induction false} LimitNext(rates: seq<int>, rate: int)
    ensures LimitOf(rates + [rate]) == Limited(LimitOf(rates), rate)
  {
    assert (rates + [rate])[..|rates|] == rates;
  }

  lemma {:induction false} TightestNext(sizes: seq<string>, size: string)
    ensures Tightest(sizes + [size]) == Tighter(Tightest(sizes), size)
  {
    assert (sizes + [size])[..|sizes|] == sizes;
  }

  lemma {:induction false} AccumulatedNext(scope: string, bound: seq<Params>, i: nat)
    requires i < |bound|
    ensures Accumulated(scope, bound[..i + 1]) == WithObject(Accumulated(scope, bound[..i]), bound[i])
  {
    hide Gather, LimitOf, Tightest, Limited, Tighter, PathPrecedence;
    GatherNext(RequestDels, bound, i);
    GatherNext(ResponseDels, bound, i);
    GatherNext(RedirectsOf, bound, i);
    GatherNext(BlockedIPs, bound, i);
    GatherNext(AllowedIPs, bound, i);
    GatherNext(BlockedUA, bound, i);
    GatherNext(Refs, bound, i);
    GatherNext(Rates, bound, i);
    GatherNext(Sizes, bound, i);
    var b := bound[i];
    var rates, sizes := Gather(Rates, bound[..i]), Gather(Sizes, bound[..i]);
    if b.Defense? {
      LimitNext(rates, b.rate);
      TightestNext(sizes, b.size);
    } else {
      assert rates + [] == rates && sizes + [] == sizes;
    }
    assert bound[..i + 1][..i] == bound[..i];
  }

  class DomainPolicy {
    const scope: string
    var cacheRules: seq<CacheRule>
    var requestAdd: map<string, string>
    var requestDel: seq<string>
    var responseAdd: map<string, string>
    var responseDel: seq<string>
    var redirects: seq<RedirectEntry>
    var blockIPs: seq<string>
    var allowIPs: seq<string>
    var blockUA: seq<string>
    var refAllowed: seq<string>
    var rateLimit: int
    var bodySize: string

    constructor (scope: string)
      ensures Value() == NewPolicy(scope)
    {
      this.scope := scope;
      cacheRules, redirects := [], [];
      requestAdd, requestDel, responseAdd, responseDel := map[], [], map[], [];
      blockIPs, allowIPs, blockUA, refAllowed, rateLimit, bodySize := [], [], [], [], 0, "";
    }

    function Value(): Policy
      reads this
    {
      Policy(scope, cacheRules, requestAdd, requestDel, responseAdd, responseDel, redirects, blockIPs, allowIPs, blockUA,
             refAllowed, rateLimit, bodySize)
    }

    method AddLists(d: Params)
      requires d.Defense?
      modifies this`blockIPs, this`allowIPs, this`blockUA, this`refAllowed
      ensures blockIPs == if Blocks(d) then old(blockIPs) + d.ips else old(blockIPs)
      ensures allowIPs == if Blocks(d) then old(allowIPs) else old(allowIPs) + d.ips
      ensures blockUA == if d.ua != "" then old(blockUA) + [d.ua] else old(blockUA)
      ensures refAllowed == old(refAllowed) + d.refs
    {
      if d.action == "" || d.action == "block" {
        blockIPs := blockIPs + d.ips;
      } else {
        allowIPs := allowIPs + d.ips;
      }
      if d.ua != "" {
        blockUA := blockUA + [d.ua];
      }
      refAllowed := refAllowed + d.refs;
    }

    method AddLimits(d: Params)
      requires d.Defense?
      modifies this`rateLimit, this`bodySize
      ensures rateLimit == Limited(old(rateLimit), d.rate)
      ensures bodySize == Tighter(old(bodySize), d.size)
    {
      hide Bytes;
      if d.rate > 0 && (rateLimit == 0 || d.rate < rateLimit) {
        rateLimit := d.rate;
      }
      if d.size != "" {
        if bodySize == "" {
          bodySize := d.size;
        } else {
          var new_, cur := Bytes(d.size), Bytes(bodySize);
          if new_.Some? && (cur.None? || new_.value < cur.value) {
            bodySize := d.size;
          }
        }
      }
    }

    method AddDefense(d: Params)
      requires d.Defense?
      modifies this`blockIPs, this`allowIPs, this`blockUA, this`refAllowed, this`rateLimit, this`bodySize
      ensures Value() == WithObject(old(Value()), d)
    {
      hide WithObject, Limited, Tighter, Blocks;
      ObjectAdds(Value(), d);
      AddLists(d);
      AddLimits(d);
    }

    method AddRedirect(r: Params)
      requires r.Redirect?
      modifies this`redirects
      ensures Value() == WithObject(old(Value()), r)
    {
      hide WithObject, PathPrecedence;
      ObjectAdds(Value(), r);
      var prec := PathPrecedence(r.from, r.regex);
      redirects := redirects + [RedirectEntry(r.from, r.to, if r.status == 0 then 301 else r.status, r.regex, prec)];
    }

    method AddHeaders(h: Params)
      requires h.Header?
      modifies this`requestAdd, this`requestDel, this`responseAdd, this`responseDel
      ensures Value() == WithObject(old(Value()), h)
    {
      hide WithObject;
      ObjectAdds(Value(), h);
      requestAdd, requestDel := requestAdd + h.requestAdd, requestDel + h.requestDel;
      responseAdd, responseDel := responseAdd + h.responseAdd, responseDel + h.responseDel;
    }

    /** applyBindings, on a new policy. */
    method ApplyBindings(bound: seq<Params>)
      requires Value() == NewPolicy(scope)
      modifies this
      ensures IsPolicy(scope, bound, Value())
    {
      hide Gather, CollectAll, WithObject, PathPrecedence, LimitOf, Tightest, StableSort, ListsRules, Keyed;
      var byPattern: map<string, CacheRule> := map[];
      NothingBound(scope, bound);
      for i := 0 to |bound|
        invariant Value() == Accumulated(scope, bound[..i])
        invariant byPattern == CollectAll(Gather(ItemsOf, bound[..i]))
      {
        hide Accumulated;
        AccumulatedNext(scope, bound, i);
        GatherNext(ItemsOf, bound, i);
        var b := bound[i];
        CacheAddsNothing(Accumulated(scope, bound[..i]), b);
        NoItems(Gather(ItemsOf, bound[..i]), b);
        match b
        case Cache(_, _, _, _) =>
          byPattern := MergeCache(byPattern, b, Gather(ItemsOf, bound[..i]));
        case Defense(_, _, _, _, _, _, _) =>
          AddDefense(b);
        case Redirect(_, _, _, _) =>
          AddRedirect(b);
        case Header(_, _, _, _) =>
          AddHeaders(b);
      }
      assert bound[..|bound|] == bound;
      CollectedKeyed(Gather(ItemsOf, bound));
      cacheRules := ListRules(byPattern);
      redirects := StableSort(redirects);
    }
  }

  lemma {:induction false} CacheAddsNothing(p: Policy, b: Params)
    ensures b.Cache? ==> WithObject(p, b) == p
  {
    hide WithObject;
    ObjectAdds(p, b);
  }

  lemma {:induction false} NoItems(items: seq<Item>, b: Params)
    ensures !b.Cache? ==> items + ItemsOf(b) == items
  {
  }

  lemma {:induction false} NothingBound(scope: string, bound: seq<Params>)
    ensures NewPolicy(scope) == Accumulated(scope, bound[..0])
    ensures CollectAll(Gather(ItemsOf, bound[..0])) == map[]
  {
  }

  /** The same, type by type. */
  lemma {:induction false} ObjectAdds(p: Policy, b: Params)
    ensures match b
      case Cache(_, _, _, _) => WithObject(p, b) == p
      case Defense(_, _, _, _, _, _, _) =>
        WithObject(p, b) ==
        p.(blockIPs := if Blocks(b) then p.blockIPs + b.ips else p.blockIPs,
           allowIPs := if Blocks(b) then p.allowIPs else p.allowIPs + b.ips,
           blockUA := if b.ua != "" then p.blockUA + [b.ua] else p.blockUA,
           refAllowed := p.refAllowed + b.refs,
           rateLimit := Limited(p.rateLimit, b.rate), bodySize := Tighter(p.bodySize, b.size))
      case Redirect(from, to, status, regex) =>
        WithObject(p, b) ==
        p.(redirects := p.redirects +
          [RedirectEntry(from, to, if status == 0 then 301 else status, regex, PathPrecedence(from, regex))])
      case Header(_, _, _, _) =>
        WithObject(p, b) ==
        p.(requestAdd := p.requestAdd + b.requestAdd, requestDel := p.requestDel + b.requestDel,
           responseAdd := p.responseAdd + b.responseAdd, responseDel := p.responseDel + b.responseDel)
  {
    hide PathPrecedence, Limited, Tighter;
    assert p.requestDel + [] == p.requestDel && p.responseDel + [] == p.responseDel;
    assert p.redirects + [] == p.redirects;
    assert p.blockIPs + [] == p.blockIPs && p.allowIPs + [] == p.allowIPs;
    assert p.blockUA + [] == p.blockUA && p.refAllowed + [] == p.refAllowed;
  }

  /** The patterns of one cache object merged into the rules so far. */
  method MergeCache(m: map<string, CacheRule>, c: Params, ghost before: seq<Item>) returns (r: map<string, CacheRule>)
    requires c.Cache? && m == CollectAll(before)
    ensures r == CollectAll(before + ItemsOf(c))
  {
    hide CollectAll, LocationOf;
    r := m;
    assert before + ItemsOf(c)[..0] == before;
    for j := 0 to |c.patterns|
      invariant r == CollectAll(before + ItemsOf(c)[..j])
    {
      var pattern := c.patterns[j];
      CollectAllNext(before + ItemsOf(c)[..j], ItemsOf(c)[j]);
      assert before + ItemsOf(c)[..j] + [ItemsOf(c)[j]] == before + ItemsOf(c)[..j + 1];
      if pattern !in r {
        r := r[pattern := CacheRule(pattern, LocationOf(pattern), c.ttl, c.browserTTL, c.hsts)];
      } else {
        var e := r[pattern];
        if c.ttl < e.ttl {
          e := e.(ttl := c.ttl);
        }
        if c.browserTTL > 0 && (e.browserTTL == 0 || c.browserTTL < e.browserTTL) {
          e := e.(browserTTL := c.browserTTL);
        }
        if c.hsts {
          e := e.(hsts := true);
        }
        r := r[pattern := e];
      }
    }
    assert ItemsOf(c)[..|c.patterns|] == ItemsOf(c);
  }

  // ---- order of the bindings ----

  lemma {:induction false} GatherMembers<T>(f: Params -> seq<T>, bound: seq<Params>, x: T)
    ensures x in Gather(f, bound) <==> exists b :: b in bound && x in f(b)
  {
    if bound != [] {
      var n := |bound| - 1;
      GatherMembers(f, bound[..n], x);
      assert bound == bound[..n] + [bound[n]];
    }
  }

  lemma {:induction false} SameMembers<T(!new)>(f: Params -> seq<T>, a: seq<Params>, b: seq<Params>)
    requires forall p :: p in a <==> p in b
    ensures forall x :: x in Gather(f, a) <==> x in Gather(f, b)
  {
    forall x: T
      ensures x in Gather(f, a) <==> x in Gather(f, b)
    {
      GatherMembers(f, a, x);
      GatherMembers(f, b, x);
    }
  }

  lemma {:induction false} LeastPositiveUnique(a: seq<int>, r1: int, b: seq<int>, r2: int)
    requires forall x :: x in a <==> x in b
    requires IsLeastPositive(a, r1) && IsLeastPositive(b, r2)
    ensures r1 == r2
  {
  }

  predicate NonNegativeLifetimes(bound: seq<Params>) {
    forall b | b in bound :: b.Cache? ==> b.browserTTL >= 0
  }

  lemma {:induction false} ItemsNonNegative(bound: seq<Params>)
    requires NonNegativeLifetimes(bound)
    ensures NonNegativeItems(Gather(ItemsOf, bound))
  {
    var items := Gather(ItemsOf, bound);
    forall i | 0 <= i < |items|
      ensures items[i].browserTTL >= 0
    {
      GatherMembers(ItemsOf, bound, items[i]);
      var b :| b in bound && items[i] in ItemsOf(b);
    }
  }

  /** The same objects bound in any other order, or several times, give the same cache
      rules, the same rate limit and a body size of the same byte count. */
  lemma {:induction false} OrderFree(scope: string, a: seq<Params>, p: Policy, b: seq<Params>, q: Policy)
    requires forall x :: x in a <==> x in b
    requires NonNegativeLifetimes(a)
    requires IsPolicy(scope, a, p) && IsPolicy(scope, b, q)
    ensures p.cacheRules == q.cacheRules
    ensures p.rateLimit == q.rateLimit
    ensures Bytes(p.bodySize) == Bytes(q.bodySize)
  {
    hide ListsRules, CollectAll, Gather, LimitOf, Tightest, IsCacheRules, IsLeastPositive, StableSort;
    SameMembers(ItemsOf, a, b);
    SameMembers(Rates, a, b);
    SameMembers(Sizes, a, b);
    ItemsNonNegative(a);
    ItemsNonNegative(b);
    ListedMeaning(p.cacheRules, Gather(ItemsOf, a));
    ListedMeaning(q.cacheRules, Gather(ItemsOf, b));
    CacheRulesUnique(p.cacheRules, Gather(ItemsOf, a), q.cacheRules, Gather(ItemsOf, b));
    LimitIsLeast(Gather(Rates, a));
    LimitIsLeast(Gather(Rates, b));
    LeastPositiveUnique(Gather(Rates, a), p.rateLimit, Gather(Rates, b), q.rateLimit);
    TightestOrderFree(Gather(Sizes, a), Gather(Sizes, b));
  }

  lemma {:induction false} GatherLast<T>(f: Params -> seq<T>, a: seq<Params>, x: Params)
    ensures multiset(Gather(f, a + [x])) == multiset(Gather(f, a)) + multiset(f(x))
  {
    assert (a + [x])[..|a|] == a;
  }

  lemma {:induction false} GatherSwap<T>(f: Params -> seq<T>, a: seq<Params>, x: Params, b: seq<Params>)
    ensures multiset(Gather(f, a + [x] + b)) == multiset(Gather(f, a + b)) + multiset(f(x))
    decreases |b|
  {
    hide Gather;
    if b == [] {
      assert a + [x] + b == a + [x] && a + b == a;
      GatherLast(f, a, x);
    } else {
      var n := |b| - 1;
      var y, c := b[n], b[..n];
      GatherSwap(f, a, x, c);
      assert a + [x] + b == (a + [x] + c) + [y];
      assert a + b == (a + c) + [y];
      GatherLast(f, a + [x] + c, y);
      GatherLast(f, a + c, y);
    }
  }

  /** The lists a policy collects keep their elements under any permutation of the bindings. */
  lemma {:induction false} GatherPermutes<T>(f: Params -> seq<T>, a: seq<Params>, b: seq<Params>)
    requires multiset(a) == multiset(b)
    ensures multiset(Gather(f, a)) == multiset(Gather(f, b))
    decreases |a|
  {
    if a == [] {
      assert |multiset(b)| == |b|;
    } else {
      var n := |a| - 1;
      assert a == a[..n] + [a[n]];
      assert a[n] in multiset(b);
      var i :| 0 <= i < |b| && b[i] == a[n];
      var rest := b[..i] + b[i + 1..];
      assert b == b[..i] + [a[n]] + b[i + 1..];
      assert multiset(a) == multiset(a[..n]) + multiset{a[n]};
      assert multiset(b) == multiset(b[..i]) + multiset{a[n]} + multiset(b[i + 1..]);
      assert multiset(rest) == multiset(b[..i]) + multiset(b[i + 1..]);
      assert multiset(a[..n]) == multiset(a) - multiset{a[n]} && multiset(rest) == multiset(b) - multiset{a[n]};
      GatherPermutes(f, a[..n], rest);
      GatherSwap(f, b[..i], a[n], b[i + 1..]);
    }
  }

  // ---- from the database ----

  /** The rows of bindings JOIN rule_objects for one display scope, in query order. */
  ghost predicate IsBoundList(db: DB, display: string, list: seq<Binding>) {
    && Sorted(list, ByColumns)
    && forall b :: b in list <==> b in db.bindings && b.scope == display && ObjKey(b.typ, b.name) in db.objects
  }

  function ParsedOf(objects: map<ObjKey, Object>, list: seq<Binding>): seq<Params>
    requires forall b | b in list :: ObjKey(b.typ, b.name) in objects
  {
    seq(|list|, i requires 0 <= i < |list| => assert list[i] in list; objects[ObjKey(list[i].typ, list[i].name)].parsed)
  }

  /** Every canonical scope has the policy of the objects bound to its display scope. */
  ghost predicate IsPolicies(db: DB, r: map<string, Policy>) {
    && r.Keys == db.domains.Keys
    && forall c | c in db.domains :: HasPolicy(db, c, r[c])
  }

  lemma {:induction false} PolicyUnique(scope: string, bound: seq<Params>, p: Policy, q: Policy)
    requires IsPolicy(scope, bound, p) && IsPolicy(scope, bound, q)
    ensures p == q
  {
    hide Gather, CollectAll, LimitOf, Tightest, StableSort, RuleBefore;
    CollectedKeyed(Gather(ItemsOf, bound));
    ListedUnique(p.cacheRules, q.cacheRules, CollectAll(Gather(ItemsOf, bound)));
  }

  lemma {:induction false} ListSorted(rules: seq<CacheRule>, m: map<string, CacheRule>)
    requires Keyed(m) && ListsRules(rules, m)
    ensures Sorted(rules, RuleKey)
  {
    hide LocationOf, RuleKey, RuleBefore;
    forall i, j | 0 <= i < j < |rules|
      ensures Precedes(RuleKey(rules[i]), RuleKey(rules[j]))
    {
      assert rules[i] in rules && rules[j] in rules;
      RankBounded(rules[i].pattern);
      RankBounded(rules[j].pattern);
      KeyOrder(rules[i], rules[j]);
    }
  }

  lemma {:induction false} ListedUnique(a: seq<CacheRule>, b: seq<CacheRule>, m: map<string, CacheRule>)
    requires Keyed(m) && ListsRules(a, m) && ListsRules(b, m)
    ensures a == b
  {
    ListSorted(a, m);
    ListSorted(b, m);
    SortedUnique(a, b, RuleKey);
  }

  /** Equal rule tables give equal policies, whatever else the databases hold. */
  lemma {:induction false} PoliciesDetermined(db1: DB, r1: map<string, Policy>, db2: DB, r2: map<string, Policy>)
    requires db1.domains == db2.domains && db1.objects == db2.objects && db1.bindings == db2.bindings
    requires IsPolicies(db1, r1) && IsPolicies(db2, r2)
    ensures r1 == r2
  {
    hide IsPolicy;
    forall c | c in r1
      ensures r1[c] == r2[c]
    {
      var display := db1.domains[c].display;
      var l1 :| IsBoundList(db1, display, l1) && IsPolicy(c, ParsedOf(db1.objects, l1), r1[c]);
      var l2 :| IsBoundList(db2, display, l2) && IsPolicy(c, ParsedOf(db2.objects, l2), r2[c]);
      SortedUnique(l1, l2, ByColumns);
      PolicyUnique(c, ParsedOf(db1.objects, l1), r1[c], r2[c]);
    }
  }

  function Scoped(rows: seq<Binding>, display: string): seq<Binding> {
    if rows == [] then []
    else
      var last := rows[|rows| - 1];
      Scoped(rows[..|rows| - 1], display) + if last.scope == display then [last] else []
  }

  lemma {:induction false} ScopedMembers(rows: seq<Binding>, display: string, b: Binding)
    ensures b in Scoped(rows, display) <==> b in rows && b.scope == display
  {
    if rows != [] {
      var n := |rows| - 1;
      ScopedMembers(rows[..n], display, b);
      assert rows == rows[..n] + [rows[n]];
    }
  }

  lemma {:induction false} ScopedSorted(rows: seq<Binding>, display: string)
    requires Sorted(rows, ByColumns)
    ensures Sorted(Scoped(rows, display), ByColumns)
  {
    if rows != [] {
      var n := |rows| - 1;
      var s := Scoped(rows[..n], display);
      ScopedSorted(rows[..n], display);
      forall k | 0 <= k < |s|
        ensures Precedes(ByColumns(s[k]), ByColumns(rows[n]))
      {
        ScopedMembers(rows[..n], display, s[k]);
        var i :| 0 <= i < n && rows[i] == s[k];
      }
    }
  }

  predicate Joined(db: DB, b: Binding) {
    ObjKey(b.typ, b.name) in db.objects
  }

  /** The grouping step of BuildPoliciesFromDB. */
  method GroupByDisplay(rows: seq<Binding>) returns (m: map<string, seq<Binding>>)
    ensures forall d :: (if d in m then m[d] else []) == Scoped(rows, d)
  {
    m := map[];
    for i := 0 to |rows|
      invariant forall d :: (if d in m then m[d] else []) == Scoped(rows[..i], d)
    {
      assert rows[..i + 1][..i] == rows[..i];
      var b := rows[i];
      m := m[b.scope := (if b.scope in m then m[b.scope] else []) + [b]];
    }
    assert rows[..|rows|] == rows;
  }

  /** BuildPoliciesFromDB */
  method BuildPolicies(db: DB) returns (r: map<string, Policy>)
    ensures IsPolicies(db, r)
  {
    hide IsPolicy, Scoped;
    var rows := Listing((set b | b in db.bindings && Joined(db, b)), ByColumns);
    var byDisplay := GroupByDisplay(rows);
    r := map[];
    var rest := db.domains.Keys;
    while rest != {}
      invariant rest <= db.domains.Keys && r.Keys == db.domains.Keys - rest
      invariant forall c | c in r :: HasPolicy(db, c, r[c])
    {
      var canon :| canon in rest;
      var display := db.domains[canon].display;
      var list := if display in byDisplay then byDisplay[display] else [];
      ScopedList(db, rows, display);
      var policy := new DomainPolicy(canon);
      policy.ApplyBindings(ParsedOf(db.objects, list));
      assert HasPolicy(db, canon, policy.Value());
      r := r[canon := policy.Value()];
      rest := rest - {canon};
    }
  }

  /** p is the policy of the objects bound to the display scope of c. */
  ghost predicate HasPolicy(db: DB, c: string, p: Policy)
    requires c in db.domains
  {
    exists list :: IsBoundList(db, db.domains[c].display, list) && IsPolicy(c, ParsedOf(db.objects, list), p)
  }

  lemma {:induction false} ScopedList(db: DB, rows: seq<Binding>, display: string)
    requires Sorted(rows, ByColumns)
    requires forall b :: b in rows <==> b in db.bindings && ObjKey(b.typ, b.name) in db.objects
    ensures IsBoundList(db, display, Scoped(rows, display))
  {
    ScopedSorted(rows, display);
    forall b: Binding
      ensures b in Scoped(rows, display) <==> b in db.bindings && b.scope == display && ObjKey(b.typ, b.name) in db.objects
    {
      ScopedMembers(rows, display, b);
    }
  }
}
