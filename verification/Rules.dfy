/** Rule objects: the parameter grammars of cache, defense, redirect and header
    objects (internal/command/handlers/cache.go, internal/command/handlers/objects.go). */
module Rules {
  import opened Text
  import opened Commands

  /** Library predicates the model does not define: net.ParseIP accepting a text,
      and the User-Agent pattern checks of validateUARegex. */
  datatype Env = Env(parseIP: string -> bool, uaOk: string -> bool)

  datatype Params =
    | Cache(patterns: seq<string>, ttl: int, browserTTL: int, hsts: bool)
    | Defense(ips: seq<string>, ua: string, refs: seq<string>, action: string,
              duration: int, rate: int, size: string)
    | Redirect(from: string, to: string, status: int, regex: bool)
    | Header(requestAdd: map<string, string>, requestDel: seq<string>,
             responseAdd: map<string, string>, responseDel: seq<string>)

  predicate IsRuleType(t: string) {
    t == "cache" || t == "defense" || t == "redirect" || t == "header"
  }

  predicate NameChar(c: char) {
    'a' <= c <= 'z' || 'A' <= c <= 'Z' || '0' <= c <= '9' || c == '-' || c == '_'
  }

  /** isValidObjectName; a name of these characters has as many bytes as characters. */
  predicate IsObjectName(s: string) {
    1 <= |s| <= 64 && forall i | 0 <= i < |s| :: NameChar(s[i])
  }

  lemma {:induction false} ObjectNameIsToken(s: string)
    requires IsObjectName(s)
    ensures Token(s)
  {
  }

  lemma {:induction false} RuleTypeIsToken(t: string)
    requires IsRuleType(t)
    ensures Token(t) && ':' !in t
  {
    AsciiToken(t);
  }

  /** The non-empty entries of a comma-separated list, trimmed (splitCSV). */
  function TrimmedNonEmpty(parts: seq<string>): seq<string> {
    if parts == [] then []
    else
      var p := TrimSpace(parts[0]);
      (if p != "" then [p] else []) + TrimmedNonEmpty(parts[1..])
  }

  function SplitCSV(s: string): seq<string> {
    TrimmedNonEmpty(Split(s, ','))
  }

  /** The Name=value entries of a header list; later entries win, entries without a name are dropped. */
  function NamedValues(entries: seq<string>): map<string, string> {
    if entries == [] then map[]
    else
      var m := NamedValues(entries[..|entries| - 1]);
      var e := entries[|entries| - 1];
      if IsPair(e) then m[TrimSpace(KeyOf(e)) := TrimSpace(ValueOf(e))] else m
  }

  function Get(m: map<string, string>, k: string, default: string): string {
    if k in m then m[k] else default
  }

  /** The value of an optional integer parameter, when it is absent or parses. */
  function GetInt(m: map<string, string>, k: string, default: int): Option<int> {
    if k in m then ParseInt(m[k]) else Some(default)
  }

  predicate NonNegative(n: Option<int>) {
    n.Some? && n.value >= 0
  }

  const CACHE_KEYS := {"patterns", "ttl", "browser_ttl", "hsts"}
  const DEFENSE_KEYS := {"ip", "ua", "ref", "action", "duration", "rate", "size"}
  const REDIRECT_KEYS := {"from", "to", "status", "regex"}
  const HEADER_KEYS := {"request_add", "request_del", "response_add", "response_del"}

  /** parseCacheParams */
  function CacheParams(m: map<string, string>): Option<Params> {
    var ttl, browser := GetInt(m, "ttl", 0), GetInt(m, "browser_ttl", 0);
    if !(m.Keys <= CACHE_KEYS) || ttl.None? || browser.None? then None
    else Some(Cache(SplitCSV(Get(m, "patterns", "")), ttl.value, browser.value, Get(m, "hsts", "") == "true"))
  }

  /** The further checks CacheHandler.Validate makes on a write. */
  predicate CacheChecks(m: map<string, string>) {
    && m.Keys <= CACHE_KEYS
    && Get(m, "patterns", "") != ""
    && NonNegative(GetInt(m, "ttl", 0))
    && NonNegative(GetInt(m, "browser_ttl", 0))
    && ("hsts" in m ==> m["hsts"] == "true" || m["hsts"] == "false")
  }

  /** parseDefenseParams */
  function DefenseParams(env: Env, m: map<string, string>): Option<Params> {
    var duration, rate := GetInt(m, "duration", 0), GetInt(m, "rate", 0);
    var ua, size := Get(m, "ua", ""), Get(m, "size", "");
    var ips, refs := SplitCSV(Get(m, "ip", "")), SplitCSV(Get(m, "ref", ""));
    var action := Get(m, "action", "block");
    if !(m.Keys <= DEFENSE_KEYS) || (ua != "" && !env.uaOk(ua)) then None
    else if action != "block" && action != "allow" then None
    else if !NonNegative(duration) || !NonNegative(rate) then None
    else if ips == [] && ua == "" && refs == [] && rate.value == 0 && size == "" then None
    else Some(Defense(ips, ua, refs, action, duration.value, rate.value, size))
  }

  /** parseRedirectParams */
  function RedirectParams(m: map<string, string>): Option<Params> {
    var status := GetInt(m, "status", 301);
    if !(m.Keys <= REDIRECT_KEYS) || "from" !in m || "to" !in m then None
    else if status.None? || status.value < 300 || status.value >= 400 then None
    else Some(Redirect(m["from"], m["to"], status.value, Get(m, "regex", "") == "true"))
  }

  /** parseHeaderParams */
  function HeaderParams(m: map<string, string>): Option<Params> {
    var requestAdd, responseAdd :=
      NamedValues(SplitCSV(Get(m, "request_add", ""))), NamedValues(SplitCSV(Get(m, "response_add", "")));
    var requestDel, responseDel := SplitCSV(Get(m, "request_del", "")), SplitCSV(Get(m, "response_del", ""));
    if !(m.Keys <= HEADER_KEYS) then None
    else if |requestAdd| == 0 && requestDel == [] && |responseAdd| == 0 && responseDel == [] then None
    else Some(Header(requestAdd, requestDel, responseAdd, responseDel))
  }

  /** The parsed form of an object's parameter text; an unreadable text is BAD_PARAMS. */
  function ParamsOf(env: Env, typ: string, text: string): Result<Params>
    requires IsRuleType(typ)
  {
    match KeyValues(text)
    case Err(e) => Err(e)
    case Ok(m) =>
      var p :=
        if typ == "cache" then CacheParams(m)
        else if typ == "defense" then DefenseParams(env, m)
        else if typ == "redirect" then RedirectParams(m)
        else HeaderParams(m);
      match p
      case None => Err(BadParams)
      case Some(params) => Ok(params)
  }

  /** The parameter checks of the object handlers' Validate on a write. */
  predicate ParamsAccepted(env: Env, typ: string, text: string)
    requires IsRuleType(typ)
  {
    && ParamsOf(env, typ, text).Ok?
    && (typ == "cache" ==> CacheChecks(KeyValues(text).value))
  }

  /** An accepted cache object has non-negative lifetimes; an accepted defense
      object a non-negative rate and a known action. */
  lemma {:induction false} AcceptedRanges(env: Env, typ: string, text: string)
    requires IsRuleType(typ) && ParamsAccepted(env, typ, text)
    ensures match ParamsOf(env, typ, text).value
      case Cache(_, ttl, browserTTL, _) => typ == "cache" && ttl >= 0 && browserTTL >= 0
      case Defense(_, _, _, action, duration, rate, _) =>
        typ == "defense" && duration >= 0 && rate >= 0 && (action == "block" || action == "allow")
      case Redirect(_, _, status, _) => typ == "redirect" && 300 <= status < 400
      case Header(_, _, _, _) => typ == "header"
  {
  }

  // ---- the parsers, filling their records step by step ----

  lemma {:induction false} TrimmedNext(parts: seq<string>, out: seq<string>, i: nat)
    requires i < |parts| && out + TrimmedNonEmpty(parts[i..]) == TrimmedNonEmpty(parts)
    ensures var p := TrimSpace(parts[i]);
      (if p != "" then out + [p] else out) + TrimmedNonEmpty(parts[i + 1..]) == TrimmedNonEmpty(parts)
  {
    hide TrimSpace;
    var rest := parts[i..];
    assert rest[0] == parts[i] && rest[1..] == parts[i + 1..];
    var p, more := TrimSpace(parts[i]), TrimmedNonEmpty(parts[i + 1..]);
    assert TrimmedNonEmpty(rest) == (if p != "" then [p] else []) + more;
    assert out + ([p] + more) == out + [p] + more;
    assert [] + more == more;
  }

  /** splitCSV */
  method SplitList(s: string) returns (out: seq<string>)
    ensures out == SplitCSV(s)
  {
    hide TrimSpace, Split;
    var parts := Split(s, ',');
    out := [];
    assert parts[0..] == parts && [] + TrimmedNonEmpty(parts) == TrimmedNonEmpty(parts);
    for i := 0 to |parts|
      invariant out + TrimmedNonEmpty(parts[i..]) == TrimmedNonEmpty(parts)
    {
      hide TrimmedNonEmpty;
      TrimmedNext(parts, out, i);
      var p := TrimSpace(parts[i]);
      if p != "" {
        out := out + [p];
      }
    }
    assert out + [] == out;
  }

  /** The Name=value list of a header object. */
  method NamedList(s: string) returns (m: map<string, string>)
    ensures m == NamedValues(SplitCSV(s))
  {
    hide TrimSpace, SplitCSV, IndexOf;
    var entries := SplitList(s);
    m := map[];
    for i := 0 to |entries|
      invariant m == NamedValues(entries[..i])
    {
      assert entries[..i + 1][..i] == entries[..i];
      var eq := IndexOf(entries[i], '=');
      if eq <= 0 {
        continue;
      }
      m := m[TrimSpace(entries[i][..eq]) := TrimSpace(entries[i][eq + 1..])];
    }
    assert entries[..|entries|] == entries;
  }

  lemma {:induction false} NothingListed()
    ensures SplitCSV("") == [] && NamedValues(SplitCSV("")) == map[]
  {
    assert Split("", ',') == [""];
    assert TrimmedNonEmpty([""]) == [] + TrimmedNonEmpty([""][1..]);
  }

  /** parseCacheParams, on its parsed pairs */
  method ParseCache(m: map<string, string>) returns (r: Option<Params>)
    ensures r == CacheParams(m)
  {
    hide ParseInt, SplitCSV;
    NothingListed();
    if !(m.Keys <= CACHE_KEYS) {
      return None;
    }
    var patterns: seq<string>, ttl, browserTTL, hsts := [], 0, 0, false;
    if "patterns" in m && m["patterns"] != "" {
      patterns := SplitList(m["patterns"]);
    }
    if "ttl" in m {
      var v := ParseInt(m["ttl"]);
      if v.None? {
        return None;
      }
      ttl := v.value;
    }
    if "browser_ttl" in m {
      var v := ParseInt(m["browser_ttl"]);
      if v.None? {
        return None;
      }
      browserTTL := v.value;
    }
    if "hsts" in m {
      hsts := m["hsts"] == "true";
    }
    return Some(Cache(patterns, ttl, browserTTL, hsts));
  }

  /** A count that is absent, or a number that is not negative. */
  method Amount(m: map<string, string>, k: string) returns (r: Option<int>)
    ensures r.Some? <==> NonNegative(GetInt(m, k, 0))
    ensures r.Some? ==> r == GetInt(m, k, 0)
  {
    hide ParseInt;
    if k !in m {
      return Some(0);
    }
    var n := ParseInt(m[k]);
    if n.None? || n.value < 0 {
      return None;
    }
    return n;
  }

  /** parseDefenseParams, on its parsed pairs */
  method ParseDefense(env: Env, m: map<string, string>) returns (r: Option<Params>)
    ensures r == DefenseParams(env, m)
  {
    hide SplitCSV, GetInt, NonNegative;
    NothingListed();
    if !(m.Keys <= DEFENSE_KEYS) {
      return None;
    }
    var ips: seq<string>, ua, refs: seq<string>, action, size := [], "", [], "block", "";
    if "ip" in m && m["ip"] != "" {
      ips := SplitList(m["ip"]);
    }
    if "ua" in m {
      if m["ua"] != "" && !env.uaOk(m["ua"]) {
        return None;
      }
      ua := m["ua"];
    }
    if "ref" in m && m["ref"] != "" {
      refs := SplitList(m["ref"]);
    }
    if "action" in m {
      if m["action"] != "block" && m["action"] != "allow" {
        return None;
      }
      action := m["action"];
    }
    var duration := Amount(m, "duration");
    if duration.None? {
      return None;
    }
    var rate := Amount(m, "rate");
    if rate.None? {
      return None;
    }
    if "size" in m {
      size := m["size"];
    }
    if ips == [] && ua == "" && refs == [] && rate.value == 0 && size == "" {
      return None;
    }
    return Some(Defense(ips, ua, refs, action, duration.value, rate.value, size));
  }

  /** parseRedirectParams, on its parsed pairs */
  method ParseRedirect(m: map<string, string>) returns (r: Option<Params>)
    ensures r == RedirectParams(m)
  {
    hide ParseInt;
    if !(m.Keys <= REDIRECT_KEYS) || "from" !in m || "to" !in m {
      return None;
    }
    var status, regex := 301, false;
    if "status" in m {
      var n := ParseInt(m["status"]);
      if n.None? || n.value < 300 || n.value >= 400 {
        return None;
      }
      status := n.value;
    }
    if "regex" in m {
      regex := m["regex"] == "true";
    }
    return Some(Redirect(m["from"], m["to"], status, regex));
  }

  /** parseHeaderParams, on its parsed pairs */
  method ParseHeader(m: map<string, string>) returns (r: Option<Params>)
    ensures r == HeaderParams(m)
  {
    hide SplitCSV, NamedValues;
    NothingListed();
    if !(m.Keys <= HEADER_KEYS) {
      return None;
    }
    var requestAdd: map<string, string>, requestDel: seq<string> := map[], [];
    var responseAdd: map<string, string>, responseDel: seq<string> := map[], [];
    if "request_add" in m {
      requestAdd := NamedList(m["request_add"]);
    }
    if "request_del" in m {
      requestDel := SplitList(m["request_del"]);
    }
    if "response_add" in m {
      responseAdd := NamedList(m["response_add"]);
    }
    if "response_del" in m {
      responseDel := SplitList(m["response_del"]);
    }
    if |requestAdd| == 0 && |requestDel| == 0 && |responseAdd| == 0 && |responseDel| == 0 {
      return None;
    }
    return Some(Header(requestAdd, requestDel, responseAdd, responseDel));
  }

  /** The parser of an object type, from the parameter text. */
  method ParseParams(env: Env, typ: string, text: string) returns (r: Result<Params>)
    requires IsRuleType(typ)
    ensures r == ParamsOf(env, typ, text)
  {
    hide CacheParams, DefenseParams, RedirectParams, HeaderParams, KeyValues;
    var m := ParseKeyValueParams(text);
    if m.Err? {
      return Err(m.code);
    }
    var p: Option<Params> := None;
    if typ == "cache" {
      p := ParseCache(m.value);
    } else if typ == "defense" {
      p := ParseDefense(env, m.value);
    } else if typ == "redirect" {
      p := ParseRedirect(m.value);
    } else {
      p := ParseHeader(m.value);
    }
    return if p.None? then Err(BadParams) else Ok(p.value);
  }
}
