/** How the handlers undo each other, when they refuse, and what the two read-shaped
    commands that write cluster_meta leave behind (internal/command/handlers). */
module Undo {
  import opened Commands
  import opened Scopes
  import opened Rules
  import opened Peers
  import opened Store
  import opened Invariants
  import opened Batches
  import opened Exports

  // ---- domains ----

  lemma {:induction false} NoBindingOnNewScope(env: Env, db: DB, scope: string)
    requires Inv(env, db) && DomainScopeOf(scope).Ok?
    requires CanonSet(DomainScopeOf(scope).value) !! db.domains.Keys
    ensures forall b | b in db.bindings :: b.scope != scope
  {
    hide DomainScopeOf, CanonSet, ObjectsOk, PeersOk, MetaOk;
    if HasDisplay(db.domains, scope) {
      GroupNotEmpty(db.domains, scope);
    }
  }

  lemma {:induction false} GroupNotEmpty(domains: map<string, Row>, display: string)
    requires DomainsOk(domains) && HasDisplay(domains, display)
    ensures DomainScopeOf(display).Ok? && !(CanonSet(DomainScopeOf(display).value) !! domains.Keys)
  {
    hide DomainScopeOf, CanonSet;
    GroupIsExpansion(domains, display);
    var c :| c in domains && domains[c].display == display;
    assert c in CanonSet(DomainScopeOf(display).value);
  }

  lemma {:induction false} AddThenTake(domains: map<string, Row>, canons: set<string>, row: Row)
    requires canons !! domains.Keys
    ensures domains + (map c | c in canons :: row) - canons == domains
  {
  }

  lemma {:induction false} AllTheSame(domains: map<string, Row>, canons: set<string>, row: Row)
    ensures !OwnedByOther(domains + (map c | c in canons :: row), canons, row.display)
  {
  }

  /** Deleting a domain that was just written on free endpoints takes every row out again.
      Only the port table keeps what the write recorded. */
  lemma {:induction false} DeleteUndoesDomainWrite(env: Env, forced: bool, w: World, scope: string, origin: string, params: string)
    requires Inv(env, w.db) && DomainScopeOf(scope).Ok? && OriginAccepted(origin)
    requires CanonSet(DomainScopeOf(scope).value) !! w.db.domains.Keys
    ensures var first := RunOne(env, forced, w, Command(Write, "domain", scope, origin), false);
      var second := RunOne(env, forced, first.w, Command(Delete, "domain", scope, params), false);
      && second.outcome.r.Ok?
      && second.w == w.(db := w.db.(ports := Enforce(w.db.ports, PortBindings(DomainScopeOf(scope).value), forced).ports))
  {
    hide Inv, DomainScopeOf, CanonSet, OriginAccepted, Enforce, OwnedByOther, PortBindings;
    var sc, row := DomainScopeOf(scope).value, Row(scope, origin);
    var canons := CanonSet(sc);
    var write, delete := Command(Write, "domain", scope, origin), Command(Delete, "domain", scope, params);
    KindNames();
    DomainCommandIsWrite(scope, origin);
    FreeToWrite(w.db.domains, canons, scope);
    DomainWriteRuns(env, forced, w, write);
    NoBindingOnNewScope(env, w.db, scope);
    var w1 := RunOne(env, forced, w, write, false).w;
    AllTheSame(w.db.domains, canons, row);
    AddThenTake(w.db.domains, canons, row);
    ScopeParsed(scope);
    DeleteRuns(env, forced, w1, delete);
  }

  lemma {:induction false} FreeToWrite(domains: map<string, Row>, canons: set<string>, display: string)
    requires canons !! domains.Keys
    ensures !OwnedByOther(domains, canons, display)
  {
  }

  lemma {:induction false} DeleteRuns(env: Env, forced: bool, w: World, cmd: Command)
    requires cmd.verb.Delete? && cmd.typ == "domain" && DomainScopeOf(cmd.scope).Ok? && !IsPlaceholder(cmd.scope)
    requires !OwnedByOther(w.db.domains, CanonSet(DomainScopeOf(cmd.scope).value), cmd.scope)
    requires forall b | b in w.db.bindings :: b.scope != cmd.scope
    ensures var res := RunOne(env, forced, w, cmd, false);
      res.outcome.r.Ok?
      && res.w == w.(db := w.db.(domains := w.db.domains - CanonSet(DomainScopeOf(cmd.scope).value)))
  {
    hide DomainScopeOf, CanonSet, OwnedByOther, Enforce;
    KindNames();
  }

  /** Over grouped rows a domain delete succeeds exactly when no endpoint of the scope belongs
      to another display scope and no binding uses it; then no row of the display is left
      and every other row stays. */
  lemma {:induction false} DomainDeleteMeaning(env: Env, w: World, cmd: Command)
    requires Inv(env, w.db) && DomainScopeOf(cmd.scope).Ok?
    ensures var s := DomainDelete(w, cmd);
      && (s.r.Ok? <==> !OwnedByOther(w.db.domains, CanonSet(DomainScopeOf(cmd.scope).value), cmd.scope)
                       && forall b | b in w.db.bindings :: b.scope != cmd.scope)
      && (s.r.Ok? ==> !HasDisplay(s.w.db.domains, cmd.scope))
      && (s.r.Ok? ==> forall c | c in w.db.domains && w.db.domains[c].display != cmd.scope ::
           c in s.w.db.domains && s.w.db.domains[c] == w.db.domains[c])
  {
    hide DomainScopeOf, CanonSet, ObjectsOk, PeersOk, MetaOk, BindingsOk;
    var canons := CanonSet(DomainScopeOf(cmd.scope).value);
    if DomainDelete(w, cmd).r.Ok? && HasDisplay(w.db.domains, cmd.scope) {
      GroupIsExpansion(w.db.domains, cmd.scope);
      assert forall c | c in w.db.domains && w.db.domains[c].display == cmd.scope :: c in canons;
    }
  }

  // ---- rule objects ----

  /** An object delete fails exactly when a binding names the object; otherwise the object is
      gone and every other object stays. */
  lemma {:induction false} ObjectDeleteMeaning(w: World, cmd: Command)
    ensures var s, k := ObjectDelete(w, cmd), ObjKey(cmd.typ, cmd.scope);
      && (s.r.Ok? <==> forall b | b in w.db.bindings :: ObjKey(b.typ, b.name) != k)
      && (s.r.Ok? ==> s.w == w.(db := w.db.(objects := w.db.objects - {k})))
  {
    var k := ObjKey(cmd.typ, cmd.scope);
    if ObjectDelete(w, cmd).r.Ok? {
      forall b | b in w.db.bindings
        ensures ObjKey(b.typ, b.name) != k
      {
        assert !(b.typ == k.typ && b.name == k.name);
      }
      assert k !in w.db.objects ==> w.db.objects - {k} == w.db.objects;
    }
  }

  /** Deleting a new, unbound object undoes its write. */
  lemma {:induction false} DeleteUndoesObjectWrite(env: Env, w: World, cmd: Command, params: string)
    requires IsRuleType(cmd.typ) && ParamsOf(env, cmd.typ, cmd.params).Ok?
    requires Inv(env, w.db) && ObjKey(cmd.typ, cmd.scope) !in w.db.objects
    ensures var s := ObjectDelete(ObjectWrite(env, w, cmd).w, Command(Delete, cmd.typ, cmd.scope, params));
      s.r.Ok? && s.w == w
  {
    hide ParamsOf, ObjectsOk, DomainsOk, PeersOk, MetaOk;
    var k := ObjKey(cmd.typ, cmd.scope);
    var w1 := ObjectWrite(env, w, cmd).w;
    forall b | b in w.db.bindings
      ensures ObjKey(b.typ, b.name) != k
    {
    }
    ObjectDeleteMeaning(w1, Command(Delete, cmd.typ, cmd.scope, params));
    assert w1.db.objects - {k} == w.db.objects;
  }

  // ---- bindings ----

  /** A bind succeeds exactly when its object and its display scope exist, adds one binding,
      and unbinding the same reference removes exactly that one; unbinding "-" removes
      exactly the bindings of the scope. */
  lemma {:induction false} BindMeaning(w: World, cmd: Command, b: Binding)
    requires ParseObjectRef(cmd.params).Ok?
    ensures var o := ParseObjectRef(cmd.params).value;
      && (BindWrite(w, cmd).r.Ok? <==> ObjKey(o.typ, o.name) in w.db.objects && HasDisplay(w.db.domains, cmd.scope))
      && (BindWrite(w, cmd).r.Ok? ==>
           (b in BindWrite(w, cmd).w.db.bindings <==> b in w.db.bindings || b == Binding(cmd.scope, o.typ, o.name)))
      && (b in BindDelete(w, cmd).w.db.bindings <==>
           (b in w.db.bindings
            && !(b.scope == cmd.scope && (IsPlaceholder(cmd.params) || (b.typ == o.typ && b.name == o.name)))))
      && (BindDelete(w, cmd).r == Ok(NO_EFFECTS) <==> BindDelete(w, cmd).w == w)
  {
    hide ParseObjectRef, HasDisplay;
    var o := ParseObjectRef(cmd.params).value;
    var gone := if IsPlaceholder(cmd.params) then set x | x in w.db.bindings && x.scope == cmd.scope
      else {Binding(cmd.scope, o.typ, o.name)} * w.db.bindings;
    Taken(w.db.bindings, gone);
  }

  lemma {:induction false} Taken(all: set<Binding>, gone: set<Binding>)
    requires gone <= all
    ensures all - gone == all <==> gone == {}
  {
    if x :| x in gone {
      assert x in all && x !in all - gone;
    }
  }

  // ---- peers ----

  /** Removing a peer that was just added restores the table and the stored list. */
  lemma {:induction false} RemoveUndoesAdd(w: World, ip: string, order: int)
    requires ip !in w.db.peers && (w.file.Some? ==> !HasIP(w.file.value, ip))
    ensures WithoutPeer(WithPeer(w, ip, order), ip) == w
  {
    assert w.db.peers[ip := order] - {ip} == w.db.peers;
    if w.file.Some? {
      var list := w.file.value;
      var p := Peer(ip, MaxOrder(list) + 1);
      assert (list + [p])[..|list|] == list;
      NothingRemoved(list, ip);
    }
  }

  lemma {:induction false} NothingRemoved(list: seq<Peer>, ip: string)
    requires !HasIP(list, ip)
    ensures Removed(list, ip) == list
  {
    if list != [] {
      var n := |list| - 1;
      assert list == list[..n] + [list[n]];
      if HasIP(list[..n], ip) {
        HasInPrefix(list, n, ip);
      } else {
        NothingRemoved(list[..n], ip);
      }
    }
  }

  lemma {:induction false} HasInPrefix(list: seq<Peer>, n: nat, ip: string)
    requires n <= |list| && HasIP(list[..n], ip)
    ensures HasIP(list, ip)
  {
    var i :| 0 <= i < n && list[..n][i].ip == ip;
    assert list[i].ip == ip;
  }

  // ---- bot node and language ----

  /** The node that talks to Telegram: the override, or the peer of least join order. */
  function EffectiveBot(w: World): string {
    if w.db.bot == "" && w.file.Some? then DefaultBot(w.file.value) else w.db.bot
  }

  function EffectiveLang(db: DB): string {
    match ParseLang(db.lang) case Some(l) => l case None => "cn"
  }

  /** /v target succeeds for known peers only and makes the target the effective bot node;
      it forces a bump exactly when it changed the database. */
  lemma {:induction false} TargetMeaning(w: World, cmd: Command)
    ensures var s := TargetView(w, cmd);
      && (s.r.Ok? <==> w.file.None? || HasIP(w.file.value, cmd.scope))
      && (s.r.Ok? && (cmd.scope != "" || w.file.None?) ==> EffectiveBot(s.w) == cmd.scope)
      && (s.r.Ok? ==> (s.r.value.forceBump <==> EffectiveBot(w) != cmd.scope))
      && (s.r.Ok? && s.r.value.forceBump && cmd.scope != "" ==> s.w.db != w.db)
  {
    hide DefaultBot, HasIP;
  }

  /** /v lang makes its language the effective one and forces a bump exactly when that
      changes it; /v lang - changes nothing. */
  lemma {:induction false} LangMeaning(w: World, cmd: Command)
    requires IsPlaceholder(cmd.scope) || ParseLang(cmd.scope).Some?
    ensures var s := LangView(w, cmd);
      && s.r.Ok?
      && (IsPlaceholder(cmd.scope) ==> s.w == w && !s.r.value.forceBump)
      && (!IsPlaceholder(cmd.scope) ==> EffectiveLang(s.w.db) == ParseLang(cmd.scope).value)
      && (s.r.value.forceBump <==> EffectiveLang(s.w.db) != EffectiveLang(w.db))
  {
    LangCodes(cmd.scope);
    LangCodeFixed("cn");
    LangCodeFixed("en");
    hide ParseLang;
  }
}
