/** The membership list persisted in peers.json, and the list a snapshot's
    declaration reconciles it to (internal/peers/peers.go, internal/command/executor.go). */
module Peers {
  import opened Text

  datatype Peer = Peer(ip: string, order: int)

  // ---- the list as Manager keeps it ----

  predicate HasIP(list: seq<Peer>, ip: string) {
    exists i :: 0 <= i < |list| && list[i].ip == ip
  }

  predicate DistinctIPs(list: seq<Peer>) {
    forall i, j | 0 <= i < j < |list| :: list[i].ip != list[j].ip
  }

  function MaxOrder(list: seq<Peer>): (m: int)
    ensures m >= 0
    ensures forall i | 0 <= i < |list| :: list[i].order <= m
    ensures m == 0 || exists i :: 0 <= i < |list| && list[i].order == m
  {
    if list == [] then 0
    else
      var m := MaxOrder(list[..|list| - 1]);
      if list[|list| - 1].order > m then list[|list| - 1].order else m
  }

  function Added(list: seq<Peer>, ip: string): seq<Peer> {
    if HasIP(list, ip) then list else list + [Peer(ip, MaxOrder(list) + 1)]
  }

  function Removed(list: seq<Peer>, ip: string): (r: seq<Peer>)
    ensures |r| <= |list|
    ensures |r| == |list| ==> r == list
  {
    if list == [] then []
    else
      var r := Removed(list[..|list| - 1], ip);
      if list[|list| - 1].ip != ip then r + [list[|list| - 1]] else r
  }

  function Insert(p: Peer, s: seq<Peer>): seq<Peer> {
    if s == [] || p.order <= s[0].order then [p] + s else [s[0]] + Insert(p, s[1..])
  }

  /** The list by ascending join order; equal orders keep their stored order. */
  function ByOrder(list: seq<Peer>): seq<Peer> {
    if list == [] then [] else Insert(list[0], ByOrder(list[1..]))
  }

  predicate Ascending(s: seq<Peer>) {
    forall i, j | 0 <= i < j < |s| :: s[i].order <= s[j].order
  }

  lemma {:induction false} InsertElements(p: Peer, s: seq<Peer>)
    ensures multiset(Insert(p, s)) == multiset{p} + multiset(s)
  {
    if s != [] && p.order > s[0].order {
      InsertElements(p, s[1..]);
      assert s == [s[0]] + s[1..];
    }
  }

  lemma {:induction false} InsertAscending(p: Peer, s: seq<Peer>)
    requires Ascending(s)
    ensures Ascending(Insert(p, s))
  {
    if s != [] && p.order > s[0].order {
      InsertAscending(p, s[1..]);
      InsertedAbove(p, s[1..], s[0].order);
    }
  }

  lemma {:induction false} InsertedAbove(p: Peer, s: seq<Peer>, low: int)
    requires low <= p.order && forall i | 0 <= i < |s| :: low <= s[i].order
    ensures forall j | 0 <= j < |Insert(p, s)| :: low <= Insert(p, s)[j].order
  {
    if s != [] && p.order > s[0].order {
      InsertedAbove(p, s[1..], low);
    }
  }

  lemma {:induction false} ByOrderSorts(list: seq<Peer>)
    ensures Ascending(ByOrder(list))
    ensures multiset(ByOrder(list)) == multiset(list)
  {
    if list != [] {
      ByOrderSorts(list[1..]);
      InsertElements(list[0], ByOrder(list[1..]));
      InsertAscending(list[0], ByOrder(list[1..]));
      assert list == [list[0]] + list[1..];
    }
  }

  lemma {:induction false} ByOrderOfAscending(s: seq<Peer>)
    requires Ascending(s)
    ensures ByOrder(s) == s
  {
    if s != [] {
      ByOrderOfAscending(s[1..]);
      assert s == [s[0]] + s[1..];
    }
  }

  /** The default bot node: the peer with the smallest join order, "" when there is none. */
  function DefaultBot(list: seq<Peer>): string {
    if list == [] then "" else
      ByOrderSorts(list);
      assert |multiset(ByOrder(list))| == |multiset(list)|;
      ByOrder(list)[0].ip
  }

  /** Manager: the single point of access to the stored list. */
  class Manager {
    var list: seq<Peer>

    constructor (initial: seq<Peer>)
      ensures list == initial
    {
      list := initial;
    }

    method All() returns (r: seq<Peer>)
      ensures Ascending(r) && multiset(r) == multiset(list)
      ensures r == ByOrder(list)
    {
      ByOrderSorts(list);
      r := ByOrder(list);
    }

    /** An address that does not parse is refused. */
    method Add(parseIP: string -> bool, ip: string) returns (r: Option<Peer>)
      modifies this
      ensures !parseIP(ip) ==> r == None && list == old(list)
      ensures parseIP(ip) ==> r.Some? && r.value in list && r.value.ip == ip && list == Added(old(list), ip)
    {
      if !parseIP(ip) {
        return None;
      }
      for i := 0 to |list|
        invariant forall k | 0 <= k < i :: list[k].ip != ip
      {
        if list[i].ip == ip {
          return Some(list[i]);
        }
      }
      var maxOrder := 0;
      for i := 0 to |list|
        invariant maxOrder == MaxOrder(list[..i])
      {
        assert list[..i + 1][..i] == list[..i];
        if list[i].order > maxOrder {
          maxOrder := list[i].order;
        }
      }
      assert list[..|list|] == list;
      var p := Peer(ip, maxOrder + 1);
      list := list + [p];
      return Some(p);
    }

    method Remove(ip: string)
      modifies this
      ensures list == Removed(old(list), ip)
    {
      var out: seq<Peer> := [];
      for i := 0 to |list|
        invariant out == Removed(list[..i], ip)
      {
        assert list[..i + 1][..i] == list[..i];
        if list[i].ip != ip {
          out := out + [list[i]];
        }
      }
      assert list[..|list|] == list;
      if |out| == |list| {
        return;
      }
      list := out;
    }

    method ReplaceAll(newList: seq<Peer>)
      modifies this
      ensures list == newList
    {
      list := newList;
    }

    method BotNodeIP() returns (ip: string)
      ensures ip == DefaultBot(list)
    {
      var all := All();
      ByOrderSorts(list);
      assert |multiset(all)| == |multiset(list)|;
      if |all| == 0 {
        return "";
      }
      return all[0].ip;
    }
  }

  /** Storing a listing and reading it back gives the same listing and the same bot node. */
  lemma {:induction false} ListingStored(list: seq<Peer>)
    ensures ByOrder(ByOrder(list)) == ByOrder(list)
    ensures DefaultBot(ByOrder(list)) == DefaultBot(list)
  {
    ByOrderSorts(list);
    ByOrderOfAscending(ByOrder(list));
  }

  /** Adding keeps addresses distinct and gives a newcomer an order above every other. */
  lemma {:induction false} AddedFacts(list: seq<Peer>, ip: string)
    requires DistinctIPs(list)
    ensures DistinctIPs(Added(list, ip))
    ensures HasIP(Added(list, ip), ip)
    ensures !HasIP(list, ip) ==>
      forall i | 0 <= i < |list| :: list[i].order < Added(list, ip)[|list|].order
  {
    var r := Added(list, ip);
    if !HasIP(list, ip) {
      assert r[|list|].ip == ip;
    }
  }

  /** Removing takes out exactly the peers with the address. */
  lemma {:induction false} RemovedFacts(list: seq<Peer>, ip: string)
    ensures forall p :: p in Removed(list, ip) <==> p in list && p.ip != ip
  {
    if list != [] {
      var n := |list| - 1;
      RemovedFacts(list[..n], ip);
      assert list == list[..n] + [list[n]];
    }
  }

  // ---- reconciliation ----

  /** The comparison reconcilePeersFile sorts by. */
  predicate Before(p: Peer, q: Peer) {
    p.order < q.order || (p.order == q.order && Less(p.ip, q.ip))
  }

  predicate StrictlySorted(s: seq<Peer>) {
    forall i, j | 0 <= i < j < |s| :: Before(s[i], s[j])
  }

  predicate Lists(s: seq<Peer>, members: map<string, int>) {
    && StrictlySorted(s)
    && (forall p | p in s :: p.ip in members && members[p.ip] == p.order)
    && (forall ip | ip in members :: Peer(ip, members[ip]) in s)
  }

  lemma {:induction false} BeforeTransitive(a: Peer, b: Peer, c: Peer)
    requires Before(a, b) && Before(b, c)
    ensures Before(a, c)
  {
    if a.order == b.order && b.order == c.order {
      LessTransitive(a.ip, b.ip, c.ip);
    }
  }

  lemma {:induction false} BeforeTotal(a: Peer, b: Peer)
    requires a.ip != b.ip
    ensures Before(a, b) || Before(b, a)
  {
    LessTotal(a.ip, b.ip);
  }

  lemma {:induction false} BeforeIrreflexive(a: Peer)
    ensures !Before(a, a)
  {
    LessIrreflexive(a.ip);
  }

  /** A membership map has only one sorted listing. */
  lemma {:induction false} ListingUnique(s: seq<Peer>, t: seq<Peer>, members: map<string, int>)
    requires Lists(s, members) && Lists(t, members)
    ensures s == t
  {
    SortedSameElements(s, t);
  }

  lemma {:induction false} SortedSameElements(s: seq<Peer>, t: seq<Peer>)
    requires StrictlySorted(s) && StrictlySorted(t)
    requires forall p :: p in s <==> p in t
    ensures s == t
  {
    assert t != [] ==> t[0] in t;
    if s != [] {
      assert s[0] in t && t != [] && t[0] in s;
      HeadsAgree(s, t);
      forall p
        ensures p in s[1..] <==> p in t[1..]
      {
        BeforeIrreflexive(s[0]);
        TailWithoutHead(s, p);
        TailWithoutHead(t, p);
      }
      SortedSameElements(s[1..], t[1..]);
      assert s == [s[0]] + s[1..] && t == [t[0]] + t[1..];
    }
  }

  lemma {:induction false} HeadsAgree(s: seq<Peer>, t: seq<Peer>)
    requires s != [] && t != [] && StrictlySorted(s) && StrictlySorted(t)
    requires s[0] in t && t[0] in s
    ensures s[0] == t[0]
  {
    if s[0] != t[0] {
      var i :| 0 <= i < |t| && t[i] == s[0];
      var j :| 0 <= j < |s| && s[j] == t[0];
      BeforeTransitive(s[0], t[0], s[0]);
      BeforeIrreflexive(s[0]);
    }
  }

  lemma {:induction false} TailWithoutHead(s: seq<Peer>, p: Peer)
    requires s != [] && StrictlySorted(s)
    ensures p in s[1..] <==> p in s && p != s[0]
  {
    BeforeIrreflexive(s[0]);
    assert s == [s[0]] + s[1..];
    if p in s[1..] {
      var i :| 0 <= i < |s[1..]| && s[1..][i] == p;
      assert s[i + 1] == p;
    }
  }

  /** The order this node is stored under, -1 when it is not in the list. */
  function SelfOrder(list: seq<Peer>, self: string): int {
    if list == [] then -1
    else if list[0].ip == self then list[0].order
    else SelfOrder(list[1..], self)
  }

  /** The members a declaration leaves: what it declares, and this node at its stored
      order when it is omitted and was known under a non-negative order. */
  function Members(declared: map<string, int>, list: seq<Peer>, self: string): map<string, int> {
    var order := SelfOrder(ByOrder(list), self);
    if self !in declared && self != "" && order >= 0 then declared[self := order] else declared
  }

  /** Inserting into a list sorted by Before. */
  function InsertBefore(p: Peer, s: seq<Peer>): seq<Peer> {
    if s == [] || Before(p, s[0]) then [p] + s else [s[0]] + InsertBefore(p, s[1..])
  }

  lemma {:induction false} InsertBeforeSorted(p: Peer, s: seq<Peer>)
    requires StrictlySorted(s)
    requires forall q | q in s :: q.ip != p.ip
    ensures StrictlySorted(InsertBefore(p, s))
    ensures forall q :: q in InsertBefore(p, s) <==> q == p || q in s
  {
    if s == [] {
    } else if Before(p, s[0]) {
      forall j | 0 <= j < |s|
        ensures Before(p, s[j])
      {
        if j > 0 {
          BeforeTransitive(p, s[0], s[j]);
        }
      }
    } else {
      InsertBeforeSorted(p, s[1..]);
      var t := InsertBefore(p, s[1..]);
      BeforeTotal(p, s[0]);
      assert s == [s[0]] + s[1..];
      forall j | 0 <= j < |t|
        ensures Before(s[0], t[j])
      {
        assert t[j] in t;
        if t[j] != p {
          var k :| 0 <= k < |s[1..]| && s[1..][k] == t[j];
          assert s[k + 1] == t[j];
        }
      }
    }
  }

  lemma {:induction false} StrictIsAscending(s: seq<Peer>)
    requires StrictlySorted(s)
    ensures Ascending(s)
  {
  }

  /** The members, collected in the arbitrary order of a map iteration and then sorted. */
  method SortedMembers(members: map<string, int>) returns (next: seq<Peer>)
    ensures Lists(next, members)
  {
    next := [];
    var rest := members.Keys;
    while rest != {}
      invariant rest <= members.Keys
      invariant StrictlySorted(next)
      invariant forall p :: p in next <==> p.ip in members.Keys - rest && members[p.ip] == p.order
    {
      var ip :| ip in rest;
      InsertBeforeSorted(Peer(ip, members[ip]), next);
      next := InsertBefore(Peer(ip, members[ip]), next);
      rest := rest - {ip};
    }
  }

  /** reconcilePeersFile: afterwards the stored list, in join order, is exactly the
      sorted listing of the members. */
  method ReconcileFile(mgr: Manager, self: string, declared: map<string, int>)
    modifies mgr
    ensures Lists(ByOrder(mgr.list), Members(declared, old(mgr.list), self))
    ensures if Lists(ByOrder(old(mgr.list)), Members(declared, old(mgr.list), self))
            then mgr.list == old(mgr.list) else mgr.list == ByOrder(mgr.list)
  {
    var existing := mgr.All();
    var selfOrder := -1;
    var i := 0;
    while i < |existing|
      invariant 0 <= i <= |existing| && selfOrder == -1
      invariant SelfOrder(existing, self) == SelfOrder(existing[i..], self)
    {
      if existing[i].ip == self {
        selfOrder := existing[i].order;
        break;
      }
      i := i + 1;
    }
    assert selfOrder == SelfOrder(existing, self);
    var members := declared;
    if self !in declared && self != "" && selfOrder >= 0 {
      members := members[self := selfOrder];
    }
    var next := SortedMembers(members);
    StrictIsAscending(next);
    ByOrderOfAscending(next);
    if next == existing {
      return;
    }
    if Lists(existing, members) {
      ListingUnique(next, existing, members);
    }
    mgr.ReplaceAll(next);
  }

  ghost predicate Reconciled(before: seq<Peer>, after: seq<Peer>, self: string, declared: map<string, int>) {
    && Lists(ByOrder(after), Members(declared, before, self))
    && (after == before || after == ByOrder(after))
  }

  lemma {:induction false} SelfOrderOfListed(s: seq<Peer>, members: map<string, int>, ip: string)
    requires Lists(s, members) && ip in members
    ensures SelfOrder(s, ip) == members[ip]
  {
    var p := Peer(ip, members[ip]);
    assert p in s;
    SelfOrderFound(s, p);
  }

  lemma {:induction false} SelfOrderFound(s: seq<Peer>, p: Peer)
    requires p in s
    requires forall q | q in s && q.ip == p.ip :: q == p
    ensures SelfOrder(s, p.ip) == p.order
  {
    assert s[0] in s;
    if s[0] != p {
      assert s == [s[0]] + s[1..];
      assert p in s[1..];
      SelfOrderFound(s[1..], p);
    }
  }

  lemma {:induction false} SelfOrderAbsent(s: seq<Peer>, ip: string)
    requires forall q | q in s :: q.ip != ip
    ensures SelfOrder(s, ip) == -1
  {
    if s != [] {
      assert s[0] in s;
      assert forall q | q in s[1..] :: q in s;
      SelfOrderAbsent(s[1..], ip);
    }
  }

  /** Reconciling again with the same declaration changes nothing. */
  lemma {:induction false} ReconcileIdempotent(before: seq<Peer>, after: seq<Peer>, again: seq<Peer>, self: string,
                            declared: map<string, int>)
    requires Reconciled(before, after, self, declared)
    requires Reconciled(after, again, self, declared)
    ensures Members(declared, after, self) == Members(declared, before, self)
    ensures ByOrder(again) == ByOrder(after)
  {
    var members := Members(declared, before, self);
    var s := ByOrder(after);
    if self in members {
      SelfOrderOfListed(s, members, self);
    } else {
      SelfOrderAbsent(s, self);
    }
    ListingUnique(ByOrder(after), ByOrder(again), members);
  }

  /** Two declared nodes end with the same list, and so with the same default bot node. */
  lemma {:induction false} DeclaredNodesAgree(b1: seq<Peer>, a1: seq<Peer>, self1: string,
                           b2: seq<Peer>, a2: seq<Peer>, self2: string, declared: map<string, int>)
    requires self1 in declared && self2 in declared
    requires Reconciled(b1, a1, self1, declared) && Reconciled(b2, a2, self2, declared)
    ensures ByOrder(a1) == ByOrder(a2)
    ensures DefaultBot(a1) == DefaultBot(a2)
  {
    ListingUnique(ByOrder(a1), ByOrder(a2), declared);
    ByOrderSorts(a1);
    ByOrderSorts(a2);
    assert |multiset(ByOrder(a1))| == |multiset(a1)| && |multiset(ByOrder(a2))| == |multiset(a2)|;
  }

  /** The default bot node is a member of least join order. */
  lemma {:induction false} DefaultBotIsLeast(list: seq<Peer>)
    requires list != []
    ensures exists p :: p in list && p.ip == DefaultBot(list) && forall q | q in list :: p.order <= q.order
  {
    ByOrderSorts(list);
    var s := ByOrder(list);
    assert |multiset(s)| == |multiset(list)|;
    assert s[0] in multiset(s);
    forall q | q in list
      ensures s[0].order <= q.order
    {
      assert q in multiset(list);
    }
  }
}
