/** A cluster of nodes that ping, notify and pull: one writer, any number of followers,
    messages and pulls that may be lost or late (internal/mesh/coordinator.go,
    internal/cli/serve.go). */
module Mesh {
  import opened Text
  import opened Rules
  import opened Store
  import opened Invariants
  import opened Batches
  import opened Agreement
  import opened Snapshots
  import opened Exports
  import opened Replication
  import opened Membership

  // ---- one node's coordinator ----

  /** What was last seen of a peer; the round-trip time only orders candidates. */
  datatype PeerState = PeerState(version: int, rtt: int, failures: nat)

  datatype Answer = Lost | Seen(version: int, rtt: int)

  function StateOf(states: map<string, PeerState>, peer: string): PeerState {
    if peer in states then states[peer] else PeerState(0, 0, 0)
  }

  /** The state table after a ping. */
  function Recorded(states: map<string, PeerState>, peer: string, a: Answer): map<string, PeerState> {
    match a
    case Lost => states[peer := StateOf(states, peer).(failures := StateOf(states, peer).failures + 1)]
    case Seen(version, rtt) => states[peer := PeerState(version, rtt, 0)]
  }

  predicate Eligible(states: map<string, PeerState>, target: int, peer: string) {
    peer in states && states[peer].version >= target && states[peer].failures == 0
  }

  /** A peer the pull may go to: of least round-trip time among the eligible ones, none
      exactly when none is eligible. */
  ghost predicate IsBest(states: map<string, PeerState>, target: int, best: Option<string>) {
    match best
    case None => forall p | p in states :: !Eligible(states, target, p)
    case Some(b) =>
      Eligible(states, target, b) && forall p | Eligible(states, target, p) :: states[b].rtt <= states[p].rtt
  }

  datatype Candidate = Candidate(ip: string, rtt: int)

  class Coordinator {
    var states: map<string, PeerState>
    var pullInFlight: bool

    constructor ()
      ensures states == map[] && !pullInFlight
    {
      states, pullInFlight := map[], false;
    }

    /** pingOne: record the answer; ahead is the version that triggers OnRemoteAhead. */
    method PingOne(peer: string, a: Answer, configV: int) returns (ahead: Option<int>)
      modifies this`states
      ensures states == Recorded(old(states), peer, a)
      ensures ahead == if a.Seen? && a.version > configV then Some(a.version) else None
    {
      var st := if peer in states then states[peer] else PeerState(0, 0, 0);
      if a.Lost? {
        st := st.(failures := st.failures + 1);
        states := states[peer := st];
        return None;
      }
      st := st.(version := a.version, rtt := a.rtt);
      st := st.(failures := 0);
      states := states[peer := st];
      if a.version > configV {
        return Some(a.version);
      }
      return None;
    }

    /** HandleNotifyVersion: a version above the local one triggers OnRemoteAhead. */
    method HandleNotifyVersion(version: int, localV: int) returns (ahead: Option<int>)
      ensures ahead == if version > localV then Some(version) else None
    {
      if version > localV {
        return Some(version);
      }
      return None;
    }

    /** The compare-and-swap of OnRemoteAhead: one pull at a time. */
    method TryStartPull() returns (started: bool)
      modifies this`pullInFlight
      ensures started == !old(pullInFlight) && pullInFlight
    {
      if pullInFlight {
        return false;
      }
      pullInFlight := true;
      return true;
    }

    /** BestPeerToPull */
    method BestPeerToPull(target: int) returns (best: Option<string>)
      ensures IsBest(states, target, best)
    {
      var candidates: seq<Candidate> := [];
      var rest := states.Keys;
      while rest != {}
        invariant rest <= states.Keys
        invariant forall c | c in candidates :: Eligible(states, target, c.ip) && c.rtt == states[c.ip].rtt
        invariant forall p | p in states.Keys - rest && Eligible(states, target, p) :: Candidate(p, states[p].rtt) in candidates
      {
        var ip :| ip in rest;
        rest := rest - {ip};
        var st := states[ip];
        if st.version < target || st.failures > 0 {
          continue;
        }
        candidates := candidates + [Candidate(ip, st.rtt)];
      }
      if |candidates| == 0 {
        return None;
      }
      var least := LeastRTT(candidates);
      assert candidates[least] in candidates;
      return Some(candidates[least].ip);
    }
  }

  /** The first candidate once they are sorted by round-trip time. */
  method LeastRTT(candidates: seq<Candidate>) returns (k: nat)
    requires candidates != []
    ensures k < |candidates| && forall c | c in candidates :: candidates[k].rtt <= c.rtt
  {
    k := 0;
    for i := 0 to |candidates|
      invariant k < |candidates| && forall j | 0 <= j < i :: candidates[k].rtt <= candidates[j].rtt
    {
      if candidates[i].rtt < candidates[k].rtt {
        k := i;
      }
    }
  }

  // ---- the cluster ----

  /** A pull in flight: choosing a peer, waiting for its snapshot, about to apply it. */
  datatype Pull =
    | Idle
    | Choosing(target: int)
    | Fetching(peer: string, target: int)
    | Applying(text: string, target: int)

  /** A heartbeat pass: the version the node had when it began, and the answers under way. */
  datatype Pass = Pass(captured: int, answers: map<string, int>)

  datatype Member = Member(world: World, states: map<string, PeerState>, pass: Option<Pass>, pull: Pull)

  /** The rule tables a version stands for. */
  datatype Tables = Tables(domains: map<string, Row>, objects: map<ObjKey, Object>, bindings: set<Binding>)

  function TablesOf(db: DB): Tables {
    Tables(db.domains, db.objects, db.bindings)
  }

  /** history records the writer's rule tables at each version it has reached. */
  datatype Cluster = Cluster(nodes: map<string, Member>, writer: string, history: map<int, Tables>)

  datatype Action =
    | Batch(forced: bool, text: string, ext: nat -> bool)
    | Capture(node: string)
    | Answering(node: string, peer: string)
    | Ping(node: string, peer: string, rtt: int)
    | PingLost(node: string, peer: string)
    | Notify(node: string, version: int)
    | Choose(node: string, best: Option<string>)
    | Fetch(node: string, o: Order, s: Sections, snap: Snapshot)
    | Apply(node: string, replayExt: nat -> bool)
    | Abort(node: string)
    | Restart(node: string)

  function VersionAt(c: Cluster, i: string): int
    requires i in c.nodes
  {
    c.nodes[i].world.db.version
  }

  /** The version still fits, and a batch without a version step commits no clash. */
  ghost predicate GoodBatch(env: Env, w: World, forced: bool, text: string, ext: nat -> bool) {
    var rep := Execute(env, forced, w, text, ext);
    && rep.newVersion <= MAX_INT64
    && (rep.newVersion == rep.oldVersion ==> !CommitsClash(env, forced, w, BatchLines(text), ext))
  }

  ghost predicate Enabled(env: Env, c: Cluster, a: Action)
    requires c.writer in c.nodes
  {
    match a
    case Batch(forced, text, ext) => GoodBatch(env, c.nodes[c.writer].world, forced, text, ext)
    case Capture(i) => i in c.nodes
    case Answering(i, j) => i in c.nodes && j in c.nodes && i != j && c.nodes[i].pass.Some?
    case Ping(i, j, _) =>
      i in c.nodes && j in c.nodes && c.nodes[i].pass.Some? && j in c.nodes[i].pass.value.answers
    case PingLost(i, j) => i in c.nodes && j in c.nodes && i != j && c.nodes[i].pass.Some?
    case Notify(i, v) => i in c.nodes && v in c.history
    case Choose(i, best) =>
      i in c.nodes && c.nodes[i].pull.Choosing? && IsBest(c.nodes[i].states, c.nodes[i].pull.target, best)
    case Fetch(i, o, s, snap) =>
      && i in c.nodes && c.nodes[i].pull.Fetching? && c.nodes[i].pull.peer in c.nodes
      && Exported(c.nodes[c.nodes[i].pull.peer].world.db, o, s, snap)
    case Apply(i, _) => i in c.nodes && c.nodes[i].pull.Applying?
    case Abort(i) => i in c.nodes
    case Restart(i) => i in c.nodes
  }

  /** OnRemoteAhead with its single-flight flag. */
  function Triggered(m: Member, target: int): Member {
    if m.pull.Idle? then m.(pull := Choosing(target)) else m
  }

  /** The answer of peer leaves the pass. */
  function Settled(pass: Option<Pass>, peer: string): Option<Pass> {
    match pass
    case None => None
    case Some(p) => Some(p.(answers := p.answers - {peer}))
  }

  /** pingOne on an answer: record it, and compare it with the version of the capture. */
  function Pinged(m: Member, peer: string, rtt: int): Member
    requires m.pass.Some? && peer in m.pass.value.answers
  {
    var seen := m.pass.value.answers[peer];
    var m' := m.(states := Recorded(m.states, peer, Seen(seen, rtt)), pass := Settled(m.pass, peer));
    if seen > m.pass.value.captured then Triggered(m', seen) else m'
  }

  function With(c: Cluster, i: string, m: Member): Cluster {
    c.(nodes := c.nodes[i := m])
  }

  ghost function Next(env: Env, c: Cluster, a: Action): Cluster
    requires c.writer in c.nodes && Enabled(env, c, a)
  {
    match a
    case Batch(forced, text, ext) =>
      var m := c.nodes[c.writer];
      var rep := Execute(env, forced, m.world, text, ext);
      With(c, c.writer, m.(world := rep.w)).(history := c.history[rep.w.db.version := TablesOf(rep.w.db)])
    case Capture(i) => With(c, i, c.nodes[i].(pass := Some(Pass(VersionAt(c, i), map[]))))
    case Answering(i, j) =>
      var p := c.nodes[i].pass.value;
      With(c, i, c.nodes[i].(pass := Some(p.(answers := p.answers[j := VersionAt(c, j)]))))
    case Ping(i, j, rtt) => With(c, i, Pinged(c.nodes[i], j, rtt))
    case PingLost(i, j) =>
      var m := c.nodes[i];
      With(c, i, m.(states := Recorded(m.states, j, Lost), pass := Settled(m.pass, j)))
    case Notify(i, v) => if v > VersionAt(c, i) then With(c, i, Triggered(c.nodes[i], v)) else c
    case Choose(i, best) =>
      With(c, i, c.nodes[i].(pull := match best case None => Idle case Some(p) => Fetching(p, c.nodes[i].pull.target)))
    case Fetch(i, o, s, snap) => With(c, i, c.nodes[i].(pull := Applying(TextOf(snap), c.nodes[i].pull.target)))
    case Apply(i, ext) =>
      var m := c.nodes[i];
      With(c, i, m.(world := Applied(env, m.world, i, m.pull.text, ext), pull := Idle))
    case Abort(i) => With(c, i, c.nodes[i].(pull := Idle))
    case Restart(i) => With(c, i, c.nodes[i].(states := map[], pass := None, pull := Idle))
  }

  ghost predicate Steps(env: Env, c: Cluster, a: Action, c': Cluster) {
    c.writer in c.nodes && Enabled(env, c, a) && c' == Next(env, c, a)
  }

  // ---- consistency: every node stands at one of the writer's versions ----

  ghost predicate CarriesAs(env: Env, c: Cluster, text: string, db: DB, o: Order, s: Sections, snap: Snapshot)
    requires c.writer in c.nodes
  {
    && Inv(env, db) && Exported(db, o, s, snap) && text == TextOf(snap)
    && 0 <= db.version <= VersionAt(c, c.writer)
    && db.version in c.history && c.history[db.version] == TablesOf(db)
  }

  /** A text that is some version's export. */
  ghost predicate Carries(env: Env, c: Cluster, text: string)
    requires c.writer in c.nodes
  {
    exists db, o, s, snap :: CarriesAs(env, c, text, db, o, s, snap)
  }

  ghost predicate PullOk(env: Env, c: Cluster, pull: Pull)
    requires c.writer in c.nodes
  {
    match pull
    case Idle => true
    case Choosing(_) => true
    case Fetching(peer, _) => peer in c.nodes
    case Applying(text, _) => Carries(env, c, text)
  }

  ghost predicate NodeOk(env: Env, c: Cluster, i: string)
    requires c.writer in c.nodes && i in c.nodes
  {
    var db := c.nodes[i].world.db;
    && Inv(env, db) && 0 <= db.version <= VersionAt(c, c.writer) <= MAX_INT64
    && db.version in c.history && c.history[db.version] == TablesOf(db)
    && c.nodes[i].states.Keys <= c.nodes.Keys
    && PullOk(env, c, c.nodes[i].pull)
  }

  /** Every node's rule tables are the writer's at the version the node reports, no node is
      ahead of the writer, and the writer is not pulling. */
  ghost predicate Consistent(env: Env, c: Cluster) {
    && c.writer in c.nodes
    && (forall i | i in c.nodes :: NodeOk(env, c, i))
    && c.nodes[c.writer].pull.Idle?
    && (forall v | v in c.history :: v <= VersionAt(c, c.writer))
  }

  /** The writer's version only rises and history only gains entries. */
  ghost predicate Extends(c: Cluster, c': Cluster)
    requires c.writer in c.nodes
  {
    && c'.writer == c.writer && c'.nodes.Keys == c.nodes.Keys
    && VersionAt(c, c.writer) <= VersionAt(c', c.writer)
    && (forall v | v in c.history :: v in c'.history && c'.history[v] == c.history[v])
  }

  lemma {:induction false} ConsistentNode(env: Env, c: Cluster, i: string)
    requires Consistent(env, c) && i in c.nodes
    ensures c.writer in c.nodes && NodeOk(env, c, i) && Inv(env, c.nodes[i].world.db)
    ensures c.nodes[c.writer].pull.Idle?
  {
    hide NodeOk;
    assert NodeOk(env, c, i);
    NodeInv(env, c, i);
  }

  lemma {:induction false} NodeInv(env: Env, c: Cluster, i: string)
    requires c.writer in c.nodes && i in c.nodes && NodeOk(env, c, i)
    ensures Inv(env, c.nodes[i].world.db)
  {
    hide Inv, PullOk;
  }

  lemma {:induction false} WriterThere(env: Env, c: Cluster)
    requires Consistent(env, c)
    ensures c.writer in c.nodes && c.nodes[c.writer].pull.Idle?
  {
  }

  lemma {:induction false} PullExtends(env: Env, c: Cluster, c': Cluster, pull: Pull)
    requires c.writer in c.nodes && Extends(c, c') && PullOk(env, c, pull)
    ensures PullOk(env, c', pull)
  {
    hide Inv, Exported, TextOf;
    if pull.Applying? {
      var db, o, s, snap :| CarriesAs(env, c, pull.text, db, o, s, snap);
      assert CarriesAs(env, c', pull.text, db, o, s, snap);
    }
  }

  /** A node the step does not touch stays at one of the writer's versions. */
  lemma {:induction false} OthersOk(env: Env, c: Cluster, c': Cluster, i: string)
    requires c.writer in c.nodes && Extends(c, c') && i in c.nodes && NodeOk(env, c, i)
    requires c'.nodes[i] == c.nodes[i] && VersionAt(c', c'.writer) <= MAX_INT64
    ensures NodeOk(env, c', i)
  {
    hide Inv, PullOk;
    PullExtends(env, c, c', c.nodes[i].pull);
  }

  /** A step that changes one node, and neither its database nor the history. */
  lemma {:induction false} BookkeepingConsistent(env: Env, c: Cluster, i: string, m: Member)
    requires Consistent(env, c) && i in c.nodes && m.world == c.nodes[i].world
    requires m.states.Keys <= c.nodes.Keys && PullOk(env, c, m.pull)
    requires i == c.writer ==> m.pull.Idle?
    ensures Consistent(env, With(c, i, m)) && Extends(c, With(c, i, m))
  {
    hide Inv, PullOk;
    var c' := With(c, i, m);
    assert Extends(c, c');
    forall k | k in c'.nodes
      ensures NodeOk(env, c', k)
    {
      assert NodeOk(env, c, k);
      if k == i {
        PullExtends(env, c, c', m.pull);
      } else {
        OthersOk(env, c, c', k);
      }
    }
  }

  /** An answer to the writer is no newer than the version its pass began with. */
  predicate WriterQuiet(c: Cluster, a: Action) {
    a.Ping? && a.node == c.writer && a.node in c.nodes && c.nodes[a.node].pass.Some?
      && a.peer in c.nodes[a.node].pass.value.answers ==>
      c.nodes[a.node].pass.value.answers[a.peer] <= c.nodes[a.node].pass.value.captured
  }

  /** A ping keeps consistency if and only if it does not make the writer pull. */
  lemma {:induction false} PingConsistentIff(env: Env, c: Cluster, i: string, j: string, rtt: int)
    requires Consistent(env, c) && Enabled(env, c, Ping(i, j, rtt))
    ensures var c' := Next(env, c, Ping(i, j, rtt));
      && (Consistent(env, c') <==> WriterQuiet(c, Ping(i, j, rtt)))
      && (Consistent(env, c') ==> Extends(c, c'))
  {
    hide NodeOk, PullOk;
    ConsistentNode(env, c, i);
    var m := Pinged(c.nodes[i], j, rtt);
    PingedKeeps(env, c, i, j, rtt);
    if WriterQuiet(c, Ping(i, j, rtt)) {
      BookkeepingConsistent(env, c, i, m);
    }
  }

  lemma {:induction false} PingedKeeps(env: Env, c: Cluster, i: string, j: string, rtt: int)
    requires c.writer in c.nodes && Enabled(env, c, Ping(i, j, rtt)) && NodeOk(env, c, i)
    ensures var m := Pinged(c.nodes[i], j, rtt);
      m.world == c.nodes[i].world && m.states.Keys <= c.nodes.Keys && PullOk(env, c, m.pull)
  {
    hide Inv, Carries;
  }

  /** A finished pull leaves its node on the tables of the version the text states. */
  lemma {:induction false} AppliedTables(env: Env, c: Cluster, i: string, ext: nat -> bool)
    requires Consistent(env, c) && i in c.nodes && c.nodes[i].pull.Applying?
    ensures i != c.writer
    ensures var m := c.nodes[i];
      var db := Applied(env, m.world, i, m.pull.text, ext).db;
      && Inv(env, db) && db.version == SnapshotOf(m.pull.text).header.version
      && 0 <= db.version <= VersionAt(c, c.writer)
      && db.version in c.history && TablesOf(db) == c.history[db.version]
  {
    hide Inv, Exported, TextOf, Applied, SnapshotOf;
    assert NodeOk(env, c, i);
    var m := c.nodes[i];
    var db, o, s, snap :| CarriesAs(env, c, m.pull.text, db, o, s, snap);
    AppliedExport(env, db, o, s, snap, m.world, i, ext);
    AppliedKeeps(env, m.world, i, m.pull.text, ext);
  }

  lemma {:induction false} FollowerConsistent(env: Env, c: Cluster, i: string, w: World)
    requires Consistent(env, c) && i in c.nodes && i != c.writer && Inv(env, w.db)
    requires 0 <= w.db.version <= VersionAt(c, c.writer)
    requires w.db.version in c.history && TablesOf(w.db) == c.history[w.db.version]
    ensures var c' := With(c, i, c.nodes[i].(world := w, pull := Idle)); Consistent(env, c') && Extends(c, c')
  {
    hide Inv, Carries;
    var c' := With(c, i, c.nodes[i].(world := w, pull := Idle));
    assert NodeOk(env, c, i) && NodeOk(env, c, c.writer);
    assert Extends(c, c');
    forall k | k in c'.nodes
      ensures NodeOk(env, c', k)
    {
      if k != i {
        hide NodeOk, Extends;
        OthersOk(env, c, c', k);
      }
    }
  }

  lemma {:induction false} ApplyConsistent(env: Env, c: Cluster, i: string, ext: nat -> bool)
    requires Consistent(env, c) && Enabled(env, c, Apply(i, ext))
    ensures var c' := Next(env, c, Apply(i, ext)); Consistent(env, c') && Extends(c, c')
  {
    hide Consistent, Inv, Applied, Extends;
    AppliedTables(env, c, i, ext);
    FollowerConsistent(env, c, i, Applied(env, c.nodes[i].world, i, c.nodes[i].pull.text, ext));
  }

  /** The writer's tables change only with its version. */
  lemma {:induction false} BatchTables(env: Env, w: World, forced: bool, text: string, ext: nat -> bool)
    requires GoodBatch(env, w, forced, text, ext)
    ensures var rep := Execute(env, forced, w, text, ext);
      && rep.w.db.version in {w.db.version, w.db.version + 1}
      && rep.w.db.version <= MAX_INT64
      && (rep.w.db.version == w.db.version ==> rep.w.db == w.db)
  {
    hide Execute, BatchLines, CommitsClash;
    var rep := Execute(env, forced, w, text, ext);
    BatchVersion(env, forced, w, text, ext);
    if rep.newVersion == rep.oldVersion && rep.w.db != w.db {
      ChangeImpliesBump(env, forced, w, text, ext);
    }
  }

  /** The cluster once a batch has left the writer in the world w. */
  function AfterBatch(c: Cluster, w: World): Cluster
    requires c.writer in c.nodes
  {
    With(c, c.writer, c.nodes[c.writer].(world := w)).(history := c.history[w.db.version := TablesOf(w.db)])
  }

  lemma {:induction false} WriterMoves(env: Env, c: Cluster, w: World)
    requires Consistent(env, c) && Inv(env, w.db) && w.db.version <= MAX_INT64
    requires w.db.version == VersionAt(c, c.writer) + 1 || w.db == c.nodes[c.writer].world.db
    ensures Consistent(env, AfterBatch(c, w)) && Extends(c, AfterBatch(c, w))
  {
    hide Inv, Carries;
    var c' := AfterBatch(c, w);
    assert NodeOk(env, c, c.writer);
    assert Extends(c, c');
    forall k | k in c'.nodes
      ensures NodeOk(env, c', k)
    {
      if k != c.writer {
        hide NodeOk, Extends;
        OthersOk(env, c, c', k);
      }
    }
  }

  lemma {:induction false} BatchConsistent(env: Env, c: Cluster, forced: bool, text: string, ext: nat -> bool)
    requires Consistent(env, c) && Enabled(env, c, Action.Batch(forced, text, ext))
    ensures var c' := Next(env, c, Action.Batch(forced, text, ext)); Consistent(env, c') && Extends(c, c')
  {
    hide Consistent, Inv, Execute, GoodBatch, Extends;
    WriterThere(env, c);
    ConsistentNode(env, c, c.writer);
    var w := c.nodes[c.writer].world;
    BatchTables(env, w, forced, text, ext);
    ExecuteKeeps(env, forced, w, text, ext);
    WriterMoves(env, c, Execute(env, forced, w, text, ext).w);
  }

  /** The member a step of one node's own bookkeeping leaves. */
  ghost predicate Bookkeeping(env: Env, c: Cluster, a: Action)
    requires c.writer in c.nodes && Enabled(env, c, a)
  {
    !a.Batch? && !a.Ping? && !a.Apply? && !a.Notify?
  }

  lemma {:induction false} BookkeepingStep(env: Env, c: Cluster, a: Action)
    requires c.writer in c.nodes && Enabled(env, c, a) && Bookkeeping(env, c, a)
    ensures a.node in c.nodes
    ensures var c' := Next(env, c, a); a.node in c'.nodes && c' == With(c, a.node, c'.nodes[a.node])
  {
    hide Exported, TextOf, IsBest;
  }

  lemma {:induction false} BookkeepingMember(env: Env, c: Cluster, a: Action)
    requires Consistent(env, c) && Enabled(env, c, a) && Bookkeeping(env, c, a)
    ensures a.node in c.nodes
    ensures var m := Next(env, c, a).nodes[a.node];
      && m.world == c.nodes[a.node].world
      && m.states.Keys <= c.nodes.Keys && PullOk(env, c, m.pull)
      && (a.node == c.writer ==> m.pull.Idle?)
  {
    hide Inv, Exported, TextOf, NodeOk;
    BookkeepingStep(env, c, a);
    assert NodeOk(env, c, a.node);
    MemberParts(env, c, a.node);
    if a.Fetch? {
      var p := c.nodes[a.node].pull.peer;
      assert NodeOk(env, c, p);
      FetchedCarries(env, c, p, a.o, a.s, a.snap);
    }
  }

  lemma {:induction false} MemberParts(env: Env, c: Cluster, i: string)
    requires c.writer in c.nodes && i in c.nodes && NodeOk(env, c, i)
    ensures c.nodes[i].states.Keys <= c.nodes.Keys && PullOk(env, c, c.nodes[i].pull)
  {
    hide Inv, Carries;
  }

  lemma {:induction false} FetchedCarries(env: Env, c: Cluster, p: string, o: Order, s: Sections, snap: Snapshot)
    requires c.writer in c.nodes && p in c.nodes && NodeOk(env, c, p)
    requires Exported(c.nodes[p].world.db, o, s, snap)
    ensures Carries(env, c, TextOf(snap))
  {
    hide Inv, Exported, TextOf, PullOk;
    assert CarriesAs(env, c, TextOf(snap), c.nodes[p].world.db, o, s, snap);
  }

  lemma {:induction false} NotifyConsistent(env: Env, c: Cluster, i: string, v: int)
    requires Consistent(env, c) && Enabled(env, c, Notify(i, v))
    ensures var c' := Next(env, c, Notify(i, v)); Consistent(env, c') && Extends(c, c')
  {
    hide Inv, NodeOk;
    assert NodeOk(env, c, i);
    MemberParts(env, c, i);
    if v > VersionAt(c, i) {
      BookkeepingConsistent(env, c, i, Triggered(c.nodes[i], v));
    }
  }

  /** One step, whatever it is, keeps the cluster consistent: followers may capture, ping
      and pull with any delay, as long as no answer makes the writer pull. */
  lemma {:induction false} StepConsistent(env: Env, c: Cluster, a: Action)
    requires Consistent(env, c) && Enabled(env, c, a) && WriterQuiet(c, a)
    ensures var c' := Next(env, c, a); Consistent(env, c') && Extends(c, c')
  {
    hide Consistent, Extends, Execute, Applied, Exported, TextOf, IsBest, GoodBatch, WriterQuiet, PullOk, Pinged;
    WriterThere(env, c);
    match a
    case Batch(forced, text, ext) => BatchConsistent(env, c, forced, text, ext);
    case Ping(i, j, rtt) => PingConsistentIff(env, c, i, j, rtt);
    case Notify(i, v) => NotifyConsistent(env, c, i, v);
    case Apply(i, ext) => ApplyConsistent(env, c, i, ext);
    case _ =>
      BookkeepingMember(env, c, a);
      BookkeepingStep(env, c, a);
      BookkeepingConsistent(env, c, a.node, Next(env, c, a).nodes[a.node]);
  }

  // ---- safety: and no pull leads downwards ----

  /** The answers seen, and the ones under way, are no newer than the peers. */
  ghost predicate SeenOk(c: Cluster, states: map<string, PeerState>) {
    forall j | j in states :: j in c.nodes && states[j].version <= VersionAt(c, j)
  }

  ghost predicate PassOk(c: Cluster, pass: Option<Pass>) {
    pass.Some? ==> forall j | j in pass.value.answers :: j in c.nodes && pass.value.answers[j] <= VersionAt(c, j)
  }

  /** The pull of a node at the given version leads above it. */
  predicate LeadsUp(c: Cluster, version: int, pull: Pull) {
    match pull
    case Idle => true
    case Choosing(target) => version < target
    case Fetching(peer, target) => version < target && peer in c.nodes && target <= VersionAt(c, peer)
    case Applying(text, target) => version < target <= SnapshotOf(text).header.version
  }

  ghost predicate Ahead(c: Cluster, i: string)
    requires i in c.nodes
  {
    SeenOk(c, c.nodes[i].states) && PassOk(c, c.nodes[i].pass) && LeadsUp(c, VersionAt(c, i), c.nodes[i].pull)
  }

  /** A change of one node's bookkeeping, judged by the versions as they are. */
  lemma {:induction false} AheadWith(c: Cluster, i: string, m: Member)
    requires i in c.nodes && m.world == c.nodes[i].world
    ensures Ahead(With(c, i, m), i) <==> SeenOk(c, m.states) && PassOk(c, m.pass) && LeadsUp(c, VersionAt(c, i), m.pull)
  {
    hide SnapshotOf;
    var c' := With(c, i, m);
    assert forall k | k in c.nodes :: VersionAt(c', k) == VersionAt(c, k);
  }

  ghost predicate Safe(env: Env, c: Cluster) {
    Consistent(env, c) && forall i | i in c.nodes :: Ahead(c, i)
  }

  /** Besides, no node's version falls. */
  ghost predicate Grows(c: Cluster, c': Cluster)
    requires c.writer in c.nodes
  {
    Extends(c, c') && forall i | i in c.nodes :: VersionAt(c, i) <= VersionAt(c', i)
  }

  /** The guard of pingOne's comparison: an answer above the captured version that would
      start a pull is above the version the node has by now. */
  predicate Harmless(c: Cluster, a: Action) {
    a.Ping? && a.node in c.nodes && c.nodes[a.node].pass.Some? && a.peer in c.nodes[a.node].pass.value.answers ==>
      var m := c.nodes[a.node];
      m.pass.value.answers[a.peer] > m.pass.value.captured && m.pull.Idle? ==>
        m.pass.value.answers[a.peer] > VersionAt(c, a.node)
  }

  lemma {:induction false} OthersAhead(c: Cluster, c': Cluster, i: string)
    requires c.writer in c.nodes && Grows(c, c') && i in c.nodes && Ahead(c, i) && c'.nodes[i] == c.nodes[i]
    ensures Ahead(c', i)
  {
    hide SnapshotOf;
  }

  /** A step of one node under which no version falls keeps every node's pull ahead. */
  lemma {:induction false} StaysSafe(env: Env, c: Cluster, c': Cluster, i: string)
    requires Safe(env, c) && Consistent(env, c') && Extends(c, c') && i in c.nodes
    requires forall k | k in c.nodes && k != i :: c'.nodes[k] == c.nodes[k]
    requires VersionAt(c, i) <= VersionAt(c', i) && Ahead(c', i)
    ensures Safe(env, c') && Grows(c, c')
  {
    hide Consistent, Ahead;
    WriterThere(env, c);
    forall k | k in c'.nodes
      ensures Ahead(c', k)
    {
      if k != i {
        OthersAhead(c, c', k);
      }
    }
  }

  /** A harmless answer never makes the writer pull: nobody is ahead of it. */
  lemma {:induction false} HarmlessQuiet(env: Env, c: Cluster, a: Action)
    requires Safe(env, c) && Harmless(c, a)
    ensures WriterQuiet(c, a)
  {
    hide Inv, PullOk;
    if a.Ping? && a.node == c.writer && c.nodes[a.node].pass.Some? && a.peer in c.nodes[a.node].pass.value.answers {
      assert Ahead(c, a.node);
      assert NodeOk(env, c, a.peer);
    }
  }

  /** A ping keeps safety if and only if the captured version did not mislead it. */
  lemma {:induction false} PingSafeIff(env: Env, c: Cluster, i: string, j: string, rtt: int)
    requires Safe(env, c) && Enabled(env, c, Ping(i, j, rtt))
    ensures var c' := Next(env, c, Ping(i, j, rtt));
      && (Safe(env, c') <==> Harmless(c, Ping(i, j, rtt)))
      && (Safe(env, c') ==> Grows(c, c'))
  {
    hide Consistent, Extends, Ahead, Pinged, NodeOk, PullOk;
    var a := Ping(i, j, rtt);
    ConsistentNode(env, c, i);
    PingedKeeps(env, c, i, j, rtt);
    assert Ahead(c, i);
    PingedAheadIff(c, i, j, rtt);
    if Harmless(c, a) {
      HarmlessQuiet(env, c, a);
      PingConsistentIff(env, c, i, j, rtt);
      StaysSafe(env, c, Next(env, c, a), i);
    }
  }

  lemma {:induction false} PingedAheadIff(c: Cluster, i: string, j: string, rtt: int)
    requires i in c.nodes && j in c.nodes && c.nodes[i].pass.Some? && j in c.nodes[i].pass.value.answers && Ahead(c, i)
    ensures Ahead(With(c, i, Pinged(c.nodes[i], j, rtt)), i) <==> Harmless(c, Ping(i, j, rtt))
  {
    hide SnapshotOf;
    AheadWith(c, i, Pinged(c.nodes[i], j, rtt));
  }

  lemma {:induction false} TextVersion(env: Env, db: DB, o: Order, s: Sections, snap: Snapshot)
    requires Inv(env, db) && Exported(db, o, s, snap)
    ensures SnapshotOf(TextOf(snap)).header.version == db.version
  {
    hide Inv, TextOf, SnapshotOf, AllCommands, IsExport;
    ExportIsExportable(env, db, o, s);
    ExportIsPrintable(AllCommands(db, s), snap);
    ParsePrintedSnapshot(snap);
  }

  lemma {:induction false} BookkeepingSeen(env: Env, c: Cluster, a: Action)
    requires Consistent(env, c) && Enabled(env, c, a) && Bookkeeping(env, c, a) && a.node in c.nodes && Ahead(c, a.node)
    ensures a.node in Next(env, c, a).nodes
    ensures var m := Next(env, c, a).nodes[a.node]; SeenOk(c, m.states) && PassOk(c, m.pass)
  {
    hide LeadsUp, TextOf, Exported, Consistent, IsBest;
    if a.PingLost? {
      LostIsKnown(env, c, a.peer);
    }
  }

  lemma {:induction false} BookkeepingLeadsUp(env: Env, c: Cluster, a: Action)
    requires Consistent(env, c) && Enabled(env, c, a) && Bookkeeping(env, c, a) && a.node in c.nodes && Ahead(c, a.node)
    ensures a.node in Next(env, c, a).nodes
    ensures LeadsUp(c, VersionAt(c, a.node), Next(env, c, a).nodes[a.node].pull)
  {
    hide SeenOk, PassOk, SnapshotOf, TextOf, Exported, Consistent, IsBest;
    match a
    case Fetch(i, o, s, snap) =>
      ConsistentNode(env, c, c.nodes[i].pull.peer);
      TextVersion(env, c.nodes[c.nodes[i].pull.peer].world.db, o, s, snap);
    case Choose(i, best) => ChosenPeer(c, i, best);
    case _ =>
  }

  lemma {:induction false} BookkeepingAhead(env: Env, c: Cluster, a: Action)
    requires Safe(env, c) && Enabled(env, c, a) && Bookkeeping(env, c, a)
    ensures a.node in c.nodes && Ahead(Next(env, c, a), a.node)
  {
    hide SeenOk, PassOk, LeadsUp, Consistent, Next, Enabled, Ahead;
    WriterThere(env, c);
    BookkeepingStep(env, c, a);
    BookkeepingMember(env, c, a);
    assert Ahead(c, a.node);
    BookkeepingSeen(env, c, a);
    BookkeepingLeadsUp(env, c, a);
    AheadWith(c, a.node, Next(env, c, a).nodes[a.node]);
  }

  lemma {:induction false} ChosenPeer(c: Cluster, i: string, best: Option<string>)
    requires i in c.nodes && Ahead(c, i) && c.nodes[i].pull.Choosing?
    requires IsBest(c.nodes[i].states, c.nodes[i].pull.target, best)
    ensures best.Some? ==> best.value in c.nodes && c.nodes[i].pull.target <= VersionAt(c, best.value)
  {
    hide SnapshotOf;
  }

  lemma {:induction false} LostIsKnown(env: Env, c: Cluster, j: string)
    requires Consistent(env, c) && j in c.nodes
    ensures VersionAt(c, j) >= 0
  {
    hide Inv, PullOk;
    assert NodeOk(env, c, j);
  }

  lemma {:induction false} NotifyAhead(c: Cluster, i: string, v: int)
    requires i in c.nodes && Ahead(c, i) && v > VersionAt(c, i)
    ensures Ahead(With(c, i, Triggered(c.nodes[i], v)), i)
  {
    hide SnapshotOf;
    AheadWith(c, i, Triggered(c.nodes[i], v));
  }

  /** A notification starts a pull exactly at an idle node it is ahead of, never at the
      writer, towards a version the writer has reached; nothing else changes. */
  lemma {:induction false} NotifyStartsPull(env: Env, c: Cluster, i: string, v: int)
    requires Safe(env, c) && Enabled(env, c, Notify(i, v))
    ensures var c' := Next(env, c, Notify(i, v));
      && Safe(env, c') && Grows(c, c')
      && (c' != c <==> c.nodes[i].pull.Idle? && v > VersionAt(c, i))
      && (c' != c ==> i != c.writer && c' == With(c, i, c.nodes[i].(pull := Choosing(v))) && v <= VersionAt(c, c.writer))
  {
    hide Inv, NodeOk, Ahead, Extends;
    var c' := Next(env, c, Notify(i, v));
    NotifyConsistent(env, c, i, v);
    assert Ahead(c, i);
    if v > VersionAt(c, i) {
      NotifyAhead(c, i, v);
      assert c' != c ==> c'.nodes[i].pull.Choosing?;
      if c.nodes[i].pull.Idle? {
        assert c'.nodes[i] != c.nodes[i];
      } else {
        assert c'.nodes == c.nodes;
      }
    }
    StaysSafe(env, c, c', i);
  }

  /** A finished pull lands at or above its target, strictly above where the node was. */
  lemma {:induction false} ApplySafe(env: Env, c: Cluster, i: string, ext: nat -> bool, c': Cluster)
    requires Safe(env, c) && Steps(env, c, Apply(i, ext), c')
    ensures i in c.nodes && c.nodes[i].pull.Applying? && i in c'.nodes
    ensures Safe(env, c') && Grows(c, c') && VersionAt(c, i) < c.nodes[i].pull.target <= VersionAt(c', i)
  {
    hide Consistent, Inv, Applied, Extends, SnapshotOf, SeenOk, PassOk;
    assert Ahead(c, i);
    AppliedTables(env, c, i, ext);
    ApplyConsistent(env, c, i, ext);
    AppliedAhead(c, i, c');
    StaysSafe(env, c, c', i);
  }

  lemma {:induction false} AppliedAhead(c: Cluster, i: string, c': Cluster)
    requires i in c.nodes && i in c'.nodes && Ahead(c, i) && c'.nodes.Keys == c.nodes.Keys
    requires c'.nodes[i].states == c.nodes[i].states && c'.nodes[i].pass == c.nodes[i].pass && c'.nodes[i].pull.Idle?
    requires forall k | k in c.nodes :: VersionAt(c, k) <= VersionAt(c', k)
    ensures Ahead(c', i)
  {
    hide SnapshotOf;
  }

  lemma {:induction false} BatchSafe(env: Env, c: Cluster, forced: bool, text: string, ext: nat -> bool, c': Cluster)
    requires Safe(env, c) && Steps(env, c, Action.Batch(forced, text, ext), c')
    ensures Safe(env, c') && Grows(c, c')
  {
    hide Consistent, Execute, GoodBatch, Ahead;
    WriterThere(env, c);
    assert Ahead(c, c.writer);
    BatchConsistent(env, c, forced, text, ext);
    BatchTables(env, c.nodes[c.writer].world, forced, text, ext);
    AppliedAhead(c, c.writer, c');
    StaysSafe(env, c, c', c.writer);
  }

  lemma {:induction false} WriterThereSafe(env: Env, c: Cluster)
    requires Safe(env, c)
    ensures c.writer in c.nodes && c.nodes[c.writer].pull.Idle?
  {
    hide NodeOk, Ahead;
  }

  /** One step, whatever it is: safety is kept, versions never fall, and a finished pull
      strictly raises the version of its node. */
  lemma {:induction false} StepSafe(env: Env, c: Cluster, a: Action)
    requires Safe(env, c) && Enabled(env, c, a) && Harmless(c, a)
    ensures var c' := Next(env, c, a);
      && Safe(env, c') && Grows(c, c')
      && (a.Apply? ==> VersionAt(c, a.node) < c.nodes[a.node].pull.target <= VersionAt(c', a.node))
      && (!a.Batch? ==> VersionAt(c', c.writer) == VersionAt(c, c.writer))
  {
    hide Consistent, Ahead, Grows, Extends, Execute, Applied, Exported, TextOf, IsBest, GoodBatch, Harmless, PullOk;
    WriterThere(env, c);
    match a
    case Batch(forced, text, ext) => BatchSafe(env, c, forced, text, ext, Next(env, c, a));
    case Ping(i, j, rtt) => PingSafeIff(env, c, i, j, rtt);
    case Notify(i, v) => NotifyStartsPull(env, c, i, v);
    case Apply(i, ext) =>
      ApplySafe(env, c, i, ext, Next(env, c, a));
      AppliedTables(env, c, i, ext);
    case _ =>
      StepConsistent(env, c, a);
      BookkeepingStep(env, c, a);
      BookkeepingMember(env, c, a);
      BookkeepingAhead(env, c, a);
      StaysSafe(env, c, Next(env, c, a), a.node);
  }

  // ---- whole runs ----

  /** states are the clusters a run of enabled steps goes through. */
  ghost predicate IsRun(env: Env, states: seq<Cluster>, actions: seq<Action>) {
    && |states| == |actions| + 1
    && forall k | 0 <= k < |actions| :: Steps(env, states[k], actions[k], states[k + 1])
  }

  /** No answer of the run makes the writer pull. */
  ghost predicate QuietRun(states: seq<Cluster>, actions: seq<Action>)
    requires |states| == |actions| + 1
  {
    forall k | 0 <= k < |actions| :: WriterQuiet(states[k], actions[k])
  }

  /** No answer of the run starts a pull towards a version its node already has. */
  ghost predicate HarmlessRun(states: seq<Cluster>, actions: seq<Action>)
    requires |states| == |actions| + 1
  {
    forall k | 0 <= k < |actions| :: Harmless(states[k], actions[k])
  }

  /** A fresh cluster: every node at version 0 with empty tables. */
  predicate Fresh(c: Cluster) {
    && c.writer in c.nodes
    && c.history == map[0 := TablesOf(EMPTY)]
    && forall i | i in c.nodes ::
         c.nodes[i].world.db == EMPTY && c.nodes[i].states == map[] && c.nodes[i].pass == None && c.nodes[i].pull == Idle
  }

  lemma {:induction false} FreshSafe(env: Env, c: Cluster)
    requires Fresh(c)
    ensures Safe(env, c)
  {
    EmptyInv(env, EMPTY);
  }

  /** In every interleaving of batches, heartbeats with answers of any delay, notifications,
      pulls, losses and restarts in which no answer makes the writer pull, each node's rule
      tables are the writer's at the version it reports and none is ahead of the writer. */
  lemma {:induction false} RunConsistent(env: Env, states: seq<Cluster>, actions: seq<Action>, k: nat)
    requires IsRun(env, states, actions) && QuietRun(states, actions) && k <= |actions|
    requires Consistent(env, states[0])
    ensures Consistent(env, states[k])
  {
    hide Consistent, Enabled, WriterQuiet;
    if k > 0 {
      RunConsistent(env, states, actions, k - 1);
      assert Steps(env, states[k - 1], actions[k - 1], states[k]);
      StepConsistent(env, states[k - 1], actions[k - 1]);
    }
  }

  /** And when no answer starts a pull towards a version its node already has, no pull in
      flight ever leads downwards, and the writer never pulls. */
  lemma {:induction false} RunSafe(env: Env, states: seq<Cluster>, actions: seq<Action>, k: nat)
    requires IsRun(env, states, actions) && HarmlessRun(states, actions) && k <= |actions|
    requires Safe(env, states[0])
    ensures Safe(env, states[k])
  {
    hide Safe, Enabled, Harmless;
    if k > 0 {
      RunSafe(env, states, actions, k - 1);
      assert Steps(env, states[k - 1], actions[k - 1], states[k]);
      StepSafe(env, states[k - 1], actions[k - 1]);
    }
  }

  /** Along a run no node's version falls. */
  lemma {:induction false} VersionsRise(env: Env, states: seq<Cluster>, actions: seq<Action>, k: nat, i: string)
    requires IsRun(env, states, actions) && HarmlessRun(states, actions) && k <= |actions|
    requires Safe(env, states[0]) && i in states[0].nodes
    ensures i in states[k].nodes && VersionAt(states[0], i) <= VersionAt(states[k], i)
  {
    hide Safe, Enabled, Harmless;
    if k > 0 {
      VersionsRise(env, states, actions, k - 1, i);
      RunSafe(env, states, actions, k - 1);
      assert Steps(env, states[k - 1], actions[k - 1], states[k]);
      StepSafe(env, states[k - 1], actions[k - 1]);
    }
  }

  // ---- convergence ----

  /** How many versions the nodes are behind the writer, together. */
  ghost function Gap(c: Cluster, ids: set<string>): int
    requires c.writer in c.nodes && ids <= c.nodes.Keys
    decreases |ids|
  {
    if ids == {} then 0
    else
      var i :| i in ids;
      VersionAt(c, c.writer) - VersionAt(c, i) + Gap(c, ids - {i})
  }

  lemma {:induction false} GapPick(c: Cluster, ids: set<string>)
    requires c.writer in c.nodes && ids <= c.nodes.Keys && ids != {}
    ensures exists j :: j in ids && Gap(c, ids) == VersionAt(c, c.writer) - VersionAt(c, j) + Gap(c, ids - {j})
  {
  }

  lemma {:induction false} GapWithout(c: Cluster, ids: set<string>, i: string)
    requires c.writer in c.nodes && ids <= c.nodes.Keys && i in ids
    ensures Gap(c, ids) == VersionAt(c, c.writer) - VersionAt(c, i) + Gap(c, ids - {i})
    decreases |ids|
  {
    GapPick(c, ids);
    hide Gap;
    var j :| j in ids && Gap(c, ids) == VersionAt(c, c.writer) - VersionAt(c, j) + Gap(c, ids - {j});
    if j != i {
      GapWithout(c, ids - {j}, i);
      GapWithout(c, ids - {i}, j);
      assert ids - {j} - {i} == ids - {i} - {j};
    }
  }

  lemma {:induction false} NoGap(c: Cluster)
    requires c.writer in c.nodes
    ensures Gap(c, {}) == 0
  {
  }

  lemma {:induction false} GapFalls(c: Cluster, c': Cluster, ids: set<string>)
    requires c.writer in c.nodes && ids <= c.nodes.Keys && Grows(c, c')
    requires VersionAt(c', c'.writer) == VersionAt(c, c.writer)
    ensures Gap(c', ids) <= Gap(c, ids)
    decreases |ids|
  {
    hide Gap;
    if ids == {} {
      NoGap(c);
      NoGap(c');
    } else {
      var i :| i in ids;
      GapWithout(c, ids, i);
      GapWithout(c', ids, i);
      GapFalls(c, c', ids - {i});
    }
  }

  lemma {:induction false} GapNonNegative(env: Env, c: Cluster, ids: set<string>)
    requires Safe(env, c) && ids <= c.nodes.Keys
    ensures Gap(c, ids) >= 0
    decreases |ids|
  {
    hide Gap, Inv, PullOk;
    if ids == {} {
      NoGap(c);
    } else {
      var i :| i in ids;
      assert NodeOk(env, c, i);
      GapWithout(c, ids, i);
      GapNonNegative(env, c, ids - {i});
    }
  }

  function FinishedPulls(actions: seq<Action>): nat {
    if actions == [] then 0
    else FinishedPulls(actions[..|actions| - 1]) + if actions[|actions| - 1].Apply? then 1 else 0
  }

  lemma {:induction false} GapStep(env: Env, c: Cluster, a: Action, c': Cluster)
    requires Safe(env, c) && Steps(env, c, a, c') && Harmless(c, a) && !a.Batch?
    ensures Safe(env, c') && c'.writer in c'.nodes && c'.nodes.Keys == c.nodes.Keys
    ensures Gap(c', c.nodes.Keys) + (if a.Apply? then 1 else 0) <= Gap(c, c.nodes.Keys)
  {
    hide Gap, Safe, Next;
    StepSafe(env, c, a);
    WriterThereSafe(env, c');
    var all := c.nodes.Keys;
    if a.Apply? {
      var i := a.node;
      GapWithout(c, all, i);
      GapWithout(c', all, i);
      GapFalls(c, c', all - {i});
    } else {
      GapFalls(c, c', all);
    }
  }

  /** Once the writer stops, pulls finish at most as many more times as the nodes are
      versions behind it, however the steps interleave. */
  lemma {:induction false} PullsBounded(env: Env, states: seq<Cluster>, actions: seq<Action>)
    requires IsRun(env, states, actions) && HarmlessRun(states, actions) && Safe(env, states[0])
    requires forall k | 0 <= k < |actions| :: !actions[k].Batch?
    ensures states[0].writer in states[0].nodes && FinishedPulls(actions) <= Gap(states[0], states[0].nodes.Keys)
  {
    hide Gap, Safe, Steps;
    WriterThereSafe(env, states[0]);
    PullsSoFar(env, states, actions, |actions|);
    var n := |actions|;
    assert actions[..n] == actions;
    RunSafe(env, states, actions, n);
    GapNonNegative(env, states[n], states[0].nodes.Keys);
  }

  lemma {:induction false} PullsSoFar(env: Env, states: seq<Cluster>, actions: seq<Action>, k: nat)
    requires IsRun(env, states, actions) && HarmlessRun(states, actions) && Safe(env, states[0]) && k <= |actions|
    requires forall j | 0 <= j < |actions| :: !actions[j].Batch?
    requires states[0].writer in states[0].nodes
    ensures Safe(env, states[k]) && states[k].writer in states[k].nodes && states[k].nodes.Keys == states[0].nodes.Keys
    ensures FinishedPulls(actions[..k]) + Gap(states[k], states[0].nodes.Keys) <= Gap(states[0], states[0].nodes.Keys)
  {
    hide Gap, Safe, Steps, Harmless;
    if k > 0 {
      PullsSoFar(env, states, actions, k - 1);
      GapStep(env, states[k - 1], actions[k - 1], states[k]);
      assert actions[..k][..k - 1] == actions[..k - 1];
    }
  }

  // ---- progress ----

  /** Node i's pull stands at p, and the writer at version v. */
  predicate At(c: Cluster, i: string, p: Pull, v: int) {
    i in c.nodes && c.writer in c.nodes && c.nodes[i].pull == p && VersionAt(c, c.writer) == v
  }

  /** The writer's answer of version v is on its way to node i, whose pass began below v. */
  predicate Awaits(c: Cluster, i: string, v: int) {
    && At(c, i, Idle, v) && c.nodes[i].pass.Some? && VersionAt(c, i) < v
    && c.writer in c.nodes[i].pass.value.answers
    && c.nodes[i].pass.value.answers[c.writer] == v && c.nodes[i].pass.value.captured < v
  }

  lemma {:induction false} AfterAnswer(env: Env, c0: Cluster, c1: Cluster, c2: Cluster, i: string)
    requires Safe(env, c0) && i in c0.nodes && c0.nodes[i].pull.Idle? && VersionAt(c0, i) < VersionAt(c0, c0.writer)
    requires Steps(env, c0, Capture(i), c1) && Steps(env, c1, Answering(i, c1.writer), c2)
    ensures Awaits(c2, i, VersionAt(c0, c0.writer))
  {
    hide Safe;
  }

  lemma {:induction false} AfterPing(env: Env, c: Cluster, i: string, v: int, rtt: int)
    requires Awaits(c, i, v)
    ensures Enabled(env, c, Ping(i, c.writer, rtt)) && Harmless(c, Ping(i, c.writer, rtt))
    ensures var c' := Next(env, c, Ping(i, c.writer, rtt));
      At(c', i, Choosing(v), v) && Eligible(c'.nodes[i].states, v, c'.writer)
  {
  }

  lemma {:induction false} AfterChoose(env: Env, c: Cluster, i: string, v: int, best: Option<string>)
    requires At(c, i, Choosing(v), v) && Eligible(c.nodes[i].states, v, c.writer) && Enabled(env, c, Choose(i, best))
    ensures best.Some? && At(Next(env, c, Choose(i, best)), i, Fetching(best.value, v), v)
  {
  }

  lemma {:induction false} AfterFetch(env: Env, c: Cluster, i: string, p: string, v: int, o: Order, s: Sections, snap: Snapshot)
    requires At(c, i, Fetching(p, v), v) && Enabled(env, c, Fetch(i, o, s, snap))
    ensures At(Next(env, c, Fetch(i, o, s, snap)), i, Applying(TextOf(snap), v), v)
  {
    hide TextOf, Exported;
  }

  lemma {:induction false} AfterApply(env: Env, c: Cluster, i: string, text: string, v: int, ext: nat -> bool, c': Cluster)
    requires Safe(env, c) && At(c, i, Applying(text, v), v) && Steps(env, c, Apply(i, ext), c')
    ensures i in c'.nodes && c'.writer in c'.nodes
    ensures VersionAt(c', i) == VersionAt(c', c'.writer) == v
    ensures TablesOf(c'.nodes[i].world.db) == TablesOf(c'.nodes[c'.writer].world.db)
  {
    hide Inv, Applied, PullOk, SnapshotOf, Ahead;
    AppliedTables(env, c, i, ext);
    ApplySafe(env, c, i, ext, c');
    assert NodeOk(env, c, c.writer);
  }

  /** One undisturbed round brings a node level: begin a pass, get the writer's answer,
      choose a peer, fetch its snapshot, apply it. */
  lemma {:induction false} CatchUp(env: Env, c: seq<Cluster>, i: string, rtt: int, best: Option<string>,
                                   o: Order, s: Sections, snap: Snapshot, ext: nat -> bool)
    requires |c| == 7 && Safe(env, c[0]) && i in c[0].nodes && c[0].nodes[i].pull.Idle?
    requires VersionAt(c[0], i) < VersionAt(c[0], c[0].writer)
    requires Steps(env, c[0], Capture(i), c[1]) && Steps(env, c[1], Answering(i, c[1].writer), c[2])
    requires Steps(env, c[2], Ping(i, c[2].writer, rtt), c[3]) && Steps(env, c[3], Choose(i, best), c[4])
    requires Steps(env, c[4], Fetch(i, o, s, snap), c[5]) && Steps(env, c[5], Apply(i, ext), c[6])
    ensures i in c[6].nodes && c[6].writer in c[6].nodes
    ensures VersionAt(c[6], i) == VersionAt(c[6], c[6].writer) >= VersionAt(c[0], c[0].writer)
    ensures TablesOf(c[6].nodes[i].world.db) == TablesOf(c[6].nodes[c[6].writer].world.db)
  {
    hide Safe, Next, Enabled, At, TextOf, Eligible, Awaits, Grows, IsBest;
    WriterThereSafe(env, c[0]);
    var v := VersionAt(c[0], c[0].writer);
    AfterAnswer(env, c[0], c[1], c[2], i);
    StepSafe(env, c[0], Capture(i));
    StepSafe(env, c[1], Answering(i, c[1].writer));
    AfterPing(env, c[2], i, v, rtt);
    StepSafe(env, c[2], Ping(i, c[2].writer, rtt));
    AfterChoose(env, c[3], i, v, best);
    StepSafe(env, c[3], Choose(i, best));
    AfterFetch(env, c[4], i, best.value, v, o, s, snap);
    StepSafe(env, c[4], Fetch(i, o, s, snap));
    StepSafe(env, c[5], Apply(i, ext));
    AfterApply(env, c[5], i, TextOf(snap), v, ext, c[6]);
    WriterThereSafe(env, c[6]);
  }
}
