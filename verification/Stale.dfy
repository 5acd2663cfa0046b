/** What a capture that a commit or a pull has overtaken does to the cluster: a heartbeat
    pass reads the node's version once and compares every answer of the pass with it
    (internal/mesh/coordinator.go:93-169). */
module Stale {
  import opened Text
  import opened Commands
  import opened Scopes
  import opened Store
  import opened Rules
  import opened Invariants
  import opened Batches
  import opened Agreement
  import opened Snapshots
  import opened Exports
  import opened Replication
  import opened Membership
  import opened Clashes
  import opened Mesh

  // ---- one round started by an answer above the captured version ----

  lemma {:induction false} PingStarts(env: Env, c: Cluster, i: string, j: string, b: string, rtt: int)
    requires c.writer in c.nodes && Enabled(env, c, Ping(i, j, rtt)) && c.nodes[i].pull.Idle? && b in c.nodes
    requires var pass := c.nodes[i].pass.value; pass.captured < pass.answers[j]
    requires var seen := c.nodes[i].pass.value.answers[j];
      IsBest(Recorded(c.nodes[i].states, j, Seen(seen, rtt)), seen, Some(b))
    ensures i in c.nodes
    ensures var c', seen := Next(env, c, Ping(i, j, rtt)), c.nodes[i].pass.value.answers[j];
      && c' == With(c, i, c'.nodes[i]) && i in c'.nodes
      && c'.nodes[i].pull == Choosing(seen) && c'.nodes[i].world == c.nodes[i].world
      && Enabled(env, c', Choose(i, Some(b)))
  {
    hide IsBest;
  }

  /** The node's member after the round. */
  ghost predicate Landed(env: Env, c: Cluster, i: string, text: string, ext: nat -> bool, c': Cluster) {
    && i in c.nodes && i in c'.nodes && c' == With(c, i, c'.nodes[i])
    && c'.nodes[i].world == Applied(env, c.nodes[i].world, i, text, ext) && c'.nodes[i].pull.Idle?
  }

  lemma {:induction false} RoundSteps(env: Env, c: Cluster, i: string, j: string, b: string, rtt: int,
                                      o: Order, s: Sections, snap: Snapshot, ext: nat -> bool)
      returns (states: seq<Cluster>)
    requires c.writer in c.nodes && Enabled(env, c, Ping(i, j, rtt)) && c.nodes[i].pull.Idle? && b in c.nodes && b != i
    requires var pass := c.nodes[i].pass.value; pass.captured < pass.answers[j]
    requires var seen := c.nodes[i].pass.value.answers[j];
      IsBest(Recorded(c.nodes[i].states, j, Seen(seen, rtt)), seen, Some(b))
    requires Exported(c.nodes[b].world.db, o, s, snap)
    ensures |states| == 5 && states[0] == c && Landed(env, c, i, TextOf(snap), ext, states[4])
    ensures IsRun(env, states, [Ping(i, j, rtt), Choose(i, Some(b)), Fetch(i, o, s, snap), Apply(i, ext)])
  {
    hide Exported, TextOf, Applied, IsBest, Pinged, Enabled, Next;
    PingStarts(env, c, i, j, b, rtt);
    var c1 := Next(env, c, Ping(i, j, rtt));
    assert Steps(env, c, Ping(i, j, rtt), c1);
    var c2, c3, c4 := PullSteps(env, c1, i, b, o, s, snap, ext);
    states := [c, c1, c2, c3, c4];
    assert c4 == With(c, i, c4.nodes[i]);
    FourSteps(env, states, [Ping(i, j, rtt), Choose(i, Some(b)), Fetch(i, o, s, snap), Apply(i, ext)]);
  }

  lemma {:induction false} PullSteps(env: Env, c1: Cluster, i: string, b: string,
                                     o: Order, s: Sections, snap: Snapshot, ext: nat -> bool)
      returns (c2: Cluster, c3: Cluster, c4: Cluster)
    requires c1.writer in c1.nodes && Enabled(env, c1, Choose(i, Some(b))) && b in c1.nodes && b != i
    requires Exported(c1.nodes[b].world.db, o, s, snap)
    ensures Steps(env, c1, Choose(i, Some(b)), c2) && Steps(env, c2, Fetch(i, o, s, snap), c3) && Steps(env, c3, Apply(i, ext), c4)
    ensures Landed(env, c1, i, TextOf(snap), ext, c4)
  {
    hide Exported, TextOf, Applied, IsBest;
    c2 := Next(env, c1, Choose(i, Some(b)));
    c3 := Next(env, c2, Fetch(i, o, s, snap));
    c4 := Next(env, c3, Apply(i, ext));
  }

  lemma {:induction false} FourSteps(env: Env, states: seq<Cluster>, actions: seq<Action>)
    requires |states| == 5 && |actions| == 4
    requires Steps(env, states[0], actions[0], states[1]) && Steps(env, states[1], actions[1], states[2])
    requires Steps(env, states[2], actions[2], states[3]) && Steps(env, states[3], actions[3], states[4])
    ensures IsRun(env, states, actions)
  {
    hide Steps;
  }

  /** Whenever an answer above the captured version finds the node idle, the undisturbed
      round that follows puts the node on the chosen peer's version and tables. So in a
      safe cluster it takes the node back exactly when that peer is behind it, and then
      the answer was not harmless. */
  lemma {:induction false} StaleRound(env: Env, c: Cluster, i: string, j: string, b: string, rtt: int,
                                      o: Order, s: Sections, snap: Snapshot, ext: nat -> bool)
    requires Safe(env, c) && Enabled(env, c, Ping(i, j, rtt)) && c.nodes[i].pull.Idle? && b in c.nodes && b != i
    requires var pass := c.nodes[i].pass.value; pass.captured < pass.answers[j]
    requires var seen := c.nodes[i].pass.value.answers[j];
      IsBest(Recorded(c.nodes[i].states, j, Seen(seen, rtt)), seen, Some(b))
    requires Exported(c.nodes[b].world.db, o, s, snap)
    ensures exists states: seq<Cluster> ::
      && IsRun(env, states, [Ping(i, j, rtt), Choose(i, Some(b)), Fetch(i, o, s, snap), Apply(i, ext)])
      && states[0] == c && i in states[4].nodes
      && VersionAt(states[4], i) == VersionAt(c, b)
      && TablesOf(states[4].nodes[i].world.db) == TablesOf(c.nodes[b].world.db)
      && (VersionAt(states[4], i) < VersionAt(c, i) ==> !Harmless(c, Ping(i, j, rtt)))
  {
    hide Exported, TextOf, Applied, IsRun, Inv, Consistent;
    ConsistentNode(env, c, b);
    var states := RoundSteps(env, c, i, j, b, rtt, o, s, snap, ext);
    AppliedExport(env, c.nodes[b].world.db, o, s, snap, c.nodes[i].world, i, ext);
    assert Ahead(c, i);
    assert c.nodes[i].pass.value.answers[j] <= VersionAt(c, b);
  }

  // ---- a run from a fresh cluster ----

  ghost predicate Leads(env: Env, states: seq<Cluster>, actions: seq<Action>, c: Cluster, c': Cluster) {
    IsRun(env, states, actions) && states[0] == c && states[|actions|] == c'
  }

  /** c' can be reached from c by steps of the cluster. */
  ghost predicate Reaches(env: Env, c: Cluster, c': Cluster) {
    exists states, actions :: Leads(env, states, actions, c, c')
  }

  lemma {:induction false} ReachesItself(env: Env, c: Cluster)
    ensures Reaches(env, c, c)
  {
    assert Leads(env, [c], [], c, c);
  }

  lemma {:induction false} ReachesOn(env: Env, c: Cluster, c1: Cluster, states: seq<Cluster>, actions: seq<Action>)
    requires Reaches(env, c, c1) && IsRun(env, states, actions) && states[0] == c1
    ensures Reaches(env, c, states[|actions|])
  {
    hide Steps;
    var before, done :| Leads(env, before, done, c, c1);
    var all, acts := before + states[1..], done + actions;
    forall k | 0 <= k < |acts|
      ensures Steps(env, all[k], acts[k], all[k + 1])
    {
      if k >= |done| {
        assert all[k] == states[k - |done|] && all[k + 1] == states[k + 1 - |done|];
      }
    }
    assert Leads(env, all, acts, c, states[|actions|]);
  }

  lemma {:induction false} ReachesNext(env: Env, c: Cluster, c1: Cluster, a: Action)
    requires Reaches(env, c, c1) && c1.writer in c1.nodes && Enabled(env, c1, a)
    ensures Reaches(env, c, Next(env, c1, a))
  {
    hide Enabled, Next, Reaches;
    var c2 := Next(env, c1, a);
    assert Steps(env, c1, a, c2);
    ReachesOn(env, c, c1, [c1, c2], [a]);
  }

  /** Nothing but a version. */
  predicate Blank(db: DB, version: int) {
    && db.domains == map[] && db.objects == map[] && db.bindings == {} && db.peers == map[]
    && db.bot == "" && db.lang == "" && db.version == version
  }

  const NO_ORDER := Order([], [], [], [])
  const NO_SECTIONS := Sections([], [], [], [])

  function BlankCopy(version: int): Snapshot {
    Snapshot(Header.Header(version, "", ""), [])
  }

  lemma {:induction false} BlankExport(env: Env, db: DB, v: int)
    requires Blank(db, v) && 0 <= v <= MAX_INT64
    ensures Inv(env, db) && Exported(db, NO_ORDER, NO_SECTIONS, BlankCopy(v))
  {
    EmptyInv(env, db);
    assert Displays(db.domains) == {};
  }

  /** A blank copy wipes the rule tables and takes the node to its version. */
  lemma {:induction false} BlankApplied(env: Env, db: DB, v: int, w: World, self: string, ext: nat -> bool)
    requires Blank(db, v) && 0 <= v <= MAX_INT64
    requires w.db.peers == map[] && w.db.bot == "" && w.db.lang == ""
    ensures Blank(Applied(env, w, self, TextOf(BlankCopy(v)), ext).db, v)
  {
    hide Inv, Exported, TextOf, Applied;
    BlankExport(env, db, v);
    AppliedExport(env, db, NO_ORDER, NO_SECTIONS, BlankCopy(v), w, self, ext);
  }

  /** A writer and one follower. */
  function Both(w: Member, b: Member, history: map<int, Tables>): Cluster {
    Cluster(map["w" := w, "b" := b], "w", history)
  }

  function Newcomer(): Member {
    Member(World(EMPTY, None), map[], None, Idle)
  }

  function NewPair(): Cluster {
    Both(Newcomer(), Newcomer(), map[0 := TablesOf(EMPTY)])
  }

  lemma {:induction false} BothWith(w: Member, b: Member, h: map<int, Tables>, m: Member)
    ensures With(Both(w, b, h), "w", m) == Both(m, b, h)
    ensures With(Both(w, b, h), "b", m) == Both(w, m, h)
  {
    assert map["w" := w, "b" := b]["w" := m] == map["w" := m, "b" := b];
    assert map["w" := w, "b" := b]["b" := m] == map["w" := w, "b" := m];
  }

  /** A batch of one command that succeeds takes the writer one version on. */
  lemma {:induction false} OneCommandStep(env: Env, c: Cluster, cmd: Command, ext: nat -> bool)
    requires c.writer in c.nodes && VersionAt(c, c.writer) < MAX_INT64
    requires WellFormed(cmd) && cmd.verb.IsMutating() && KindOf(cmd.typ) != ExternalKind
    requires RunOne(env, false, c.nodes[c.writer].world, cmd, false).outcome.r.Ok?
    requires RunOne(env, false, c.nodes[c.writer].world, cmd, false).w.db.version == VersionAt(c, c.writer)
    ensures var w := RunOne(env, false, c.nodes[c.writer].world, cmd, false).w;
      && Enabled(env, c, Action.Batch(false, Print(cmd), ext))
      && Next(env, c, Action.Batch(false, Print(cmd), ext)) == AfterBatch(c, w.(db := w.db.(version := w.db.version + 1)))
  {
    hide RunOne, Print, KindOf, Execute, WellFormed, CommitsClash;
    var w := c.nodes[c.writer].world;
    OneCommandBatch(env, w, cmd, ext);
    BatchVersion(env, false, w, Print(cmd), ext);
  }

  /** A pass of node i begins, or peer j answers in it. */
  lemma {:induction false} CaptureStep(env: Env, w: Member, b: Member, h: map<int, Tables>)
    ensures Enabled(env, Both(w, b, h), Capture("w")) && Enabled(env, Both(w, b, h), Capture("b"))
    ensures Next(env, Both(w, b, h), Capture("w")) == Both(w.(pass := Some(Pass(w.world.db.version, map[]))), b, h)
    ensures Next(env, Both(w, b, h), Capture("b")) == Both(w, b.(pass := Some(Pass(b.world.db.version, map[]))), h)
  {
    BothWith(w, b, h, w.(pass := Some(Pass(w.world.db.version, map[]))));
    BothWith(w, b, h, b.(pass := Some(Pass(b.world.db.version, map[]))));
  }

  lemma {:induction false} AnswerStep(env: Env, w: Member, b: Member, h: map<int, Tables>, captured: int)
    ensures w.pass == Some(Pass(captured, map[])) ==>
      && Enabled(env, Both(w, b, h), Answering("w", "b"))
      && Next(env, Both(w, b, h), Answering("w", "b")) ==
           Both(w.(pass := Some(Pass(captured, map["b" := b.world.db.version]))), b, h)
    ensures b.pass == Some(Pass(captured, map[])) ==>
      && Enabled(env, Both(w, b, h), Answering("b", "w"))
      && Next(env, Both(w, b, h), Answering("b", "w")) ==
           Both(w, b.(pass := Some(Pass(captured, map["w" := w.world.db.version]))), h)
  {
    BothWith(w, b, h, w.(pass := Some(Pass(captured, map["b" := b.world.db.version]))));
    BothWith(w, b, h, b.(pass := Some(Pass(captured, map["w" := w.world.db.version]))));
  }

  /** The follower, or the writer, is taken to the other's blank tables of version v. */
  lemma {:induction false} FollowerRound(env: Env, c: Cluster, w: Member, b: Member, h: map<int, Tables>, rtt: int, v: int,
                                         ext: nat -> bool)
      returns (m: Member)
    requires Reaches(env, c, Both(w, b, h)) && Blank(w.world.db, v) && 0 < v <= MAX_INT64
    requires b.states == map[] && b.pull.Idle? && b.pass == Some(Pass(0, map["w" := v]))
    requires b.world.db.peers == map[] && b.world.db.bot == "" && b.world.db.lang == ""
    ensures Blank(m.world.db, v) && m.pull.Idle? && Reaches(env, c, Both(w, m, h))
  {
    hide Exported, TextOf, Applied, IsRun, Reaches, Blank;
    BlankExport(env, w.world.db, v);
    BlankApplied(env, w.world.db, v, b.world, "b", ext);
    var c1 := Both(w, b, h);
    var states := RoundSteps(env, c1, "b", "w", "w", rtt, NO_ORDER, NO_SECTIONS, BlankCopy(v), ext);
    ReachesOn(env, c, c1, states, [Ping("b", "w", rtt), Choose("b", Some("w")), Fetch("b", NO_ORDER, NO_SECTIONS, BlankCopy(v)), Apply("b", ext)]);
    m := states[4].nodes["b"];
    BothWith(w, b, h, m);
  }

  lemma {:induction false} WriterRound(env: Env, c: Cluster, w: Member, b: Member, h: map<int, Tables>, rtt: int, v: int,
                                       ext: nat -> bool)
      returns (m: Member)
    requires Reaches(env, c, Both(w, b, h)) && Blank(b.world.db, v) && 0 < v <= MAX_INT64
    requires w.states == map[] && w.pull.Idle? && w.pass == Some(Pass(0, map["b" := v]))
    requires w.world.db.peers == map[] && w.world.db.bot == "" && w.world.db.lang == ""
    ensures Blank(m.world.db, v) && m.pull.Idle? && Reaches(env, c, Both(m, b, h))
  {
    hide Exported, TextOf, Applied, IsRun, Reaches, Blank;
    BlankExport(env, b.world.db, v);
    BlankApplied(env, b.world.db, v, w.world, "w", ext);
    var c1 := Both(w, b, h);
    var states := RoundSteps(env, c1, "w", "b", "b", rtt, NO_ORDER, NO_SECTIONS, BlankCopy(v), ext);
    ReachesOn(env, c, c1, states, [Ping("w", "b", rtt), Choose("w", Some("b")), Fetch("w", NO_ORDER, NO_SECTIONS, BlankCopy(v)), Apply("w", ext)]);
    m := states[4].nodes["w"];
    BothWith(w, b, h, m);
  }

  /** The batches of the run: a delete that finds nothing, and a write. */
  lemma {:induction false} DeleteStep(env: Env, c: Cluster, w: Member, b: Member, h: map<int, Tables>, v: int, ext: nat -> bool)
      returns (w': Member, h': map<int, Tables>)
    requires Reaches(env, c, Both(w, b, h)) && Blank(w.world.db, v) && 0 <= v < MAX_INT64
    ensures w' == w.(world := w.world.(db := w.world.db.(version := v + 1))) && Reaches(env, c, Both(w', b, h'))
  {
    hide RunOne, Print, KindOf, Execute, WellFormed, Reaches, GoodBatch, Next, DomainScopeOf, Canonical;
    DomainCommandForm(Delete, "http");
    DeleteNothing(env, w.world);
    OneCommandStep(env, Both(w, b, h), DELETE_HTTP, ext);
    ReachesNext(env, c, Both(w, b, h), Action.Batch(false, Print(DELETE_HTTP), ext));
    w' := w.(world := w.world.(db := w.world.db.(version := v + 1)));
    h' := h[v + 1 := TablesOf(w'.world.db)];
    BothWith(w, b, h, w');
  }

  lemma {:induction false} WriteStep(env: Env, c: Cluster, w: Member, b: Member, h: map<int, Tables>, v: int, ext: nat -> bool)
      returns (w': Member, h': map<int, Tables>)
    requires Reaches(env, c, Both(w, b, h)) && Blank(w.world.db, v) && w.world.db.ports == map[] && 0 <= v < MAX_INT64
    ensures w' == w.(world := w'.world) && w'.world.db.version == v + 1
    ensures w'.world.db.domains == map[DISPLAY := Row(DISPLAY, "-")]
    ensures w'.world.db.peers == map[] && w'.world.db.bot == "" && w'.world.db.lang == ""
    ensures Reaches(env, c, Both(w', b, h'))
  {
    hide RunOne, Print, KindOf, Execute, WellFormed, Reaches, GoodBatch, Next, DomainScopeOf, Canonical;
    DomainCommandForm(Write, "http");
    WriteToEmpty(env, w.world);
    OneCommandStep(env, Both(w, b, h), WRITE_HTTP, ext);
    ReachesNext(env, c, Both(w, b, h), Action.Batch(false, Print(WRITE_HTTP), ext));
    var db := RunOne(env, false, w.world, WRITE_HTTP, false).w.db;
    w' := w.(world := w.world.(db := db.(version := v + 1)));
    h' := h[v + 1 := TablesOf(w'.world.db)];
    BothWith(w, b, h, w');
  }

  lemma {:induction false} CaptureReached(env: Env, c: Cluster, w: Member, b: Member, h: map<int, Tables>)
    requires Reaches(env, c, Both(w, b, h))
    ensures Reaches(env, c, Both(w.(pass := Some(Pass(w.world.db.version, map[]))), b, h))
    ensures Reaches(env, c, Both(w, b.(pass := Some(Pass(b.world.db.version, map[]))), h))
  {
    hide Reaches;
    CaptureStep(env, w, b, h);
    ReachesNext(env, c, Both(w, b, h), Capture("w"));
    ReachesNext(env, c, Both(w, b, h), Capture("b"));
  }

  lemma {:induction false} AnswerReached(env: Env, c: Cluster, w: Member, b: Member, h: map<int, Tables>, captured: int)
    requires Reaches(env, c, Both(w, b, h))
    ensures w.pass == Some(Pass(captured, map[])) ==>
      Reaches(env, c, Both(w.(pass := Some(Pass(captured, map["b" := b.world.db.version]))), b, h))
    ensures b.pass == Some(Pass(captured, map[])) ==>
      Reaches(env, c, Both(w, b.(pass := Some(Pass(captured, map["w" := w.world.db.version]))), h))
  {
    hide Reaches;
    AnswerStep(env, w, b, h, captured);
    if w.pass == Some(Pass(captured, map[])) {
      ReachesNext(env, c, Both(w, b, h), Answering("w", "b"));
    }
    if b.pass == Some(Pass(captured, map[])) {
      ReachesNext(env, c, Both(w, b, h), Answering("b", "w"));
    }
  }

  /** The writer begins a pass at version 0 and commits version 1; the follower pulls it. */
  lemma {:induction false} FollowerAtOne(env: Env, rtt: int, ext: nat -> bool)
      returns (w: Member, b: Member, h: map<int, Tables>)
    ensures Reaches(env, NewPair(), Both(w, b, h))
    ensures w == Member(World(EMPTY.(version := 1), None), map[], Some(Pass(0, map[])), Idle)
    ensures Blank(b.world.db, 1) && b.pull.Idle?
  {
    hide Reaches;
    var c0, n := NewPair(), Newcomer();
    var started, asked := n.(pass := Some(Pass(0, map[]))), n.(pass := Some(Pass(0, map["w" := 1])));
    ReachesItself(env, c0);
    CaptureReached(env, c0, n, n, c0.history);
    w, h := DeleteStep(env, c0, started, n, c0.history, 0, ext);
    CaptureReached(env, c0, w, n, h);
    AnswerReached(env, c0, w, started, h, 0);
    b := FollowerRound(env, c0, w, asked, h, rtt, 1, ext);
  }

  lemma {:induction false} NewPairSafe(env: Env)
    ensures Fresh(NewPair()) && Safe(env, NewPair())
  {
    hide Safe;
    FreshSafe(env, NewPair());
  }

  ghost predicate WriterStands(c: Cluster, v: int, domains: map<string, Row>) {
    c.writer in c.nodes && VersionAt(c, c.writer) == v && c.nodes[c.writer].world.db.domains == domains
  }

  /** The run goes on: the writer commits a domain as version 2, then the follower's answer
      1 arrives. It is above the captured 0, so the writer goes back to version 1, its domain
      is lost, and its next batch makes another version 2. */
  lemma {:induction false} WriterFallsBack(env: Env, rtt: int, ext: nat -> bool)
    ensures Fresh(NewPair()) && Safe(env, NewPair())
    ensures exists c1, c2, c3 ::
      && Reaches(env, NewPair(), c1) && Reaches(env, c1, c2) && Reaches(env, c2, c3)
      && WriterStands(c1, 2, map[DISPLAY := Row(DISPLAY, "-")])
      && WriterStands(c2, 1, map[])
      && WriterStands(c3, 2, map[])
  {
    hide Reaches, Safe, Fresh, NewPair;
    NewPairSafe(env);
    var w1, b, h1 := FollowerAtOne(env, rtt, ext);
    var w2, h2 := WriteStep(env, NewPair(), w1, b, h1, 1, ext);
    var c1 := Both(w2, b, h2);
    var w3 := LateAnswer(env, w2, b, h2, rtt, ext);
    var c2 := Both(w3, b, h2);
    ReachesItself(env, c2);
    var w4, h4 := DeleteStep(env, c2, w3, b, h2, 1, ext);
    var c3 := Both(w4, b, h4);
    assert WriterStands(c1, 2, map[DISPLAY := Row(DISPLAY, "-")]) && WriterStands(c2, 1, map[]) && WriterStands(c3, 2, map[]);
  }

  lemma {:induction false} LateAnswer(env: Env, w: Member, b: Member, h: map<int, Tables>, rtt: int, ext: nat -> bool)
      returns (w': Member)
    requires w.states == map[] && w.pull.Idle? && w.pass == Some(Pass(0, map[])) && Blank(b.world.db, 1)
    requires w.world.db.peers == map[] && w.world.db.bot == "" && w.world.db.lang == ""
    ensures Blank(w'.world.db, 1) && Reaches(env, Both(w, b, h), Both(w', b, h))
  {
    hide Reaches;
    var c := Both(w, b, h);
    ReachesItself(env, c);
    AnswerReached(env, c, w, b, h, 0);
    w' := WriterRound(env, c, w.(pass := Some(Pass(0, map["b" := 1]))), b, h, rtt, 1, ext);
  }
}
