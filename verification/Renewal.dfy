/** The renewal queue: deduplicated tasks, concurrent workers that turn a failed step into
    the next one, throttled alerts, and the scan that feeds it
    (internal/cert/renew/worker.go, internal/cert/renew/scanner.go). */
module Renewal {
  import opened Text
  import opened Certificates

  // ---- tasks ----

  datatype TaskType = Renew | FindReplacement | AlertAdmin

  datatype Task = Task(typ: TaskType, fingerprint: string, identifier: string, identifiers: seq<string>, source: string)

  /** The dedup key "<type>:<fingerprint>". */
  datatype Key = Key(typ: TaskType, fingerprint: string)

  function KeyOf(t: Task): Key {
    Key(t.typ, t.fingerprint)
  }

  const CAPACITY := 64
  const DAY := 24 * 3600

  /** What is still ahead of a task: renew, then find a replacement, then alert. */
  function Rank(t: TaskType): (r: nat)
    ensures 1 <= r <= 3
  {
    match t
    case Renew => 3
    case FindReplacement => 2
    case AlertAdmin => 1
  }

  /** What a failed step enqueues. */
  function NextTask(t: Task): Task
    requires !t.typ.AlertAdmin?
  {
    Task(if t.typ.Renew? then FindReplacement else AlertAdmin, t.fingerprint, t.identifier, [], t.source)
  }

  // ---- the interleaved machine ----

  /** How far a worker is with its task. */
  datatype Phase =
    | Working
    | Sending(child: Task)
    | Throttled(now: int)
    | Stamped(now: int)
    | Finishing

  datatype Job = Job(task: Task, phase: Phase)

  datatype Alert = Alert(fingerprint: string, at: int)

  /** queue is the channel, sending the enqueuers between their pending entry and their send,
      jobs what each worker is at. */
  datatype State = State(
    queue: seq<Task>,
    pending: set<Key>,
    sending: seq<Task>,
    jobs: seq<Option<Job>>,
    alerted: map<string, int>,
    alerts: seq<Alert>)

  datatype Action =
    | Offer(task: Task)
    | Send(i: nat)
    | Receive(worker: nat)
    | Succeed(worker: nat)
    | Fail(worker: nat)
    | SendChild(worker: nat)
    | Check(worker: nat, now: int)
    | Stamp(worker: nat)
    | Deliver(worker: nat)
    | Finish(worker: nat)

  predicate HasJob(s: State, w: nat) {
    w < |s.jobs| && s.jobs[w].Some?
  }

  predicate InPhase(s: State, w: nat, phase: Phase) {
    HasJob(s, w) && s.jobs[w].value.phase == phase
  }

  predicate Enabled(s: State, a: Action) {
    match a
    case Offer(_) => true
    case Send(i) => i < |s.sending|
    case Receive(w) => w < |s.jobs| && s.jobs[w].None? && s.queue != []
    case Succeed(w) => InPhase(s, w, Working) && !s.jobs[w].value.task.typ.AlertAdmin?
    case Fail(w) => InPhase(s, w, Working) && !s.jobs[w].value.task.typ.AlertAdmin?
    case SendChild(w) => HasJob(s, w) && s.jobs[w].value.phase.Sending?
    case Check(w, _) => InPhase(s, w, Working) && s.jobs[w].value.task.typ.AlertAdmin?
    case Stamp(w) => HasJob(s, w) && s.jobs[w].value.phase.Throttled?
    case Deliver(w) => HasJob(s, w) && s.jobs[w].value.phase.Stamped?
    case Finish(w) => InPhase(s, w, Finishing)
  }

  function WithPhase(s: State, w: nat, phase: Phase): State
    requires HasJob(s, w)
  {
    s.(jobs := s.jobs[w := Some(s.jobs[w].value.(phase := phase))])
  }

  /** The send of Enqueue: into the channel, or dropped with its pending entry when full. */
  function Sent(s: State, t: Task): State {
    if |s.queue| < CAPACITY then s.(queue := s.queue + [t]) else s.(pending := s.pending - {KeyOf(t)})
  }

  function Without<T>(s: seq<T>, i: nat): seq<T>
    requires i < |s|
  {
    s[..i] + s[i + 1..]
  }

  function Next(s: State, a: Action): State
    requires Enabled(s, a)
  {
    match a
    case Offer(t) =>
      if KeyOf(t) in s.pending then s else s.(pending := s.pending + {KeyOf(t)}, sending := s.sending + [t])
    case Send(i) => Sent(s.(sending := Without(s.sending, i)), s.sending[i])
    case Receive(w) => s.(jobs := s.jobs[w := Some(Job(s.queue[0], Working))], queue := s.queue[1..])
    case Succeed(w) => WithPhase(s, w, Finishing)
    case Fail(w) =>
      var child := NextTask(s.jobs[w].value.task);
      if KeyOf(child) in s.pending then WithPhase(s, w, Finishing)
      else WithPhase(s.(pending := s.pending + {KeyOf(child)}), w, Sending(child))
    case SendChild(w) => WithPhase(Sent(s, s.jobs[w].value.phase.child), w, Finishing)
    case Check(w, now) =>
      var fp := s.jobs[w].value.task.fingerprint;
      if fp in s.alerted && now - s.alerted[fp] < DAY then WithPhase(s, w, Finishing) else WithPhase(s, w, Throttled(now))
    case Stamp(w) =>
      var now := s.jobs[w].value.phase.now;
      WithPhase(s.(alerted := s.alerted[s.jobs[w].value.task.fingerprint := now]), w, Stamped(now))
    case Deliver(w) =>
      var j := s.jobs[w].value;
      WithPhase(s.(alerts := s.alerts + [Alert(j.task.fingerprint, j.phase.now)]), w, Finishing)
    case Finish(w) => s.(pending := s.pending - {KeyOf(s.jobs[w].value.task)}, jobs := s.jobs[w := None])
  }

  // ---- each pending key is held once ----

  function KeysOf(tasks: seq<Task>): multiset<Key> {
    if tasks == [] then multiset{} else KeysOf(tasks[..|tasks| - 1]) + multiset{KeyOf(tasks[|tasks| - 1])}
  }

  /** The keys a worker holds: its task's, and its child's while that is being sent. */
  function JobKeys(j: Option<Job>): multiset<Key> {
    match j
    case None => multiset{}
    case Some(job) =>
      multiset{KeyOf(job.task)} + if job.phase.Sending? then multiset{KeyOf(job.phase.child)} else multiset{}
  }

  function HeldBy(jobs: seq<Option<Job>>): multiset<Key> {
    if jobs == [] then multiset{} else HeldBy(jobs[..|jobs| - 1]) + JobKeys(jobs[|jobs| - 1])
  }

  /** Every key being sent, queued or in flight. */
  function Held(s: State): multiset<Key> {
    KeysOf(s.sending) + KeysOf(s.queue) + HeldBy(s.jobs)
  }

  lemma {:induction false} KeysAppend(tasks: seq<Task>, t: Task)
    ensures KeysOf(tasks + [t]) == KeysOf(tasks) + multiset{KeyOf(t)}
  {
    assert (tasks + [t])[..|tasks|] == tasks;
  }

  lemma {:induction false} KeysLast(tasks: seq<Task>)
    requires tasks != []
    ensures KeysOf(tasks) == KeysOf(tasks[..|tasks| - 1]) + multiset{KeyOf(tasks[|tasks| - 1])}
  {
  }

  lemma {:induction false} Swapped(a: multiset<Key>, x: multiset<Key>, y: multiset<Key>)
    ensures a + x + y == a + y + x
  {
  }

  lemma {:induction false} WithoutInit(tasks: seq<Task>, i: nat)
    requires i < |tasks| - 1
    ensures Without(tasks, i) == Without(tasks[..|tasks| - 1], i) + [tasks[|tasks| - 1]]
  {
  }

  lemma {:induction false} KeysWithout(tasks: seq<Task>, i: nat)
    requires i < |tasks|
    ensures KeysOf(tasks) == KeysOf(Without(tasks, i)) + multiset{KeyOf(tasks[i])}
  {
    hide KeysOf, KeyOf;
    var n := |tasks| - 1;
    KeysLast(tasks);
    if i < n {
      hide Without;
      KeysWithout(tasks[..n], i);
      WithoutInit(tasks, i);
      KeysAppend(Without(tasks[..n], i), tasks[n]);
      Swapped(KeysOf(Without(tasks[..n], i)), multiset{KeyOf(tasks[i])}, multiset{KeyOf(tasks[n])});
    } else {
      assert Without(tasks, i) == tasks[..n];
    }
  }

  lemma {:induction false} HeldReplaced(jobs: seq<Option<Job>>, w: nat, j: Option<Job>)
    requires w < |jobs|
    ensures HeldBy(jobs[w := j]) + JobKeys(jobs[w]) == HeldBy(jobs) + JobKeys(j)
  {
    hide JobKeys;
    var n := |jobs| - 1;
    if w < n {
      HeldReplaced(jobs[..n], w, j);
      assert jobs[w := j][..n] == jobs[..n][w := j];
      var a, b, k := HeldBy(jobs[..n][w := j]), HeldBy(jobs[..n]), JobKeys(jobs[n]);
      assert HeldBy(jobs[w := j]) == a + k && HeldBy(jobs) == b + k;
      assert a + k + JobKeys(jobs[w]) == (a + JobKeys(jobs[w])) + k;
    } else {
      assert jobs[w := j][..n] == jobs[..n];
    }
  }

  /** The pending set is exactly the keys being sent, queued or in flight, each once. */
  ghost predicate PendingExact(s: State) {
    Held(s) == multiset(s.pending)
  }

  lemma {:induction false} OneMore(pending: set<Key>, k: Key)
    requires k !in pending
    ensures multiset(pending + {k}) == multiset(pending) + multiset{k}
  {
  }

  lemma {:induction false} OneLess(pending: set<Key>, k: Key)
    requires k in pending
    ensures multiset(pending) == multiset(pending - {k}) + multiset{k}
  {
  }

  /** A phase change that keeps the worker's keys keeps what is held. */
  lemma {:induction false} PhaseHeld(s: State, w: nat, phase: Phase, more: multiset<Key>, fewer: multiset<Key>)
    requires HasJob(s, w)
    requires JobKeys(Some(s.jobs[w].value.(phase := phase))) + fewer == JobKeys(s.jobs[w]) + more
    ensures Held(WithPhase(s, w, phase)) + fewer == Held(s) + more
  {
    hide JobKeys, KeysOf, HeldBy;
    var j := Some(s.jobs[w].value.(phase := phase));
    HeldReplaced(s.jobs, w, j);
    Balance(HeldBy(s.jobs[w := j]), JobKeys(s.jobs[w]), HeldBy(s.jobs), JobKeys(j), fewer, more);
    var q := KeysOf(s.sending) + KeysOf(s.queue);
    assert q + HeldBy(s.jobs[w := j]) + fewer == q + (HeldBy(s.jobs[w := j]) + fewer);
    assert q + HeldBy(s.jobs) + more == q + (HeldBy(s.jobs) + more);
  }

  lemma {:induction false} Balance(a: multiset<Key>, x: multiset<Key>, b: multiset<Key>, y: multiset<Key>,
                                   fewer: multiset<Key>, more: multiset<Key>)
    requires a + x == b + y && y + fewer == x + more
    ensures a + fewer == b + more
  {
    forall k: Key
      ensures (a + fewer)[k] == (b + more)[k]
    {
      assert (a + x)[k] == (b + y)[k] && (y + fewer)[k] == (x + more)[k];
    }
  }

  lemma {:induction false} Plain(a: multiset<Key>)
    ensures a + multiset{} == a
  {
  }

  lemma {:induction false} SameKeys(s: State, w: nat, phase: Phase)
    requires HasJob(s, w) && JobKeys(Some(s.jobs[w].value.(phase := phase))) == JobKeys(s.jobs[w])
    ensures Held(WithPhase(s, w, phase)) == Held(s)
  {
    hide JobKeys, Held;
    PhaseHeld(s, w, phase, multiset{}, multiset{});
    Plain(Held(WithPhase(s, w, phase)));
    Plain(Held(s));
  }

  lemma {:induction false} MoreKeys(s: State, w: nat, phase: Phase, k: Key)
    requires HasJob(s, w) && JobKeys(Some(s.jobs[w].value.(phase := phase))) == JobKeys(s.jobs[w]) + multiset{k}
    ensures Held(WithPhase(s, w, phase)) == Held(s) + multiset{k}
  {
    hide JobKeys, Held;
    Plain(JobKeys(Some(s.jobs[w].value.(phase := phase))));
    PhaseHeld(s, w, phase, multiset{k}, multiset{});
    Plain(Held(WithPhase(s, w, phase)));
  }

  lemma {:induction false} FewerKeys(s: State, w: nat, phase: Phase, k: Key)
    requires HasJob(s, w) && JobKeys(Some(s.jobs[w].value.(phase := phase))) + multiset{k} == JobKeys(s.jobs[w])
    ensures Held(WithPhase(s, w, phase)) + multiset{k} == Held(s)
  {
    hide JobKeys, Held;
    Plain(JobKeys(s.jobs[w]));
    PhaseHeld(s, w, phase, multiset{}, multiset{k});
    Plain(Held(s));
  }

  /** Replacing the job of a worker that has none, or leaving it with none. */
  lemma {:induction false} JobTaken(jobs: seq<Option<Job>>, w: nat, j: Job)
    requires w < |jobs| && jobs[w].None?
    ensures HeldBy(jobs[w := Some(j)]) == HeldBy(jobs) + JobKeys(Some(j))
  {
    hide HeldBy;
    HeldReplaced(jobs, w, Some(j));
    Plain(HeldBy(jobs[w := Some(j)]));
  }

  lemma {:induction false} JobDropped(jobs: seq<Option<Job>>, w: nat)
    requires w < |jobs|
    ensures HeldBy(jobs[w := None]) + JobKeys(jobs[w]) == HeldBy(jobs)
  {
    hide HeldBy;
    HeldReplaced(jobs, w, None);
    Plain(HeldBy(jobs));
  }

  lemma {:induction false} OfferExact(s: State, t: Task)
    requires PendingExact(s)
    ensures PendingExact(Next(s, Offer(t)))
  {
    hide KeysOf, HeldBy;
    if KeyOf(t) !in s.pending {
      KeysAppend(s.sending, t);
      OneMore(s.pending, KeyOf(t));
    }
  }

  /** The send moves the key of a task that is on its way into the channel, or drops it. */
  lemma {:induction false} SentExact(s: State, t: Task)
    requires Held(s) + multiset{KeyOf(t)} == multiset(s.pending)
    ensures PendingExact(Sent(s, t))
  {
    hide KeysOf, HeldBy;
    if |s.queue| < CAPACITY {
      KeysAppend(s.queue, t);
    } else {
      assert KeyOf(t) in multiset(s.pending);
      OneLess(s.pending, KeyOf(t));
      Cancel(Held(s), multiset(s.pending - {KeyOf(t)}), multiset{KeyOf(t)});
    }
  }

  lemma {:induction false} Cancel(a: multiset<Key>, b: multiset<Key>, c: multiset<Key>)
    requires a + c == b + c
    ensures a == b
  {
    assert a == (a + c) - c && b == (b + c) - c;
  }

  lemma {:induction false} SendExact(s: State, i: nat)
    requires PendingExact(s) && Enabled(s, Send(i))
    ensures PendingExact(Next(s, Send(i)))
  {
    hide KeysOf, HeldBy;
    KeysWithout(s.sending, i);
    SentExact(s.(sending := Without(s.sending, i)), s.sending[i]);
  }

  lemma {:induction false} ReceiveExact(s: State, w: nat)
    requires PendingExact(s) && Enabled(s, Receive(w))
    ensures PendingExact(Next(s, Receive(w)))
  {
    hide KeysOf, HeldBy;
    KeysWithout(s.queue, 0);
    assert Without(s.queue, 0) == s.queue[1..];
    JobTaken(s.jobs, w, Job(s.queue[0], Working));
    var k := multiset{KeyOf(s.queue[0])};
    Regrouped(KeysOf(s.sending), KeysOf(s.queue[1..]), k, HeldBy(s.jobs));
  }

  lemma {:induction false} Regrouped(a: multiset<Key>, b: multiset<Key>, k: multiset<Key>, c: multiset<Key>)
    ensures a + (b + k) + c == a + b + (c + k)
  {
  }

  lemma {:induction false} FailExact(s: State, w: nat)
    requires PendingExact(s) && Enabled(s, Fail(w))
    ensures PendingExact(Next(s, Fail(w)))
  {
    hide KeysOf, HeldBy;
    var child := NextTask(s.jobs[w].value.task);
    if KeyOf(child) in s.pending {
      SameKeys(s, w, Finishing);
    } else {
      var s1 := s.(pending := s.pending + {KeyOf(child)});
      OneMore(s.pending, KeyOf(child));
      MoreKeys(s1, w, Sending(child), KeyOf(child));
    }
  }

  lemma {:induction false} SendChildExact(s: State, w: nat)
    requires PendingExact(s) && Enabled(s, SendChild(w))
    ensures PendingExact(Next(s, SendChild(w)))
  {
    hide KeysOf, HeldBy;
    var child := s.jobs[w].value.phase.child;
    var s1 := WithPhase(s, w, Finishing);
    FewerKeys(s, w, Finishing, KeyOf(child));
    SentExact(s1, child);
    assert Next(s, SendChild(w)) == Sent(s1, child);
  }

  lemma {:induction false} FinishExact(s: State, w: nat)
    requires PendingExact(s) && Enabled(s, Finish(w))
    ensures PendingExact(Next(s, Finish(w)))
  {
    hide KeysOf, HeldBy;
    var k := KeyOf(s.jobs[w].value.task);
    JobDropped(s.jobs, w);
    var s1 := s.(jobs := s.jobs[w := None]);
    var q := KeysOf(s.sending) + KeysOf(s.queue);
    assert q + (HeldBy(s1.jobs) + multiset{k}) == Held(s1) + multiset{k};
    assert k in multiset(s.pending);
    OneLess(s.pending, k);
    Cancel(Held(s1), multiset(s.pending - {k}), multiset{k});
  }

  lemma {:induction false} PhaseExact(s: State, w: nat, phase: Phase)
    requires PendingExact(s) && HasJob(s, w) && !phase.Sending? && !s.jobs[w].value.phase.Sending?
    ensures PendingExact(WithPhase(s, w, phase))
  {
    hide Held;
    SameKeys(s, w, phase);
  }

  /** In every interleaving of enqueuers and workers the pending set stays exact. */
  lemma {:induction false} StepExact(s: State, a: Action)
    requires PendingExact(s) && Enabled(s, a)
    ensures PendingExact(Next(s, a))
  {
    hide PendingExact;
    match a
    case Offer(t) => OfferExact(s, t);
    case Send(i) => SendExact(s, i);
    case Receive(w) => ReceiveExact(s, w);
    case Succeed(w) => PhaseExact(s, w, Finishing);
    case Fail(w) => FailExact(s, w);
    case SendChild(w) => SendChildExact(s, w);
    case Check(w, now) =>
      PhaseExact(s, w, Finishing);
      PhaseExact(s, w, Throttled(now));
    case Stamp(w) =>
      AlertsAside(s, s.(alerted := s.alerted[s.jobs[w].value.task.fingerprint := s.jobs[w].value.phase.now]));
      PhaseExact(s.(alerted := s.alerted[s.jobs[w].value.task.fingerprint := s.jobs[w].value.phase.now]), w,
                 Stamped(s.jobs[w].value.phase.now));
    case Deliver(w) =>
      var s1 := s.(alerts := s.alerts + [Alert(s.jobs[w].value.task.fingerprint, s.jobs[w].value.phase.now)]);
      AlertsAside(s, s1);
      PhaseExact(s1, w, Finishing);
    case Finish(w) => FinishExact(s, w);
  }

  lemma {:induction false} AlertsAside(s: State, s': State)
    requires PendingExact(s) && s' == s.(alerted := s'.alerted, alerts := s'.alerts)
    ensures PendingExact(s')
  {
  }

  /** No two workers hold the same key. */
  lemma {:induction false} JobsDistinct(s: State, i: nat, j: nat)
    requires PendingExact(s) && HasJob(s, i) && HasJob(s, j) && i != j
    ensures KeyOf(s.jobs[i].value.task) != KeyOf(s.jobs[j].value.task)
  {
    hide KeysOf, HeldBy;
    var k := KeyOf(s.jobs[i].value.task);
    JobDropped(s.jobs, i);
    JobDropped(s.jobs[i := None], j);
    var rest := s.jobs[i := None][j := None];
    assert HeldBy(s.jobs)[k] == HeldBy(rest)[k] + JobKeys(s.jobs[j])[k] + JobKeys(s.jobs[i])[k];
    assert multiset(s.pending)[k] <= 1;
    assert Held(s)[k] >= HeldBy(s.jobs)[k];
  }

  // ---- alerts ----

  /** Alerts for one fingerprint are at least a day apart. */
  predicate Spaced(alerts: seq<Alert>) {
    forall i, j | 0 <= i < j < |alerts| && alerts[i].fingerprint == alerts[j].fingerprint :: alerts[i].at + DAY <= alerts[j].at
  }

  /** Every alert of a fingerprint lies at least a day before a time. */
  predicate DayBefore(alerts: seq<Alert>, fp: string, now: int) {
    forall i | 0 <= i < |alerts| && alerts[i].fingerprint == fp :: alerts[i].at + DAY <= now
  }

  /** What a worker that is alerting relies on. */
  predicate AlertingOk(s: State, job: Job) {
    var fp := job.task.fingerprint;
    match job.phase
    case Throttled(now) => job.task.typ.AlertAdmin? && (fp in s.alerted ==> s.alerted[fp] + DAY <= now)
    case Stamped(now) =>
      job.task.typ.AlertAdmin? && fp in s.alerted && s.alerted[fp] == now && DayBefore(s.alerts, fp, now)
    case _ => true
  }

  ghost predicate AlertsOk(s: State) {
    && Spaced(s.alerts)
    && (forall i | 0 <= i < |s.alerts| ::
         s.alerts[i].fingerprint in s.alerted && s.alerts[i].at <= s.alerted[s.alerts[i].fingerprint])
    && (forall w: nat | HasJob(s, w) :: AlertingOk(s, s.jobs[w].value))
  }

  lemma {:induction false} StampOk(s: State, w: nat)
    requires PendingExact(s) && AlertsOk(s) && Enabled(s, Stamp(w))
    ensures AlertsOk(Next(s, Stamp(w)))
  {
    hide PendingExact;
    var s' := Next(s, Stamp(w));
    var job := s.jobs[w].value;
    assert AlertingOk(s, job);
    forall v: nat | HasJob(s', v)
      ensures AlertingOk(s', s'.jobs[v].value)
    {
      if v != w {
        assert AlertingOk(s, s.jobs[v].value);
        JobsDistinct(s, v, w);
      }
    }
  }

  lemma {:induction false} DeliverOk(s: State, w: nat)
    requires PendingExact(s) && AlertsOk(s) && Enabled(s, Deliver(w))
    ensures AlertsOk(Next(s, Deliver(w)))
  {
    hide PendingExact;
    var s' := Next(s, Deliver(w));
    assert AlertingOk(s, s.jobs[w].value);
    forall v: nat | HasJob(s', v)
      ensures AlertingOk(s', s'.jobs[v].value)
    {
      if v != w {
        assert AlertingOk(s, s.jobs[v].value);
        JobsDistinct(s, v, w);
      }
    }
  }

  lemma {:induction false} OtherStepsOk(s: State, a: Action)
    requires AlertsOk(s) && Enabled(s, a) && !a.Stamp? && !a.Deliver?
    ensures AlertsOk(Next(s, a))
  {
    var s' := Next(s, a);
    assert s'.alerts == s.alerts && s'.alerted == s.alerted && |s'.jobs| == |s.jobs|;
    forall v: nat | HasJob(s', v)
      ensures AlertingOk(s', s'.jobs[v].value)
    {
      if HasJob(s, v) {
        assert AlertingOk(s, s.jobs[v].value);
      }
    }
  }

  // ---- runs ----

  ghost predicate IsRun(states: seq<State>, actions: seq<Action>) {
    && |states| == |actions| + 1
    && forall k | 0 <= k < |actions| :: Enabled(states[k], actions[k]) && states[k + 1] == Next(states[k], actions[k])
  }

  predicate Idle(s: State) {
    s.queue == [] && s.pending == {} && s.sending == [] && s.alerts == [] && s.alerted == map[]
    && forall w | 0 <= w < |s.jobs| :: s.jobs[w].None?
  }

  lemma {:induction false} IdleExact(s: State)
    requires Idle(s)
    ensures PendingExact(s) && AlertsOk(s)
  {
    NoJobsHeld(s.jobs);
  }

  lemma {:induction false} NoJobsHeld(jobs: seq<Option<Job>>)
    requires forall w | 0 <= w < |jobs| :: jobs[w].None?
    ensures HeldBy(jobs) == multiset{}
  {
    if jobs != [] {
      NoJobsHeld(jobs[..|jobs| - 1]);
    }
  }

  /** However enqueuers and workers interleave, the pending set is exactly the keys being
      sent, queued or in flight, each once, and alerts for one fingerprint are at least a
      day apart although the throttle is read and written without a lock. */
  lemma {:induction false} RunOk(states: seq<State>, actions: seq<Action>, k: nat)
    requires IsRun(states, actions) && k <= |actions| && Idle(states[0])
    ensures PendingExact(states[k]) && AlertsOk(states[k])
  {
    hide PendingExact, AlertsOk, Next, Enabled;
    if k == 0 {
      IdleExact(states[0]);
    } else {
      RunOk(states, actions, k - 1);
      var s, a := states[k - 1], actions[k - 1];
      StepExact(s, a);
      if a.Stamp? {
        StampOk(s, a.worker);
      } else if a.Deliver? {
        DeliverOk(s, a.worker);
      } else {
        OtherStepsOk(s, a);
      }
    }
  }

  // ---- work is finite ----

  function TaskWeight(t: Task): nat {
    10 * Rank(t.typ)
  }

  function Weight(tasks: seq<Task>, extra: nat): nat {
    if tasks == [] then 0 else Weight(tasks[..|tasks| - 1], extra) + TaskWeight(tasks[|tasks| - 1]) + extra
  }

  function JobWeight(j: Option<Job>): nat {
    match j
    case None => 0
    case Some(job) =>
      match job.phase
      case Working => TaskWeight(job.task) + 7
      case Sending(child) => TaskWeight(child) + 11
      case Throttled(_) => 16
      case Stamped(_) => 15
      case Finishing => 1
  }

  function JobsWeight(jobs: seq<Option<Job>>): nat {
    if jobs == [] then 0 else JobsWeight(jobs[..|jobs| - 1]) + JobWeight(jobs[|jobs| - 1])
  }

  /** How much work is left, at most. */
  function Work(s: State): nat {
    Weight(s.sending, 9) + Weight(s.queue, 8) + JobsWeight(s.jobs)
  }

  lemma {:induction false} WeightAppend(tasks: seq<Task>, t: Task, extra: nat)
    ensures Weight(tasks + [t], extra) == Weight(tasks, extra) + TaskWeight(t) + extra
  {
    assert (tasks + [t])[..|tasks|] == tasks;
  }

  lemma {:induction false} WeightWithout(tasks: seq<Task>, i: nat, extra: nat)
    requires i < |tasks|
    ensures Weight(tasks, extra) == Weight(Without(tasks, i), extra) + TaskWeight(tasks[i]) + extra
  {
    var n := |tasks| - 1;
    if i < n {
      WeightWithout(tasks[..n], i, extra);
      assert Without(tasks, i) == Without(tasks[..n], i) + [tasks[n]];
      WeightAppend(Without(tasks[..n], i), tasks[n], extra);
    } else {
      assert Without(tasks, i) == tasks[..n];
    }
  }

  lemma {:induction false} JobsReplaced(jobs: seq<Option<Job>>, w: nat, j: Option<Job>)
    requires w < |jobs|
    ensures JobsWeight(jobs[w := j]) + JobWeight(jobs[w]) == JobsWeight(jobs) + JobWeight(j)
  {
    hide JobWeight;
    var n := |jobs| - 1;
    if w < n {
      JobsReplaced(jobs[..n], w, j);
      assert jobs[w := j][..n] == jobs[..n][w := j];
    } else {
      assert jobs[w := j][..n] == jobs[..n];
    }
  }

  lemma {:induction false} SentWork(s: State, t: Task)
    ensures Work(Sent(s, t)) <= Work(s) + TaskWeight(t) + 8
  {
    if |s.queue| < CAPACITY {
      WeightAppend(s.queue, t, 8);
    }
  }

  /** Offering a task adds a bounded amount of work; every other step removes some. */
  lemma {:induction false} StepWork(s: State, a: Action)
    requires Enabled(s, a)
    ensures a.Offer? ==> Work(Next(s, a)) <= Work(s) + 39
    ensures !a.Offer? ==> Work(Next(s, a)) < Work(s)
  {
    hide Weight, JobsWeight;
    match a
    case Offer(t) => WeightAppend(s.sending, t, 9);
    case Send(i) =>
      WeightWithout(s.sending, i, 9);
      SentWork(s.(sending := Without(s.sending, i)), s.sending[i]);
    case Receive(w) =>
      WeightWithout(s.queue, 0, 8);
      assert Without(s.queue, 0) == s.queue[1..];
      JobsReplaced(s.jobs, w, Some(Job(s.queue[0], Working)));
    case SendChild(w) =>
      var job := s.jobs[w].value;
      SentWork(s, job.phase.child);
      var s1 := Sent(s, job.phase.child);
      JobsReplaced(s1.jobs, w, Some(job.(phase := Finishing)));
    case Finish(w) => JobsReplaced(s.jobs, w, None);
    case _ => PhaseWork(s, a);
  }

  lemma {:induction false} PhaseWork(s: State, a: Action)
    requires Enabled(s, a) && (a.Succeed? || a.Fail? || a.Check? || a.Stamp? || a.Deliver?)
    ensures Work(Next(s, a)) < Work(s)
  {
    hide Weight, JobsWeight;
    var s' := Next(s, a);
    JobsReplaced(s.jobs, a.worker, s'.jobs[a.worker]);
    assert s'.jobs == s.jobs[a.worker := s'.jobs[a.worker]];
    assert JobWeight(s'.jobs[a.worker]) < JobWeight(s.jobs[a.worker]);
  }

  function Offers(actions: seq<Action>): nat {
    if actions == [] then 0 else Offers(actions[..|actions| - 1]) + if actions[|actions| - 1].Offer? then 1 else 0
  }

  /** Nothing being sent, queued or in flight. */
  predicate AtRest(s: State) {
    s.sending == [] && s.queue == [] && forall w | 0 <= w < |s.jobs| :: s.jobs[w].None?
  }

  lemma {:induction false} NoJobsNoWork(jobs: seq<Option<Job>>)
    ensures JobsWeight(jobs) == 0 <==> forall w | 0 <= w < |jobs| :: jobs[w].None?
  {
    if jobs != [] {
      NoJobsNoWork(jobs[..|jobs| - 1]);
      assert forall w | 0 <= w < |jobs| - 1 :: jobs[..|jobs| - 1][w] == jobs[w];
    }
  }

  /** No work is left exactly when the pool is at rest. */
  lemma {:induction false} NoWorkIff(s: State)
    ensures Work(s) == 0 <==> AtRest(s)
  {
    NoJobsNoWork(s.jobs);
  }

  /** A scan's work is finite: after n offers to a pool at rest at most 39 n other steps can
      follow, however they interleave, and after the last of them it is at rest again. */
  lemma {:induction false} WorkIsFinite(states: seq<State>, actions: seq<Action>, k: nat)
    requires IsRun(states, actions) && k <= |actions| && AtRest(states[0])
    ensures k - Offers(actions[..k]) <= 39 * Offers(actions[..k])
    ensures k - Offers(actions[..k]) == 39 * Offers(actions[..k]) ==> AtRest(states[k])
  {
    hide Work, AtRest;
    NoWorkIff(states[0]);
    NoWorkIff(states[k]);
    WorkBounded(states, actions, k);
  }

  lemma {:induction false} WorkBounded(states: seq<State>, actions: seq<Action>, k: nat)
    requires IsRun(states, actions) && k <= |actions|
    ensures k - Offers(actions[..k]) + Work(states[k]) <= Work(states[0]) + 39 * Offers(actions[..k])
  {
    hide Next, Enabled, Work;
    if k > 0 {
      WorkBounded(states, actions, k - 1);
      assert actions[..k][..k - 1] == actions[..k - 1];
      StepWork(states[k - 1], actions[k - 1]);
    }
  }

  // ---- the worker's methods, one caller at a time ----

  /** Enqueue seen as the machine's two steps. */
  function Enqueued(s: State, t: Task): State
    requires s.sending == []
  {
    if KeyOf(t) in s.pending then s else Next(Next(s, Offer(t)), Send(0))
  }

  /** A non-self certificate other than the current one that covers the name and expires
      later, of latest expiry; none exactly when there is none. */
  ghost predicate IsReplacement(certs: seq<Cert>, current: Cert, identifier: string, r: Option<Cert>) {
    match r
    case None => forall c | c in certs :: !CanReplace(c, current, identifier)
    case Some(b) =>
      b in certs && CanReplace(b, current, identifier)
      && forall c | c in certs && CanReplace(c, current, identifier) :: !Later(c.notAfter, b.notAfter)
  }

  predicate CanReplace(c: Cert, current: Cert, identifier: string) {
    c.source != SELF && c.fingerprint != current.fingerprint && Covered(c, identifier) && Later(c.notAfter, current.notAfter)
  }

  method FindReplacementFor(certs: seq<Cert>, current: Cert, identifier: string) returns (best: Option<Cert>)
    ensures IsReplacement(certs, current, identifier, best)
  {
    hide Covered;
    best := None;
    for i := 0 to |certs|
      invariant best.None? ==> forall k | 0 <= k < i :: !CanReplace(certs[k], current, identifier)
      invariant best.Some? ==> best.value in certs && CanReplace(best.value, current, identifier)
      invariant best.Some? ==> forall k | 0 <= k < i && CanReplace(certs[k], current, identifier) ::
        !Later(certs[k].notAfter, best.value.notAfter)
    {
      var c := certs[i];
      assert c in certs;
      if c.source == SELF || c.fingerprint == current.fingerprint {
        continue;
      }
      var covers := Covers(c, identifier);
      if !covers || !Later(c.notAfter, current.notAfter) {
        continue;
      }
      if best.None? || Later(c.notAfter, best.value.notAfter) {
        best := Some(c);
      }
    }
  }

  class Worker {
    var queue: seq<Task>
    var pending: set<Key>
    var alerted: map<string, int>
    var alerts: seq<Alert>
    var certs: map<string, Cert>

    constructor (certs: map<string, Cert>)
      ensures Pool() == State([], {}, [], [], map[], []) && this.certs == certs
    {
      queue, pending, alerted, alerts, this.certs := [], {}, map[], [], certs;
    }

    function Pool(): State
      reads this
    {
      State(queue, pending, [], [], alerted, alerts)
    }

    /** Enqueue */
    method Enqueue(t: Task) returns (ok: bool)
      modifies this`queue, this`pending
      ensures Pool() == Enqueued(old(Pool()), t)
      ensures ok <==> KeyOf(t) !in old(pending) && |old(queue)| < CAPACITY
    {
      var key := KeyOf(t);
      if key in pending {
        return false;
      }
      pending := pending + {key};
      SendNow(old(Pool()), t);
      if |queue| < CAPACITY {
        queue := queue + [t];
        return true;
      }
      pending := pending - {key};
      return false;
    }

    /** Store.Add: a fingerprint already stored keeps its certificate. */
    method AddCert(c: Cert)
      modifies this`certs
      ensures certs == if c.fingerprint in old(certs) then old(certs) else old(certs)[c.fingerprint := c]
    {
      if c.fingerprint in certs {
        return;
      }
      certs := certs[c.fingerprint := c];
    }

    /** stepRenew; issued is what the ACME client or the self-signer produced, if anything,
        and stores whether the store takes it. A refusal ends the chain: nothing is stored
        and neither a replacement is sought nor an alert sent. */
    method StepRenew(task: Task, issued: Option<Cert>, stores: bool)
      requires task.typ.Renew?
      modifies this`queue, this`pending, this`certs
      ensures Pool() == if RenewFails(task, issued) then Enqueued(old(Pool()), NextTask(task)) else old(Pool())
      ensures RenewFails(task, issued) || (task.source != LE && task.source != SELF) || !stores ==> certs == old(certs)
      ensures !RenewFails(task, issued) && (task.source == LE || task.source == SELF) && stores ==>
        && issued.value.fingerprint in certs
        && (issued.value.fingerprint !in old(certs) ==> certs == old(certs)[issued.value.fingerprint := issued.value])
        && (issued.value.fingerprint in old(certs) ==> certs == old(certs))
    {
      if task.source == LE || task.source == SELF {
        if issued.None? {
          var ok := Enqueue(NextTask(task));
          return;
        }
        if stores {
          AddCert(issued.value);
        }
        return;
      }
      if task.source == UPLOAD {
        var ok := Enqueue(NextTask(task));
      }
    }

    /** stepFindReplacement; listed is what the store held when it was listed, which may be
        before other certificates came or went. */
    method StepFindReplacement(task: Task, listed: Option<seq<Cert>>) returns (found: Option<Cert>)
      requires task.typ.FindReplacement?
      modifies this`queue, this`pending
      ensures listed.None? ==> Pool() == Enqueued(old(Pool()), NextTask(task))
      ensures listed.Some? && task.fingerprint !in certs ==> found.None? && Pool() == old(Pool())
      ensures listed.Some? && task.fingerprint in certs ==>
        IsReplacement(listed.value, certs[task.fingerprint], task.identifier, found)
        && Pool() == if found.None? then Enqueued(old(Pool()), NextTask(task)) else old(Pool())
    {
      hide IsReplacement;
      found := None;
      if listed.None? {
        var ok := Enqueue(NextTask(task));
        return;
      }
      if task.fingerprint !in certs {
        return;
      }
      found := FindReplacementFor(listed.value, certs[task.fingerprint], task.identifier);
      if found.None? {
        var ok := Enqueue(NextTask(task));
      }
    }

    /** stepAlertAdmin */
    method StepAlertAdmin(task: Task, now: int)
      modifies this`alerted, this`alerts
      ensures var fp := task.fingerprint;
        if fp in old(alerted) && now - old(alerted)[fp] < DAY
        then alerted == old(alerted) && alerts == old(alerts)
        else alerted == old(alerted)[fp := now] && alerts == old(alerts) + [Alert(fp, now)]
    {
      if task.fingerprint in alerted && now - alerted[task.fingerprint] < DAY {
        return;
      }
      alerted := alerted[task.fingerprint := now];
      alerts := alerts + [Alert(task.fingerprint, now)];
    }

    /** dispatch: run the step for the type, then release the key. At most one task is
        enqueued, and it ranks strictly below this one. */
    method Dispatch(task: Task, issued: Option<Cert>, stores: bool, listed: Option<seq<Cert>>, now: int)
      modifies this
      ensures KeyOf(task) !in pending
      ensures queue == old(queue) ||
        (!task.typ.AlertAdmin? && queue == old(queue) + [NextTask(task)] && Rank(NextTask(task).typ) < Rank(task.typ))
      ensures pending == old(pending) - {KeyOf(task)} || (!task.typ.AlertAdmin? &&
        pending == old(pending) - {KeyOf(task)} + {KeyOf(NextTask(task))})
    {
      hide Covered, IsReplacement;
      if !task.typ.AlertAdmin? {
        EnqueuedOne(Pool(), NextTask(task));
      }
      match task.typ {
        case Renew => StepRenew(task, issued, stores);
        case FindReplacement => var found := StepFindReplacement(task, listed);
        case AlertAdmin => StepAlertAdmin(task, now);
      }
      pending := pending - {KeyOf(task)};
    }

    /** Scanner.RunOnce: every selected certificate that is about to expire, and has not been
        expired for over thirty days, is offered for renewal with all its names. */
    method Scan(all: seq<Cert>, selected: set<string>, now: int)
      modifies this`queue, this`pending
      ensures Pool() == OfferAll(old(Pool()), ScanTasks(all, selected, now))
    {
      hide Enqueued, Distinct;
      for i := 0 to |all|
        invariant Pool() == OfferAll(old(Pool()), ScanTasks(all[..i], selected, now))
      {
        assert all[..i + 1][..i] == all[..i];
        var c := all[i];
        OfferNext(old(Pool()), ScanTasks(all[..i], selected, now), RenewTask(c));
        if c.fingerprint !in selected {
          continue;
        }
        if !Expiring(c, now, EXPIRY_THRESHOLD) {
          continue;
        }
        if c.notAfter.Some? && now - c.notAfter.value > 30 * DAY {
          continue;
        }
        var ids := RenewalIdentifiers(c);
        var primary := c.subject;
        if primary == "" && |ids| > 0 {
          primary := ids[0];
        }
        var ok := Enqueue(Task(Renew, c.fingerprint, primary, ids, c.source));
      }
      assert all[..|all|] == all;
    }
  }

  lemma {:induction false} SendNow(s: State, t: Task)
    requires s.sending == [] && KeyOf(t) !in s.pending
    ensures Enqueued(s, t) == Sent(s.(pending := s.pending + {KeyOf(t)}), t)
  {
    assert Without([t], 0) == [];
    assert [] + [t] == [t];
  }

  /** Enqueue adds its argument and the key of it, or nothing. */
  lemma {:induction false} EnqueuedOne(s: State, t: Task)
    requires s.sending == []
    ensures var r := Enqueued(s, t);
      && (r.queue == s.queue || r.queue == s.queue + [t])
      && (r.pending == s.pending || r.pending == s.pending + {KeyOf(t)})
      && r.sending == []
  {
    if KeyOf(t) !in s.pending {
      SendNow(s, t);
      assert s.pending + {KeyOf(t)} - {KeyOf(t)} == s.pending;
    }
  }

  predicate RenewFails(task: Task, issued: Option<Cert>) {
    if task.source == LE || task.source == SELF then issued.None? else task.source == UPLOAD
  }

  const EXPIRY_THRESHOLD := 3 * DAY

  predicate DueForRenewal(c: Cert, selected: set<string>, now: int) {
    c.fingerprint in selected && Expiring(c, now, EXPIRY_THRESHOLD) && !(c.notAfter.Some? && now - c.notAfter.value > 30 * DAY)
  }

  function RenewTask(c: Cert): Task {
    var ids := Distinct([c.subject] + c.san);
    Task(Renew, c.fingerprint, if c.subject == "" && ids != [] then ids[0] else c.subject, ids, c.source)
  }

  function ScanTasks(all: seq<Cert>, selected: set<string>, now: int): seq<Task> {
    if all == [] then []
    else
      var c := all[|all| - 1];
      ScanTasks(all[..|all| - 1], selected, now) + if DueForRenewal(c, selected, now) then [RenewTask(c)] else []
  }

  function OfferAll(s: State, tasks: seq<Task>): (r: State)
    requires s.sending == []
    ensures r.sending == []
  {
    if tasks == [] then s else Enqueued(OfferAll(s, tasks[..|tasks| - 1]), tasks[|tasks| - 1])
  }

  lemma {:induction false} OfferNext(s: State, tasks: seq<Task>, t: Task)
    requires s.sending == []
    ensures OfferAll(s, tasks + [t]) == Enqueued(OfferAll(s, tasks), t)
    ensures OfferAll(s, tasks + []) == OfferAll(s, tasks)
  {
    hide Enqueued;
    assert (tasks + [t])[..|tasks|] == tasks;
    assert tasks + [] == tasks;
  }

  /** Every due certificate is offered with names that cover all it covers. */
  lemma {:induction false} ScanKeepsNames(all: seq<Cert>, selected: set<string>, now: int, c: Cert, endpoint: string, renewed: Cert)
    requires c in all && DueForRenewal(c, selected, now)
    requires forall id | id in RenewTask(c).identifiers :: id in renewed.san
    requires Covered(c, endpoint) && endpoint != ""
    ensures RenewTask(c) in ScanTasks(all, selected, now)
    ensures Covered(renewed, endpoint)
  {
    hide Covered, RenewTask, Distinct, DueForRenewal;
    var n := |all| - 1;
    if all[n] != c {
      assert all == all[..n] + [all[n]];
      ScanKeepsNames(all[..n], selected, now, c, endpoint, renewed);
    } else {
      TaskNames(c);
      RenewalCovers(c, renewed, endpoint);
    }
  }

  /** What a scan offers is exactly the renewal tasks of the due certificates. */
  lemma {:induction false} ScanOffersExactly(all: seq<Cert>, selected: set<string>, now: int, t: Task)
    ensures t in ScanTasks(all, selected, now) <==> exists c :: c in all && DueForRenewal(c, selected, now) && t == RenewTask(c)
  {
    hide RenewTask, DueForRenewal;
    if all != [] {
      var n := |all| - 1;
      ScanOffersExactly(all[..n], selected, now, t);
      assert all == all[..n] + [all[n]];
      if c :| c in all && DueForRenewal(c, selected, now) && t == RenewTask(c) {
        assert c == all[n] || c in all[..n];
      }
      if c :| c in all[..n] && DueForRenewal(c, selected, now) && t == RenewTask(c) {
        assert c in all;
      }
    }
  }

  lemma {:induction false} TaskNames(c: Cert)
    ensures RenewTask(c).identifiers == Distinct([c.subject] + c.san)
  {
  }

  /** Once a replacement of a known source has been found, and until it expires, whatever else
      the store holds, no selection for the identifier is self-signed. */
  lemma {:induction false} ReplacementLasts(certs: seq<Cert>, current: Cert, identifier: string, r: Cert,
                                            later: seq<Cert>, now: int, s: Option<Cert>)
    requires IsReplacement(certs, current, identifier, Some(r)) && (r.source == LE || r.source == UPLOAD)
    requires r in later && !Expired(r, now) && IsSelected(identifier, later, now, s)
    ensures s.Some? && s.value.source != SELF
  {
    hide IsSelected, Covered;
    ReplacementHoldsIff(r, identifier, now);
  }
}
