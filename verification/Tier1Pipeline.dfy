/** The multi-worker Tier 1 protocol: any number of workers, any order of queue
    operations, any mix of model failures and Redis refusals, and a shutdown at any time. */
module Tier1Pipeline {
  import opened Tier1Queue

  /** A worker is at the top of its loop, blocked on the queue, busy with a job, or gone. */
  datatype Worker = AtTop | Polling | Holding(job: Job) | Exited

  /** accepted, finished, dropped, fed, predicted and failures are bookkeeping: how often
      each job id went through that event. */
  datatype State = State(
    lists: Lists, workers: seq<Worker>, cancelled: bool,
    accepted: set<string>, finished: multiset<string>, dropped: multiset<string>,
    fed: multiset<string>, predicted: multiset<string>, failures: multiset<string>)

  datatype Action =
    | Enqueue(job: Job, ok: bool)
    | Poll(w: nat)
    | Receive(w: nat)
    | ReceiveNothing(w: nat)
    | Handle(w: nat, v: Verdict)
    | Cancel
    | Exit(w: nat)

  function Init(workerCount: nat): State {
    State(EMPTY, seq(workerCount, _ => AtTop), false, {}, multiset{}, multiset{}, multiset{}, multiset{}, multiset{})
  }

  predicate Is(s: State, w: nat, k: Worker) {
    w < |s.workers| && s.workers[w] == k
  }

  /** A new job has a fresh id and no retries: the only caller makes it with uuid.New and
      Retries 0. */
  predicate Enabled(s: State, a: Action) {
    match a
    case Enqueue(job, ok) => ok && job.id !in s.accepted && job.retries == 0
    case Poll(w) => Is(s, w, AtTop) && !s.cancelled
    case Receive(w) => Is(s, w, Polling) && s.lists.queue != []
    case ReceiveNothing(w) => Is(s, w, Polling)
    case Handle(w, v) => w < |s.workers| && s.workers[w].Holding?
    case Cancel => true
    case Exit(w) => Is(s, w, AtTop) && s.cancelled
  }

  function HandleJob(s: State, cfg: Config, w: nat, v: Verdict): State
    requires w < |s.workers| && s.workers[w].Holding?
  {
    var job := s.workers[w].job;
    var outcome := OutcomeOf(cfg, job, v);
    State(Settled(s.lists, job, outcome),
          s.workers[w := AtTop],
          s.cancelled,
          s.accepted,
          if outcome.Finished? then s.finished + multiset{job.id} else s.finished,
          if outcome.Dropped? then s.dropped + multiset{job.id} else s.dropped,
          if Feedback(cfg, job, v) != 0 then s.fed + multiset{job.id} else s.fed,
          s.predicted + multiset{job.id},
          if v.Failed? then s.failures + multiset{job.id} else s.failures)
  }

  function Step(s: State, cfg: Config, a: Action): State {
    if !Enabled(s, a) then s
    else
      match a
      case Enqueue(job, _) => s.(lists := Enqueued(s.lists, job), accepted := s.accepted + {job.id})
      case Poll(w) => s.(workers := s.workers[w := Polling])
      case Receive(w) => s.(workers := s.workers[w := Holding(s.lists.queue[0])], lists := Popped(s.lists))
      case ReceiveNothing(w) => s.(workers := s.workers[w := AtTop])
      case Handle(w, v) => HandleJob(s, cfg, w, v)
      case Cancel => s.(cancelled := true)
      case Exit(w) => s.(workers := s.workers[w := Exited])
  }

  function Run(s: State, cfg: Config, acts: seq<Action>): State {
    if acts == [] then s else Step(Run(s, cfg, acts[..|acts| - 1]), cfg, acts[|acts| - 1])
  }

  // ---------- counting a job's whereabouts ----------

  function Occurs(jobs: seq<Job>, id: string): nat {
    if jobs == [] then 0 else (if jobs[0].id == id then 1 else 0) + Occurs(jobs[1..], id)
  }

  function Held(workers: seq<Worker>, id: string): nat {
    if workers == [] then 0
    else (if workers[0].Holding? && workers[0].job.id == id then 1 else 0) + Held(workers[1..], id)
  }

  function Whereabouts(s: State, id: string): nat {
    Occurs(s.lists.queue, id) + Held(s.workers, id) + Occurs(s.lists.failed, id) + s.finished[id] + s.dropped[id]
  }

  lemma {:induction false} OccursAppend(jobs: seq<Job>, job: Job, id: string)
    ensures Occurs(jobs + [job], id) == Occurs(jobs, id) + if job.id == id then 1 else 0
  {
    if jobs != [] {
      assert (jobs + [job])[1..] == jobs[1..] + [job];
      OccursAppend(jobs[1..], job, id);
    }
  }

  lemma {:induction false} OccursAt(jobs: seq<Job>, i: nat)
    requires i < |jobs|
    ensures Occurs(jobs, jobs[i].id) >= 1
  {
    if i > 0 {
      OccursAt(jobs[1..], i - 1);
    }
  }

  function HeldBy(w: Worker, id: string): nat {
    if w.Holding? && w.job.id == id then 1 else 0
  }

  lemma {:induction false} HeldUpdate(workers: seq<Worker>, w: nat, k: Worker, id: string)
    requires w < |workers|
    ensures Held(workers[w := k], id) + HeldBy(workers[w], id) == Held(workers, id) + HeldBy(k, id)
  {
    if w == 0 {
      assert workers[w := k][1..] == workers[1..];
    } else {
      assert workers[w := k][1..] == workers[1..][w - 1 := k];
      HeldUpdate(workers[1..], w - 1, k, id);
    }
  }

  lemma {:induction false} NothingHeld(workers: seq<Worker>, id: string)
    requires forall w :: 0 <= w < |workers| ==> !workers[w].Holding?
    ensures Held(workers, id) == 0
  {
    if workers != [] {
      NothingHeld(workers[1..], id);
    }
  }

  /** Every accepted job is in exactly one place, and nothing else is anywhere. */
  ghost predicate Conserved(s: State) {
    forall id :: Whereabouts(s, id) == if id in s.accepted then 1 else 0
  }

  lemma MovedOnce(s: State, t: State, w: nat, k: Worker, id: string)
    requires w < |s.workers| && t.workers == s.workers[w := k]
    ensures Held(t.workers, id) + HeldBy(s.workers[w], id) == Held(s.workers, id) + HeldBy(k, id)
  {
    HeldUpdate(s.workers, w, k, id);
  }

  lemma HandleConserves(s: State, cfg: Config, w: nat, v: Verdict)
    requires Conserved(s) && w < |s.workers| && s.workers[w].Holding?
    ensures Conserved(HandleJob(s, cfg, w, v))
  {
    var t := HandleJob(s, cfg, w, v);
    var job := s.workers[w].job;
    forall id
      ensures Whereabouts(t, id) == Whereabouts(s, id)
    {
      MovedOnce(s, t, w, AtTop, id);
      OccursAppend(s.lists.queue, Retried(job), id);
      assert ([Retried(job)] + s.lists.failed)[1..] == s.lists.failed;
    }
  }

  lemma StepConserves(s: State, cfg: Config, a: Action)
    requires Conserved(s)
    ensures Conserved(Step(s, cfg, a))
  {
    var t := Step(s, cfg, a);
    if Enabled(s, a) {
      match a
      case Enqueue(job, _) =>
        forall id
          ensures Whereabouts(t, id) == if id in t.accepted then 1 else 0
        {
          OccursAppend(s.lists.queue, job, id);
        }
      case Receive(w) =>
        forall id
          ensures Whereabouts(t, id) == Whereabouts(s, id)
        {
          MovedOnce(s, t, w, Holding(s.lists.queue[0]), id);
        }
      case Handle(w, v) => HandleConserves(s, cfg, w, v);
      case Poll(w) =>
        forall id ensures Whereabouts(t, id) == Whereabouts(s, id) { MovedOnce(s, t, w, Polling, id); }
      case ReceiveNothing(w) =>
        forall id ensures Whereabouts(t, id) == Whereabouts(s, id) { MovedOnce(s, t, w, AtTop, id); }
      case Exit(w) =>
        forall id ensures Whereabouts(t, id) == Whereabouts(s, id) { MovedOnce(s, t, w, Exited, id); }
      case Cancel =>
        assert forall id :: Whereabouts(t, id) == Whereabouts(s, id);
    }
  }

  /** In every reachable state, each accepted job is in exactly one of: the queue, one
      worker's hands, the dead letters, finished, dropped. */
  lemma {:induction false} JobsAreConserved(n: nat, cfg: Config, acts: seq<Action>)
    ensures Conserved(Run(Init(n), cfg, acts))
  {
    if acts == [] {
      forall id
        ensures Whereabouts(Init(n), id) == 0
      {
        NothingHeld(Init(n).workers, id);
      }
    } else {
      JobsAreConserved(n, cfg, acts[..|acts| - 1]);
      StepConserves(Run(Init(n), cfg, acts[..|acts| - 1]), cfg, acts[|acts| - 1]);
    }
  }

  // ---------- attempts ----------

  function Limit(cfg: Config): nat {
    if cfg.maxRetries > 1 then cfg.maxRetries else 1
  }

  /** A job still to be predicted has failed exactly retries times, and has attempts left. */
  predicate Honest(s: State, cfg: Config, job: Job) {
    && job.retries == s.failures[job.id] && job.retries < Limit(cfg)
    && s.predicted[job.id] == s.failures[job.id]
  }

  predicate AllHonest(s: State, cfg: Config) {
    && (forall i :: 0 <= i < |s.lists.queue| ==> Honest(s, cfg, s.lists.queue[i]))
    && (forall w :: 0 <= w < |s.workers| && s.workers[w].Holding? ==> Honest(s, cfg, s.workers[w].job))
  }

  ghost predicate BooksAgree(s: State, cfg: Config) {
    && (forall id :: id !in s.accepted ==> s.failures[id] == 0 && s.predicted[id] == 0)
    && (forall id :: s.predicted[id] == s.failures[id] + s.finished[id])
    && (forall id :: s.predicted[id] <= Limit(cfg))
    && (forall id :: s.fed[id] <= s.finished[id])
  }

  ghost predicate Counted(s: State, cfg: Config) {
    AllHonest(s, cfg) && BooksAgree(s, cfg)
  }

  /** The job in a worker's hands is nowhere else. */
  lemma HeldIsAlone(s: State, w: nat, job: Job)
    requires Conserved(s) && Is(s, w, Holding(job))
    ensures forall i :: 0 <= i < |s.lists.queue| ==> s.lists.queue[i].id != job.id
    ensures forall x :: 0 <= x < |s.workers| && x != w && s.workers[x].Holding? ==> s.workers[x].job.id != job.id
    ensures s.finished[job.id] == 0
  {
    HeldUpdate(s.workers, w, AtTop, job.id);
    assert Whereabouts(s, job.id) <= 1;
    forall i | 0 <= i < |s.lists.queue|
      ensures s.lists.queue[i].id != job.id
    {
      OccursAt(s.lists.queue, i);
    }
    forall x | 0 <= x < |s.workers| && x != w && s.workers[x].Holding?
      ensures s.workers[x].job.id != job.id
    {
      if s.workers[x].job.id == job.id {
        HeldUpdate(s.workers[w := AtTop], x, AtTop, job.id);
      }
    }
  }

  lemma AcceptedIfPresent(s: State, id: string)
    requires Conserved(s) && Whereabouts(s, id) >= 1
    ensures id in s.accepted
  {
  }

  lemma HandleBooks(s: State, cfg: Config, w: nat, v: Verdict)
    requires BooksAgree(s, cfg) && w < |s.workers| && s.workers[w].Holding?
    requires Honest(s, cfg, s.workers[w].job) && s.workers[w].job.id in s.accepted
    ensures BooksAgree(HandleJob(s, cfg, w, v), cfg)
  {
  }

  lemma OtherStaysHonest(s: State, cfg: Config, w: nat, v: Verdict, other: Job)
    requires w < |s.workers| && s.workers[w].Holding? && Honest(s, cfg, other) && other.id != s.workers[w].job.id
    ensures Honest(HandleJob(s, cfg, w, v), cfg, other)
  {
  }

  lemma RetriedIsHonest(s: State, cfg: Config, w: nat, v: Verdict)
    requires w < |s.workers| && s.workers[w].Holding? && Honest(s, cfg, s.workers[w].job)
    requires OutcomeOf(cfg, s.workers[w].job, v).Requeued?
    ensures Honest(HandleJob(s, cfg, w, v), cfg, Retried(s.workers[w].job))
  {
  }

  lemma HandleHonest(s: State, cfg: Config, w: nat, v: Verdict)
    requires Conserved(s) && Counted(s, cfg) && w < |s.workers| && s.workers[w].Holding?
    ensures AllHonest(HandleJob(s, cfg, w, v), cfg)
  {
    var t := HandleJob(s, cfg, w, v);
    var job := s.workers[w].job;
    HeldIsAlone(s, w, job);
    forall i | 0 <= i < |t.lists.queue|
      ensures Honest(t, cfg, t.lists.queue[i])
    {
      if i < |s.lists.queue| {
        OtherStaysHonest(s, cfg, w, v, s.lists.queue[i]);
      } else {
        RetriedIsHonest(s, cfg, w, v);
      }
    }
    forall x | 0 <= x < |t.workers| && t.workers[x].Holding?
      ensures Honest(t, cfg, t.workers[x].job)
    {
      OtherStaysHonest(s, cfg, w, v, s.workers[x].job);
    }
  }

  lemma EnqueueCounts(s: State, cfg: Config, job: Job)
    requires Conserved(s) && Counted(s, cfg) && Enabled(s, Enqueue(job, true))
    ensures Counted(Step(s, cfg, Enqueue(job, true)), cfg)
  {
    var t := Step(s, cfg, Enqueue(job, true));
    assert forall i :: 0 <= i < |s.lists.queue| ==> t.lists.queue[i] == s.lists.queue[i];
    assert s.failures[job.id] == 0 && s.predicted[job.id] == 0;
    SameFailures(s, t, cfg);
  }

  /** Honesty only looks at the failure and prediction counts. */
  lemma SameFailures(s: State, t: State, cfg: Config)
    requires t.failures == s.failures && t.predicted == s.predicted
    ensures forall job :: Honest(s, cfg, job) ==> Honest(t, cfg, job)
  {
  }

  lemma ReceiveCounts(s: State, cfg: Config, w: nat)
    requires Counted(s, cfg) && Enabled(s, Receive(w))
    ensures Counted(Step(s, cfg, Receive(w)), cfg)
  {
    var t := Step(s, cfg, Receive(w));
    SameFailures(s, t, cfg);
    assert forall i :: 0 <= i < |t.lists.queue| ==> t.lists.queue[i] == s.lists.queue[i + 1];
  }

  lemma WorkerOnlyCounts(s: State, t: State, cfg: Config, w: nat, k: Worker)
    requires Counted(s, cfg) && w < |s.workers| && !k.Holding? && t == s.(workers := s.workers[w := k])
    ensures Counted(t, cfg)
  {
    SameFailures(s, t, cfg);
  }

  lemma StepCounts(s: State, cfg: Config, a: Action)
    requires Conserved(s) && Counted(s, cfg)
    ensures Counted(Step(s, cfg, a), cfg)
  {
    if Enabled(s, a) {
      var t := Step(s, cfg, a);
      match a
      case Handle(w, v) =>
        HeldUpdate(s.workers, w, AtTop, s.workers[w].job.id);
        AcceptedIfPresent(s, s.workers[w].job.id);
        HandleBooks(s, cfg, w, v);
        HandleHonest(s, cfg, w, v);
      case Enqueue(job, _) => EnqueueCounts(s, cfg, job);
      case Receive(w) => ReceiveCounts(s, cfg, w);
      case Poll(w) => WorkerOnlyCounts(s, t, cfg, w, Polling);
      case ReceiveNothing(w) => WorkerOnlyCounts(s, t, cfg, w, AtTop);
      case Exit(w) => WorkerOnlyCounts(s, t, cfg, w, Exited);
      case Cancel => SameFailures(s, t, cfg);
    }
  }

  lemma {:induction false} RunCounts(n: nat, cfg: Config, acts: seq<Action>)
    ensures Counted(Run(Init(n), cfg, acts), cfg)
  {
    if acts != [] {
      var s := Run(Init(n), cfg, acts[..|acts| - 1]);
      RunCounts(n, cfg, acts[..|acts| - 1]);
      JobsAreConserved(n, cfg, acts[..|acts| - 1]);
      StepCounts(s, cfg, acts[|acts| - 1]);
    }
  }

  /** No job is predicted more than max(1, MaxRetries) times, its Retries field is its number
      of failed predictions, and its feedback is applied at most once, only if finished. */
  lemma AttemptsAreBounded(n: nat, cfg: Config, acts: seq<Action>, id: string)
    ensures var s := Run(Init(n), cfg, acts);
            && s.predicted[id] <= Limit(cfg)
            && s.fed[id] <= s.finished[id] <= 1
            && (forall i :: 0 <= i < |s.lists.queue| ==> s.lists.queue[i].retries == s.failures[s.lists.queue[i].id])
            && (forall w :: 0 <= w < |s.workers| && s.workers[w].Holding?
                  ==> s.workers[w].job.retries == s.failures[s.workers[w].job.id])
  {
    var s := Run(Init(n), cfg, acts);
    JobsAreConserved(n, cfg, acts);
    RunCounts(n, cfg, acts);
    assert Whereabouts(s, id) <= 1;
    forall i | 0 <= i < |s.lists.queue|
      ensures s.lists.queue[i].retries == s.failures[s.lists.queue[i].id]
    {
      assert Honest(s, cfg, s.lists.queue[i]);
    }
    forall w | 0 <= w < |s.workers| && s.workers[w].Holding?
      ensures s.workers[w].job.retries == s.failures[s.workers[w].job.id]
    {
      assert Honest(s, cfg, s.workers[w].job);
    }
  }

  // ---------- the counters ----------

  predicate CountersAgree(q: Lists) {
    q.enqueued + q.requeued == |q.queue| + q.popped
  }

  lemma StepCounters(s: State, cfg: Config, a: Action)
    requires CountersAgree(s.lists)
    ensures CountersAgree(Step(s, cfg, a).lists)
  {
  }

  /** enqueued + requeued - popped is the queue length, in every reachable state. */
  lemma {:induction false} CountersMatchQueue(n: nat, cfg: Config, acts: seq<Action>)
    ensures CountersAgree(Run(Init(n), cfg, acts).lists)
  {
    if acts != [] {
      CountersMatchQueue(n, cfg, acts[..|acts| - 1]);
      StepCounters(Run(Init(n), cfg, acts[..|acts| - 1]), cfg, acts[|acts| - 1]);
    }
  }

  // ---------- shutdown ----------

  /** With every worker out of its loop, each accepted job is queued, dead-lettered, finished
      or dropped, exactly once. */
  lemma AllAccountedFor(s: State, id: string)
    requires Conserved(s) && id in s.accepted
    requires forall w :: 0 <= w < |s.workers| ==> s.workers[w].Exited?
    ensures Occurs(s.lists.queue, id) + Occurs(s.lists.failed, id) + s.finished[id] + s.dropped[id] == 1
  {
    NothingHeld(s.workers, id);
    assert Whereabouts(s, id) == 1;
  }

  // ---------- draining ----------

  /** Work left in a job: two per attempt, one more while it waits in the queue. */
  function JobWork(cfg: Config, job: Job): int {
    2 * (Limit(cfg) - job.retries)
  }

  function QueueWork(cfg: Config, jobs: seq<Job>): int {
    if jobs == [] then 0 else JobWork(cfg, jobs[0]) + 1 + QueueWork(cfg, jobs[1..])
  }

  function WorkerWork(cfg: Config, w: Worker): int {
    if w.Holding? then JobWork(cfg, w.job) else 0
  }

  function HandsWork(cfg: Config, workers: seq<Worker>): int {
    if workers == [] then 0 else WorkerWork(cfg, workers[0]) + HandsWork(cfg, workers[1..])
  }

  function Work(cfg: Config, s: State): int {
    QueueWork(cfg, s.lists.queue) + HandsWork(cfg, s.workers)
  }

  lemma {:induction false} QueueWorkAppend(cfg: Config, jobs: seq<Job>, job: Job)
    ensures QueueWork(cfg, jobs + [job]) == QueueWork(cfg, jobs) + JobWork(cfg, job) + 1
  {
    if jobs != [] {
      assert (jobs + [job])[1..] == jobs[1..] + [job];
      QueueWorkAppend(cfg, jobs[1..], job);
    }
  }

  lemma {:induction false} HandsWorkUpdate(cfg: Config, workers: seq<Worker>, w: nat, k: Worker)
    requires w < |workers|
    ensures HandsWork(cfg, workers[w := k]) == HandsWork(cfg, workers) - WorkerWork(cfg, workers[w]) + WorkerWork(cfg, k)
  {
    if w == 0 {
      assert workers[w := k][1..] == workers[1..];
    } else {
      assert workers[w := k][1..] == workers[1..][w - 1 := k];
      HandsWorkUpdate(cfg, workers[1..], w - 1, k);
    }
  }

  /** A step that takes a job off the queue or handles one. */
  predicate Productive(s: State, a: Action) {
    (a.Receive? || a.Handle?) && Enabled(s, a)
  }

  function ProductiveSteps(s: State, cfg: Config, acts: seq<Action>): nat {
    if acts == [] then 0
    else ProductiveSteps(s, cfg, acts[..|acts| - 1])
         + if Productive(Run(s, cfg, acts[..|acts| - 1]), acts[|acts| - 1]) then 1 else 0
  }

  lemma StepWorks(s: State, cfg: Config, a: Action)
    requires Counted(s, cfg) && !a.Enqueue?
    ensures Work(cfg, Step(s, cfg, a)) + (if Productive(s, a) then 1 else 0) <= Work(cfg, s)
  {
    if Enabled(s, a) {
      match a
      case Poll(w) => HandsWorkUpdate(cfg, s.workers, w, Polling);
      case ReceiveNothing(w) => HandsWorkUpdate(cfg, s.workers, w, AtTop);
      case Exit(w) => HandsWorkUpdate(cfg, s.workers, w, Exited);
      case Cancel =>
      case Receive(w) => HandsWorkUpdate(cfg, s.workers, w, Holding(s.lists.queue[0]));
      case Handle(w, v) => HandleWorks(s, cfg, w, v);
    }
  }

  lemma HandleWorks(s: State, cfg: Config, w: nat, v: Verdict)
    requires w < |s.workers| && s.workers[w].Holding? && s.workers[w].job.retries < Limit(cfg)
    ensures Work(cfg, HandleJob(s, cfg, w, v)) + 1 <= Work(cfg, s)
  {
    var job := s.workers[w].job;
    HandsWorkUpdate(cfg, s.workers, w, AtTop);
    QueueWorkAppend(cfg, s.lists.queue, Retried(job));
  }

  lemma {:induction false} WorkIsNatural(s: State, cfg: Config)
    requires Counted(s, cfg)
    ensures Work(cfg, s) >= 0
    ensures Work(cfg, s) == 0 <==> Drained(s)
  {
    assert forall i :: 0 <= i < |s.lists.queue| ==> s.lists.queue[i].retries < Limit(cfg) by {
      assert forall i :: 0 <= i < |s.lists.queue| ==> Honest(s, cfg, s.lists.queue[i]);
    }
    assert forall w :: 0 <= w < |s.workers| && s.workers[w].Holding? ==> s.workers[w].job.retries < Limit(cfg) by {
      assert forall w :: 0 <= w < |s.workers| && s.workers[w].Holding? ==> Honest(s, cfg, s.workers[w].job);
    }
    QueueWorkNatural(cfg, s.lists.queue);
    HandsWorkNatural(cfg, s.workers);
  }

  lemma {:induction false} QueueWorkNatural(cfg: Config, jobs: seq<Job>)
    requires forall i :: 0 <= i < |jobs| ==> jobs[i].retries < Limit(cfg)
    ensures QueueWork(cfg, jobs) >= 0 && (QueueWork(cfg, jobs) == 0 <==> jobs == [])
  {
    if jobs != [] {
      QueueWorkNatural(cfg, jobs[1..]);
    }
  }

  lemma {:induction false} HandsWorkNatural(cfg: Config, workers: seq<Worker>)
    requires forall w :: 0 <= w < |workers| && workers[w].Holding? ==> workers[w].job.retries < Limit(cfg)
    ensures HandsWork(cfg, workers) >= 0
    ensures HandsWork(cfg, workers) == 0 <==> forall w :: 0 <= w < |workers| ==> !workers[w].Holding?
  {
    if workers != [] {
      HandsWorkNatural(cfg, workers[1..]);
      assert forall w :: 0 <= w < |workers[1..]| ==> workers[1..][w] == workers[w + 1];
      if HandsWork(cfg, workers) == 0 {
        forall w | 0 <= w < |workers|
          ensures !workers[w].Holding?
        {
          assert w > 0 ==> workers[w] == workers[1..][w - 1];
        }
      }
    }
  }

  predicate Drained(s: State) {
    s.lists.queue == [] && forall w :: 0 <= w < |s.workers| ==> !s.workers[w].Holding?
  }

  predicate NoEnqueue(acts: seq<Action>) {
    forall i :: 0 <= i < |acts| ==> !acts[i].Enqueue?
  }

  lemma {:induction false} RunWorks(s: State, cfg: Config, acts: seq<Action>)
    requires Conserved(s) && Counted(s, cfg) && NoEnqueue(acts)
    ensures Conserved(Run(s, cfg, acts)) && Counted(Run(s, cfg, acts), cfg)
    ensures Work(cfg, Run(s, cfg, acts)) + ProductiveSteps(s, cfg, acts) <= Work(cfg, s)
  {
    if acts != [] {
      var m := Run(s, cfg, acts[..|acts| - 1]);
      RunWorks(s, cfg, acts[..|acts| - 1]);
      StepConserves(m, cfg, acts[|acts| - 1]);
      StepCounts(m, cfg, acts[|acts| - 1]);
      StepWorks(m, cfg, acts[|acts| - 1]);
    }
  }

  /** Without new jobs the pipeline takes at most Work-many productive steps, whatever the
      schedule and however often the model fails; and a live pipeline that can take none
      any more has an empty queue and free hands. */
  lemma PipelineDrains(n: nat, cfg: Config, before: seq<Action>, s: State, acts: seq<Action>)
    requires s == Run(Init(n), cfg, before) && NoEnqueue(acts)
    ensures ProductiveSteps(s, cfg, acts) <= Work(cfg, s)
    ensures Alive(s) && NothingLeft(s, cfg) ==> Drained(s)
  {
    JobsAreConserved(n, cfg, before);
    RunCounts(n, cfg, before);
    RunWorks(s, cfg, acts);
    WorkIsNatural(Run(s, cfg, acts), cfg);
    if Alive(s) && NothingLeft(s, cfg) {
      StuckIsDrained(s, cfg);
    }
  }

  ghost predicate NothingLeft(s: State, cfg: Config) {
    forall more :: NoEnqueue(more) ==> ProductiveSteps(s, cfg, more) == 0
  }

  lemma StuckIsDrained(s: State, cfg: Config)
    requires Alive(s) && NothingLeft(s, cfg)
    ensures Drained(s)
  {
    forall w | 0 <= w < |s.workers|
      ensures !s.workers[w].Holding?
    {
      var a := Handle(w, Answered(OtherLabel, 0.0));
      OneStep(s, cfg, a);
    }
    if s.lists.queue != [] {
      if s.workers[0].AtTop? {
        OneStep(s, cfg, Poll(0));
        var acts := [Poll(0), Receive(0)];
        assert acts[..1] == [Poll(0)];
        assert ProductiveSteps(s, cfg, acts) >= 1;
      } else {
        OneStep(s, cfg, Receive(0));
      }
    }
  }

  lemma OneStep(s: State, cfg: Config, a: Action)
    ensures Run(s, cfg, [a]) == Step(s, cfg, a)
    ensures ProductiveSteps(s, cfg, [a]) == if Productive(s, a) then 1 else 0
  {
    assert [a][..0] == [];
  }

  lemma {:induction false} RunCons(s: State, cfg: Config, a: Action, rest: seq<Action>)
    ensures Run(s, cfg, [a] + rest) == Run(Step(s, cfg, a), cfg, rest)
  {
    if rest == [] {
      assert [a] + rest == [a] && [a][..0] == [];
    } else {
      assert ([a] + rest)[..|rest|] == [a] + rest[..|rest| - 1];
      RunCons(s, cfg, a, rest[..|rest| - 1]);
    }
  }

  predicate Alive(s: State) {
    !s.cancelled && s.workers != [] && forall w :: 0 <= w < |s.workers| ==> !s.workers[w].Exited?
  }

  /** How far a live pipeline is from being drained. */
  function Distance(cfg: Config, s: State): int
    requires Alive(s)
  {
    2 * Work(cfg, s) + if s.workers[0].AtTop? then 1 else 0
  }

  lemma StepAlive(s: State, cfg: Config, a: Action)
    requires Alive(s) && (a.Handle? || a.Poll? || a.Receive?)
    ensures Alive(Step(s, cfg, a))
    ensures a == Poll(0) && Enabled(s, a) ==> !Step(s, cfg, a).workers[0].AtTop?
    ensures a == Receive(0) && Enabled(s, a) ==> !Step(s, cfg, a).workers[0].AtTop?
  {
  }

  lemma NextStep(s: State, cfg: Config) returns (a: Action)
    requires Conserved(s) && Counted(s, cfg) && Alive(s) && !Drained(s)
    ensures !a.Enqueue? && Alive(Step(s, cfg, a)) && Distance(cfg, Step(s, cfg, a)) < Distance(cfg, s)
  {
    if w :| 0 <= w < |s.workers| && s.workers[w].Holding? {
      a := Handle(w, Answered(OtherLabel, 0.0));
    } else if s.workers[0].AtTop? {
      a := Poll(0);
    } else {
      assert s.workers[0] == Polling;
      a := Receive(0);
    }
    StepAlive(s, cfg, a);
    StepWorks(s, cfg, a);
  }

  lemma {:induction false} Drain(s: State, cfg: Config) returns (acts: seq<Action>)
    requires Conserved(s) && Counted(s, cfg) && Alive(s)
    ensures NoEnqueue(acts) && Drained(Run(s, cfg, acts))
    decreases Distance(cfg, s)
  {
    WorkIsNatural(s, cfg);
    if Drained(s) {
      return [];
    }
    var a := NextStep(s, cfg);
    StepConserves(s, cfg, a);
    StepCounts(s, cfg, a);
    WorkIsNatural(Step(s, cfg, a), cfg);
    var rest := Drain(Step(s, cfg, a), cfg);
    RunCons(s, cfg, a, rest);
    acts := [a] + rest;
  }

  /** And it can always get there: from every reachable state with a worker and no shutdown
      some schedule, with no new jobs, empties the queue and frees every hand. */
  lemma CanDrain(n: nat, cfg: Config, before: seq<Action>, s: State) returns (acts: seq<Action>)
    requires s == Run(Init(n), cfg, before) && Alive(s)
    ensures NoEnqueue(acts) && Drained(Run(s, cfg, acts))
  {
    JobsAreConserved(n, cfg, before);
    RunCounts(n, cfg, before);
    acts := Drain(s, cfg);
  }

  // ---------- fair schedules ----------

  /** The action is a turn of worker w. */
  predicate Of(a: Action, w: nat) {
    match a
    case Enqueue(_, _) => false
    case Cancel => false
    case Poll(x) => x == w
    case Receive(x) => x == w
    case ReceiveNothing(x) => x == w
    case Handle(x, _) => x == w
    case Exit(x) => x == w
  }

  /** Worker w does something in the round. */
  predicate ActsIn(s: State, cfg: Config, round: seq<Action>, w: nat) {
    exists i :: 0 <= i < |round| && Of(round[i], w) && Enabled(Run(s, cfg, round[..i]), round[i])
  }

  /** Fairness: every worker still in its loop gets a turn. */
  predicate EveryoneActs(s: State, cfg: Config, round: seq<Action>) {
    forall w :: 0 <= w < |s.workers| && !s.workers[w].Exited? ==> ActsIn(s, cfg, round, w)
  }

  /** No new jobs, no shutdown, and a pop comes back empty only from an empty queue. */
  predicate Undisturbed(s: State, cfg: Config, round: seq<Action>) {
    forall i :: 0 <= i < |round| ==>
      && !round[i].Enqueue? && !round[i].Cancel?
      && (round[i].ReceiveNothing? ==> Run(s, cfg, round[..i]).lists.queue == [])
  }

  predicate FairRound(s: State, cfg: Config, round: seq<Action>) {
    EveryoneActs(s, cfg, round) && Undisturbed(s, cfg, round)
  }

  function AfterRounds(s: State, cfg: Config, rounds: seq<seq<Action>>): State {
    if rounds == [] then s
    else Run(AfterRounds(s, cfg, rounds[..|rounds| - 1]), cfg, rounds[|rounds| - 1])
  }

  predicate FairRounds(s: State, cfg: Config, rounds: seq<seq<Action>>) {
    rounds == [] ||
    (&& FairRounds(s, cfg, rounds[..|rounds| - 1])
     && FairRound(AfterRounds(s, cfg, rounds[..|rounds| - 1]), cfg, rounds[|rounds| - 1]))
  }

  lemma RunOneMore(s: State, cfg: Config, acts: seq<Action>, i: nat)
    requires i < |acts|
    ensures Run(s, cfg, acts[..i + 1]) == Step(Run(s, cfg, acts[..i]), cfg, acts[i])
  {
    assert acts[..i + 1][..i] == acts[..i];
  }

  lemma {:induction false} NoneProductive(s: State, cfg: Config, acts: seq<Action>, i: nat)
    requires ProductiveSteps(s, cfg, acts) == 0 && i < |acts|
    ensures !Productive(Run(s, cfg, acts[..i]), acts[i])
  {
    var n := |acts| - 1;
    if i < n {
      NoneProductive(s, cfg, acts[..n], i);
      assert acts[..n][..i] == acts[..i];
    }
  }

  /** What an unproductive step cannot change in a live pipeline. */
  predicate Untouched(s: State, t: State) {
    && t.lists == s.lists && Alive(t) && |t.workers| == |s.workers|
    && (forall w :: 0 <= w < |s.workers| && s.workers[w].Holding? ==> t.workers[w] == s.workers[w])
    && (forall w :: 0 <= w < |s.workers| && !s.workers[w].Holding? ==> !t.workers[w].Holding?)
    && (s.lists.queue != [] ==> forall w :: 0 <= w < |s.workers| && s.workers[w].Polling? ==> t.workers[w].Polling?)
  }

  lemma StepUntouched(s: State, m: State, cfg: Config, a: Action)
    requires Untouched(s, m) && !Productive(m, a) && !a.Enqueue? && !a.Cancel?
    requires a.ReceiveNothing? ==> m.lists.queue == []
    ensures Untouched(s, Step(m, cfg, a))
  {
  }

  lemma {:induction false} IdleRound(s: State, cfg: Config, round: seq<Action>, j: nat, i: nat)
    requires j <= i <= |round| && Alive(Run(s, cfg, round[..j]))
    requires Undisturbed(s, cfg, round) && ProductiveSteps(s, cfg, round) == 0
    ensures Untouched(Run(s, cfg, round[..j]), Run(s, cfg, round[..i]))
    decreases i
  {
    if i > j {
      IdleRound(s, cfg, round, j, i - 1);
      RunOneMore(s, cfg, round, i - 1);
      NoneProductive(s, cfg, round, i - 1);
      StepUntouched(Run(s, cfg, round[..j]), Run(s, cfg, round[..i - 1]), cfg, round[i - 1]);
    }
  }

  /** A fair round without productive step happens only while somebody has yet to poll. */
  lemma IdleRoundPolls(s: State, cfg: Config, round: seq<Action>)
    requires Alive(s) && !Drained(s) && FairRound(s, cfg, round) && ProductiveSteps(s, cfg, round) == 0
    ensures s.workers[0].AtTop? && Alive(Run(s, cfg, round)) && Run(s, cfg, round).workers[0].Polling?
  {
    assert round[..0] == [] && round[..|round|] == round;
    forall w | 0 <= w < |s.workers|
      ensures !s.workers[w].Holding?
    {
      assert ActsIn(s, cfg, round, w);
      var i :| 0 <= i < |round| && Of(round[i], w) && Enabled(Run(s, cfg, round[..i]), round[i]);
      IdleRound(s, cfg, round, 0, i);
      NoneProductive(s, cfg, round, i);
    }
    assert ActsIn(s, cfg, round, 0);
    var i :| 0 <= i < |round| && Of(round[i], 0) && Enabled(Run(s, cfg, round[..i]), round[i]);
    IdleRound(s, cfg, round, 0, i);
    NoneProductive(s, cfg, round, i);
    RunOneMore(s, cfg, round, i);
    IdleRound(s, cfg, round, 0, i + 1);
    IdleRound(s, cfg, round, i + 1, |round|);
  }

  lemma StepStaysAlive(s: State, cfg: Config, a: Action)
    requires Alive(s) && !a.Cancel?
    ensures Alive(Step(s, cfg, a))
  {
  }

  lemma {:induction false} RunStaysAlive(s: State, cfg: Config, round: seq<Action>, i: nat)
    requires Alive(s) && i <= |round| && forall k :: 0 <= k < |round| ==> !round[k].Cancel?
    ensures Alive(Run(s, cfg, round[..i]))
  {
    if i > 0 {
      RunStaysAlive(s, cfg, round, i - 1);
      RunOneMore(s, cfg, round, i - 1);
      StepStaysAlive(Run(s, cfg, round[..i - 1]), cfg, round[i - 1]);
    }
  }

  lemma RoundProgress(s: State, cfg: Config, round: seq<Action>)
    requires Conserved(s) && Counted(s, cfg) && Alive(s) && FairRound(s, cfg, round)
    ensures var t := Run(s, cfg, round);
            && Conserved(t) && Counted(t, cfg) && Alive(t) && Work(cfg, t) <= Work(cfg, s)
            && (!Drained(s) ==> Distance(cfg, t) < Distance(cfg, s))
  {
    RunWorks(s, cfg, round);
    RunStaysAlive(s, cfg, round, |round|);
    assert round[..|round|] == round;
    if !Drained(s) && ProductiveSteps(s, cfg, round) == 0 {
      IdleRoundPolls(s, cfg, round);
    }
  }

  lemma {:induction false} RoundsProgress(s: State, cfg: Config, rounds: seq<seq<Action>>)
    requires Conserved(s) && Counted(s, cfg) && Alive(s) && FairRounds(s, cfg, rounds)
    ensures var t := AfterRounds(s, cfg, rounds);
            && Conserved(t) && Counted(t, cfg) && Alive(t)
            && (Drained(t) || Distance(cfg, t) + |rounds| <= Distance(cfg, s))
  {
    if rounds != [] {
      var m := AfterRounds(s, cfg, rounds[..|rounds| - 1]);
      RoundsProgress(s, cfg, rounds[..|rounds| - 1]);
      RoundProgress(m, cfg, rounds[|rounds| - 1]);
      WorkIsNatural(m, cfg);
      WorkIsNatural(AfterRounds(s, cfg, rounds), cfg);
    }
  }

  /** The remaining attempts drain the queue: from every reachable live state, every fair
      schedule without new jobs, whatever the model answers and whatever Redis refuses, has
      emptied the queue and every hand after two rounds per unit of work. */
  lemma FairSchedulesDrain(n: nat, cfg: Config, before: seq<Action>, s: State, rounds: seq<seq<Action>>)
    requires s == Run(Init(n), cfg, before) && Alive(s) && FairRounds(s, cfg, rounds)
    requires |rounds| >= 2 * Work(cfg, s)
    ensures Drained(AfterRounds(s, cfg, rounds))
  {
    JobsAreConserved(n, cfg, before);
    RunCounts(n, cfg, before);
    RoundsProgress(s, cfg, rounds);
    WorkIsNatural(AfterRounds(s, cfg, rounds), cfg);
  }

  // ---------- there are fair schedules, for every run of verdicts ----------

  /** What worker w does next if it is its turn; v is the verdict if it holds a job. */
  function TurnOf(s: State, w: nat, v: Verdict): Action
    requires w < |s.workers|
  {
    match s.workers[w]
    case AtTop => if s.cancelled then Exit(w) else Poll(w)
    case Polling => if s.lists.queue == [] then ReceiveNothing(w) else Receive(w)
    case Holding(_) => Handle(w, v)
    case Exited => Exit(w)
  }

  lemma {:induction false} WorkersStay(s: State, cfg: Config, acts: seq<Action>)
    ensures |Run(s, cfg, acts).workers| == |s.workers|
  {
    if acts != [] {
      WorkersStay(s, cfg, acts[..|acts| - 1]);
    }
  }

  /** The workers take their turns in order. */
  function RoundRobin(s: State, cfg: Config, verdicts: seq<Verdict>): (round: seq<Action>)
    requires |verdicts| <= |s.workers|
    ensures |round| == |verdicts|
  {
    if verdicts == [] then []
    else
      var w := |verdicts| - 1;
      var first := RoundRobin(s, cfg, verdicts[..w]);
      WorkersStay(s, cfg, first);
      first + [TurnOf(Run(s, cfg, first), w, verdicts[w])]
  }

  lemma {:induction false} RoundRobinTurn(s: State, cfg: Config, verdicts: seq<Verdict>, i: nat)
    requires i < |verdicts| <= |s.workers|
    ensures var round, m := RoundRobin(s, cfg, verdicts), Run(s, cfg, RoundRobin(s, cfg, verdicts)[..i]);
            |m.workers| == |s.workers| && round[i] == TurnOf(m, i, verdicts[i])
  {
    var w := |verdicts| - 1;
    var round := RoundRobin(s, cfg, verdicts);
    assert round[..w] == RoundRobin(s, cfg, verdicts[..w]);
    WorkersStay(s, cfg, round[..i]);
    if i < w {
      RoundRobinTurn(s, cfg, verdicts[..w], i);
      assert round[..w][..i] == round[..i];
    }
  }

  /** Only its own turns move a worker. */
  lemma {:induction false} OthersDoNotMove(s: State, cfg: Config, acts: seq<Action>, w: nat)
    requires w < |s.workers| && forall i :: 0 <= i < |acts| ==> !Of(acts[i], w)
    ensures |Run(s, cfg, acts).workers| == |s.workers| && Run(s, cfg, acts).workers[w] == s.workers[w]
  {
    if acts != [] {
      OthersDoNotMove(s, cfg, acts[..|acts| - 1], w);
    }
  }

  /** Round robin is fair from every state, whatever the verdicts are. */
  lemma RoundRobinIsFair(s: State, cfg: Config, verdicts: seq<Verdict>)
    requires |verdicts| == |s.workers|
    ensures FairRound(s, cfg, RoundRobin(s, cfg, verdicts))
  {
    var round := RoundRobin(s, cfg, verdicts);
    forall i | 0 <= i < |round|
      ensures Of(round[i], i) && !round[i].Enqueue? && !round[i].Cancel?
      ensures round[i].ReceiveNothing? ==> Run(s, cfg, round[..i]).lists.queue == []
    {
      RoundRobinTurn(s, cfg, verdicts, i);
    }
    forall w | 0 <= w < |s.workers| && !s.workers[w].Exited?
      ensures ActsIn(s, cfg, round, w)
    {
      RoundRobinTurn(s, cfg, verdicts, w);
      OthersDoNotMove(s, cfg, round[..w], w);
      assert Of(round[w], w) && Enabled(Run(s, cfg, round[..w]), round[w]);
    }
  }

  // ---------- shutdown, with every worker getting turns ----------

  /** How many more turns a worker takes once the pipeline is cancelled. */
  function TurnsLeft(k: Worker): nat {
    match k
    case Exited => 0
    case AtTop => 1
    case Holding(_) => 2
    case Polling => 3
  }

  lemma CancelledStep(s: State, cfg: Config, a: Action, w: nat)
    requires s.cancelled && w < |s.workers|
    ensures var t := Step(s, cfg, a);
            && t.cancelled && |t.workers| == |s.workers|
            && TurnsLeft(t.workers[w]) + (if Of(a, w) && Enabled(s, a) then 1 else 0) <= TurnsLeft(s.workers[w])
  {
  }

  lemma {:induction false} CancelledRound(s: State, cfg: Config, round: seq<Action>, w: nat, i: nat)
    requires s.cancelled && w < |s.workers| && i <= |round|
    ensures var t := Run(s, cfg, round[..i]);
            && t.cancelled && |t.workers| == |s.workers|
            && TurnsLeft(t.workers[w]) <= TurnsLeft(s.workers[w])
            && ((exists k :: 0 <= k < i && Of(round[k], w) && Enabled(Run(s, cfg, round[..k]), round[k]))
                  ==> TurnsLeft(t.workers[w]) < TurnsLeft(s.workers[w]))
  {
    if i > 0 {
      CancelledRound(s, cfg, round, w, i - 1);
      RunOneMore(s, cfg, round, i - 1);
      CancelledStep(Run(s, cfg, round[..i - 1]), cfg, round[i - 1], w);
    }
  }

  predicate EveryoneActsEach(s: State, cfg: Config, rounds: seq<seq<Action>>) {
    rounds == [] ||
    (&& EveryoneActsEach(s, cfg, rounds[..|rounds| - 1])
     && EveryoneActs(AfterRounds(s, cfg, rounds[..|rounds| - 1]), cfg, rounds[|rounds| - 1]))
  }

  lemma {:induction false} RunConserves(s: State, cfg: Config, acts: seq<Action>)
    requires Conserved(s)
    ensures Conserved(Run(s, cfg, acts))
  {
    if acts != [] {
      RunConserves(s, cfg, acts[..|acts| - 1]);
      StepConserves(Run(s, cfg, acts[..|acts| - 1]), cfg, acts[|acts| - 1]);
    }
  }

  lemma {:induction false} CancelledRounds(s: State, cfg: Config, rounds: seq<seq<Action>>, w: nat)
    requires Conserved(s) && s.cancelled && w < |s.workers| && EveryoneActsEach(s, cfg, rounds)
    ensures var t := AfterRounds(s, cfg, rounds);
            && Conserved(t) && t.cancelled && |t.workers| == |s.workers|
            && (t.workers[w].Exited? || TurnsLeft(t.workers[w]) + |rounds| <= TurnsLeft(s.workers[w]))
  {
    if rounds != [] {
      var round := rounds[|rounds| - 1];
      var m := AfterRounds(s, cfg, rounds[..|rounds| - 1]);
      CancelledRounds(s, cfg, rounds[..|rounds| - 1], w);
      CancelledRound(m, cfg, round, w, |round|);
      RunConserves(m, cfg, round);
      assert round[..|round|] == round;
      if !m.workers[w].Exited? {
        assert ActsIn(m, cfg, round, w);
      }
    }
  }

  /** Stop returns: once cancelled, after three rounds in which every worker gets a turn, and
      with anything else going on, new jobs included, every worker has left its loop; and
      then each accepted job is queued, dead-lettered, finished or dropped. */
  lemma StopReturns(n: nat, cfg: Config, before: seq<Action>, s: State, rounds: seq<seq<Action>>)
    requires s == Run(Init(n), cfg, before) && s.cancelled
    requires EveryoneActsEach(s, cfg, rounds) && |rounds| >= 3
    ensures var t := AfterRounds(s, cfg, rounds);
            && (forall w :: 0 <= w < |t.workers| ==> t.workers[w].Exited?)
            && (forall id :: id in t.accepted ==>
                  Occurs(t.lists.queue, id) + Occurs(t.lists.failed, id) + t.finished[id] + t.dropped[id] == 1)
  {
    JobsAreConserved(n, cfg, before);
    var t := AfterRounds(s, cfg, rounds);
    RoundsKeepWorkers(s, cfg, rounds);
    RoundsConserve(s, cfg, rounds);
    forall w | 0 <= w < |t.workers|
      ensures t.workers[w].Exited?
    {
      CancelledRounds(s, cfg, rounds, w);
    }
    forall id | id in t.accepted
      ensures Occurs(t.lists.queue, id) + Occurs(t.lists.failed, id) + t.finished[id] + t.dropped[id] == 1
    {
      AllAccountedFor(t, id);
    }
  }

  lemma {:induction false} RoundsKeepWorkers(s: State, cfg: Config, rounds: seq<seq<Action>>)
    ensures |AfterRounds(s, cfg, rounds).workers| == |s.workers|
  {
    if rounds != [] {
      RoundsKeepWorkers(s, cfg, rounds[..|rounds| - 1]);
      WorkersStay(AfterRounds(s, cfg, rounds[..|rounds| - 1]), cfg, rounds[|rounds| - 1]);
    }
  }

  lemma {:induction false} RoundsConserve(s: State, cfg: Config, rounds: seq<seq<Action>>)
    requires Conserved(s)
    ensures Conserved(AfterRounds(s, cfg, rounds))
  {
    if rounds != [] {
      RoundsConserve(s, cfg, rounds[..|rounds| - 1]);
      RunConserves(AfterRounds(s, cfg, rounds[..|rounds| - 1]), cfg, rounds[|rounds| - 1]);
    }
  }

  /** The jobs worker w handles in a run. */
  function HandledBy(s: State, cfg: Config, acts: seq<Action>, w: nat): nat {
    if acts == [] then 0
    else
      var a := acts[|acts| - 1];
      HandledBy(s, cfg, acts[..|acts| - 1], w)
      + if a.Handle? && a.w == w && Enabled(Run(s, cfg, acts[..|acts| - 1]), a) then 1 else 0
  }

  /** After the cancellation a worker handles at most the one job it holds or is about to
      receive. */
  lemma {:induction false} StopHandlesAtMostOne(s: State, cfg: Config, acts: seq<Action>, w: nat)
    requires s.cancelled && w < |s.workers|
    ensures var t := Run(s, cfg, acts);
            && t.cancelled && |t.workers| == |s.workers|
            && HandledBy(s, cfg, acts, w) + (if TurnsLeft(t.workers[w]) >= 2 then 1 else 0)
               <= (if TurnsLeft(s.workers[w]) >= 2 then 1 else 0)
  {
    if acts != [] {
      StopHandlesAtMostOne(s, cfg, acts[..|acts| - 1], w);
      CancelledStep(Run(s, cfg, acts[..|acts| - 1]), cfg, acts[|acts| - 1], w);
    }
  }
}
