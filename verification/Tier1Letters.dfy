/** Where a failing Tier 1 job ends: requeued while attempts are left, then dead-lettered, and
    lost only if Redis refuses the dead letter. Also the order jobs are received in, and
    which answers reach the trust score. */
module Tier1Letters {
  import opened Scores
  import opened Tier1Queue
  import opened Tier1Pipeline

  /** The job a worker has in hand. */
  predicate InHand(s: State, w: nat, id: string) {
    w < |s.workers| && s.workers[w].Holding? && s.workers[w].job.id == id
  }

  /** The i-th action of the run handles a job of this id. */
  predicate HandledAt(n: nat, cfg: Config, acts: seq<Action>, i: nat, id: string) {
    i < |acts| && acts[i].Handle? && InHand(Run(Init(n), cfg, acts[..i]), acts[i].w, id)
  }

  /** The model failed on the job and Redis refused the dead letter, should it come to that. */
  predicate LetterRefused(n: nat, cfg: Config, acts: seq<Action>, id: string) {
    exists i :: 0 <= i < |acts| && HandledAt(n, cfg, acts, i, id) && acts[i].v.Failed? && !acts[i].v.deadLetterOk
  }

  predicate RequeueRefused(n: nat, cfg: Config, acts: seq<Action>, id: string) {
    exists i :: 0 <= i < |acts| && HandledAt(n, cfg, acts, i, id) && acts[i].v.Failed? && !acts[i].v.requeueOk
  }

  lemma HandledBefore(n: nat, cfg: Config, acts: seq<Action>, i: nat, id: string)
    requires i < |acts| - 1
    ensures HandledAt(n, cfg, acts, i, id) <==> HandledAt(n, cfg, acts[..|acts| - 1], i, id)
  {
    assert acts[..|acts| - 1][..i] == acts[..i];
  }

  /** A refusal anywhere in the run so far is one in the longer run. */
  lemma RefusalsStay(n: nat, cfg: Config, acts: seq<Action>, id: string)
    requires acts != []
    ensures LetterRefused(n, cfg, acts[..|acts| - 1], id) ==> LetterRefused(n, cfg, acts, id)
    ensures RequeueRefused(n, cfg, acts[..|acts| - 1], id) ==> RequeueRefused(n, cfg, acts, id)
  {
    var front := acts[..|acts| - 1];
    if i :| 0 <= i < |front| && HandledAt(n, cfg, front, i, id) && front[i].v.Failed? && !front[i].v.deadLetterOk {
      HandledBefore(n, cfg, acts, i, id);
      assert HandledAt(n, cfg, acts, i, id);
    }
    if i :| 0 <= i < |front| && HandledAt(n, cfg, front, i, id) && front[i].v.Failed? && !front[i].v.requeueOk {
      HandledBefore(n, cfg, acts, i, id);
      assert HandledAt(n, cfg, acts, i, id);
    }
  }

  /** What one step does to the places a job can end in. */
  lemma StepEnds(s: State, cfg: Config, a: Action, id: string)
    ensures var t := Step(s, cfg, a);
            && (!(a.Handle? && InHand(s, a.w, id)) ==>
                  && t.dropped[id] == s.dropped[id] && t.failures[id] == s.failures[id]
                  && Occurs(t.lists.failed, id) == Occurs(s.lists.failed, id) && t.fed[id] == s.fed[id])
            && (a.Handle? && InHand(s, a.w, id) ==>
                  && t.dropped[id] <= s.dropped[id] + 1
                  && (t.dropped[id] > s.dropped[id] ==> a.v.Failed? && !a.v.deadLetterOk)
                  && t.failures[id] == s.failures[id] + (if a.v.Failed? then 1 else 0)
                  && (Occurs(t.lists.failed, id) > Occurs(s.lists.failed, id) ==>
                        a.v.Failed? && (s.workers[a.w].job.retries + 1 >= cfg.maxRetries || !a.v.requeueOk)))
  {
    if a.Handle? && Enabled(s, a) {
      var t := Step(s, cfg, a);
      assert t.lists.failed != s.lists.failed ==> t.lists.failed[1..] == s.lists.failed;
    }
  }

  /** A job is lost only after Redis refused its dead letter. */
  lemma {:induction false} LostOnlyIfLetterRefused(n: nat, cfg: Config, acts: seq<Action>, id: string)
    ensures Run(Init(n), cfg, acts).dropped[id] > 0 ==> LetterRefused(n, cfg, acts, id)
  {
    if acts != [] {
      var i := |acts| - 1;
      LostOnlyIfLetterRefused(n, cfg, acts[..i], id);
      RefusalsStay(n, cfg, acts, id);
      StepEnds(Run(Init(n), cfg, acts[..i]), cfg, acts[i], id);
      assert acts[..i + 1] == acts;
      if acts[i].Handle? && InHand(Run(Init(n), cfg, acts[..i]), acts[i].w, id) {
        assert HandledAt(n, cfg, acts, i, id);
      }
    }
  }

  /** So a run in which Redis takes every dead letter loses nothing. */
  lemma NothingIsLost(n: nat, cfg: Config, acts: seq<Action>)
    requires forall i :: 0 <= i < |acts| && acts[i].Handle? && acts[i].v.Failed? ==> acts[i].v.deadLetterOk
    ensures Run(Init(n), cfg, acts).dropped == multiset{}
  {
    var dropped := Run(Init(n), cfg, acts).dropped;
    forall id
      ensures dropped[id] == 0
    {
      LostOnlyIfLetterRefused(n, cfg, acts, id);
    }
    assert forall id :: id !in dropped;
  }

  lemma {:induction false} AtLeastOne(jobs: seq<Job>, id: string)
    requires Occurs(jobs, id) >= 1
    ensures exists i :: 0 <= i < |jobs| && jobs[i].id == id
  {
    if jobs[0].id != id {
      AtLeastOne(jobs[1..], id);
      var i :| 0 <= i < |jobs[1..]| && jobs[1..][i].id == id;
      assert jobs[i + 1].id == id;
    }
  }

  lemma {:induction false} SomeoneHolds(workers: seq<Worker>, id: string)
    requires Held(workers, id) >= 1
    ensures exists w :: 0 <= w < |workers| && workers[w].Holding? && workers[w].job.id == id
  {
    if !(workers[0].Holding? && workers[0].job.id == id) {
      SomeoneHolds(workers[1..], id);
      var w :| 0 <= w < |workers[1..]| && workers[1..][w].Holding? && workers[1..][w].job.id == id;
      assert workers[w + 1].Holding? && workers[w + 1].job.id == id;
    }
  }

  /** A job in the queue or in hand has attempts left. */
  lemma WaitingHasAttempts(s: State, cfg: Config, id: string)
    requires AllHonest(s, cfg)
    ensures Occurs(s.lists.queue, id) >= 1 || Held(s.workers, id) >= 1 ==> s.failures[id] < Limit(cfg)
  {
    if Occurs(s.lists.queue, id) >= 1 {
      AtLeastOne(s.lists.queue, id);
      var i :| 0 <= i < |s.lists.queue| && s.lists.queue[i].id == id;
      assert Honest(s, cfg, s.lists.queue[i]);
    } else if Held(s.workers, id) >= 1 {
      SomeoneHolds(s.workers, id);
      var w :| 0 <= w < |s.workers| && s.workers[w].Holding? && s.workers[w].job.id == id;
      assert Honest(s, cfg, s.workers[w].job);
    }
  }

  /** A job that has used up its attempts is a dead letter, unless Redis refused it. */
  lemma ExhaustedIsDeadLettered(n: nat, cfg: Config, acts: seq<Action>, id: string)
    requires id in Run(Init(n), cfg, acts).accepted && !LetterRefused(n, cfg, acts, id)
    requires Run(Init(n), cfg, acts).failures[id] == Limit(cfg)
    ensures Occurs(Run(Init(n), cfg, acts).lists.failed, id) == 1
  {
    var s := Run(Init(n), cfg, acts);
    JobsAreConserved(n, cfg, acts);
    RunCounts(n, cfg, acts);
    LostOnlyIfLetterRefused(n, cfg, acts, id);
    assert Whereabouts(s, id) == 1;
    assert s.predicted[id] <= Limit(cfg) && s.predicted[id] == s.failures[id] + s.finished[id];
    WaitingHasAttempts(s, cfg, id);
  }

  /** A dead letter has used up its attempts, unless Redis refused to requeue it. */
  lemma {:induction false} DeadLetterIsExhausted(n: nat, cfg: Config, acts: seq<Action>, id: string)
    requires !RequeueRefused(n, cfg, acts, id)
    ensures Occurs(Run(Init(n), cfg, acts).lists.failed, id) >= 1 ==> Run(Init(n), cfg, acts).failures[id] == Limit(cfg)
  {
    if acts != [] {
      var i := |acts| - 1;
      var s := Run(Init(n), cfg, acts[..i]);
      var a := acts[i];
      RefusalsStay(n, cfg, acts, id);
      DeadLetterIsExhausted(n, cfg, acts[..i], id);
      StepEnds(s, cfg, a, id);
      if a.Handle? && InHand(s, a.w, id) {
        JobsAreConserved(n, cfg, acts[..i]);
        RunCounts(n, cfg, acts[..i]);
        HandledIsNoDeadLetter(s, a.w, id);
        assert HandledAt(n, cfg, acts, i, id);
        assert Honest(s, cfg, s.workers[a.w].job);
      }
    }
  }

  lemma HandledIsNoDeadLetter(s: State, w: nat, id: string)
    requires Conserved(s) && InHand(s, w, id)
    ensures Occurs(s.lists.failed, id) == 0
  {
    HeldUpdate(s.workers, w, AtTop, id);
    assert Whereabouts(s, id) <= 1;
  }

  /** While Redis takes requeues and dead letters of a job, it is dead-lettered exactly when
      the model failed on it max(1, MaxRetries) times. */
  lemma DeadLetteredExactlyWhen(n: nat, cfg: Config, acts: seq<Action>, id: string)
    requires id in Run(Init(n), cfg, acts).accepted
    requires !LetterRefused(n, cfg, acts, id) && !RequeueRefused(n, cfg, acts, id)
    ensures Occurs(Run(Init(n), cfg, acts).lists.failed, id) == 1
            <==> Run(Init(n), cfg, acts).failures[id] == (if cfg.maxRetries > 1 then cfg.maxRetries else 1)
  {
    if Run(Init(n), cfg, acts).failures[id] == Limit(cfg) {
      ExhaustedIsDeadLettered(n, cfg, acts, id);
    }
    DeadLetterIsExhausted(n, cfg, acts, id);
  }

  /** A failure with attempts left goes to the back of the queue, one retry richer; an answer
      finishes the job. */
  lemma HandledGoesWhere(s: State, cfg: Config, w: nat, v: Verdict, job: Job)
    requires Is(s, w, Holding(job))
    ensures var t := Step(s, cfg, Handle(w, v));
            && (v.Failed? && v.requeueOk && job.retries + 1 < cfg.maxRetries ==>
                  t.lists.queue == s.lists.queue + [Job(job.id, job.retries + 1, job.tier0)])
            && (v.Failed? && v.deadLetterOk && !(v.requeueOk && job.retries + 1 < cfg.maxRetries) ==>
                  t.lists.failed == [Job(job.id, job.retries + 1, job.tier0)] + s.lists.failed)
            && (v.Answered? ==> t.finished[job.id] == s.finished[job.id] + 1 && t.lists == s.lists)
            && t.workers[w] == AtTop
  {
  }

  // ---------- first in, first out ----------

  /** Every job pushed on the queue, new or retried, in order. */
  function Pushed(n: nat, cfg: Config, acts: seq<Action>): seq<Job> {
    if acts == [] then []
    else
      var s, a := Run(Init(n), cfg, acts[..|acts| - 1]), acts[|acts| - 1];
      var before := Pushed(n, cfg, acts[..|acts| - 1]);
      if a.Enqueue? && Enabled(s, a) then before + [a.job]
      else if a.Handle? && Enabled(s, a) && a.v.Failed? && a.v.requeueOk && s.workers[a.w].job.retries + 1 < cfg.maxRetries
      then
        var job := s.workers[a.w].job;
        before + [Job(job.id, job.retries + 1, job.tier0)]
      else before
  }

  /** Every job a worker received, in order. */
  function Received(n: nat, cfg: Config, acts: seq<Action>): seq<Job> {
    if acts == [] then []
    else
      var s, a := Run(Init(n), cfg, acts[..|acts| - 1]), acts[|acts| - 1];
      var t := Step(s, cfg, a);
      Received(n, cfg, acts[..|acts| - 1])
      + if a.Receive? && Enabled(s, a) && t.workers[a.w].Holding? then [t.workers[a.w].job] else []
  }

  lemma StepQueue(s: State, cfg: Config, a: Action)
    ensures var t := Step(s, cfg, a);
            if a.Enqueue? && Enabled(s, a) then t.lists.queue == s.lists.queue + [a.job]
            else if a.Receive? && Enabled(s, a) then
              s.lists.queue == [s.lists.queue[0]] + t.lists.queue && t.workers[a.w] == Holding(s.lists.queue[0])
            else if a.Handle? && Enabled(s, a) && a.v.Failed? && a.v.requeueOk
                    && s.workers[a.w].job.retries + 1 < cfg.maxRetries then
              var job := s.workers[a.w].job;
              t.lists.queue == s.lists.queue + [Job(job.id, job.retries + 1, job.tier0)]
            else t.lists.queue == s.lists.queue
  {
  }

  /** Jobs are received in the order they were pushed; the queue is what is still to come. */
  lemma {:induction false} FirstInFirstOut(n: nat, cfg: Config, acts: seq<Action>)
    ensures Pushed(n, cfg, acts) == Received(n, cfg, acts) + Run(Init(n), cfg, acts).lists.queue
  {
    if acts != [] {
      var front := acts[..|acts| - 1];
      var s, a := Run(Init(n), cfg, front), acts[|acts| - 1];
      FirstInFirstOut(n, cfg, front);
      StepQueue(s, cfg, a);
      var received := Received(n, cfg, front);
      if a.Receive? && Enabled(s, a) {
        var job := s.lists.queue[0];
        assert Received(n, cfg, acts) == received + [job];
        assert received + s.lists.queue == (received + [job]) + Step(s, cfg, a).lists.queue;
      } else {
        assert Received(n, cfg, acts) == received;
      }
    }
  }

  // ---------- feedback ----------

  /** The deep tier disagrees with the decision the request got. */
  predicate Disagrees(tier0: Decision, says: Label) {
    (says.Benign? && (tier0.Challenge? || tier0.Block? || tier0.Ban?))
    || (says.Malicious? && (tier0.Allow? || tier0.AllowStricter?))
  }

  /** A confident answer that disagrees, for the i-th action's job. */
  predicate CorrectsAt(n: nat, cfg: Config, acts: seq<Action>, i: nat, id: string) {
    && HandledAt(n, cfg, acts, i, id)
    && acts[i].v.Answered? && acts[i].v.confidence >= cfg.threshold
    && Disagrees(Run(Init(n), cfg, acts[..i]).workers[acts[i].w].job.tier0, acts[i].v.says)
  }

  lemma StepFeeds(s: State, cfg: Config, a: Action, id: string)
    ensures Step(s, cfg, a).fed[id] == s.fed[id]
            + if a.Handle? && InHand(s, a.w, id) && a.v.Answered? && a.v.confidence >= cfg.threshold
                 && Disagrees(s.workers[a.w].job.tier0, a.v.says) then 1 else 0
  {
  }

  /** Feedback is applied for a job exactly when a confident answer disagreed with its
      request's decision. */
  lemma {:induction false} FedExactlyWhen(n: nat, cfg: Config, acts: seq<Action>, id: string)
    ensures Run(Init(n), cfg, acts).fed[id] > 0
            <==> exists i :: 0 <= i < |acts| && CorrectsAt(n, cfg, acts, i, id)
  {
    if acts != [] {
      var last := |acts| - 1;
      var front := acts[..last];
      FedExactlyWhen(n, cfg, front, id);
      StepFeeds(Run(Init(n), cfg, front), cfg, acts[last], id);
      forall i | 0 <= i < last
        ensures CorrectsAt(n, cfg, acts, i, id) <==> CorrectsAt(n, cfg, front, i, id)
      {
        assert front[..i] == acts[..i];
      }
      assert CorrectsAt(n, cfg, acts, last, id)
             <==> acts[last].Handle? && InHand(Run(Init(n), cfg, front), acts[last].w, id)
                  && acts[last].v.Answered? && acts[last].v.confidence >= cfg.threshold
                  && Disagrees(Run(Init(n), cfg, front).workers[acts[last].w].job.tier0, acts[last].v.says);
    }
  }

  /** It raises the trust of the refused and lowers that of the allowed. */
  lemma FeedbackPullsBack(cfg: Config, job: Job, v: Verdict)
    ensures Feedback(cfg, job, v) > 0
            <==> v.Answered? && v.confidence >= cfg.threshold && v.says.Benign? && !Lenient(job.tier0)
    ensures Feedback(cfg, job, v) < 0
            <==> v.Answered? && v.confidence >= cfg.threshold && v.says.Malicious? && Lenient(job.tier0)
  {
  }
}
