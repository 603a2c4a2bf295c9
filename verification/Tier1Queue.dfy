/** The Redis lists behind the Tier 1 pipeline and what one worker does with one job. */
module Tier1Queue {
  import opened Scores

  datatype Job = Job(id: string, retries: nat, tier0: Decision)

  datatype Label = Benign | Malicious | OtherLabel

  /** How the model call and the two fallback pushes turn out. */
  datatype Verdict = Failed(requeueOk: bool, deadLetterOk: bool) | Answered(says: Label, confidence: real)

  datatype Config = Config(maxRetries: int, threshold: real)

  /** Where the job goes. */
  datatype Outcome = Requeued | DeadLettered | Dropped | Finished

  /** The direction FeedbackEngine.Apply moves the trust correction, if it moves it: up for a
      benign request that was challenged or refused, down for a malicious one let through. */
  function FeedbackSign(tier0: Decision, says: Label, confident: bool): int {
    if !confident then 0
    else if !Lenient(tier0) && says.Benign? then 1
    else if Lenient(tier0) && says.Malicious? then -1
    else 0
  }

  /** A failed job keeps its place in the count of attempts. */
  function Retried(job: Job): Job {
    job.(retries := job.retries + 1)
  }

  function OutcomeOf(cfg: Config, job: Job, v: Verdict): Outcome {
    match v
    case Answered(_, _) => Finished
    case Failed(requeueOk, deadLetterOk) =>
      if job.retries + 1 < cfg.maxRetries && requeueOk then Requeued
      else if deadLetterOk then DeadLettered
      else Dropped
  }

  function Feedback(cfg: Config, job: Job, v: Verdict): int {
    match v
    case Failed(_, _) => 0
    case Answered(says, confidence) => FeedbackSign(job.tier0, says, confidence >= cfg.threshold)
  }

  /** The lists and their counters. */
  datatype Lists = Lists(queue: seq<Job>, failed: seq<Job>, enqueued: nat, requeued: nat, popped: nat)

  const EMPTY := Lists([], [], 0, 0, 0)

  function Enqueued(q: Lists, job: Job): Lists {
    q.(queue := q.queue + [job], enqueued := q.enqueued + 1)
  }

  function Popped(q: Lists): Lists
    requires q.queue != []
  {
    q.(queue := q.queue[1..], popped := q.popped + 1)
  }

  function Settled(q: Lists, job: Job, outcome: Outcome): Lists {
    match outcome
    case Requeued => q.(queue := q.queue + [Retried(job)], requeued := q.requeued + 1)
    case DeadLettered => q.(failed := [Retried(job)] + q.failed)
    case Dropped => q
    case Finished => q
  }

  class RedisQueue {
    var queue: seq<Job>
    var failed: seq<Job>
    var enqueued: nat
    var requeued: nat
    var popped: nat

    ghost function View(): Lists
      reads this
    {
      Lists(queue, failed, enqueued, requeued, popped)
    }

    constructor ()
      ensures View() == EMPTY
    {
      queue, failed, enqueued, requeued, popped := [], [], 0, 0, 0;
    }

    /** RPUSH and INCR in one pipeline; ok is what Redis answers. */
    method Enqueue(job: Job, ok: bool)
      modifies this
      ensures View() == if ok then Enqueued(old(View()), job) else old(View())
    {
      if ok {
        queue := queue + [job];
        enqueued := enqueued + 1;
      }
    }

    /** BLPOP: the head of the list, or nothing after the timeout. */
    method Dequeue() returns (job: Option<Job>)
      modifies this
      ensures old(queue) == [] ==> job.None? && View() == old(View())
      ensures old(queue) != [] ==> job == Some(old(queue)[0]) && View() == Popped(old(View()))
    {
      if queue == [] {
        return None;
      }
      job := Some(queue[0]);
      queue := queue[1..];
      popped := popped + 1;
    }

    method Requeue(job: Job, ok: bool)
      modifies this
      ensures queue == (if ok then old(queue) + [job] else old(queue))
      ensures requeued == old(requeued) + (if ok then 1 else 0)
      ensures failed == old(failed) && enqueued == old(enqueued) && popped == old(popped)
    {
      if ok {
        queue := queue + [job];
        requeued := requeued + 1;
      }
    }

    /** LPUSH: newest dead letter first. */
    method MoveToFailed(job: Job, ok: bool)
      modifies this
      ensures failed == if ok then [job] + old(failed) else old(failed)
      ensures queue == old(queue) && enqueued == old(enqueued) && requeued == old(requeued) && popped == old(popped)
    {
      if ok {
        failed := [job] + failed;
      }
    }

    /** Tier1Worker.process: predict, then requeue, dead-letter, or finish with feedback. */
    method Process(cfg: Config, job: Job, v: Verdict) returns (outcome: Outcome, feedback: int)
      modifies this
      ensures outcome == OutcomeOf(cfg, job, v) && feedback == Feedback(cfg, job, v)
      ensures View() == Settled(old(View()), job, outcome)
    {
      feedback := 0;
      if v.Failed? {
        var retried := Job(job.id, job.retries + 1, job.tier0);
        if retried.retries < cfg.maxRetries {
          Requeue(retried, v.requeueOk);
          if v.requeueOk {
            return Requeued, 0;
          }
        }
        MoveToFailed(retried, v.deadLetterOk);
        outcome := if v.deadLetterOk then DeadLettered else Dropped;
      } else {
        outcome := Finished;
        if v.confidence >= cfg.threshold {
          var tier0Malicious := job.tier0.Challenge? || job.tier0.Block? || job.tier0.Ban?;
          var tier0Benign := job.tier0.Allow? || job.tier0.AllowStricter?;
          if tier0Malicious && v.says.Benign? {
            feedback := 1;
          } else if tier0Benign && v.says.Malicious? {
            feedback := -1;
          }
        }
      }
    }
  }
}
