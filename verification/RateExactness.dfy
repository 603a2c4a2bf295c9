/** The token bucket over whole runs, in both directions: a request is admitted exactly when
    the rate and burst allow one more, over every interval that ends with it. */
module RateExactness {
  import opened TokenBuckets
  import opened RateLimiters

  // ---------- counting ----------

  lemma {:induction false} GrantedAppend(xs: seq<Call>, c: Call, answers: seq<bool>, b: bool, k: Key, t1: real, t2: real)
    requires |answers| == |xs|
    ensures Granted(xs + [c], answers + [b], k, t1, t2)
            == Granted(xs, answers, k, t1, t2)
               + if b && c.Request? && c.key == k && t1 <= c.now <= t2 then 1 else 0
    decreases |xs|
  {
    if xs != [] {
      assert (xs + [c])[1..] == xs[1..] + [c] && (answers + [b])[1..] == answers[1..] + [b];
      GrantedAppend(xs[1..], c, answers[1..], b, k, t1, t2);
    }
  }

  predicate SameWindow(calls: seq<Call>, k: Key, t1: real, t2: real, u1: real, u2: real) {
    forall i :: 0 <= i < |calls| && calls[i].Request? && calls[i].key == k ==>
      (t1 <= calls[i].now <= t2 <==> u1 <= calls[i].now <= u2)
  }

  lemma {:induction false} GrantedSame(calls: seq<Call>, answers: seq<bool>, k: Key, t1: real, t2: real, u1: real, u2: real)
    requires |answers| == |calls| && SameWindow(calls, k, t1, t2, u1, u2)
    ensures Granted(calls, answers, k, t1, t2) == Granted(calls, answers, k, u1, u2)
    decreases |calls|
  {
    if calls != [] {
      assert SameWindow(calls[1..], k, t1, t2, u1, u2) by {
        assert forall i :: 0 <= i < |calls[1..]| ==> calls[1..][i] == calls[i + 1];
      }
      GrantedSame(calls[1..], answers[1..], k, t1, t2, u1, u2);
    }
  }

  /** Nobody is granted at a time at which nobody asks. */
  lemma {:induction false} GrantedNever(calls: seq<Call>, answers: seq<bool>, k: Key, t1: real, t2: real)
    requires |answers| == |calls|
    requires forall i :: 0 <= i < |calls| && calls[i].Request? && calls[i].key == k ==> !(t1 <= calls[i].now <= t2)
    ensures Granted(calls, answers, k, t1, t2) == 0
    decreases |calls|
  {
    if calls != [] {
      assert forall i :: 0 <= i < |calls[1..]| ==> calls[1..][i] == calls[i + 1];
      GrantedNever(calls[1..], answers[1..], k, t1, t2);
    }
  }

  // ---------- prefixes of a run ----------

  predicate InOrder(calls: seq<Call>) {
    forall i, j :: 0 <= i <= j < |calls| ==> calls[i].now <= calls[j].now
  }

  lemma {:induction false} OrderlyIsInOrder(calls: seq<Call>, start: real)
    requires Orderly(calls, start)
    ensures InOrder(calls) && forall i :: 0 <= i < |calls| ==> start <= calls[i].now
    decreases |calls|
  {
    if calls != [] {
      OrderlyIsInOrder(calls[1..], calls[0].now);
      assert forall i :: 0 < i < |calls| ==> calls[i] == calls[1..][i - 1];
    }
  }

  lemma {:induction false} OrderlyPrefix(calls: seq<Call>, start: real, n: nat)
    requires Orderly(calls, start) && n <= |calls|
    ensures Orderly(calls[..n], start)
    decreases n
  {
    if n > 0 {
      assert calls[..n][1..] == calls[1..][..n - 1];
      OrderlyPrefix(calls[1..], calls[0].now, n - 1);
    }
  }

  /** The table and the answers after the first n calls, with nothing evicted. */
  function TableAt(calls: seq<Call>, n: nat, maxIdle: real): Table
    requires n <= |calls|
  {
    AfterAll(map[], calls[..n], maxIdle, false)
  }

  function AnswersTo(calls: seq<Call>, n: nat, maxIdle: real): (a: seq<bool>)
    requires n <= |calls|
    ensures |a| == n
  {
    AnswersLength(map[], calls[..n], maxIdle, false);
    Answers(map[], calls[..n], maxIdle, false)
  }

  lemma OneMoreCall(calls: seq<Call>, n: nat, maxIdle: real)
    requires n < |calls|
    ensures TableAt(calls, n + 1, maxIdle) == After(TableAt(calls, n, maxIdle), calls[n], maxIdle, false)
    ensures AnswersTo(calls, n + 1, maxIdle)
            == AnswersTo(calls, n, maxIdle) + [Answer(TableAt(calls, n, maxIdle), calls[n])]
  {
    var c := calls[n];
    assert calls[..n + 1] == calls[..n] + [c];
    AfterAllAppend(map[], calls[..n], [c], maxIdle, false);
    AnswersAppend(map[], calls[..n], [c], maxIdle, false);
    assert [c][1..] == [];
  }

  // ---------- every token is accounted for ----------

  /** The bucket holds a full burst as of t1, plus what was earned since, less what was granted
      since. */
  predicate Accounted(tokens: real, now: real, calls: seq<Call>, answers: seq<bool>, k: Key, t1: real, rate: real, burst: real)
    requires |answers| == |calls|
  {
    t1 <= now && tokens == burst + Earned(now - t1, rate) - Granted(calls, answers, k, t1, now) as real
  }

  /** Who asked for k before, and when the bucket was filled. */
  predicate Tracks(t: Table, calls: seq<Call>, k: Key, burst: real) {
    if k in t then
      && 0.0 <= t[k].tokens <= burst
      && (forall i :: 0 <= i < |calls| && calls[i].Request? && calls[i].key == k ==> calls[i].now <= t[k].lastFill)
    else forall i :: 0 <= i < |calls| && calls[i].Request? ==> calls[i].key != k
  }

  /** Refilling keeps the account: either nothing was capped, and the old account goes on, or
      the bucket is full now, and a new one starts. */
  lemma RefillAccounted(t: Table, calls: seq<Call>, answers: seq<bool>, k: Key, now: real, old1: real, rate: real, burst: real)
    returns (t1: real)
    requires |answers| == |calls| && 0.0 <= rate && 0.0 <= burst && Tracks(t, calls, k, burst)
    requires k in t ==> t[k].lastFill <= now
                        && Accounted(t[k].tokens, t[k].lastFill, calls, answers, k, old1, rate, burst)
    ensures Accounted(Refill(BucketFor(t, k, now, burst), now, rate, burst).tokens, now, calls, answers, k, t1, rate, burst)
  {
    NothingEarned(rate);
    if k !in t {
      t1 := now;
      assert now - now == 0.0;
      GrantedNever(calls, answers, k, now, now);
    } else {
      var b := t[k];
      if b.tokens + Earned(now - b.lastFill, rate) > burst {
        t1 := now;
        assert now - now == 0.0;
        assert now == b.lastFill ==> Earned(now - b.lastFill, rate) == Earned(0.0, rate);
        GrantedNever(calls, answers, k, now, now);
      } else {
        t1 := old1;
        EarningsAdd(t1, b.lastFill, now, rate);
        GrantedSame(calls, answers, k, t1, b.lastFill, t1, now);
      }
    }
  }

  /** After n calls the bucket of k, if there is one, is accounted for. */
  lemma {:induction false} BucketAccounted(calls: seq<Call>, start: real, k: Key, n: nat, rate: real, burst: real, maxIdle: real)
    returns (t1: real)
    requires 0.0 <= rate && 0.0 <= burst && Orderly(calls, start) && Fixed(calls, rate, burst) && n <= |calls|
    ensures Tracks(TableAt(calls, n, maxIdle), calls[..n], k, burst)
    ensures var t := TableAt(calls, n, maxIdle);
            k in t ==> (n < |calls| ==> t[k].lastFill <= calls[n].now)
                       && Accounted(t[k].tokens, t[k].lastFill, calls[..n], AnswersTo(calls, n, maxIdle), k, t1, rate, burst)
    decreases n
  {
    t1 := 0.0;
    if n > 0 {
      var m := n - 1;
      var c := calls[m];
      var t := TableAt(calls, m, maxIdle);
      var answers := AnswersTo(calls, m, maxIdle);
      t1 := BucketAccounted(calls, start, k, m, rate, burst, maxIdle);
      OneMoreCall(calls, m, maxIdle);
      OrderlyIsInOrder(calls, start);
      assert calls[..n] == calls[..m] + [c];
      if c.Request? && c.key == k {
        t1 := RefillAccounted(t, calls[..m], answers, k, c.now, t1, rate, burst);
        ChargeAccounts(BucketFor(t, k, c.now, burst), c.now, rate, burst);
      }
      if k in TableAt(calls, n, maxIdle) {
        GrantedAppend(calls[..m], c, answers, Answer(t, c), k, t1, TableAt(calls, n, maxIdle)[k].lastFill);
      }
    }
  }

  // ---------- the exact law ----------

  /** Since t1 one more request than were granted would still be within burst and rate. */
  predicate Affordable(calls: seq<Call>, answers: seq<bool>, k: Key, t1: real, now: real, rate: real, burst: real)
    requires |answers| == |calls|
  {
    (Granted(calls, answers, k, t1, now) + 1) as real <= burst + Earned(now - t1, rate)
  }

  ghost predicate AlwaysAffordable(calls: seq<Call>, answers: seq<bool>, k: Key, now: real, rate: real, burst: real)
    requires |answers| == |calls|
  {
    forall t1 :: t1 <= now ==> Affordable(calls, answers, k, t1, now, rate, burst)
  }

  lemma RefusedIsUnaffordable(calls: seq<Call>, start: real, i: nat, rate: real, burst: real, maxIdle: real)
    requires 0.0 <= rate && 0.0 <= burst && Orderly(calls, start) && Fixed(calls, rate, burst)
    requires i < |calls| && calls[i].Request? && !Answer(TableAt(calls, i, maxIdle), calls[i])
    ensures !AlwaysAffordable(calls[..i], AnswersTo(calls, i, maxIdle), calls[i].key, calls[i].now, rate, burst)
  {
    var c := calls[i];
    var old1 := BucketAccounted(calls, start, c.key, i, rate, burst, maxIdle);
    var t1 := RefillAccounted(TableAt(calls, i, maxIdle), calls[..i], AnswersTo(calls, i, maxIdle), c.key, c.now, old1,
                              rate, burst);
    assert !Affordable(calls[..i], AnswersTo(calls, i, maxIdle), c.key, t1, c.now, rate, burst);
  }

  lemma GrantedIsAffordable(calls: seq<Call>, start: real, i: nat, rate: real, burst: real, maxIdle: real)
    requires 0.0 <= rate && 0.0 <= burst && Orderly(calls, start) && Fixed(calls, rate, burst)
    requires i < |calls| && calls[i].Request? && Answer(TableAt(calls, i, maxIdle), calls[i])
    ensures AlwaysAffordable(calls[..i], AnswersTo(calls, i, maxIdle), calls[i].key, calls[i].now, rate, burst)
  {
    var c := calls[i];
    var answers := AnswersTo(calls, i, maxIdle);
    OneMoreCall(calls, i, maxIdle);
    OrderlyPrefix(calls, start, i + 1);
    assert calls[..i + 1] == calls[..i] + [c];
    forall t1 | t1 <= c.now
      ensures Affordable(calls[..i], answers, c.key, t1, c.now, rate, burst)
    {
      GrantsWithinBudget(map[], calls[..i + 1], c.key, start, t1, c.now, rate, burst, maxIdle);
      GrantedAppend(calls[..i], c, answers, true, c.key, t1, c.now);
    }
  }

  lemma AnswersAreSteps(calls: seq<Call>, i: nat, maxIdle: real)
    requires i < |calls|
    ensures var answers := Answers(map[], calls, maxIdle, false);
            && |answers| == |calls|
            && answers[..i] == AnswersTo(calls, i, maxIdle)
            && answers[i] == Answer(TableAt(calls, i, maxIdle), calls[i])
  {
    AnswersLength(map[], calls, maxIdle, false);
    OneMoreCall(calls, i, maxIdle);
    AnswersAppend(map[], calls[..i + 1], calls[i + 1..], maxIdle, false);
    assert calls[..i + 1] + calls[i + 1..] == calls;
  }

  /** The exact law of the limiter, evictions included when they are harmless: over every
      orderly run with fixed settings, a request is admitted if and only if, over every
      interval that ends with it, the requests of its key admitted earlier in the run plus
      this one number at most burst + rate * length. */
  lemma AdmittedExactlyWhen(calls: seq<Call>, start: real, i: nat, rate: real, burst: real, maxIdle: real)
    requires 0.0 <= rate && 0.0 <= burst && Earned(maxIdle, rate) >= burst
    requires Orderly(calls, start) && Fixed(calls, rate, burst) && i < |calls| && calls[i].Request?
    ensures var answers := Answers(map[], calls, maxIdle, true);
            && |answers| == |calls|
            && (answers[i] <==> AlwaysAffordable(calls[..i], answers[..i], calls[i].key, calls[i].now, rate, burst))
  {
    EvictionIsUnobservable(map[], map[], calls, start, maxIdle);
    AnswersAreSteps(calls, i, maxIdle);
    if Answer(TableAt(calls, i, maxIdle), calls[i]) {
      GrantedIsAffordable(calls, start, i, rate, burst, maxIdle);
    } else {
      RefusedIsUnaffordable(calls, start, i, rate, burst, maxIdle);
    }
  }
}
