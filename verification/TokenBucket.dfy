/** One token bucket. Times are seconds on one clock, tokens are exact reals. */
module TokenBuckets {
  import opened Scores

  datatype Bucket = Bucket(tokens: real, lastFill: real)

  function NewBucket(now: real, burst: real): Bucket {
    Bucket(burst, now)
  }

  /** Tokens that elapsed seconds are worth. */
  function Earned(elapsed: real, rate: real): real {
    elapsed * rate
  }

  /** Tokens earned since the last call, capped at burst. */
  function Refill(b: Bucket, now: real, rate: real, burst: real): Bucket {
    Bucket(Min(b.tokens + Earned(now - b.lastFill, rate), burst), now)
  }

  predicate Grants(b: Bucket, now: real, rate: real, burst: real) {
    Refill(b, now, rate, burst).tokens >= 1.0
  }

  function Charged(b: Bucket, now: real, rate: real, burst: real): Bucket {
    var f := Refill(b, now, rate, burst);
    if f.tokens >= 1.0 then Bucket(f.tokens - 1.0, now) else f
  }

  class TokenBucket {
    var tokens: real
    var lastFill: real

    ghost function View(): Bucket
      reads this
    {
      Bucket(tokens, lastFill)
    }

    constructor (now: real, burst: real)
      ensures View() == NewBucket(now, burst)
    {
      tokens := burst;
      lastFill := now;
    }

    method Allow(now: real, rate: real, burst: real) returns (ok: bool)
      modifies this
      ensures ok == Grants(old(View()), now, rate, burst)
      ensures View() == Charged(old(View()), now, rate, burst)
    {
      var elapsed := now - lastFill;
      var newTokens := tokens + elapsed * rate;
      assert newTokens == tokens + Earned(now - lastFill, rate);
      if newTokens > burst {
        newTokens := burst;
      }
      assert newTokens == Refill(View(), now, rate, burst).tokens;
      tokens := newTokens;
      lastFill := now;
      if tokens >= 1.0 {
        tokens := tokens - 1.0;
        return true;
      }
      return false;
    }

    method IdleTime(now: real) returns (idle: real)
      ensures idle == now - lastFill
    {
      idle := now - lastFill;
    }
  }

  /** What a call leaves in the bucket, and what it can have taken out. */
  lemma ChargeAccounts(b: Bucket, now: real, rate: real, burst: real)
    requires 0.0 <= b.tokens && b.lastFill <= now && 0.0 <= rate && 0.0 <= burst
    ensures var c := Charged(b, now, rate, burst);
            var taken := if Grants(b, now, rate, burst) then 1.0 else 0.0;
            && 0.0 <= c.tokens <= burst && c.lastFill == now
            && c.tokens + taken <= b.tokens + Earned(now - b.lastFill, rate)
            && c.tokens + taken <= burst
  {
    EarnedNonNegative(now - b.lastFill, rate);
  }

  lemma EarnedNonNegative(elapsed: real, rate: real)
    requires 0.0 <= elapsed && 0.0 <= rate
    ensures 0.0 <= Earned(elapsed, rate)
  {
  }

  lemma NothingEarned(rate: real)
    ensures Earned(0.0, rate) == 0.0
  {
  }

  /** Earnings add up over adjoining spans. */
  lemma EarningsAdd(from: real, mid: real, to: real, rate: real)
    ensures Earned(to - from, rate) == Earned(mid - from, rate) + Earned(to - mid, rate)
  {
  }

  /** A bucket idle for longer than it takes to earn a full burst is as good as new. */
  lemma IdleBucketIsFull(b: Bucket, now: real, rate: real, burst: real, maxIdle: real)
    requires 0.0 <= b.tokens && 0.0 <= rate && Earned(maxIdle, rate) >= burst && now - b.lastFill > maxIdle
    ensures Refill(b, now, rate, burst) == Refill(NewBucket(now, burst), now, rate, burst)
  {
    EarningsAdd(b.lastFill, b.lastFill + maxIdle, now, rate);
    EarnedNonNegative(now - (b.lastFill + maxIdle), rate);
    assert b.lastFill + maxIdle - b.lastFill == maxIdle;
    NothingEarned(rate);
  }
}
