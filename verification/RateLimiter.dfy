/** The in-memory rate limiter: a table of buckets, created on first use and swept when
    idle. The two maps of the source (addresses and users) are one table keyed by kind. */
module RateLimiters {
  import opened TokenBuckets

  datatype Key = IP(address: string) | User(id: string)

  type Table = map<Key, Bucket>

  /** The bucket a call works on: the stored one, or a new full one. */
  function BucketFor(t: Table, k: Key, now: real, burst: real): Bucket {
    if k in t then t[k] else NewBucket(now, burst)
  }

  function GrantsOn(t: Table, k: Key, now: real, rate: real, burst: real): bool {
    Grants(BucketFor(t, k, now, burst), now, rate, burst)
  }

  function AllowOn(t: Table, k: Key, now: real, rate: real, burst: real): Table {
    t[k := Charged(BucketFor(t, k, now, burst), now, rate, burst)]
  }

  /** The eviction pass. */
  function Swept(t: Table, now: real, maxIdle: real): Table {
    map k | k in t && !(now - t[k].lastFill > maxIdle) :: t[k]
  }

  class RateLimiter {
    var buckets: map<Key, TokenBucket>

    ghost predicate Valid()
      reads this
    {
      forall j, k :: j in buckets && k in buckets && j != k ==> buckets[j] != buckets[k]
    }

    ghost function View(): Table
      reads this, buckets.Values
    {
      map k | k in buckets :: buckets[k].View()
    }

    constructor ()
      ensures Valid() && View() == map[]
    {
      buckets := map[];
    }

    /** AllowIP and AllowUser. */
    method Allow(k: Key, now: real, rate: real, burst: real) returns (ok: bool)
      requires Valid()
      modifies this, buckets.Values
      ensures Valid() && fresh(buckets.Values - old(buckets.Values))
      ensures ok == GrantsOn(old(View()), k, now, rate, burst)
      ensures View() == AllowOn(old(View()), k, now, rate, burst)
    {
      ghost var before := View();
      var bucket: TokenBucket;
      if k in buckets {
        bucket := buckets[k];
      } else {
        bucket := new TokenBucket(now, burst);
        buckets := buckets[k := bucket];
      }
      assert bucket.View() == BucketFor(before, k, now, burst);
      ok := bucket.Allow(now, rate, burst);
      assert View() == AllowOn(before, k, now, rate, burst);
    }

    /** One tick of the eviction loop. */
    method Sweep(now: real, maxIdle: real)
      requires Valid()
      modifies this
      ensures Valid() && buckets.Values <= old(buckets.Values)
      ensures View() == Swept(old(View()), now, maxIdle)
    {
      var todo := buckets.Keys;
      ghost var all := buckets;
      while todo != {}
        invariant todo <= buckets.Keys <= all.Keys
        invariant forall k :: k in buckets ==> buckets[k] == all[k]
        invariant forall k :: k in all && k !in todo ==> (k in buckets <==> !(now - all[k].lastFill > maxIdle))
        decreases |todo|
      {
        var k :| k in todo;
        todo := todo - {k};
        var idle := buckets[k].IdleTime(now);
        if idle > maxIdle {
          buckets := buckets - {k};
        }
      }
    }
  }

  // ---------- whole runs ----------

  datatype Call = Request(key: Key, now: real, rate: real, burst: real) | Sweep(now: real)

  /** Calls in the order they happen, none before start, with sensible settings. */
  predicate Orderly(calls: seq<Call>, start: real) {
    calls == [] ||
    (&& start <= calls[0].now
     && (calls[0].Request? ==> 0.0 <= calls[0].rate && 0.0 <= calls[0].burst)
     && Orderly(calls[1..], calls[0].now))
  }

  function After(t: Table, c: Call, maxIdle: real, evicting: bool): Table {
    match c
    case Request(k, now, rate, burst) => AllowOn(t, k, now, rate, burst)
    case Sweep(now) => if evicting then Swept(t, now, maxIdle) else t
  }

  predicate Answer(t: Table, c: Call) {
    c.Request? && GrantsOn(t, c.key, c.now, c.rate, c.burst)
  }

  /** One answer per call; a sweep answers nothing. */
  function Answers(t: Table, calls: seq<Call>, maxIdle: real, evicting: bool): seq<bool>
    decreases |calls|
  {
    if calls == [] then []
    else [Answer(t, calls[0])] + Answers(After(t, calls[0], maxIdle, evicting), calls[1..], maxIdle, evicting)
  }

  // ---------- eviction cannot be noticed ----------

  predicate Sound(t: Table, now: real) {
    forall k :: k in t ==> 0.0 <= t[k].tokens && t[k].lastFill <= now
  }

  /** The evicting table misses only buckets that have been idle too long. */
  predicate Mirrors(swept: Table, full: Table, now: real, maxIdle: real) {
    && swept.Keys <= full.Keys
    && (forall k :: k in swept ==> swept[k] == full[k])
    && (forall k :: k in full && k !in swept ==> now - full[k].lastFill > maxIdle)
    && Sound(full, now)
  }

  predicate Covers(calls: seq<Call>, maxIdle: real) {
    forall i :: 0 <= i < |calls| && calls[i].Request? ==> Earned(maxIdle, calls[i].rate) >= calls[i].burst
  }

  lemma StepMirrors(swept: Table, full: Table, c: Call, now: real, maxIdle: real)
    requires Mirrors(swept, full, now, maxIdle) && Orderly([c], now)
    requires c.Request? ==> Earned(maxIdle, c.rate) >= c.burst
    ensures Answer(swept, c) == Answer(full, c)
    ensures Mirrors(After(swept, c, maxIdle, true), After(full, c, maxIdle, false), c.now, maxIdle)
  {
    match c
    case Request(k, t, rate, burst) =>
      if k in full && k !in swept {
        IdleBucketIsFull(full[k], t, rate, burst, maxIdle);
      }
      ChargeAccounts(BucketFor(full, k, t, burst), t, rate, burst);
    case Sweep(t) =>
  }

  /** For every orderly run whose settings refill a bucket within maxIdle, the evicting
      limiter gives exactly the answers of one that never evicts. Settings may change from
      call to call. */
  lemma {:induction false} EvictionIsUnobservable(swept: Table, full: Table, calls: seq<Call>, now: real, maxIdle: real)
    requires Mirrors(swept, full, now, maxIdle) && Orderly(calls, now) && Covers(calls, maxIdle)
    ensures Answers(swept, calls, maxIdle, true) == Answers(full, calls, maxIdle, false)
    decreases |calls|
  {
    if calls != [] {
      var c := calls[0];
      assert [c][1..] == [];
      StepMirrors(swept, full, c, now, maxIdle);
      EvictionIsUnobservable(After(swept, c, maxIdle, true), After(full, c, maxIdle, false), calls[1..], c.now, maxIdle);
    }
  }

  // ---------- and when exactly it can ----------

  /** Every request of the run uses these settings. */
  predicate Fixed(calls: seq<Call>, rate: real, burst: real) {
    forall i :: 0 <= i < |calls| && calls[i].Request? ==> calls[i].rate == rate && calls[i].burst == burst
  }

  ghost predicate Unobservable(rate: real, burst: real, maxIdle: real) {
    forall calls, start :: Orderly(calls, start) && Fixed(calls, rate, burst)
      ==> Answers(map[], calls, maxIdle, true) == Answers(map[], calls, maxIdle, false)
  }

  /** Less than one token of burst: nobody is ever admitted. */
  lemma {:induction false} TinyBurstNeverGrants(t: Table, calls: seq<Call>, rate: real, burst: real, maxIdle: real, evicting: bool)
    requires burst < 1.0 && Fixed(calls, rate, burst)
    ensures Answers(t, calls, maxIdle, evicting) == seq(|calls|, _ => false)
    decreases |calls|
  {
    if calls != [] {
      TinyBurstNeverGrants(After(t, calls[0], maxIdle, evicting), calls[1..], rate, burst, maxIdle, evicting);
    }
  }

  lemma {:induction false} OrderlyAppend(xs: seq<Call>, ys: seq<Call>, start: real, mid: real)
    requires Orderly(xs, start) && Orderly(ys, mid) && start <= mid
    requires forall i :: 0 <= i < |xs| ==> xs[i].now <= mid
    ensures Orderly(xs + ys, start)
    decreases |xs|
  {
    if xs == [] {
      assert xs + ys == ys;
    } else {
      assert (xs + ys)[1..] == xs[1..] + ys;
      OrderlyAppend(xs[1..], ys, xs[0].now, mid);
    }
  }

  function AfterAll(t: Table, calls: seq<Call>, maxIdle: real, evicting: bool): Table
    decreases |calls|
  {
    if calls == [] then t else AfterAll(After(t, calls[0], maxIdle, evicting), calls[1..], maxIdle, evicting)
  }

  lemma {:induction false} AnswersAppend(t: Table, xs: seq<Call>, ys: seq<Call>, maxIdle: real, evicting: bool)
    ensures Answers(t, xs + ys, maxIdle, evicting)
            == Answers(t, xs, maxIdle, evicting) + Answers(AfterAll(t, xs, maxIdle, evicting), ys, maxIdle, evicting)
    ensures |Answers(t, xs, maxIdle, evicting)| == |xs|
    decreases |xs|
  {
    if xs == [] {
      assert xs + ys == ys;
    } else {
      assert (xs + ys)[1..] == xs[1..] + ys;
      AnswersAppend(After(t, xs[0], maxIdle, evicting), xs[1..], ys, maxIdle, evicting);
    }
  }

  /** Waiting amount/rate seconds earns exactly amount. */
  lemma EarnedExactly(amount: real, rate: real)
    requires rate > 0.0
    ensures Earned(amount / rate, rate) == amount
  {
  }

  lemma RefillNow(b: Bucket, rate: real, burst: real)
    requires b.tokens <= burst
    ensures Refill(b, b.lastFill, rate, burst) == b
  {
    NothingEarned(rate);
  }

  /** Two buckets with different fills can always be told apart, if tokens are earned at
      all or the fuller one can serve a request that the other cannot. */
  lemma {:induction false} TellApart(low: Table, high: Table, k: Key, now: real, rate: real, burst: real, maxIdle: real)
    returns (calls: seq<Call>)
    requires k in low && k in high && low[k].lastFill == now && high[k].lastFill == now
    requires 0.0 <= low[k].tokens < high[k].tokens <= burst && 1.0 <= burst && 0.0 <= rate
    requires rate > 0.0 || low[k].tokens < 1.0 <= high[k].tokens
    ensures Orderly(calls, now) && Fixed(calls, rate, burst)
    ensures Answers(low, calls, maxIdle, false) != Answers(high, calls, maxIdle, true)
    decreases high[k].tokens.Floor
  {
    var x, y := low[k].tokens, high[k].tokens;
    if y < 1.0 {
      var wait := (1.0 - y) / rate;
      var c := Request(k, now + wait, rate, burst);
      EarnedExactly(1.0 - y, rate);
      assert c.now - now == wait;
      assert !Answer(low, c) && Answer(high, c);
      calls := [c];
      assert Answers(low, calls, maxIdle, false)[0] != Answers(high, calls, maxIdle, true)[0];
    } else {
      var c := Request(k, now, rate, burst);
      RefillNow(low[k], rate, burst);
      RefillNow(high[k], rate, burst);
      assert Answer(high, c);
      if x < 1.0 {
        calls := [c];
        assert Answers(low, calls, maxIdle, false)[0] != Answers(high, calls, maxIdle, true)[0];
      } else {
        var rest := TellApart(After(low, c, maxIdle, false), After(high, c, maxIdle, true), k, now, rate, burst, maxIdle);
        calls := [c] + rest;
        assert calls[1..] == rest;
        assert Answers(low, calls, maxIdle, false)[1..] == Answers(After(low, c, maxIdle, false), rest, maxIdle, false);
        assert Answers(high, calls, maxIdle, true)[1..] == Answers(After(high, c, maxIdle, true), rest, maxIdle, true);
      }
    }
  }

  /** Requests at one instant take a full bucket down to its fractional part. */
  lemma {:induction false} DrainAt(t: Table, k: Key, now: real, rate: real, burst: real, maxIdle: real)
    returns (calls: seq<Call>)
    requires k in t && t[k].lastFill == now && 0.0 <= t[k].tokens <= burst && 0.0 <= rate
    ensures Orderly(calls, now) && Fixed(calls, rate, burst)
    ensures forall i :: 0 <= i < |calls| ==> calls[i].Request? && calls[i].now == now
    ensures AfterAll(t, calls, maxIdle, true) == AfterAll(t, calls, maxIdle, false)
    ensures var u := AfterAll(t, calls, maxIdle, true);
            k in u && u[k].lastFill == now && 0.0 <= u[k].tokens < 1.0 && u[k].tokens <= t[k].tokens
    decreases t[k].tokens.Floor
  {
    if t[k].tokens < 1.0 {
      return [];
    }
    var c := Request(k, now, rate, burst);
    RefillNow(t[k], rate, burst);
    assert After(t, c, maxIdle, true)[k] == Bucket(t[k].tokens - 1.0, now);
    var rest := DrainAt(After(t, c, maxIdle, true), k, now, rate, burst, maxIdle);
    calls := [c] + rest;
    assert calls[1..] == rest;
  }

  /** From a bucket low enough not to be full again after maxIdle, one sweep is enough to
      be noticed. */
  lemma SweepShows(u: Table, k: Key, now: real, rate: real, burst: real, maxIdle: real) returns (calls: seq<Call>)
    requires k in u && u[k].lastFill == now && 0.0 <= u[k].tokens < 1.0
    requires 0.0 <= rate && 1.0 <= burst && 0.0 <= maxIdle
    requires Earned(maxIdle, rate) < burst && (rate > 0.0 ==> u[k].tokens == 0.0)
    ensures Orderly(calls, now) && Fixed(calls, rate, burst)
    ensures Answers(u, calls, maxIdle, true) != Answers(u, calls, maxIdle, false)
  {
    var spare := (burst - Earned(maxIdle, rate)) / 2.0;
    var extra := if rate > 0.0 then spare / rate else 1.0;
    var later := now + maxIdle + extra;
    var x := u[k].tokens + Earned(later - now, rate);
    if rate > 0.0 {
      EarnedExactly(spare, rate);
    } else {
      assert Earned(extra, rate) == 0.0 && Earned(maxIdle, rate) == 0.0;
    }
    EarningsAdd(now, now + maxIdle, later, rate);
    assert now + maxIdle - now == maxIdle && later - (now + maxIdle) == extra;
    EarnedNonNegative(later - now, rate);
    assert 0.0 <= x < burst;
    var sweep, c := Sweep(later), Request(k, later, rate, burst);
    var swept := After(u, sweep, maxIdle, true);
    assert k !in swept;
    RefillNow(NewBucket(later, burst), rate, burst);
    assert Refill(u[k], later, rate, burst).tokens == x;
    assert Answer(swept, c);
    var rest: seq<Call> := [];
    if x >= 1.0 {
      rest := TellApart(After(u, c, maxIdle, false), After(swept, c, maxIdle, true), k, later, rate, burst, maxIdle);
    }
    calls := [sweep, c] + rest;
    assert calls[1..] == [c] + rest && calls[1..][1..] == rest;
    AnswersLength(u, calls, maxIdle, true);
    AnswersLength(u, calls, maxIdle, false);
    assert Answers(u, calls, maxIdle, true)[1..] == Answers(swept, [c] + rest, maxIdle, true);
    assert Answers(u, calls, maxIdle, false)[1..] == Answers(u, [c] + rest, maxIdle, false);
    assert Answers(u, calls, maxIdle, true)[1];
    assert Answers(u, calls, maxIdle, false)[1] == Answer(u, c);
    assert Answers(u, calls, maxIdle, true)[2..] == Answers(After(swept, c, maxIdle, true), rest, maxIdle, true);
    assert Answers(u, calls, maxIdle, false)[2..] == Answers(After(u, c, maxIdle, false), rest, maxIdle, false);
  }

  /** No sweep on the way, so evicting or not makes no difference yet. */
  predicate Quiet(calls: seq<Call>, maxIdle: real) {
    AfterAll(map[], calls, maxIdle, true) == AfterAll(map[], calls, maxIdle, false)
  }

  lemma FirstDrain(k: Key, rate: real, burst: real, maxIdle: real) returns (calls: seq<Call>)
    requires 0.0 <= rate && 1.0 <= burst
    ensures Orderly(calls, 0.0) && Fixed(calls, rate, burst) && Quiet(calls, maxIdle)
    ensures forall i :: 0 <= i < |calls| ==> calls[i].now == 0.0
    ensures var u := AfterAll(map[], calls, maxIdle, true);
            k in u && u[k].lastFill == 0.0 && 0.0 <= u[k].tokens < 1.0
  {
    var first := Request(k, 0.0, rate, burst);
    RefillNow(NewBucket(0.0, burst), rate, burst);
    var t := After(map[], first, maxIdle, true);
    var drain := DrainAt(t, k, 0.0, rate, burst, maxIdle);
    calls := [first] + drain;
    assert calls[1..] == drain;
  }

  /** A run that brings one bucket to its lowest level. */
  lemma LowPoint(k: Key, rate: real, burst: real, maxIdle: real) returns (calls: seq<Call>, now: real)
    requires 0.0 <= rate && 1.0 <= burst
    ensures Orderly(calls, 0.0) && Fixed(calls, rate, burst) && Quiet(calls, maxIdle)
    ensures forall i :: 0 <= i < |calls| ==> calls[i].now <= now
    ensures var u := AfterAll(map[], calls, maxIdle, true);
            && k in u && u[k].lastFill == now && 0.0 <= u[k].tokens < 1.0
            && (rate > 0.0 ==> u[k].tokens == 0.0)
  {
    calls := FirstDrain(k, rate, burst, maxIdle);
    now := 0.0;
    if rate > 0.0 {
      var u := AfterAll(map[], calls, maxIdle, true);
      now := (1.0 - u[k].tokens) / rate;
      var last := Request(k, now, rate, burst);
      EarnedExactly(1.0 - u[k].tokens, rate);
      assert now - 0.0 == now;
      assert After(u, last, maxIdle, true)[k] == Bucket(0.0, now);
      OrderlyAppend(calls, [last], 0.0, 0.0);
      AfterAllAppend(map[], calls, [last], maxIdle, true);
      AfterAllAppend(map[], calls, [last], maxIdle, false);
      calls := calls + [last];
    }
  }

  lemma {:induction false} AfterAllAppend(t: Table, xs: seq<Call>, ys: seq<Call>, maxIdle: real, evicting: bool)
    ensures AfterAll(t, xs + ys, maxIdle, evicting)
            == AfterAll(AfterAll(t, xs, maxIdle, evicting), ys, maxIdle, evicting)
    decreases |xs|
  {
    if xs == [] {
      assert xs + ys == ys;
    } else {
      assert (xs + ys)[1..] == xs[1..] + ys;
      AfterAllAppend(After(t, xs[0], maxIdle, evicting), xs[1..], ys, maxIdle, evicting);
    }
  }

  lemma EvictionShows(rate: real, burst: real, maxIdle: real) returns (calls: seq<Call>)
    requires 0.0 <= rate && 1.0 <= burst && 0.0 <= maxIdle && Earned(maxIdle, rate) < burst
    ensures Orderly(calls, 0.0) && Fixed(calls, rate, burst)
    ensures Answers(map[], calls, maxIdle, true) != Answers(map[], calls, maxIdle, false)
  {
    var k := IP("");
    var prefix, now := LowPoint(k, rate, burst, maxIdle);
    var u := AfterAll(map[], prefix, maxIdle, true);
    var suffix := SweepShows(u, k, now, rate, burst, maxIdle);
    calls := prefix + suffix;
    OrderlyAppend(prefix, suffix, 0.0, now);
    AnswersAppend(map[], prefix, suffix, maxIdle, true);
    AnswersAppend(map[], prefix, suffix, maxIdle, false);
    assert Answers(map[], calls, maxIdle, true)[|prefix|..] == Answers(u, suffix, maxIdle, true);
    assert Answers(map[], calls, maxIdle, false)[|prefix|..] == Answers(u, suffix, maxIdle, false);
  }

  /** The exact condition, for fixed settings: eviction after maxIdle cannot be noticed if
      and only if a bucket refills within maxIdle, or the burst admits nobody anyway. */
  lemma UnobservableExactlyWhen(rate: real, burst: real, maxIdle: real)
    requires 0.0 <= rate && 0.0 <= burst && 0.0 <= maxIdle
    ensures Unobservable(rate, burst, maxIdle) <==> burst < 1.0 || Earned(maxIdle, rate) >= burst
  {
    if burst < 1.0 || Earned(maxIdle, rate) >= burst {
      forall calls, start | Orderly(calls, start) && Fixed(calls, rate, burst)
        ensures Answers(map[], calls, maxIdle, true) == Answers(map[], calls, maxIdle, false)
      {
        if burst < 1.0 {
          TinyBurstNeverGrants(map[], calls, rate, burst, maxIdle, true);
          TinyBurstNeverGrants(map[], calls, rate, burst, maxIdle, false);
        } else {
          EvictionIsUnobservable(map[], map[], calls, start, maxIdle);
        }
      }
    } else {
      var calls := EvictionShows(rate, burst, maxIdle);
    }
  }

  // ---------- how many requests get through ----------

  /** Granted requests of one key with t1 <= time <= t2. */
  function Granted(calls: seq<Call>, answers: seq<bool>, k: Key, t1: real, t2: real): nat
    requires |answers| == |calls|
  {
    if calls == [] then 0
    else (if answers[0] && calls[0].Request? && calls[0].key == k && t1 <= calls[0].now <= t2 then 1 else 0)
         + Granted(calls[1..], answers[1..], k, t1, t2)
  }

  /** What the key can still spend between t1 and t2. */
  function Budget(t: Table, k: Key, t1: real, t2: real, rate: real, burst: real): real {
    if k !in t || t[k].lastFill < t1 then burst + Earned(t2 - t1, rate)
    else if t[k].lastFill <= t2 then t[k].tokens + Earned(t2 - t[k].lastFill, rate)
    else 0.0
  }

  /** Tokens of the key stay between zero and the burst. */
  predicate Within(t: Table, k: Key, now: real, burst: real) {
    k in t ==> 0.0 <= t[k].tokens <= burst && t[k].lastFill <= now
  }

  lemma AnswersLength(t: Table, calls: seq<Call>, maxIdle: real, evicting: bool)
    ensures |Answers(t, calls, maxIdle, evicting)| == |calls|
  {
    AnswersAppend(t, calls, [], maxIdle, evicting);
  }

  /** A request inside the window: what it leaves plus what it takes fits in the budget. */
  lemma SpendInside(t: Table, k: Key, now: real, t1: real, t2: real, rate: real, burst: real)
    requires 0.0 <= rate && 0.0 <= burst && t1 <= now <= t2 && Within(t, k, now, burst)
    ensures var left := Charged(BucketFor(t, k, now, burst), now, rate, burst).tokens;
            left + (if GrantsOn(t, k, now, rate, burst) then 1.0 else 0.0) + Earned(t2 - now, rate)
            <= Budget(t, k, t1, t2, rate, burst)
  {
    var b := BucketFor(t, k, now, burst);
    var last := b.lastFill;
    ChargeAccounts(b, now, rate, burst);
    EarningsAdd(last, now, t2, rate);
    EarningsAdd(t1, now, t2, rate);
    EarnedNonNegative(now - t1, rate);
  }

  lemma RequestSpends(t: Table, k: Key, now: real, t1: real, t2: real, rate: real, burst: real)
    requires 0.0 <= rate && 0.0 <= burst && t1 <= t2 && Within(t, k, now, burst)
    ensures var u := AllowOn(t, k, now, rate, burst);
            && Within(u, k, now, burst)
            && Budget(u, k, t1, t2, rate, burst)
               + (if GrantsOn(t, k, now, rate, burst) && t1 <= now <= t2 then 1.0 else 0.0)
               <= Budget(t, k, t1, t2, rate, burst)
  {
    var u := AllowOn(t, k, now, rate, burst);
    ChargeAccounts(BucketFor(t, k, now, burst), now, rate, burst);
    if now < t1 {
      assert Budget(u, k, t1, t2, rate, burst) == Budget(t, k, t1, t2, rate, burst);
    } else if now <= t2 {
      SpendInside(t, k, now, t1, t2, rate, burst);
    } else {
      BudgetNonNegative(t, k, t1, t2, rate, burst);
    }
  }

  lemma CallSpends(t: Table, c: Call, k: Key, now: real, t1: real, t2: real, rate: real, burst: real, maxIdle: real)
    requires 0.0 <= rate && 0.0 <= burst && t1 <= t2 && now <= c.now && Within(t, k, now, burst)
    requires c.Request? ==> c.rate == rate && c.burst == burst
    ensures var u := After(t, c, maxIdle, false);
            && Within(u, k, c.now, burst)
            && Budget(u, k, t1, t2, rate, burst)
               + (if Answer(t, c) && c.Request? && c.key == k && t1 <= c.now <= t2 then 1.0 else 0.0)
               <= Budget(t, k, t1, t2, rate, burst)
  {
    if c.Request? && c.key == k {
      RequestSpends(t, k, c.now, t1, t2, rate, burst);
    }
  }

  lemma {:induction false} GrantsWithinBudget(t: Table, calls: seq<Call>, k: Key, now: real, t1: real, t2: real,
                                              rate: real, burst: real, maxIdle: real)
    requires 0.0 <= rate && 0.0 <= burst && t1 <= t2
    requires Within(t, k, now, burst) && Orderly(calls, now) && Fixed(calls, rate, burst)
    ensures |Answers(t, calls, maxIdle, false)| == |calls|
    ensures Granted(calls, Answers(t, calls, maxIdle, false), k, t1, t2) as real <= Budget(t, k, t1, t2, rate, burst)
    decreases |calls|
  {
    AnswersLength(t, calls, maxIdle, false);
    if calls == [] {
      BudgetNonNegative(t, k, t1, t2, rate, burst);
    } else {
      var c := calls[0];
      var u := After(t, c, maxIdle, false);
      CallSpends(t, c, k, now, t1, t2, rate, burst, maxIdle);
      GrantsWithinBudget(u, calls[1..], k, c.now, t1, t2, rate, burst, maxIdle);
      assert Answers(t, calls, maxIdle, false)[1..] == Answers(u, calls[1..], maxIdle, false);
    }
  }

  lemma BudgetNonNegative(t: Table, k: Key, t1: real, t2: real, rate: real, burst: real)
    requires 0.0 <= rate && 0.0 <= burst && t1 <= t2 && (k in t ==> 0.0 <= t[k].tokens)
    ensures Budget(t, k, t1, t2, rate, burst) >= 0.0
  {
    EarnedNonNegative(t2 - t1, rate);
    if k in t && t[k].lastFill <= t2 {
      EarnedNonNegative(t2 - t[k].lastFill, rate);
    }
  }

  /** Over any run with fixed settings, evictions included when they are harmless, the
      requests of a key admitted between t1 and t2 number at most burst + rate*(t2-t1). */
  lemma RateIsEnforced(calls: seq<Call>, start: real, k: Key, t1: real, t2: real, rate: real, burst: real, maxIdle: real)
    requires 0.0 <= rate && 0.0 <= burst && t1 <= t2 && Earned(maxIdle, rate) >= burst
    requires Orderly(calls, start) && Fixed(calls, rate, burst)
    ensures |Answers(map[], calls, maxIdle, true)| == |calls|
    ensures Granted(calls, Answers(map[], calls, maxIdle, true), k, t1, t2) as real <= burst + Earned(t2 - t1, rate)
  {
    EvictionIsUnobservable(map[], map[], calls, start, maxIdle);
    GrantsWithinBudget(map[], calls, k, start, t1, t2, rate, burst, maxIdle);
  }

  /** In every table a run can reach, each bucket holds between zero and burst tokens. */
  lemma {:induction false} TokensStayInRange(t: Table, calls: seq<Call>, k: Key, now: real, rate: real, burst: real,
                                             maxIdle: real, evicting: bool)
    requires 0.0 <= rate && 0.0 <= burst && Within(t, k, now, burst)
    requires Orderly(calls, now) && Fixed(calls, rate, burst)
    ensures var u := AfterAll(t, calls, maxIdle, evicting); k in u ==> 0.0 <= u[k].tokens <= burst
    decreases |calls|
  {
    if calls != [] {
      var c := calls[0];
      if c.Request? && c.key == k {
        ChargeAccounts(BucketFor(t, k, c.now, burst), c.now, rate, burst);
      }
      TokensStayInRange(After(t, c, maxIdle, evicting), calls[1..], k, c.now, rate, burst, maxIdle, evicting);
    }
  }
}
