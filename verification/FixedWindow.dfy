/** The Redis-backed fixed-window limiter: one counter per key and minute, with an expiry
    that every request refreshes. Times are whole Unix seconds. */
module FixedWindows {
  const WINDOW := 60
  const EXPIRY := 120

  /** The Redis key "ratelimit:kind:key:windowID". */
  datatype Slot = Slot(kind: string, key: string, window: nat)

  datatype Counter = Counter(count: nat, expiresAt: nat)

  type Store = map<Slot, Counter>

  /** Redis drops a key when its time is up. */
  function Live(s: Store, slot: Slot, now: nat): nat {
    if slot in s && now < s[slot].expiresAt then s[slot].count else 0
  }

  function SlotAt(kind: string, key: string, now: nat): Slot {
    Slot(kind, key, now / WINDOW)
  }

  /** INCR, then EXPIRE. */
  function Hit(s: Store, slot: Slot, now: nat): Store {
    s[slot := Counter(Live(s, slot, now) + 1, now + EXPIRY)]
  }

  /** int64(rate * 60) truncates toward zero. */
  function LimitOf(rate: real): int {
    if rate >= 0.0 then (rate * 60.0).Floor else -((-rate * 60.0).Floor)
  }

  class RedisRateLimiter {
    var store: Store

    constructor ()
      ensures store == map[]
    {
      store := map[];
    }

    /** answered says whether Redis executed the pipeline; if not, the caller falls back. */
    method Allow(kind: string, key: string, now: nat, rate: real, answered: bool)
      returns (allowed: bool, backendOK: bool)
      modifies this
      ensures backendOK == answered
      ensures !answered ==> allowed && store == old(store)
      ensures answered ==>
                var slot := SlotAt(kind, key, now);
                && store == Hit(old(store), slot, now)
                && (allowed <==> Live(old(store), slot, now) + 1 <= LimitOf(rate))
    {
      var windowID := now / WINDOW;
      var slot := Slot(kind, key, windowID);
      var limit := LimitOf(rate);
      if !answered {
        return true, false;
      }
      var count := if slot in store && now < store[slot].expiresAt then store[slot].count + 1 else 1;
      store := store[slot := Counter(count, now + EXPIRY)];
      return count <= limit, true;
    }
  }

  // ---------- whole runs of answered calls ----------

  datatype Call = Call(kind: string, key: string, now: nat, limit: int)

  function CallSlot(c: Call): Slot {
    SlotAt(c.kind, c.key, c.now)
  }

  function StoreAfter(calls: seq<Call>): Store {
    if calls == [] then map[]
    else var c := calls[|calls| - 1]; Hit(StoreAfter(calls[..|calls| - 1]), CallSlot(c), c.now)
  }

  /** The answer to the last call of a run. */
  predicate LastAllowed(calls: seq<Call>)
    requires calls != []
  {
    var c := calls[|calls| - 1];
    Live(StoreAfter(calls[..|calls| - 1]), CallSlot(c), c.now) + 1 <= c.limit
  }

  /** How many calls of the run fell into this slot. */
  function CallsIn(calls: seq<Call>, slot: Slot): nat {
    if calls == [] then 0
    else CallsIn(calls[..|calls| - 1], slot) + if CallSlot(calls[|calls| - 1]) == slot then 1 else 0
  }

  /** Each counter that exists is exact and outlives its window. */
  ghost predicate Exact(s: Store, calls: seq<Call>) {
    forall slot ::
      if CallsIn(calls, slot) == 0 then slot !in s
      else slot in s && s[slot].count == CallsIn(calls, slot) && s[slot].expiresAt >= slot.window * WINDOW + EXPIRY
  }

  lemma {:induction false} CountersAreExact(calls: seq<Call>)
    ensures Exact(StoreAfter(calls), calls)
  {
    if calls != [] {
      var before := calls[..|calls| - 1];
      var c := calls[|calls| - 1];
      CountersAreExact(before);
      assert c.now < CallSlot(c).window * WINDOW + WINDOW;
      forall slot
        ensures if CallsIn(calls, slot) == 0 then slot !in StoreAfter(calls)
                else slot in StoreAfter(calls) && StoreAfter(calls)[slot].count == CallsIn(calls, slot)
                     && StoreAfter(calls)[slot].expiresAt >= slot.window * WINDOW + EXPIRY
      {
        assert CallsIn(before, slot) == 0 ==> slot !in StoreAfter(before);
      }
    }
  }

  /** The refreshed expiry never clears a counter while its window is in progress, for any
      order of timestamps. */
  lemma ExpiryOutlivesWindow(calls: seq<Call>, kind: string, key: string, now: nat)
    ensures Live(StoreAfter(calls), SlotAt(kind, key, now), now) == CallsIn(calls, SlotAt(kind, key, now))
  {
    CountersAreExact(calls);
    var slot := SlotAt(kind, key, now);
    assert now < slot.window * WINDOW + WINDOW;
    assert CallsIn(calls, slot) == 0 ==> slot !in StoreAfter(calls);
  }

  /** A call is admitted exactly when it is among the first limit calls of its window. */
  lemma AdmittedByOrdinal(calls: seq<Call>)
    requires calls != []
    ensures LastAllowed(calls) <==> CallsIn(calls, CallSlot(calls[|calls| - 1])) <= calls[|calls| - 1].limit
  {
    var c := calls[|calls| - 1];
    ExpiryOutlivesWindow(calls[..|calls| - 1], c.kind, c.key, c.now);
  }

  // ---------- with one limit per key ----------

  predicate Limited(calls: seq<Call>, kind: string, key: string, limit: int) {
    forall i :: 0 <= i < |calls| && calls[i].kind == kind && calls[i].key == key ==> calls[i].limit == limit
  }

  function Admitted(calls: seq<Call>, slot: Slot): nat {
    if calls == [] then 0
    else Admitted(calls[..|calls| - 1], slot)
         + if CallSlot(calls[|calls| - 1]) == slot && LastAllowed(calls) then 1 else 0
  }

  function Capped(count: nat, limit: int): nat {
    if limit < 0 then 0 else if count <= limit then count else limit
  }

  /** Of the calls of a window exactly the first limit are admitted: how many, and which. */
  lemma {:induction false} WindowAdmitsLimit(calls: seq<Call>, slot: Slot, limit: int)
    requires Limited(calls, slot.kind, slot.key, limit)
    ensures Admitted(calls, slot) == Capped(CallsIn(calls, slot), limit)
    ensures forall i :: 0 <= i < |calls| && CallSlot(calls[i]) == slot ==>
              (LastAllowed(calls[..i + 1]) <==> CallsIn(calls[..i + 1], slot) <= limit)
  {
    if calls != [] {
      var n := |calls| - 1;
      WindowAdmitsLimit(calls[..n], slot, limit);
      AdmittedByOrdinal(calls);
      forall i | 0 <= i < |calls| && CallSlot(calls[i]) == slot
        ensures LastAllowed(calls[..i + 1]) <==> CallsIn(calls[..i + 1], slot) <= limit
      {
        if i < n {
          assert calls[..n][..i + 1] == calls[..i + 1] && calls[..n][i] == calls[i];
        } else {
          assert calls[..i + 1] == calls;
        }
      }
    }
  }

  /** The limit is the number of whole requests that fit sixty seconds at the rate. */
  lemma LimitIsRate(rate: real, n: int)
    requires rate >= 0.0
    ensures n <= LimitOf(rate) <==> n as real <= 60.0 * rate
  {
  }

  /** In terms of the rate: no window admits more than sixty seconds' worth, and a window that
      is asked for no more than that admits everyone. */
  lemma WindowEnforcesRate(calls: seq<Call>, slot: Slot, rate: real)
    requires rate >= 0.0 && Limited(calls, slot.kind, slot.key, LimitOf(rate))
    ensures Admitted(calls, slot) as real <= 60.0 * rate
    ensures CallsIn(calls, slot) as real <= 60.0 * rate ==> Admitted(calls, slot) == CallsIn(calls, slot)
  {
    WindowAdmitsLimit(calls, slot, LimitOf(rate));
    LimitIsRate(rate, Admitted(calls, slot));
    LimitIsRate(rate, CallsIn(calls, slot));
    LimitIsRate(rate, 0);
  }

  /** Admitted calls of a key with start <= now < start + 60. */
  function AdmittedFrom(calls: seq<Call>, kind: string, key: string, start: nat): nat {
    if calls == [] then 0
    else var c := calls[|calls| - 1];
         AdmittedFrom(calls[..|calls| - 1], kind, key, start)
         + if c.kind == kind && c.key == key && start <= c.now < start + WINDOW && LastAllowed(calls) then 1 else 0
  }

  lemma {:induction false} SpanWithinTwoWindows(calls: seq<Call>, kind: string, key: string, start: nat)
    ensures AdmittedFrom(calls, kind, key, start)
            <= Admitted(calls, Slot(kind, key, start / WINDOW)) + Admitted(calls, Slot(kind, key, start / WINDOW + 1))
  {
    if calls != [] {
      SpanWithinTwoWindows(calls[..|calls| - 1], kind, key, start);
      var c := calls[|calls| - 1];
      assert start <= c.now < start + WINDOW ==>
        c.now / WINDOW == start / WINDOW || c.now / WINDOW == start / WINDOW + 1;
    }
  }

  /** Any sixty seconds admit at most twice the limit. */
  lemma SpanAdmitsTwiceLimit(calls: seq<Call>, kind: string, key: string, start: nat, limit: nat)
    requires Limited(calls, kind, key, limit)
    ensures AdmittedFrom(calls, kind, key, start) <= 2 * limit
  {
    SpanWithinTwoWindows(calls, kind, key, start);
    WindowAdmitsLimit(calls, Slot(kind, key, start / WINDOW), limit);
    WindowAdmitsLimit(calls, Slot(kind, key, start / WINDOW + 1), limit);
  }

  /** And twice the limit is possible: limit calls in the last second of one window and
      limit in the first second of the next. */
  function Burst(now: nat, limit: nat, n: nat): seq<Call> {
    if n == 0 then [] else Burst(now, limit, n - 1) + [Call("", "", now, limit)]
  }

  lemma {:induction false} BurstAdmitted(prefix: seq<Call>, now: nat, limit: nat, n: nat, start: nat)
    requires n <= limit && CallsIn(prefix, SlotAt("", "", now)) == 0 && start <= now < start + WINDOW
    ensures var calls := prefix + Burst(now, limit, n);
            && CallsIn(calls, SlotAt("", "", now)) == n
            && (forall slot :: slot != SlotAt("", "", now) ==> CallsIn(calls, slot) == CallsIn(prefix, slot))
            && AdmittedFrom(calls, "", "", start) == AdmittedFrom(prefix, "", "", start) + n
  {
    var calls := prefix + Burst(now, limit, n);
    if n == 0 {
      assert calls == prefix;
    } else {
      BurstAdmitted(prefix, now, limit, n - 1, start);
      assert calls[..|calls| - 1] == prefix + Burst(now, limit, n - 1);
      AdmittedByOrdinal(calls);
    }
  }

  lemma {:induction false} BurstLimited(now: nat, limit: nat, n: nat)
    ensures Limited(Burst(now, limit, n), "", "", limit)
  {
    if n > 0 {
      BurstLimited(now, limit, n - 1);
    }
  }

  lemma TwiceLimitIsReached(limit: nat)
    ensures var calls := Burst(59, limit, limit) + Burst(60, limit, limit);
            Limited(calls, "", "", limit) && AdmittedFrom(calls, "", "", 59) == 2 * limit
  {
    var first := Burst(59, limit, limit);
    assert [] + first == first;
    BurstAdmitted([], 59, limit, limit, 59);
    BurstAdmitted(first, 60, limit, limit, 59);
    BurstLimited(59, limit, limit);
    BurstLimited(60, limit, limit);
  }
}
