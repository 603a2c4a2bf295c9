/** The request path of the reverse proxy: gatekeeper, challenge cookie, rate limits, Coraza
    and LightGBM, and what a CRITICAL hit means for everything forwarded afterwards. */
module Proxy {
  import opened Scores
  import opened IPProfiles
  import opened Gatekeeping
  import opened RateLimiters
  import Clearance
  import FixedWindows
  import IPInterleaving
  import TokenBuckets

  /** The live configuration, the signing key and the IPv6 mask of the standard library. */
  datatype Settings = Settings(allowRate: real, allowBurst: real, stricterRate: real, stricterBurst: real,
                               challengeRate: real, challengeBurst: real,
                               coraza: bool, threshold: real, margin: real,
                               hasSecret: bool, sign: Clearance.Signer, mask64: string -> string)

  /** A request; userID is empty for anonymous callers. */
  datatype Request = Request(ip: string, userID: string, bodyReadable: bool, cookie: Option<string>)

  /** What is outside the proxy's control while it serves one request: the clock, whether
      Redis answers, the verdicts of Coraza (asked at most twice) and LightGBM, the user's
      standing and the backend's status. */
  datatype World = World(now: real, unix: nat, today: string, yesterday: string,
                         ipAnswered: bool, userAnswered: bool,
                         corazaFirst: bool, corazaSecond: bool, prob: real,
                         standing: UserStanding, backendStatus: nat)

  datatype TrustEvent = TrustEvent(ip: string, userID: string, status: nat, challengePassed: bool, rateLimitHit: bool)

  function Verdict(p: Profile, req: Request, w: World): Decision {
    Gatekeeper(p, if req.userID == "" then None else Some(w.standing))
  }

  predicate CookieOK(c: Settings, req: Request, w: World) {
    Clearance.VerifyChallengeCookie(c.hasSecret, req.cookie, req.ip, c.sign, w.today, w.yesterday, c.mask64)
  }

  // ---------- rate limits: Redis when it answers, the token bucket when it does not ----------

  datatype Limits = Limits(store: FixedWindows.Store, table: Table)

  function SlotOf(k: Key, unix: nat): FixedWindows.Slot {
    match k
    case IP(address) => FixedWindows.SlotAt("ip", address, unix)
    case User(id) => FixedWindows.SlotAt("user", id, unix)
  }

  /** One limiter question: the answer and the limits afterwards. */
  function Ask(l: Limits, k: Key, byRedis: bool, w: World, rate: real, burst: real): (bool, Limits) {
    if byRedis then
      (FixedWindows.Live(l.store, SlotOf(k, w.unix), w.unix) + 1 <= FixedWindows.LimitOf(rate),
       l.(store := FixedWindows.Hit(l.store, SlotOf(k, w.unix), w.unix)))
    else
      (GrantsOn(l.table, k, w.now, rate, burst), l.(table := AllowOn(l.table, k, w.now, rate, burst)))
  }

  /** The address is asked first; the user only if the address was granted. */
  function AskBoth(l: Limits, req: Request, redisActive: bool, w: World, rate: real, burst: real): (bool, Limits) {
    var byIP := Ask(l, IP(req.ip), redisActive && w.ipAnswered, w, rate, burst);
    if !byIP.0 || req.userID == "" then byIP
    else Ask(byIP.1, User(req.userID), redisActive && w.userAnswered, w, rate, burst)
  }

  function RateFor(c: Settings, tier: Decision): (real, real)
    requires !Refusing(tier)
  {
    match tier
    case Allow => (c.allowRate, c.allowBurst)
    case AllowStricter => (c.stricterRate, c.stricterBurst)
    case Challenge => (c.challengeRate, c.challengeBurst)
  }

  function AskTier(c: Settings, l: Limits, req: Request, redisActive: bool, w: World, tier: Decision): (bool, Limits)
    requires !Refusing(tier)
  {
    AskBoth(l, req, redisActive, w, RateFor(c, tier).0, RateFor(c, tier).1)
  }

  /** The tier a request past the gatekeeper is limited at; a passed challenge counts as
      stricter. */
  function TierOf(verdict: Decision): (tier: Decision)
    ensures Lenient(tier)
  {
    if verdict.Allow? then Allow else AllowStricter
  }

  /** A refused address spends nothing of the user's allowance, in either backend. */
  lemma RefusedAddressSparesUser(l: Limits, req: Request, redisActive: bool, w: World, rate: real, burst: real)
    requires !Ask(l, IP(req.ip), redisActive && w.ipAnswered, w, rate, burst).0
    ensures var (ok, after) := AskBoth(l, req, redisActive, w, rate, burst);
            && !ok
            && (forall id :: User(id) in after.table <==> User(id) in l.table)
            && (forall id :: User(id) in l.table ==> after.table[User(id)] == l.table[User(id)])
            && (forall id :: FixedWindows.Live(after.store, SlotOf(User(id), w.unix), w.unix)
                             == FixedWindows.Live(l.store, SlotOf(User(id), w.unix), w.unix))
  {
    assert "ip" != "user" by {
      assert |"ip"| != |"user"|;
    }
  }

  // ---------- the decision cascade ----------

  /** Who gets past the gatekeeper. */
  predicate PassesGate(verdict: Decision, cookieOK: bool) {
    Lenient(verdict) || (verdict.Challenge? && cookieOK)
  }

  function UncertainFrom(c: Settings): real {
    c.threshold * (1.0 - c.margin)
  }

  /** What Coraza and LightGBM must say. */
  predicate Clean(c: Settings, w: World, verdict: Decision) {
    && (c.coraza && !verdict.Allow? ==> w.corazaFirst)
    && w.prob < c.threshold
    && (c.coraza && w.prob >= UncertainFrom(c) ==> w.corazaSecond)
  }

  /** Everything that must hold for a request to reach the backend. */
  predicate Forwards(c: Settings, req: Request, w: World, verdict: Decision, admitted: bool) {
    && req.bodyReadable
    && PassesGate(verdict, CookieOK(c, req, w))
    && admitted
    && Clean(c, w, verdict)
  }

  /** The backend's own view of a request: nobody refused it. The gatekeeper did not, and a
      challenge was met with a valid cookie; LightGBM put it below the threshold; Coraza, if
      on, passed all but the clean tier, and again what LightGBM found uncertain. */
  predicate Cleared(c: Settings, req: Request, w: World, verdict: Decision) {
    && !verdict.Ban? && !verdict.Block?
    && (verdict.Challenge? ==> CookieOK(c, req, w))
    && w.prob < c.threshold
    && (c.coraza && !verdict.Allow? ==> w.corazaFirst)
    && (c.coraza && w.prob >= c.threshold * (1.0 - c.margin) ==> w.corazaSecond)
  }

  /** Both allowances of a granted request have paid: the Redis counter of each key is one
      higher, or its bucket was filled up to now and holds one token less. */
  lemma GrantedPaysTwice(l: Limits, req: Request, redisActive: bool, w: World, rate: real, burst: real)
    requires AskBoth(l, req, redisActive, w, rate, burst).0
    ensures var after := AskBoth(l, req, redisActive, w, rate, burst).1;
            && Paid(l, after, IP(req.ip), redisActive && w.ipAnswered, w, rate, burst)
            && (req.userID != "" ==> Paid(l, after, User(req.userID), redisActive && w.userAnswered, w, rate, burst))
  {
    assert "ip" != "user" by {
      assert |"ip"| != |"user"|;
    }
  }

  predicate Paid(l: Limits, after: Limits, k: Key, byRedis: bool, w: World, rate: real, burst: real) {
    if byRedis then
      FixedWindows.Live(after.store, SlotOf(k, w.unix), w.unix)
      == FixedWindows.Live(l.store, SlotOf(k, w.unix), w.unix) + 1 <= FixedWindows.LimitOf(rate)
    else
      && k in after.table && after.table[k].lastFill == w.now
      && after.table[k].tokens + 1.0
         == TokenBuckets.Refill(BucketFor(l.table, k, w.now, burst), w.now, rate, burst).tokens
  }

  /** ... at the rates of the verdict's tier: the clean tier's for "allow", the stricter one's
      for everything else that gets past the gatekeeper. */
  lemma GrantedPaysTierRate(c: Settings, l: Limits, req: Request, redisActive: bool, w: World, verdict: Decision)
    requires AskTier(c, l, req, redisActive, w, TierOf(verdict)).0
    ensures var after := AskTier(c, l, req, redisActive, w, TierOf(verdict)).1;
            var rate := if verdict.Allow? then c.allowRate else c.stricterRate;
            var burst := if verdict.Allow? then c.allowBurst else c.stricterBurst;
            && Paid(l, after, IP(req.ip), redisActive && w.ipAnswered, w, rate, burst)
            && (req.userID != "" ==> Paid(l, after, User(req.userID), redisActive && w.userAnswered, w, rate, burst))
  {
    var tier := TierOf(verdict);
    GrantedPaysTwice(l, req, redisActive, w, RateFor(c, tier).0, RateFor(c, tier).1);
  }

  class WAFProxy {
    const c: Settings
    const redisActive: bool
    const rateLimiter: RateLimiter
    const redis: FixedWindows.RedisRateLimiter
    var events: seq<TrustEvent>
    var backend: seq<Request>

    ghost predicate Valid()
      reads rateLimiter
    {
      rateLimiter.Valid()
    }

    ghost function View(): Limits
      reads redis, rateLimiter, rateLimiter.buckets.Values
    {
      Limits(redis.store, rateLimiter.View())
    }

    constructor (settings: Settings, withRedis: bool)
      ensures Valid() && events == [] && backend == [] && c == settings && redisActive == withRedis
    {
      c, redisActive, events, backend := settings, withRedis, [], [];
      rateLimiter := new RateLimiter();
      redis := new FixedWindows.RedisRateLimiter();
    }

    /** AllowIP or AllowUser on the active limiter, with the fallback. */
    method AllowKey(k: Key, answered: bool, w: World, rate: real, burst: real) returns (allowed: bool)
      requires Valid()
      modifies redis, rateLimiter, rateLimiter.buckets.Values
      ensures Valid() && fresh(rateLimiter.buckets.Values - old(rateLimiter.buckets.Values))
      ensures (allowed, View()) == Ask(old(View()), k, redisActive && answered, w, rate, burst)
    {
      var backendOK := false;
      if redisActive {
        match k {
          case IP(address) => allowed, backendOK := redis.Allow("ip", address, w.unix, rate, answered);
          case User(id) => allowed, backendOK := redis.Allow("user", id, w.unix, rate, answered);
        }
      }
      if !backendOK {
        allowed := rateLimiter.Allow(k, w.now, rate, burst);
      }
    }

    method AllowBoth(req: Request, w: World, rate: real, burst: real) returns (allowed: bool)
      requires Valid()
      modifies redis, rateLimiter, rateLimiter.buckets.Values
      ensures Valid() && fresh(rateLimiter.buckets.Values - old(rateLimiter.buckets.Values))
      ensures (allowed, View()) == AskBoth(old(View()), req, redisActive, w, rate, burst)
    {
      allowed := AllowKey(IP(req.ip), w.ipAnswered, w, rate, burst);
      if allowed && req.userID != "" {
        allowed := AllowKey(User(req.userID), w.userAnswered, w, rate, burst);
      }
    }

    /** On a refusal the client gets 429 and one rate-limit event is fired. A tier other
        than the three is refused outright, with no event. */
    method CheckRateLimits(req: Request, tier: Decision, w: World, passed: bool) returns (ok: bool)
      requires Valid()
      modifies this`events, redis, rateLimiter, rateLimiter.buckets.Values
      ensures Valid() && fresh(rateLimiter.buckets.Values - old(rateLimiter.buckets.Values))
      ensures Refusing(tier) ==> !ok && View() == old(View()) && events == old(events)
      ensures !Refusing(tier) ==>
                && (ok, View()) == AskTier(c, old(View()), req, redisActive, w, tier)
                && events == old(events) + if ok then [] else [TrustEvent(req.ip, req.userID, 429, passed, true)]
    {
      var rate, burst;
      match tier {
        case Allow => rate, burst := c.allowRate, c.allowBurst;
        case AllowStricter => rate, burst := c.stricterRate, c.stricterBurst;
        case Challenge => rate, burst := c.challengeRate, c.challengeBurst;
        case _ => return false;
      }
      ok := AllowBoth(req, w, rate, burst);
      if !ok {
        events := events + [TrustEvent(req.ip, req.userID, 429, passed, true)];
      }
    }

    method Learn(req: Request, status: nat, passed: bool)
      modifies this`events
      ensures events == old(events) + [TrustEvent(req.ip, req.userID, status, passed, false)]
    {
      events := events + [TrustEvent(req.ip, req.userID, status, passed, false)];
    }

    /** The inspection of an admitted request: Coraza for all but the clean tier, LightGBM,
        Coraza again in the uncertain band, the backend. */
    method Inspect(req: Request, verdict: Decision, w: World, passed: bool) returns (response: Option<nat>)
      modifies this`events, this`backend
      ensures var through := Clean(c, w, verdict);
              && backend == old(backend) + (if through then [req] else [])
              && events == old(events) + [TrustEvent(req.ip, req.userID, if through then w.backendStatus else 403,
                                                     passed, false)]
              && (response.Some? ==> response.value == if through then w.backendStatus else 403)
              && (response.None? ==> c.coraza && !through)
    {
      if !verdict.Allow? && c.coraza && !w.corazaFirst {
        Learn(req, 403, passed);
        return None;
      }
      if w.prob >= c.threshold {
        Learn(req, 403, passed);
        return Some(403);
      }
      if w.prob >= UncertainFrom(c) && w.prob < c.threshold {
        if c.coraza && !w.corazaSecond {
          Learn(req, 403, passed);
          return None;
        }
      }
      backend := backend + [req];
      Learn(req, w.backendStatus, passed);
      return Some(w.backendStatus);
    }

    /** Past the gatekeeper: the rate limits, then the inspection. */
    method Admit(req: Request, verdict: Decision, w: World, passed: bool) returns (response: Option<nat>)
      requires Valid()
      modifies this, redis, rateLimiter, rateLimiter.buckets.Values
      ensures Valid()
      ensures var asked := AskTier(c, old(View()), req, redisActive, w, TierOf(verdict));
              var through := asked.0 && Clean(c, w, verdict);
              && View() == asked.1
              && backend == old(backend) + (if through then [req] else [])
              && events == old(events) + [
                   if !asked.0 then TrustEvent(req.ip, req.userID, 429, passed, true)
                   else TrustEvent(req.ip, req.userID, if through then w.backendStatus else 403, passed, false)]
              && (response.Some? ==> response.value == events[|old(events)|].status)
              && (response.None? ==> c.coraza && asked.0 && !through)
    {
      var ok := CheckRateLimits(req, if verdict.Allow? then Allow else AllowStricter, w, passed);
      if !ok {
        return Some(429);
      }
      response := Inspect(req, verdict, w, passed);
    }

    /** What the gatekeeper's recommendation leads to. */
    method Route(req: Request, verdict: Decision, w: World) returns (response: Option<nat>)
      requires Valid() && req.bodyReadable
      modifies this, redis, rateLimiter, rateLimiter.buckets.Values
      ensures Valid()
      ensures var asked := AskTier(c, old(View()), req, redisActive, w, TierOf(verdict));
              var gate := PassesGate(verdict, CookieOK(c, req, w));
              var through := gate && asked.0 && Clean(c, w, verdict);
              && backend == old(backend) + (if through then [req] else [])
              && View() == (if gate then asked.1 else old(View()))
              && events == old(events) + [
                   if !gate then TrustEvent(req.ip, req.userID, if verdict.Challenge? then 401 else 403, false, false)
                   else if !asked.0 then TrustEvent(req.ip, req.userID, 429, CookieOK(c, req, w), true)
                   else TrustEvent(req.ip, req.userID, if through then w.backendStatus else 403,
                                   CookieOK(c, req, w), false)]
              && (response.Some? ==> response.value == events[|old(events)|].status)
              && (response.None? ==> c.coraza && gate && asked.0 && !through)
    {
      var passed := CookieOK(c, req, w);
      match verdict {
        case Ban | Block =>
          Learn(req, 403, false);
          return Some(403);
        case Challenge =>
          if !passed {
            Learn(req, 401, false);
            return Some(401);
          }
        case AllowStricter | Allow =>
      }
      response := Admit(req, verdict, w, passed);
    }

    /** ServeHTTP, given the address's profile as the gatekeeper finds it. response is the
        status the proxy or the backend writes; a Coraza refusal writes none.

        A request reaches the backend exactly when it Forwards. Once the body is read there
        is exactly one trust event, and it tells how the request ended. The limiters are
        asked exactly when the gatekeeper lets the request by. */
    method ServeHTTP(req: Request, p: Profile, w: World) returns (response: Option<nat>)
      requires Valid()
      modifies this, redis, rateLimiter, rateLimiter.buckets.Values
      ensures Valid()
      ensures var verdict := Verdict(p, req, w);
              var asked := AskTier(c, old(View()), req, redisActive, w, TierOf(verdict));
              var gate := req.bodyReadable && PassesGate(verdict, CookieOK(c, req, w));
              var through := Forwards(c, req, w, verdict, asked.0);
              && backend == old(backend) + (if through then [req] else [])
              && View() == (if gate then asked.1 else old(View()))
              && |events| == |old(events)| + (if req.bodyReadable then 1 else 0)
              && old(events) <= events
              && (req.bodyReadable ==>
                    var e := events[|events| - 1];
                    && e.ip == req.ip && e.userID == req.userID
                    && (e.rateLimitHit <==> gate && !asked.0)
                    && (e.challengePassed <==> gate && CookieOK(c, req, w))
                    && e.status == (if through then w.backendStatus
                                    else if gate && !asked.0 then 429
                                    else if verdict.Challenge? && !gate then 401 else 403))
              && (response.Some? && req.bodyReadable ==> response.value == events[|events| - 1].status)
              && (!req.bodyReadable ==> response == Some(400))
              && (response.None? ==> c.coraza && gate && asked.0 && !through)
      ensures |backend| > |old(backend)| ==> req.bodyReadable && Cleared(c, req, w, Verdict(p, req, w))
      ensures (req.bodyReadable && AskTier(c, old(View()), req, redisActive, w, TierOf(Verdict(p, req, w))).0
               && Cleared(c, req, w, Verdict(p, req, w)))
              ==> backend == old(backend) + [req]
    {
      if !req.bodyReadable {
        return Some(400);
      }
      response := Route(req, Verdict(p, req, w), w);
    }
  }

  // ---------- requests in flight ----------

  /** A request and when, on a trust machine's clock, the gatekeeper judged it. */
  datatype Visit = Visit(req: Request, w: World, verdict: Decision, at: nat)

  /** The gatekeeper judges a request when it arrives; the rest of it, answers of the limiters
      included, comes later. */
  datatype Gate = Gate(pending: map<nat, Visit>, forwarded: seq<Visit>)

  function Arrived(g: Gate, id: nat, v: Visit): Gate {
    if id in g.pending then g else g.(pending := g.pending[id := v])
  }

  function Concluded(c: Settings, g: Gate, id: nat, admitted: bool): Gate {
    if id !in g.pending then g
    else
      var v := g.pending[id];
      Gate(g.pending - {id},
           g.forwarded + if Forwards(c, v.req, v.w, v.verdict, admitted) then [v] else [])
  }

  /** Every request judged after the given time: while pending it is not leniently judged;
      once forwarded it had a valid cookie. Those the gate is shut to are refused. */
  predicate Vetted(c: Settings, g: Gate, time: nat, shut: Request -> bool) {
    && (forall id :: id in g.pending && g.pending[id].at > time ==>
          var v := g.pending[id];
          !Lenient(v.verdict) && (shut(v.req) ==> Refusing(v.verdict)))
    && (forall i :: 0 <= i < |g.forwarded| && g.forwarded[i].at > time ==>
          var v := g.forwarded[i];
          CookieOK(c, v.req, v.w) && !shut(v.req))
  }

  lemma ArrivedVetted(c: Settings, g: Gate, id: nat, v: Visit, time: nat, shut: Request -> bool)
    requires Vetted(c, g, time, shut) && !Lenient(v.verdict) && (shut(v.req) ==> Refusing(v.verdict))
    ensures Vetted(c, Arrived(g, id, v), time, shut)
  {
  }

  lemma ConcludedVetted(c: Settings, g: Gate, id: nat, admitted: bool, time: nat, shut: Request -> bool)
    requires Vetted(c, g, time, shut)
    ensures Vetted(c, Concluded(c, g, id, admitted), time, shut)
  {
  }

  /** Everything that ever reached the backend was readable and cleared. */
  predicate AllCleared(c: Settings, g: Gate) {
    forall i :: 0 <= i < |g.forwarded| ==>
      var v := g.forwarded[i];
      v.req.bodyReadable && Cleared(c, v.req, v.w, v.verdict)
  }

  /** Concluding a request forwards it exactly when it is readable, cleared and admitted. */
  lemma ConcludedCleared(c: Settings, g: Gate, id: nat, admitted: bool)
    requires id in g.pending
    ensures var v := g.pending[id];
            Concluded(c, g, id, admitted).forwarded
            == g.forwarded + if v.req.bodyReadable && admitted && Cleared(c, v.req, v.w, v.verdict) then [v] else []
  {
  }

  predicate JudgedBy(g: Gate, time: nat) {
    && (forall id :: id in g.pending ==> g.pending[id].at <= time)
    && (forall i :: 0 <= i < |g.forwarded| ==> g.forwarded[i].at <= time)
  }

  // ---------- one address over time ----------

  /** Requests from one address, in any interleaving with everything that happens to its
      trust profile. */
  datatype WebAction =
    | Trust(a: IPInterleaving.Action)
    | Arrive(id: nat, req: Request, w: World)
    | Conclude(id: nat, admitted: bool)

  datatype Web = Web(s: IPInterleaving.State, gate: Gate)

  function WebStep(c: Settings, web: Web, a: WebAction): Web {
    match a
    case Trust(t) => web.(s := IPInterleaving.Step(web.s, t))
    case Arrive(id, req, w) =>
      web.(gate := Arrived(web.gate, id, Visit(req, w, Verdict(web.s.p, req, w), web.s.clock)))
    case Conclude(id, admitted) => web.(gate := Concluded(c, web.gate, id, admitted))
  }

  function WebRun(c: Settings, web: Web, acts: seq<WebAction>): Web {
    if acts == [] then web else WebStep(c, WebRun(c, web, acts[..|acts| - 1]), acts[|acts| - 1])
  }

  const OPENING := Web(IPInterleaving.INIT, Gate(map[], []))

  function TrustSide(acts: seq<WebAction>): seq<IPInterleaving.Action> {
    if acts == [] then []
    else TrustSide(acts[..|acts| - 1]) + if acts[|acts| - 1].Trust? then [acts[|acts| - 1].a] else []
  }

  /** Serving requests does not disturb the trust machine. */
  lemma {:induction false} TrustRuns(c: Settings, web: Web, acts: seq<WebAction>)
    ensures WebRun(c, web, acts).s == IPInterleaving.Run(web.s, TrustSide(acts))
  {
    if acts != [] {
      TrustRuns(c, web, acts[..|acts| - 1]);
      var t := TrustSide(acts);
      if acts[|acts| - 1].Trust? {
        assert t[..|t| - 1] == TrustSide(acts[..|acts| - 1]);
      } else {
        assert t == TrustSide(acts[..|acts| - 1]);
      }
    }
  }

  lemma ClockAdvances(s: IPInterleaving.State, a: IPInterleaving.Action)
    ensures IPInterleaving.Step(s, a).clock == s.clock + 1
  {
  }

  lemma {:induction false} NothingJudgedAhead(c: Settings, acts: seq<WebAction>)
    ensures JudgedBy(WebRun(c, OPENING, acts).gate, WebRun(c, OPENING, acts).s.clock)
  {
    if acts != [] {
      NothingJudgedAhead(c, acts[..|acts| - 1]);
      var web := WebRun(c, OPENING, acts[..|acts| - 1]);
      if acts[|acts| - 1].Trust? {
        ClockAdvances(web.s, acts[|acts| - 1].a);
      }
    }
  }

  const HIT := IPInterleaving.RaspHit(SEV_CRITICAL)

  predicate QuietAt(web: Web) {
    IPInterleaving.Stale(web.s, web.s.clock) == {}
  }

  /** Anonymous requests, if no scoring was past its check when the hit came. */
  function ShutAt(w0: Web): Request -> bool {
    (req: Request) => QuietAt(w0) && req.userID == ""
  }

  /** What the gatekeeper tells any caller at any time after the hit. */
  lemma GateAfterHit(c: Settings, before: seq<WebAction>, w0: Web, later: seq<WebAction>, w1: Web,
                     req: Request, w: World)
    requires w0 == WebRun(c, OPENING, before)
    requires w1 == WebRun(c, WebStep(c, w0, Trust(HIT)), later)
    ensures !Lenient(Verdict(w1.s.p, req, w))
    ensures QuietAt(w0) && req.userID == "" ==> Verdict(w1.s.p, req, w).Ban?
  {
    TrustRuns(c, OPENING, before);
    TrustRuns(c, WebStep(c, w0, Trust(HIT)), later);
    var user := if req.userID == "" then None else Some(w.standing);
    IPInterleaving.CriticalHitIsForever(TrustSide(before), w0.s, TrustSide(later), w1.s, user);
    if QuietAt(w0) {
      IPInterleaving.CriticalHitBansWhenQuiet(TrustSide(before), w0.s, TrustSide(later), w1.s);
    }
  }

  /** After a CRITICAL hit on an address that is not evicted, every request from it that the
      gatekeeper judges and that reaches the backend carries a valid clearance cookie,
      whoever sends it; and if no scoring was past its override check at the hit, no
      anonymous request ever reaches it. */
  lemma {:induction false} ForwardedAfterCriticalHit(c: Settings, before: seq<WebAction>, w0: Web,
                                                     later: seq<WebAction>, w1: Web)
    requires w0 == WebRun(c, OPENING, before)
    requires w1 == WebRun(c, WebStep(c, w0, Trust(HIT)), later)
    ensures Vetted(c, w1.gate, w0.s.clock, ShutAt(w0))
  {
    if later == [] {
      NothingJudgedAhead(c, before);
    } else {
      var m := WebRun(c, WebStep(c, w0, Trust(HIT)), later[..|later| - 1]);
      ForwardedAfterCriticalHit(c, before, w0, later[..|later| - 1], m);
      match later[|later| - 1] {
        case Trust(_) =>
        case Arrive(id, req, w) =>
          GateAfterHit(c, before, w0, later[..|later| - 1], m, req, w);
          ArrivedVetted(c, m.gate, id, Visit(req, w, Verdict(m.s.p, req, w), m.s.clock), w0.s.clock, ShutAt(w0));
        case Conclude(id, admitted) =>
          ConcludedVetted(c, m.gate, id, admitted, w0.s.clock, ShutAt(w0));
      }
    }
  }

  /** ... so behind each of those requests is a token printed, today or yesterday, for an
      address the client is bound to. */
  lemma ForwardedCookieWasIssued(c: Settings, before: seq<WebAction>, w0: Web, later: seq<WebAction>, w1: Web, i: nat)
    returns (issuedTo: string, date: string, nonce: string)
    requires w0 == WebRun(c, OPENING, before)
    requires w1 == WebRun(c, WebStep(c, w0, Trust(HIT)), later)
    requires i < |w1.gate.forwarded| && w1.gate.forwarded[i].at > w0.s.clock && Clearance.Hex(c.sign)
    ensures var v := w1.gate.forwarded[i];
            && (date == v.w.today || date == v.w.yesterday)
            && v.req.cookie == Some(Clearance.GenerateClearanceToken(Clearance.SaltFor(issuedTo, date), nonce, c.sign))
            && Clearance.Bound(issuedTo, v.req.ip, c.mask64)
  {
    ForwardedAfterCriticalHit(c, before, w0, later, w1);
    var v := w1.gate.forwarded[i];
    assert CookieOK(c, v.req, v.w);
    issuedTo, date, nonce := Clearance.AcceptedCookieWasIssued(c.hasSecret, v.req.cookie, v.req.ip, c.sign,
                                                               v.w.today, v.w.yesterday, c.mask64);
  }

  /** Over whole runs: whatever reached the backend had a probability below the threshold and
      every yes it needed. */
  lemma {:induction false} ForwardedWasCleared(c: Settings, acts: seq<WebAction>)
    ensures AllCleared(c, WebRun(c, OPENING, acts).gate)
  {
    if acts != [] {
      var web := WebRun(c, OPENING, acts[..|acts| - 1]);
      var a := acts[|acts| - 1];
      ForwardedWasCleared(c, acts[..|acts| - 1]);
      if a.Conclude? && a.id in web.gate.pending {
        ConcludedCleared(c, web.gate, a.id, a.admitted);
      }
    }
  }
}
