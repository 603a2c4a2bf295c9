/** The per-IP profile: what Update, AddRASPHit, the Tier 1 feedback and a solved
    challenge do to it, and how the override and policy checks read it. */
module IPProfiles {
  import opened Scores
  import opened Fusion
  import TimeWindow

  // ---------- values ----------

  /** none, low, medium, high, critical. */
  type Severity = s: nat | s <= 4
  const SEV_NONE: Severity := 0
  const SEV_LOW: Severity := 1
  const SEV_MEDIUM: Severity := 2
  const SEV_HIGH: Severity := 3
  const SEV_CRITICAL: Severity := 4

  const MAX_RASP_HITS := 100
  const MAX_CORRECTIONS := 100
  const MAX_PREVIOUS_SCORES := 10

  datatype SensitiveHit = SensitiveHit(path: string, timestamp: real)

  /** BruteForceEndpoints[path] for a POST; Other for everything else. */
  datatype Endpoint = Login | PasswordReset | Registration | Other

  datatype Event = Event(timestamp: real, path: string, endpoint: Endpoint, sensitive: bool,
                         country: string, isTor: bool, isVPN: bool, isDatacenter: bool,
                         challengePassed: bool)

  /** RecentTimestamps (60 s), BurstTimestamps (1 s) and EndpointTimestamps (60 s each). */
  datatype Windows = Windows(recent: seq<real>, burst: seq<real>, byPath: map<string, seq<real>>)

  /** LoginAttempts, PasswordResetAttempts and RegistrationAttempts. */
  datatype Attempts = Attempts(login: nat, reset: nat, registration: nat)

  /** IsTor, IsVPN and IsDatacenter of the last event, and every country seen. */
  datatype Network = Network(isTor: bool, isVPN: bool, isDatacenter: bool, countries: set<string>)

  datatype Profile = Profile(
    lastSeen: real,
    totalRequests: nat,
    sensitiveHits: seq<SensitiveHit>,
    windows: Windows,
    attempts: Attempts,
    network: Network,
    previousScores: seq<Cents>,
    wasBlocked: bool,
    wasChallenged: bool,
    challengeSolved: bool,
    challengeSolvedAt: real,
    ewma: real,
    corrections: seq<real>,
    raspHits: seq<Severity>,
    confirmedExploit: bool)

  const NO_ATTEMPTS := Attempts(0, 0, 0)
  const FRESH := Profile(0.0, 0, [], Windows([], [], map[]), NO_ATTEMPTS, Network(false, false, false, {}), [],
                         false, false, false, 0.0, 0.5, [], [], false)

  // ---------- what the steps compute ----------

  function Times(w: Windows, path: string): seq<real> {
    if path in w.byPath then w.byPath[path] else []
  }

  function KeepLast<T>(xs: seq<T>, x: T, limit: nat): seq<T> {
    if |xs| >= limit && xs != [] then xs[1..] + [x] else xs + [x]
  }

  /** Phase 1 of a scoring counts the attempt before anything is scored. */
  function CountAttempt(a: Attempts, e: Endpoint): Attempts {
    match e
    case Login => a.(login := a.login + 1)
    case PasswordReset => a.(reset := a.reset + 1)
    case Registration => a.(registration := a.registration + 1)
    case Other => a
  }

  function Appended(w: Windows, path: string, now: real): Windows {
    Windows(TimeWindow.Within(w.recent + [now], now, 60.0),
            TimeWindow.Within(w.burst + [now], now, 1.0),
            w.byPath[path := TimeWindow.Within(Times(w, path) + [now], now, 60.0)])
  }

  function PushScore(previous: seq<Cents>, score: Cents): seq<Cents> {
    if |previous| >= MAX_PREVIOUS_SCORES then previous[1..] + [score] else previous + [score]
  }

  predicate Sticky(before: bool, now: bool) {
    before || now
  }

  /** The solved-challenge bonus lasts ten minutes. */
  predicate BonusStillActive(p: Profile, now: real) {
    p.challengeSolved && now - p.challengeSolvedAt <= 600.0
  }

  function TimesRecorded(p: Profile, path: string, now: real): Profile {
    p.(windows := Appended(p.windows, path, now))
  }

  /** What else the event itself says. */
  function Observed(p: Profile, e: Event): Profile {
    Profile(
      e.timestamp,
      p.totalRequests + 1,
      if e.sensitive then p.sensitiveHits + [SensitiveHit(e.path, e.timestamp)] else p.sensitiveHits,
      p.windows,
      if e.challengePassed then NO_ATTEMPTS else p.attempts,
      Network(e.isTor, e.isVPN, e.isDatacenter, p.network.countries + {e.country}),
      p.previousScores, p.wasBlocked, p.wasChallenged,
      BonusStillActive(p, e.timestamp),
      p.challengeSolvedAt, p.ewma, p.corrections, p.raspHits, p.confirmedExploit)
  }

  /** What was decided about it. */
  function Judged(p: Profile, score: Cents, decision: Decision): Profile {
    p.(previousScores := PushScore(p.previousScores, score),
       wasBlocked := Sticky(p.wasBlocked, Refusing(decision)),
       wasChallenged := Sticky(p.wasChallenged, decision.Challenge?))
  }

  function Updated(p: Profile, e: Event, score: Cents, decision: Decision): Profile {
    Judged(Observed(TimesRecorded(p, e.path, e.timestamp), e), score, decision)
  }

  /** A CRITICAL effect sets the sticky flags and pushes a zero, without trimming. */
  function WithRaspHit(p: Profile, s: Severity): Profile {
    var q := p.(raspHits := KeepLast(p.raspHits, s, MAX_RASP_HITS));
    if s == SEV_CRITICAL
    then q.(confirmedExploit := true, wasBlocked := true, previousScores := q.previousScores + [0])
    else q
  }

  function WithCorrection(p: Profile, delta: real): Profile {
    p.(ewma := Max(0.0, Min(1.0, p.ewma + delta)), corrections := KeepLast(p.corrections, delta, MAX_CORRECTIONS))
  }

  function WithChallengeSolved(p: Profile, now: real): Profile {
    p.(challengeSolved := true, challengeSolvedAt := now)
  }

  function MaxSeverity(hits: seq<Severity>): Severity {
    if hits == [] then SEV_NONE
    else var m := MaxSeverity(hits[..|hits| - 1]);
         if hits[|hits| - 1] > m then hits[|hits| - 1] else m
  }

  function RaspPenalty(s: Severity): real {
    if s == SEV_CRITICAL then 1.0
    else if s == SEV_HIGH then 0.85
    else if s == SEV_MEDIUM then 0.45
    else if s == SEV_LOW then 0.20
    else 0.0
  }

  /** checkHardOverrides: the first matching rule wins. */
  function HardOverride(p: Profile, sub: SubScores): Option<Cents> {
    if p.confirmedExploit then Some(0)
    else if MaxSeverity(p.raspHits) == SEV_HIGH then Some(200)
    else if p.network.isTor && sub.AnySuspicious() then Some(400)
    else if p.attempts.login >= 40 then Some(0)
    else if p.attempts.login >= 8 then Some(200)
    else if |p.sensitiveHits| >= 8 then Some(0)
    else if |p.sensitiveHits| >= 3 then Some(200)
    else if |p.sensitiveHits| >= 1 then Some(400)
    else if |p.network.countries| > 2 then Some(200)
    else if |p.windows.burst| > 50 then Some(0)
    else if |p.windows.burst| > 15 then Some(400)
    else None
  }

  /** applyPolicyOverrides: stricter first-touch answers; the score is left alone. */
  function PolicyDecision(p: Profile, sub: SubScores, decision: Decision): Decision {
    if (p.network.isVPN || p.network.isDatacenter) && |p.sensitiveHits| > 0 && decision.Allow? then AllowStricter
    else if p.network.isTor && sub.recon > 0.0 && Lenient(decision) then Challenge
    else decision
  }

  // ---------- the mutable profile ----------

  /** Append to the three lists and trim each of them. */
  method AppendTimes(w: Windows, path: string, now: real) returns (w': Windows)
    ensures w' == Appended(w, path, now)
  {
    var recent := TimeWindow.TrimTimestamps(w.recent + [now], now, 60.0);
    var burst := TimeWindow.TrimTimestamps(w.burst + [now], now, 1.0);
    var times := if path in w.byPath then w.byPath[path] else [];
    times := TimeWindow.TrimTimestamps(times + [now], now, 60.0);
    w' := Windows(recent, burst, w.byPath[path := times]);
  }

  class IPProfile {
    var lastSeen: real
    var totalRequests: nat
    var sensitiveHits: seq<SensitiveHit>
    var windows: Windows
    var attempts: Attempts
    var network: Network
    var previousScores: seq<Cents>
    var wasBlocked: bool
    var wasChallenged: bool
    var challengeSolved: bool
    var challengeSolvedAt: real
    var ewma: real
    var corrections: seq<real>
    var raspHits: seq<Severity>
    var confirmedExploit: bool

    ghost function View(): Profile
      reads this
    {
      Profile(lastSeen, totalRequests, sensitiveHits, windows, attempts, network, previousScores, wasBlocked,
              wasChallenged, challengeSolved, challengeSolvedAt, ewma, corrections, raspHits, confirmedExploit)
    }

    constructor ()
      ensures View() == FRESH
    {
      lastSeen, totalRequests, sensitiveHits := 0.0, 0, [];
      windows, attempts := Windows([], [], map[]), Attempts(0, 0, 0);
      network := Network(false, false, false, {});
      previousScores, wasBlocked, wasChallenged := [], false, false;
      challengeSolved, challengeSolvedAt := false, 0.0;
      ewma, corrections := 0.5, [];
      raspHits, confirmedExploit := [], false;
    }

    /** The commit step of a scoring. */
    method Update(e: Event, score: Cents, decision: Decision)
      modifies this
      ensures View() == Updated(old(View()), e, score, decision)
    {
      RecordTimes(e.path, e.timestamp);
      ObserveEvent(e);
      RecordOutcome(score, decision);
    }

    method RecordTimes(path: string, now: real)
      modifies this
      ensures View() == TimesRecorded(old(View()), path, now)
    {
      windows := AppendTimes(windows, path, now);
    }

    method ObserveEvent(e: Event)
      modifies this
      ensures View() == Observed(old(View()), e)
    {
      var now := e.timestamp;
      if challengeSolved && now - challengeSolvedAt > 600.0 {
        challengeSolved := false;
      }
      lastSeen := now;
      totalRequests := totalRequests + 1;
      if e.sensitive {
        sensitiveHits := sensitiveHits + [SensitiveHit(e.path, now)];
      }
      if e.challengePassed {
        attempts := Attempts(0, 0, 0);
      }
      network := Network(e.isTor, e.isVPN, e.isDatacenter, network.countries + {e.country});
    }

    method RecordOutcome(score: Cents, decision: Decision)
      modifies this
      ensures View() == Judged(old(View()), score, decision)
    {
      assert previousScores != [] ==>
        previousScores[1..] + [score] == (previousScores + [score])[1..];
      previousScores := previousScores + [score];
      if |previousScores| > MAX_PREVIOUS_SCORES {
        previousScores := previousScores[1..];
      }
      if Refusing(decision) {
        wasBlocked := true;
      }
      if decision.Challenge? {
        wasChallenged := true;
      }
    }

    method AddRASPHit(s: Severity)
      modifies this
      ensures View() == WithRaspHit(old(View()), s)
    {
      if |raspHits| >= MAX_RASP_HITS {
        raspHits := raspHits[1..];
      }
      raspHits := raspHits + [s];
      if s == SEV_CRITICAL {
        confirmedExploit := true;
        wasBlocked := true;
        previousScores := previousScores + [0];
      }
    }

    /** The profile part of FeedbackEngine.Apply. */
    method ApplyCorrection(delta: real)
      modifies this
      ensures View() == WithCorrection(old(View()), delta)
    {
      ewma := ewma + delta;
      if ewma > 1.0 {
        ewma := 1.0;
      }
      if ewma < 0.0 {
        ewma := 0.0;
      }
      if |corrections| >= MAX_CORRECTIONS {
        corrections := corrections[1..];
      }
      corrections := corrections + [delta];
    }

    method RecordChallengeSolved(now: real)
      modifies this
      ensures View() == WithChallengeSolved(old(View()), now)
    {
      challengeSolved := true;
      challengeSolvedAt := now;
    }

    /** The counter part of ScoreBruteForce. */
    method CountLoginAttempt(e: Endpoint)
      modifies `attempts
      ensures attempts == CountAttempt(old(attempts), e)
    {
      match e {
        case Login => attempts := Attempts(attempts.login + 1, attempts.reset, attempts.registration);
        case PasswordReset => attempts := Attempts(attempts.login, attempts.reset + 1, attempts.registration);
        case Registration => attempts := Attempts(attempts.login, attempts.reset, attempts.registration + 1);
        case Other =>
      }
    }

    method RaspMaxSeverity() returns (m: Severity)
      ensures m == MaxSeverity(raspHits)
    {
      m := SEV_NONE;
      for i := 0 to |raspHits|
        invariant m == MaxSeverity(raspHits[..i])
      {
        assert raspHits[..i + 1][..i] == raspHits[..i];
        if raspHits[i] > m {
          m := raspHits[i];
        }
      }
      assert raspHits[..|raspHits|] == raspHits;
    }

    /** checkHardOverrides, on the live fields. */
    method CheckHardOverrides(sub: SubScores) returns (override: Option<Cents>)
      ensures override == HardOverride(View(), sub)
    {
      var worst := RaspMaxSeverity();
      if confirmedExploit {
        return Some(0);
      }
      if worst == SEV_HIGH {
        return Some(200);
      }
      if network.isTor && sub.AnySuspicious() {
        return Some(400);
      }
      if attempts.login >= 8 {
        return Some(if attempts.login >= 40 then 0 else 200);
      }
      var probes := |sensitiveHits|;
      if probes >= 1 {
        return Some(if probes >= 8 then 0 else if probes >= 3 then 200 else 400);
      }
      if |network.countries| > 2 {
        return Some(200);
      }
      if |windows.burst| > 15 {
        return Some(if |windows.burst| > 50 then 0 else 400);
      }
      return None;
    }

    method ApplyPolicyOverrides(sub: SubScores, decision: Decision) returns (d: Decision)
      ensures d == PolicyDecision(View(), sub, decision)
    {
      if (network.isVPN || network.isDatacenter) && |sensitiveHits| > 0 && decision.Allow? {
        return AllowStricter;
      }
      if network.isTor && sub.recon > 0.0 && Lenient(decision) {
        return Challenge;
      }
      return decision;
    }

    /** ScoreRASP: the accumulator over all hits is the penalty of the worst one. */
    method ScoreRASP() returns (penalty: real, confirmed: bool)
      ensures penalty == RaspPenalty(MaxSeverity(raspHits))
      ensures confirmed <==> SEV_CRITICAL in raspHits
    {
      penalty, confirmed := 0.0, false;
      for i := 0 to |raspHits|
        invariant penalty == RaspPenalty(MaxSeverity(raspHits[..i]))
        invariant confirmed <==> SEV_CRITICAL in raspHits[..i]
      {
        assert raspHits[..i + 1][..i] == raspHits[..i];
        var s := raspHits[i];
        if s == SEV_CRITICAL {
          penalty := 1.0;
          confirmed := true;
        } else if s == SEV_HIGH {
          if penalty < 0.85 { penalty := 0.85; }
        } else if s == SEV_MEDIUM {
          if penalty < 0.45 { penalty := 0.45; }
        } else if s == SEV_LOW {
          if penalty < 0.20 { penalty := 0.20; }
        }
      }
      assert raspHits[..|raspHits|] == raspHits;
    }
  }

  // ---------- what the checks guarantee ----------

  lemma {:induction false} MaxSeverityIsMax(hits: seq<Severity>)
    ensures forall i :: 0 <= i < |hits| ==> hits[i] <= MaxSeverity(hits)
    ensures hits != [] ==> MaxSeverity(hits) in hits
  {
    if hits != [] {
      MaxSeverityIsMax(hits[..|hits| - 1]);
      assert forall i :: 0 <= i < |hits| - 1 ==> hits[..|hits| - 1][i] == hits[i];
    }
  }

  /** A sensitive-path probe always leaves an override of at most 4.00, whichever rule
      comes first. */
  lemma SensitiveHitForcesOverride(p: Profile, sub: SubScores)
    requires |p.sensitiveHits| >= 1
    ensures HardOverride(p, sub).Some? && HardOverride(p, sub).value <= 400
  {
  }

  /** After three probes the override exceeds 2.00 exactly when the Tor rule fires first. */
  lemma ThreeSensitiveHits(p: Profile, sub: SubScores)
    requires |p.sensitiveHits| >= 3
    ensures HardOverride(p, sub).Some?
    ensures HardOverride(p, sub).value > 200
            <==> p.network.isTor && sub.AnySuspicious() && !p.confirmedExploit && MaxSeverity(p.raspHits) != SEV_HIGH
  {
  }

  /** The policy layer only ever makes a decision stricter, never as strict as a refusal,
      and leaves what is not lenient alone. */
  lemma PolicyOnlyEscalates(p: Profile, sub: SubScores, d: Decision)
    ensures Lenient(PolicyDecision(p, sub, d)) ==> Lenient(d)
    ensures Refusing(PolicyDecision(p, sub, d)) <==> Refusing(d)
    ensures !Lenient(d) ==> PolicyDecision(p, sub, d) == d
  {
  }

  /** ... and exactly when: a Tor address that probes is not let through, and an anonymized
      one that ever touched a sensitive path is not simply allowed. The second rule is looked
      at only where the first one has not answered. */
  lemma PolicyEscalatesExactly(p: Profile, sub: SubScores, d: Decision)
    ensures var marked := (p.network.isVPN || p.network.isDatacenter) && |p.sensitiveHits| > 0;
            var probing := p.network.isTor && sub.recon > 0.0;
            && (PolicyDecision(p, sub, d).Allow? <==> d.Allow? && !marked && !probing)
            && (Lenient(PolicyDecision(p, sub, d)) <==> Lenient(d) && (!probing || (marked && d.Allow?)))
  {
  }

  // ---------- which evidence leads where ----------

  predicate SuspiciousTor(p: Profile, sub: SubScores) {
    p.network.isTor && sub.AnySuspicious()
  }

  /** The band an override falls into, by evidence: any of seven kinds forces one; which one
      is decided by the first kind present, in the order exploit, HIGH effect, Tor, logins,
      probes, countries, burst. */
  lemma OverrideBands(p: Profile, sub: SubScores)
    ensures var logins, probes := p.attempts.login, |p.sensitiveHits|;
            var high, tor := MaxSeverity(p.raspHits) == SEV_HIGH, SuspiciousTor(p, sub);
            var countries, burst := |p.network.countries|, |p.windows.burst|;
            var o := HardOverride(p, sub);
            && (o.Some? <==> p.confirmedExploit || high || tor || logins >= 8 || probes >= 1 || countries > 2 || burst > 15)
            && (o.Some? && MakeDecision(o.value).Ban?
                <==> p.confirmedExploit
                     || (!high && !tor
                         && (logins >= 40
                             || (logins < 8 && (probes >= 8 || (probes == 0 && countries <= 2 && burst > 50))))))
            && (o.Some? && MakeDecision(o.value).Block?
                <==> !p.confirmedExploit
                     && (high
                         || (!tor
                             && (8 <= logins < 40
                                 || (logins < 8 && (3 <= probes < 8 || (probes == 0 && countries > 2)))))))
            && (o.Some? ==> !Lenient(MakeDecision(o.value)))
  {
  }

  /** The worse the effect the more it weighs, from nothing to everything. */
  lemma SeverityOrdersPenalty(s: Severity, t: Severity)
    ensures s < t <==> RaspPenalty(s) < RaspPenalty(t)
    ensures RaspPenalty(SEV_NONE) == 0.0 && RaspPenalty(SEV_LOW) == 0.2 && RaspPenalty(SEV_MEDIUM) == 0.45
    ensures RaspPenalty(SEV_HIGH) == 0.85 && RaspPenalty(SEV_CRITICAL) == 1.0
  {
  }

  // ---------- what a correction and a solved challenge leave ----------

  /** The corrected score is the point of the scale nearest to where the correction aims. */
  lemma CorrectionIsNearest(p: Profile, delta: real, x: real)
    requires 0.0 <= x <= 1.0
    ensures var q := WithCorrection(p, delta);
            && 0.0 <= q.ewma <= 1.0
            && Distance(q.ewma, p.ewma + delta) <= Distance(x, p.ewma + delta)
            && q.corrections != [] && q.corrections[|q.corrections| - 1] == delta
  {
  }

  function Distance(x: real, y: real): real {
    if x <= y then y - x else x - y
  }

  /** The solved-challenge bonus survives a commit exactly up to ten minutes later. */
  lemma SolvedLastsTenMinutes(p: Profile, solvedAt: real, e: Event, score: Cents, decision: Decision)
    ensures Updated(WithChallengeSolved(p, solvedAt), e, score, decision).challengeSolved
            <==> e.timestamp <= solvedAt + 600.0
  {
  }
}
