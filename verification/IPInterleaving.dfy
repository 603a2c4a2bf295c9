/** Every interleaving of scorings, RASP hits, Tier 1 corrections and solved challenges
    on one IP profile that is not evicted. ComputeTrustScore takes the profile's lock four
    times, so one scoring is four steps and anything may land in between. */
module IPInterleaving {
  import opened Scores
  import opened Fusion
  import opened IPProfiles
  import opened Gatekeeping
  import TimeWindow

  /** Where a scoring is. facts is what its boost is computed from; seen and checkedAt are the
      profile, and the time, at which its override check ran. */
  datatype Scoring =
    | Read(e: Event, sub: SubScores, facts: BoostFacts, tuning: BoostConfig, solved: bool, ewma: real, gain: real)
    | Checked(e: Event, sub: SubScores, facts: BoostFacts, tuning: BoostConfig, solved: bool, ewma: real, gain: real,
              override: Option<Cents>, seen: Profile, checkedAt: nat)
    | Decided(e: Event, sub: SubScores, score: Cents, decision: Decision, seen: Profile, checkedAt: nat)

  datatype Commit = Commit(e: Event, sub: SubScores, score: Cents, decision: Decision,
                           seen: Profile, checkedAt: nat)

  datatype State = State(p: Profile, running: map<nat, Scoring>, commits: seq<Commit>, clock: nat)

  const INIT := State(FRESH, map[], [], 0)

  /** The eight behavioural sub-scores, the habits, the gain and the weights are whatever
      the scoring modules and the live configuration say. */
  datatype Action =
    | Begin(id: nat, e: Event, others: SubScores, habits: Habits, tuning: BoostConfig, gain: real)
    | Check(id: nat)
    | Decide(id: nat, w: Weights)
    | Finish(id: nat)
    | RaspHit(severity: Severity)
    | Correct(delta: real)
    | Solve(now: real)

  /** What ComputeTrustBoost sees of the profile and the event. */
  function FactsOf(p: Profile, e: Event, habits: Habits): BoostFacts {
    BoostFacts(habits, |p.windows.recent|, p.totalRequests,
               p.network.isTor || p.network.isVPN || p.network.isDatacenter, |p.network.countries|,
               p.previousScores, p.wasBlocked, p.wasChallenged, e.challengePassed)
  }

  /** Phase 1, under the read lock: count the attempt, capture what is scored. */
  function BeginScoring(p: Profile, a: Action): Scoring
    requires a.Begin?
  {
    Read(a.e, a.others.(rasp := RaspPenalty(MaxSeverity(p.raspHits))),
         FactsOf(p, a.e, a.habits), a.tuning, p.challengeSolved, p.ewma, a.gain)
  }

  function DecideScoring(p: Profile, r: Scoring, w: Weights): Scoring
    requires r.Checked?
  {
    var score := FinalScore(r.override, w, r.sub, TrustBoost(r.facts, r.tuning), r.solved, r.ewma, r.gain);
    Decided(r.e, r.sub, score, PolicyDecision(p, r.sub, MakeDecision(score)), r.seen, r.checkedAt)
  }

  /** One atomic step; an action that is not enabled changes nothing but the clock. */
  function Step(s: State, a: Action): State {
    var t := s.(clock := s.clock + 1);
    match a
    case Begin(id, e, _, _, _, _) =>
      if id in s.running then t
      else t.(p := s.p.(attempts := CountAttempt(s.p.attempts, e.endpoint)),
              running := s.running[id := BeginScoring(s.p, a)])
    case Check(id) =>
      if id in s.running && s.running[id].Read? then
        var r := s.running[id];
        t.(running := s.running[id := Checked(r.e, r.sub, r.facts, r.tuning, r.solved, r.ewma, r.gain,
                                              HardOverride(s.p, r.sub), s.p, s.clock)])
      else t
    case Decide(id, w) =>
      if id in s.running && s.running[id].Checked?
      then t.(running := s.running[id := DecideScoring(s.p, s.running[id], w)])
      else t
    case Finish(id) =>
      if id in s.running && s.running[id].Decided? then
        var r := s.running[id];
        t.(p := Updated(s.p, r.e, r.score, r.decision),
           running := s.running - {id},
           commits := s.commits + [Commit(r.e, r.sub, r.score, r.decision, r.seen, r.checkedAt)])
      else t
    case RaspHit(severity) => t.(p := WithRaspHit(s.p, severity))
    case Correct(delta) => t.(p := WithCorrection(s.p, delta))
    case Solve(now) => t.(p := WithChallengeSolved(s.p, now))
  }

  function Run(s: State, acts: seq<Action>): State {
    if acts == [] then s else Step(Run(s, acts[..|acts| - 1]), acts[|acts| - 1])
  }

  /** The four steps of one scoring that nothing disturbs. */
  function Alone(p: Profile, begin: Action, w: Weights): State
    requires begin.Begin?
  {
    Step(Step(Step(Step(State(p, map[], [], 0), begin), Check(begin.id)), Decide(begin.id, w)), Finish(begin.id))
  }

  lemma AloneIs(p: Profile, a: Action, w: Weights)
    requires a.Begin?
    ensures var q := p.(attempts := CountAttempt(p.attempts, a.e.endpoint));
            var sub := a.others.(rasp := RaspPenalty(MaxSeverity(p.raspHits)));
            var boost := TrustBoost(FactsOf(p, a.e, a.habits), a.tuning);
            var score := FinalScore(HardOverride(q, sub), w, sub, boost, p.challengeSolved, p.ewma, a.gain);
            var decision := PolicyDecision(q, sub, MakeDecision(score));
            var s := Alone(p, a, w);
            && s.p == Updated(q, a.e, score, decision)
            && |s.commits| == 1 && s.commits[0].score == score && s.commits[0].decision == decision
  {
  }

  method BoostOf(profile: IPProfile, e: Event, habits: Habits, c: BoostConfig) returns (boost: real)
    ensures boost == TrustBoost(FactsOf(profile.View(), e, habits), c)
  {
    var network := profile.network;
    boost := ComputeTrustBoost(
      BoostFacts(habits, |profile.windows.recent|, profile.totalRequests,
                 network.isTor || network.isVPN || network.isDatacenter, |network.countries|,
                 profile.previousScores, profile.wasBlocked, profile.wasChallenged, e.challengePassed), c);
  }

  /** ComputeTrustScore on the live profile: undisturbed, it is those four steps. */
  method ComputeTrustScore(profile: IPProfile, begin: Action, w: Weights) returns (score: Cents, decision: Decision)
    requires begin.Begin?
    modifies profile
    ensures var s := Alone(old(profile.View()), begin, w);
            profile.View() == s.p && |s.commits| == 1
            && score == s.commits[0].score && decision == s.commits[0].decision
  {
    ghost var p := profile.View();
    profile.CountLoginAttempt(begin.e.endpoint);
    var penalty, _ := profile.ScoreRASP();
    var sub := begin.others.(rasp := penalty);
    var boost := BoostOf(profile, begin.e, begin.habits, begin.tuning);
    var solved, tier1 := profile.challengeSolved, profile.ewma;
    var override := profile.CheckHardOverrides(sub);
    score := ComputeFinalScore(override, w, sub, boost, solved, tier1, begin.gain);
    decision := profile.ApplyPolicyOverrides(sub, MakeDecision(score));
    profile.Update(begin.e, score, decision);
    AloneIs(p, begin, w);
  }

  /** A scoring that has its override answer and has not been committed yet. */
  predicate PastCheck(r: Scoring) {
    !r.Read?
  }

  // ---------- a decision is the one its override check called for ----------

  /** The score and decision that an override, if the check found one, leads to. */
  predicate Obeys(seen: Profile, sub: SubScores, score: Cents, decision: Decision) {
    match HardOverride(seen, sub)
    case None => true
    case Some(v) => (score == v || score == v + 15) && decision == MakeDecision(score)
  }

  predicate ScoringObeys(r: Scoring) {
    match r
    case Read(_, _, _, _, _, _, _) => true
    case Checked(_, sub, _, _, _, _, _, override, seen, _) => override == HardOverride(seen, sub)
    case Decided(_, sub, score, decision, seen, _) => Obeys(seen, sub, score, decision)
  }

  predicate AllObey(s: State) {
    && (forall id :: id in s.running ==> ScoringObeys(s.running[id]))
    && (forall i :: 0 <= i < |s.commits| ==>
          Obeys(s.commits[i].seen, s.commits[i].sub, s.commits[i].score, s.commits[i].decision))
  }

  lemma OverridesAreStrict(p: Profile, sub: SubScores)
    ensures HardOverride(p, sub).Some? ==> HardOverride(p, sub).value <= 400
  {
  }

  lemma DecideObeys(p: Profile, r: Scoring, w: Weights)
    requires r.Checked? && ScoringObeys(r)
    ensures ScoringObeys(DecideScoring(p, r, w))
  {
    OverridesAreStrict(r.seen, r.sub);
    if r.override.Some? {
      OverrideScore(r.override.value, w, r.sub, TrustBoost(r.facts, r.tuning), r.solved, r.ewma, r.gain);
    }
  }

  lemma StepObeys(s: State, a: Action)
    requires AllObey(s)
    ensures AllObey(Step(s, a))
  {
    if a.Decide? && a.id in s.running && s.running[a.id].Checked? {
      DecideObeys(s.p, s.running[a.id], a.w);
    }
  }

  lemma {:induction false} RunObeys(s: State, acts: seq<Action>)
    requires AllObey(s)
    ensures AllObey(Run(s, acts))
  {
    if acts != [] {
      RunObeys(s, acts[..|acts| - 1]);
      StepObeys(Run(s, acts[..|acts| - 1]), acts[|acts| - 1]);
    }
  }

  // ---------- evidence only accumulates ----------

  /** Everything incriminating in p is still in q. */
  predicate Remembers(q: Profile, p: Profile) {
    && |q.sensitiveHits| >= |p.sensitiveHits|
    && (p.confirmedExploit ==> q.confirmedExploit)
    && (p.wasBlocked ==> q.wasBlocked)
  }

  /** Since time t0, when the profile was p0: no check that ran later saw less than p0. */
  predicate Informed(s: State, p0: Profile, t0: nat) {
    && s.clock >= t0
    && Remembers(s.p, p0)
    && (forall id :: id in s.running && PastCheck(s.running[id]) && s.running[id].checkedAt >= t0
          ==> Remembers(s.running[id].seen, p0))
    && (forall i :: 0 <= i < |s.commits| && s.commits[i].checkedAt >= t0 ==> Remembers(s.commits[i].seen, p0))
  }

  predicate ClockOk(s: State) {
    && (forall id :: id in s.running && PastCheck(s.running[id]) ==> s.running[id].checkedAt < s.clock)
    && (forall i :: 0 <= i < |s.commits| ==> s.commits[i].checkedAt < s.clock)
  }

  lemma StepInformed(s: State, a: Action, p0: Profile, t0: nat)
    requires Informed(s, p0, t0)
    ensures Informed(Step(s, a), p0, t0)
  {
  }

  lemma {:induction false} RunInformed(s: State, acts: seq<Action>, p0: Profile, t0: nat)
    requires Informed(s, p0, t0)
    ensures Informed(Run(s, acts), p0, t0)
  {
    if acts != [] {
      RunInformed(s, acts[..|acts| - 1], p0, t0);
      StepInformed(Run(s, acts[..|acts| - 1]), acts[|acts| - 1], p0, t0);
    }
  }

  lemma StepClock(s: State, a: Action)
    requires ClockOk(s)
    ensures ClockOk(Step(s, a))
  {
  }

  lemma {:induction false} RunClock(acts: seq<Action>)
    ensures ClockOk(Run(INIT, acts)) && AllObey(Run(INIT, acts))
  {
    if acts != [] {
      RunClock(acts[..|acts| - 1]);
      StepClock(Run(INIT, acts[..|acts| - 1]), acts[|acts| - 1]);
      StepObeys(Run(INIT, acts[..|acts| - 1]), acts[|acts| - 1]);
    }
  }

  /** Sensitive-path hits on file hold every scoring whose check comes later, for the rest of
      the profile's life. */
  lemma HitsOnFileHold(before: seq<Action>, s1: State, later: seq<Action>, c: Commit)
    requires s1 == Run(INIT, before) && |s1.p.sensitiveHits| >= 1
    requires c in Run(s1, later).commits && c.checkedAt >= s1.clock
    ensures c.score <= 415 && !Lenient(c.decision)
    ensures |s1.p.sensitiveHits| >= 3 && !c.seen.network.isTor ==> c.score <= 215 && Refusing(c.decision)
  {
    RunClock(before);
    RunInformed(s1, later, s1.p, s1.clock);
    RunObeys(s1, later);
    SensitiveHitForcesOverride(c.seen, c.sub);
    if |c.seen.sensitiveHits| >= 3 {
      ThreeSensitiveHits(c.seen, c.sub);
    }
  }

  // ---------- after a CRITICAL hit ----------

  /** The scorings that had passed their override check when time t0 came. */
  function Stale(s: State, t0: nat): set<nat> {
    set id | id in s.running && PastCheck(s.running[id]) && s.running[id].checkedAt < t0
  }

  function NonBans(cs: seq<Commit>): nat {
    if cs == [] then 0
    else NonBans(cs[..|cs| - 1]) + if cs[|cs| - 1].decision.Ban? then 0 else 1
  }

  function Since(s: State, s0: State): seq<Commit>
    requires |s0.commits| <= |s.commits|
  {
    s.commits[|s0.commits|..]
  }

  /** At or after the hit that landed in s0: what every later check knows. */
  predicate HitKnown(s: State, s0: State) {
    Informed(s, WithRaspHit(s0.p, SEV_CRITICAL), s0.clock + 1) && AllObey(s)
  }

  /** ... and the books: overtaken scorings still running plus non-bans committed since. */
  predicate HitCounted(s: State, s0: State) {
    && |s0.commits| <= |s.commits|
    && NonBans(Since(s, s0)) + |Stale(s, s0.clock + 1)| <= |Stale(s0, s0.clock + 1)|
  }

  predicate LatestIsStale(s: State, s0: State) {
    |s.commits| > |s0.commits| && s.commits[|s.commits| - 1].checkedAt <= s0.clock
  }

  predicate LastScoreLow(s: State, s0: State) {
    && |s0.commits| <= |s.commits| && s.p.previousScores != []
    && (IPScore(s.p) <= 15 || LatestIsStale(s, s0))
  }

  lemma ExploitObeys(seen: Profile, sub: SubScores, score: Cents, decision: Decision)
    requires seen.confirmedExploit && Obeys(seen, sub, score, decision)
    ensures score <= 15 && decision.Ban?
  {
  }

  predicate Commits(s: State, a: Action) {
    a.Finish? && a.id in s.running && s.running[a.id].Decided?
  }

  lemma StepStale(s: State, a: Action, t0: nat)
    requires s.clock >= t0
    ensures Stale(Step(s, a), t0) == if Commits(s, a) then Stale(s, t0) - {a.id} else Stale(s, t0)
  {
  }

  /** A commit checked since the hit obeys it. */
  lemma LateCommitBans(s: State, id: nat, s0: State)
    requires HitKnown(s, s0) && id in s.running && s.running[id].Decided? && s.running[id].checkedAt > s0.clock
    ensures s.running[id].score <= 15 && s.running[id].decision.Ban?
  {
    var r := s.running[id];
    assert ScoringObeys(r) && Remembers(r.seen, WithRaspHit(s0.p, SEV_CRITICAL));
    ExploitObeys(r.seen, r.sub, r.score, r.decision);
  }

  lemma CommitAppends(s: State, a: Action, s0: State)
    requires Commits(s, a) && |s0.commits| <= |s.commits|
    ensures var t := Step(s, a);
            |s0.commits| <= |t.commits|
            && NonBans(Since(t, s0)) == NonBans(Since(s, s0)) + if s.running[a.id].decision.Ban? then 0 else 1
  {
    var t := Step(s, a);
    assert Since(t, s0)[..|Since(t, s0)| - 1] == Since(s, s0);
  }

  lemma StepCounted(s: State, a: Action, s0: State)
    requires HitKnown(s, s0) && HitCounted(s, s0)
    ensures HitCounted(Step(s, a), s0)
  {
    StepStale(s, a, s0.clock + 1);
    if Commits(s, a) {
      CommitAppends(s, a, s0);
      if s.running[a.id].checkedAt <= s0.clock {
        assert a.id in Stale(s, s0.clock + 1);
      } else {
        LateCommitBans(s, a.id, s0);
      }
    } else {
      assert Step(s, a).commits == s.commits;
    }
  }

  lemma HistoryMoves(s: State, a: Action)
    ensures var t := Step(s, a);
            if Commits(s, a) then
              && t.p.previousScores == PushScore(s.p.previousScores, s.running[a.id].score)
              && |t.commits| == |s.commits| + 1
              && t.commits[|s.commits|].checkedAt == s.running[a.id].checkedAt
            else
              && t.commits == s.commits
              && (t.p.previousScores == s.p.previousScores || t.p.previousScores == s.p.previousScores + [0])
  {
  }

  /** The score on top is the pushed one. */
  lemma PushedLast(previous: seq<Cents>, score: Cents)
    ensures var scores := PushScore(previous, score);
            scores != [] && scores[|scores| - 1] == score
  {
  }

  lemma LastScoreMoves(s: State, a: Action, s0: State)
    requires LastScoreLow(s, s0)
    requires Commits(s, a) && s.running[a.id].checkedAt > s0.clock ==> s.running[a.id].score <= 15
    ensures LastScoreLow(Step(s, a), s0)
  {
    HistoryMoves(s, a);
    if Commits(s, a) {
      PushedLast(s.p.previousScores, s.running[a.id].score);
    }
  }

  lemma StepLastScore(s: State, a: Action, s0: State)
    requires HitKnown(s, s0) && LastScoreLow(s, s0)
    ensures LastScoreLow(Step(s, a), s0)
  {
    if Commits(s, a) && s.running[a.id].checkedAt > s0.clock {
      LateCommitBans(s, a.id, s0);
    }
    LastScoreMoves(s, a, s0);
  }

  lemma {:induction false} RunAfterHit(s: State, acts: seq<Action>, s0: State)
    requires HitKnown(s, s0) && HitCounted(s, s0) && LastScoreLow(s, s0)
    ensures HitKnown(Run(s, acts), s0) && HitCounted(Run(s, acts), s0) && LastScoreLow(Run(s, acts), s0)
  {
    if acts != [] {
      var m := Run(s, acts[..|acts| - 1]);
      var a := acts[|acts| - 1];
      RunAfterHit(s, acts[..|acts| - 1], s0);
      StepInformed(m, a, WithRaspHit(s0.p, SEV_CRITICAL), s0.clock + 1);
      StepObeys(m, a);
      StepCounted(m, a, s0);
      StepLastScore(m, a, s0);
    }
  }

  /** The state right after the hit. */
  lemma HitLands(before: seq<Action>, s0: State, s1: State)
    requires s0 == Run(INIT, before)
    requires s1 == Step(s0, RaspHit(SEV_CRITICAL))
    ensures HitKnown(s1, s0) && HitCounted(s1, s0) && LastScoreLow(s1, s0)
    ensures s1.clock == s0.clock + 1 && s1.commits == s0.commits
    ensures Stale(s1, s0.clock + 1) == Stale(s0, s0.clock + 1) == Stale(s0, s0.clock)
  {
    RunClock(before);
    StepObeys(s0, RaspHit(SEV_CRITICAL));
    assert Since(s1, s0) == [];
    assert Stale(s0, s0.clock + 1) == Stale(s0, s0.clock);
    assert Stale(s1, s0.clock + 1) == Stale(s0, s0.clock + 1);
  }

  /** Every commit whose check ran after the hit is a ban at 0.15 or less. */
  predicate LateCommitsBan(s: State, s0: State) {
    forall i :: |s0.commits| <= i < |s.commits| && s.commits[i].checkedAt > s0.clock
      ==> s.commits[i].score <= 15 && s.commits[i].decision.Ban?
  }

  lemma KnownHitBansLateCommits(s: State, s0: State)
    requires HitKnown(s, s0)
    ensures LateCommitsBan(s, s0)
  {
    forall i | |s0.commits| <= i < |s.commits| && s.commits[i].checkedAt > s0.clock
      ensures s.commits[i].score <= 15 && s.commits[i].decision.Ban?
    {
      ExploitObeys(s.commits[i].seen, s.commits[i].sub, s.commits[i].score, s.commits[i].decision);
    }
  }

  lemma KnownHitGatekeeper(s: State, s0: State, user: Option<UserStanding>)
    requires HitKnown(s, s0) && LastScoreLow(s, s0)
    ensures s.p.confirmedExploit && s.p.wasBlocked && !Lenient(Gatekeeper(s.p, user))
    ensures !LatestIsStale(s, s0) ==> Gatekeeper(s.p, None).Ban?
  {
    EverBlockedIsNeverLenient(s.p, user);
  }

  /** The whole safety statement for a confirmed exploit, in every interleaving: the flags
      never clear; a scoring that checks later commits at most 0.15 with "ban"; at most the
      scorings already past their check commit anything else; the gatekeeper is never
      lenient again, for any user; and for anonymous callers it says "ban" unless the most
      recent commit came from such an overtaken scoring. */
  lemma CriticalHitIsForever(before: seq<Action>, s0: State, later: seq<Action>, s: State, user: Option<UserStanding>)
    requires s0 == Run(INIT, before)
    requires s == Run(Step(s0, RaspHit(SEV_CRITICAL)), later)
    ensures s.p.confirmedExploit && s.p.wasBlocked
    ensures |s0.commits| <= |s.commits| && LateCommitsBan(s, s0)
    ensures NonBans(Since(s, s0)) <= |Stale(s0, s0.clock)|
    ensures !Lenient(Gatekeeper(s.p, user))
    ensures !LatestIsStale(s, s0) ==> Gatekeeper(s.p, None).Ban?
  {
    var s1 := Step(s0, RaspHit(SEV_CRITICAL));
    HitLands(before, s0, s1);
    RunAfterHit(s1, later, s0);
    KnownHitBansLateCommits(s, s0);
    KnownHitGatekeeper(s, s0, user);
  }

  /** With nothing past its check when the hit lands, an anonymous caller is banned for
      as long as the profile lives. */
  lemma CriticalHitBansWhenQuiet(before: seq<Action>, s0: State, later: seq<Action>, s: State)
    requires s0 == Run(INIT, before)
    requires s == Run(Step(s0, RaspHit(SEV_CRITICAL)), later)
    requires Stale(s0, s0.clock) == {}
    ensures Gatekeeper(s.p, None).Ban?
  {
    var s1 := Step(s0, RaspHit(SEV_CRITICAL));
    HitLands(before, s0, s1);
    RunOnlyLate(s1, later, s0);
    CriticalHitIsForever(before, s0, later, s, None);
  }

  /** Nothing stale is running, and nothing stale was committed since s0. */
  predicate OnlyLate(s: State, s0: State) {
    && s.clock > s0.clock && |s0.commits| <= |s.commits|
    && Stale(s, s0.clock + 1) == {}
    && (forall i :: |s0.commits| <= i < |s.commits| ==> s.commits[i].checkedAt > s0.clock)
  }

  lemma StepOnlyLate(s: State, a: Action, s0: State)
    requires OnlyLate(s, s0)
    ensures OnlyLate(Step(s, a), s0)
  {
    StepStale(s, a, s0.clock + 1);
    if Commits(s, a) {
      assert a.id !in Stale(s, s0.clock + 1);
    }
  }

  lemma {:induction false} RunOnlyLate(s: State, acts: seq<Action>, s0: State)
    requires OnlyLate(s, s0)
    ensures OnlyLate(Run(s, acts), s0)
  {
    if acts != [] {
      RunOnlyLate(s, acts[..|acts| - 1], s0);
      StepOnlyLate(Run(s, acts[..|acts| - 1]), acts[|acts| - 1], s0);
    }
  }

  // ---------- bounds on what a profile can hold ----------

  function Criticals(acts: seq<Action>): nat {
    if acts == [] then 0
    else Criticals(acts[..|acts| - 1]) + if acts[|acts| - 1] == RaspHit(SEV_CRITICAL) then 1 else 0
  }

  predicate Bounded(p: Profile, criticals: nat) {
    && 0.0 <= p.ewma <= 1.0
    && |p.raspHits| <= MAX_RASP_HITS && |p.corrections| <= MAX_CORRECTIONS
    && |p.previousScores| <= MAX_PREVIOUS_SCORES + criticals
  }

  lemma StepBounded(s: State, a: Action, criticals: nat)
    requires Bounded(s.p, criticals)
    ensures Bounded(Step(s, a).p, criticals + if a == RaspHit(SEV_CRITICAL) then 1 else 0)
  {
  }

  /** In every reachable state the Tier 1 score is a fraction, the two logs are capped, and
      only CRITICAL hits can push the score history past ten. */
  lemma {:induction false} ProfileStaysBounded(acts: seq<Action>)
    ensures Bounded(Run(INIT, acts).p, Criticals(acts))
  {
    if acts != [] {
      ProfileStaysBounded(acts[..|acts| - 1]);
      StepBounded(Run(INIT, acts[..|acts| - 1]), acts[|acts| - 1], Criticals(acts[..|acts| - 1]));
    }
  }

  // ---------- a passed challenge ----------

  /** A running scoring holds a Tier 1 score in range and knows whether its event passed a
      challenge. */
  predicate Captured(r: Scoring) {
    !r.Decided? ==> 0.0 <= r.ewma <= 1.0 && r.facts.challengePassed == r.e.challengePassed
  }

  predicate AllCaptured(s: State) {
    && 0.0 <= s.p.ewma <= 1.0
    && (forall id :: id in s.running ==> Captured(s.running[id]))
  }

  lemma StepCaptured(s: State, a: Action)
    requires AllCaptured(s)
    ensures AllCaptured(Step(s, a))
  {
  }

  lemma {:induction false} RunCaptured(acts: seq<Action>)
    ensures AllCaptured(Run(INIT, acts))
  {
    if acts != [] {
      RunCaptured(acts[..|acts| - 1]);
      StepCaptured(Run(INIT, acts[..|acts| - 1]), acts[|acts| - 1]);
    }
  }

  /** In every reachable state, under the shipped weights and gain: a scoring whose event
      passed a challenge, and that found no override, decides on 7.00 or more, and whatever
      the policy layer makes of the profile by then, it does not refuse. */
  lemma PassedChallengeIsNeverRefused(acts: seq<Action>, id: nat)
    requires var s := Run(INIT, acts);
             && id in s.running && s.running[id].Checked? && s.running[id].override.None?
             && s.running[id].e.challengePassed && s.running[id].sub.Valid() && s.running[id].gain == DEFAULT_GAIN
    ensures var s := Run(INIT, acts);
            var r := DecideScoring(s.p, s.running[id], DEFAULT_WEIGHTS);
            r.score >= 700 && !Refusing(r.decision)
  {
    RunCaptured(acts);
    var s := Run(INIT, acts);
    var r := s.running[id];
    assert Captured(r);
    PassedChallengeScoresSeven(r.sub, TrustBoost(r.facts, r.tuning), r.solved, r.ewma);
    var score := FinalScore(None, DEFAULT_WEIGHTS, r.sub, TrustBoost(r.facts, r.tuning), r.solved, r.ewma, r.gain);
    PolicyOnlyEscalates(s.p, r.sub, MakeDecision(score));
  }

  // ---------- the timestamp lists against the full history ----------

  function CommitTimes(cs: seq<Commit>): seq<real> {
    if cs == [] then [] else CommitTimes(cs[..|cs| - 1]) + [cs[|cs| - 1].e.timestamp]
  }

  function PathTimes(cs: seq<Commit>, path: string): seq<real> {
    if cs == [] then []
    else PathTimes(cs[..|cs| - 1], path)
         + if cs[|cs| - 1].e.path == path then [cs[|cs| - 1].e.timestamp] else []
  }

  ghost predicate WindowsMatch(s: State) {
    && s.p.windows.recent == TimeWindow.Recorded(CommitTimes(s.commits), 60.0)
    && s.p.windows.burst == TimeWindow.Recorded(CommitTimes(s.commits), 1.0)
    && (forall path :: Times(s.p.windows, path) == TimeWindow.Recorded(PathTimes(s.commits, path), 60.0))
  }

  lemma RecordedAppend(history: seq<real>, now: real, window: real)
    ensures TimeWindow.Recorded(history + [now], window)
            == TimeWindow.Within(TimeWindow.Recorded(history, window) + [now], now, window)
  {
    assert (history + [now])[..|history|] == history;
  }

  lemma FinishWindows(s: State, id: nat)
    requires WindowsMatch(s) && id in s.running && s.running[id].Decided?
    ensures WindowsMatch(Step(s, Finish(id)))
  {
    var t := Step(s, Finish(id));
    var e := s.running[id].e;
    assert t.commits[..|t.commits| - 1] == s.commits;
    assert t.p.windows == Appended(s.p.windows, e.path, e.timestamp);
    RecordedAppend(CommitTimes(s.commits), e.timestamp, 60.0);
    RecordedAppend(CommitTimes(s.commits), e.timestamp, 1.0);
    forall path
      ensures Times(t.p.windows, path) == TimeWindow.Recorded(PathTimes(t.commits, path), 60.0)
    {
      if path == e.path {
        RecordedAppend(PathTimes(s.commits, path), e.timestamp, 60.0);
      } else {
        assert PathTimes(t.commits, path) == PathTimes(s.commits, path);
        assert Times(t.p.windows, path) == Times(s.p.windows, path);
      }
    }
  }

  /** In every reachable state the three kinds of list are exactly what trimming on every
      commit leaves of the complete commit history. */
  lemma {:induction false} WindowsMatchHistory(acts: seq<Action>)
    ensures WindowsMatch(Run(INIT, acts))
  {
    if acts != [] {
      var s := Run(INIT, acts[..|acts| - 1]);
      var a := acts[|acts| - 1];
      WindowsMatchHistory(acts[..|acts| - 1]);
      if a.Finish? && a.id in s.running && s.running[a.id].Decided? {
        FinishWindows(s, a.id);
      } else {
        assert Step(s, a).p.windows == s.p.windows && Step(s, a).commits == s.commits;
      }
    }
  }

  /** So a per-path count over at most sixty seconds, asked at or after the path's last
      event, is the count over the path's complete history. */
  lemma PathCountsAreExact(acts: seq<Action>, path: string, window: real, now: real)
    requires var h := PathTimes(Run(INIT, acts).commits, path);
             h != [] && TimeWindow.NonDecreasing(h) && h[|h| - 1] <= now
    requires window <= 60.0
    ensures var s := Run(INIT, acts);
            TimeWindow.Within(Times(s.p.windows, path), now, window)
            == TimeWindow.Within(PathTimes(s.commits, path), now, window)
  {
    WindowsMatchHistory(acts);
    TimeWindow.ShortCountsAreExact(PathTimes(Run(INIT, acts).commits, path), 60.0, window, now);
  }
}
