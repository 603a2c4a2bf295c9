/** What an IP profile knows, against everything that ever happened to it: each counter, set,
    flag and list is a function of the run, in every interleaving. */
module IPHistory {
  import opened Scores
  import opened Fusion
  import opened FusionLaws
  import opened IPProfiles
  import opened IPInterleaving
  import TimeWindow

  // ---------- what the commits leave ----------

  function SensitiveCommits(cs: seq<Commit>): nat {
    if cs == [] then 0
    else SensitiveCommits(cs[..|cs| - 1]) + if cs[|cs| - 1].e.sensitive then 1 else 0
  }

  function CountriesOf(cs: seq<Commit>): set<string> {
    set i | 0 <= i < |cs| :: cs[i].e.country
  }

  predicate SomeRefused(cs: seq<Commit>) {
    exists i :: 0 <= i < |cs| && Refusing(cs[i].decision)
  }

  predicate SomeChallenged(cs: seq<Commit>) {
    exists i :: 0 <= i < |cs| && cs[i].decision.Challenge?
  }

  /** The last request's time and network. */
  predicate LastRequestOnFile(p: Profile, cs: seq<Commit>) {
    if cs == [] then p.lastSeen == 0.0 && !p.network.isTor && !p.network.isVPN && !p.network.isDatacenter
    else
      var e := cs[|cs| - 1].e;
      && p.lastSeen == e.timestamp && p.network.isTor == e.isTor
      && p.network.isVPN == e.isVPN && p.network.isDatacenter == e.isDatacenter
  }

  predicate CommitsOnFile(p: Profile, cs: seq<Commit>) {
    && p.totalRequests == |cs| && |p.sensitiveHits| == SensitiveCommits(cs)
    && p.network.countries == CountriesOf(cs)
    && (p.wasChallenged <==> SomeChallenged(cs))
    && LastRequestOnFile(p, cs)
  }

  lemma CountriesGrow(cs: seq<Commit>, c: Commit)
    ensures CountriesOf(cs + [c]) == CountriesOf(cs) + {c.e.country}
  {
    forall x | x in CountriesOf(cs) + {c.e.country}
      ensures x in CountriesOf(cs + [c])
    {
      if x in CountriesOf(cs) {
        var i :| 0 <= i < |cs| && cs[i].e.country == x;
        assert (cs + [c])[i] == cs[i];
      } else {
        assert (cs + [c])[|cs|] == c;
      }
    }
  }

  lemma VerdictsGrow(cs: seq<Commit>, c: Commit)
    ensures SomeRefused(cs + [c]) <==> SomeRefused(cs) || Refusing(c.decision)
    ensures SomeChallenged(cs + [c]) <==> SomeChallenged(cs) || c.decision.Challenge?
  {
    assert (cs + [c])[|cs|] == c;
    assert forall i :: 0 <= i < |cs| ==> (cs + [c])[i] == cs[i];
  }

  /** The profile part of a commit. */
  lemma CommitFiles(p: Profile, cs: seq<Commit>, c: Commit)
    requires CommitsOnFile(p, cs)
    ensures CommitsOnFile(Updated(p, c.e, c.score, c.decision), cs + [c])
  {
    CountriesGrow(cs, c);
    VerdictsGrow(cs, c);
    assert (cs + [c])[..|cs|] == cs;
  }

  /** The commit that finishes a decided scoring. */
  function CommitOf(r: Scoring): Commit
    requires r.Decided?
  {
    Commit(r.e, r.sub, r.score, r.decision, r.seen, r.checkedAt)
  }

  /** A commit files its own event; nothing else touches what commits file. */
  lemma StepFiles(s: State, a: Action)
    ensures var t := Step(s, a);
            if Commits(s, a) then
              var c := CommitOf(s.running[a.id]);
              t.p == Updated(s.p, c.e, c.score, c.decision) && t.commits == s.commits + [c]
            else
              && t.commits == s.commits && t.p.totalRequests == s.p.totalRequests
              && t.p.sensitiveHits == s.p.sensitiveHits && t.p.network == s.p.network
              && t.p.wasChallenged == s.p.wasChallenged && t.p.lastSeen == s.p.lastSeen
  {
  }

  /** In every reachable state the request count, the number of sensitive-path hits, the
      countries, the last request's time and network, and the challenged flag are those of
      the complete commit history. */
  lemma {:induction false} ProfileRemembersCommits(acts: seq<Action>)
    ensures CommitsOnFile(Run(INIT, acts).p, Run(INIT, acts).commits)
  {
    if acts != [] {
      var s := Run(INIT, acts[..|acts| - 1]);
      var a := acts[|acts| - 1];
      ProfileRemembersCommits(acts[..|acts| - 1]);
      StepFiles(s, a);
      if Commits(s, a) {
        CommitFiles(s.p, s.commits, CommitOf(s.running[a.id]));
      }
    }
  }

  lemma {:induction false} SensitiveCommitCounts(cs: seq<Commit>, i: nat)
    requires i < |cs| && cs[i].e.sensitive
    ensures SensitiveCommits(cs) >= 1
  {
    if i < |cs| - 1 {
      SensitiveCommitCounts(cs[..|cs| - 1], i);
    }
  }

  /** Once one request to a sensitive path has been committed, every scoring whose check comes
      later commits at most 4.15 and is never lenient; after three such requests, and off Tor,
      at most 2.15, and it refuses; whatever else happens, for the rest of the profile's
      life. */
  lemma SensitiveHitsAreNeverForgiven(before: seq<Action>, s1: State, i: nat, later: seq<Action>, c: Commit)
    requires s1 == Run(INIT, before) && i < |s1.commits| && s1.commits[i].e.sensitive
    requires c in Run(s1, later).commits && c.checkedAt >= s1.clock
    ensures c.score <= 415 && !Lenient(c.decision)
    ensures SensitiveCommits(s1.commits) >= 3 && !c.seen.network.isTor ==> c.score <= 215 && Refusing(c.decision)
  {
    ProfileRemembersCommits(before);
    SensitiveCommitCounts(s1.commits, i);
    HitsOnFileHold(before, s1, later, c);
  }

  // ---------- what attempts leave ----------

  /** How often an attempt of this kind was made since the last commit whose event passed a
      challenge: scorings count it when they begin. */
  function AttemptsSince(acts: seq<Action>, kind: Endpoint): nat {
    if acts == [] then 0
    else
      var s, a := Run(INIT, acts[..|acts| - 1]), acts[|acts| - 1];
      var before := AttemptsSince(acts[..|acts| - 1], kind);
      if a.Begin? && a.id !in s.running && a.e.endpoint == kind then before + 1
      else if Commits(s, a) && s.running[a.id].e.challengePassed then 0
      else before
  }

  lemma StepAttempts(s: State, a: Action)
    ensures Step(s, a).p.attempts
            == if a.Begin? && a.id !in s.running then CountAttempt(s.p.attempts, a.e.endpoint)
               else if Commits(s, a) && s.running[a.id].e.challengePassed then NO_ATTEMPTS
               else s.p.attempts
  {
  }

  /** The three attempt counters in every reachable state. */
  lemma {:induction false} AttemptsAreCounted(acts: seq<Action>)
    ensures var attempts := Run(INIT, acts).p.attempts;
            && attempts.login == AttemptsSince(acts, Login)
            && attempts.reset == AttemptsSince(acts, PasswordReset)
            && attempts.registration == AttemptsSince(acts, Registration)
  {
    if acts != [] {
      AttemptsAreCounted(acts[..|acts| - 1]);
      StepAttempts(Run(INIT, acts[..|acts| - 1]), acts[|acts| - 1]);
    }
  }

  // ---------- what hits, verdicts and corrections leave ----------

  /** The last n of a list, or all of it. */
  function Last<T>(xs: seq<T>, n: nat): seq<T> {
    if |xs| <= n then xs else xs[|xs| - n..]
  }

  lemma KeepsLast<T>(xs: seq<T>, x: T, n: nat)
    requires n > 0
    ensures KeepLast(Last(xs, n), x, n) == Last(xs + [x], n)
  {
    if |xs| >= n {
      assert Last(xs, n) == xs[|xs| - n..];
      assert xs[|xs| - n..][1..] + [x] == (xs + [x])[|xs| + 1 - n..];
    }
  }

  function HitsOf(acts: seq<Action>): seq<Severity> {
    if acts == [] then []
    else HitsOf(acts[..|acts| - 1]) + if acts[|acts| - 1].RaspHit? then [acts[|acts| - 1].severity] else []
  }

  function DeltasOf(acts: seq<Action>): seq<real> {
    if acts == [] then []
    else DeltasOf(acts[..|acts| - 1]) + if acts[|acts| - 1].Correct? then [acts[|acts| - 1].delta] else []
  }

  predicate LogsMatch(p: Profile, acts: seq<Action>, cs: seq<Commit>) {
    && p.raspHits == Last(HitsOf(acts), MAX_RASP_HITS)
    && p.corrections == Last(DeltasOf(acts), MAX_CORRECTIONS)
    && (p.confirmedExploit <==> SEV_CRITICAL in HitsOf(acts))
    && (p.wasBlocked <==> SomeRefused(cs) || SEV_CRITICAL in HitsOf(acts))
  }

  lemma StepLogs(s: State, a: Action)
    ensures var t := Step(s, a);
            && t.p.raspHits == (if a.RaspHit? then KeepLast(s.p.raspHits, a.severity, MAX_RASP_HITS) else s.p.raspHits)
            && t.p.corrections == (if a.Correct? then KeepLast(s.p.corrections, a.delta, MAX_CORRECTIONS) else s.p.corrections)
            && t.p.confirmedExploit == (s.p.confirmedExploit || a == RaspHit(SEV_CRITICAL))
            && t.p.wasBlocked == (s.p.wasBlocked || a == RaspHit(SEV_CRITICAL)
                                  || (Commits(s, a) && Refusing(s.running[a.id].decision)))
            && t.commits == (if Commits(s, a) then s.commits + [CommitOf(s.running[a.id])] else s.commits)
  {
  }

  /** The hit and correction logs are the last hundred, the exploit flag says whether a
      CRITICAL hit ever came, and the blocked flag whether one did or some commit refused. */
  lemma {:induction false} ProfileRemembersHits(acts: seq<Action>)
    ensures LogsMatch(Run(INIT, acts).p, acts, Run(INIT, acts).commits)
  {
    if acts != [] {
      var front := acts[..|acts| - 1];
      var a := acts[|acts| - 1];
      var s := Run(INIT, front);
      ProfileRemembersHits(front);
      StepLogs(s, a);
      if a.RaspHit? {
        KeepsLast(HitsOf(front), a.severity, MAX_RASP_HITS);
      } else if a.Correct? {
        KeepsLast(DeltasOf(front), a.delta, MAX_CORRECTIONS);
      } else if Commits(s, a) {
        VerdictsGrow(s.commits, CommitOf(s.running[a.id]));
      }
    }
  }

  /** Every score that was decided, and a zero for every CRITICAL hit, in order. */
  function ScoresOf(acts: seq<Action>): seq<Cents> {
    if acts == [] then []
    else
      var s, a := Run(INIT, acts[..|acts| - 1]), acts[|acts| - 1];
      ScoresOf(acts[..|acts| - 1])
      + if Commits(s, a) then [s.running[a.id].score] else if a == RaspHit(SEV_CRITICAL) then [0] else []
  }

  /** The end of the list, with at least the last ten of it. */
  predicate RecentScores(previous: seq<Cents>, all: seq<Cents>) {
    && |previous| <= |all| && previous == all[|all| - |previous|..]
    && (|previous| >= MAX_PREVIOUS_SCORES || |previous| == |all|)
  }

  lemma PushedRecent(previous: seq<Cents>, all: seq<Cents>, score: Cents)
    requires RecentScores(previous, all)
    ensures RecentScores(PushScore(previous, score), all + [score])
    ensures RecentScores(previous + [score], all + [score])
  {
    var n := |all| - |previous|;
    assert (all + [score])[n..] == previous + [score];
    if |previous| >= MAX_PREVIOUS_SCORES {
      assert (all + [score])[n + 1..] == previous[1..] + [score];
    }
  }

  lemma StepScores(s: State, a: Action)
    ensures Step(s, a).p.previousScores
            == if Commits(s, a) then PushScore(s.p.previousScores, s.running[a.id].score)
               else if a == RaspHit(SEV_CRITICAL) then s.p.previousScores + [0]
               else s.p.previousScores
  {
  }

  /** The score history is the end of what was decided, at least the last ten. */
  lemma {:induction false} ScoreHistoryIsRecent(acts: seq<Action>)
    ensures RecentScores(Run(INIT, acts).p.previousScores, ScoresOf(acts))
  {
    if acts != [] {
      var front := acts[..|acts| - 1];
      ScoreHistoryIsRecent(front);
      StepScores(Run(INIT, front), acts[|acts| - 1]);
      var previous := Run(INIT, front).p.previousScores;
      if Commits(Run(INIT, front), acts[|acts| - 1]) {
        PushedRecent(previous, ScoresOf(front), Run(INIT, front).running[acts[|acts| - 1].id].score);
      } else if acts[|acts| - 1] == RaspHit(SEV_CRITICAL) {
        PushedRecent(previous, ScoresOf(front), 0);
      }
    }
  }

  // ---------- what a scoring sees of it ----------

  /** A scoring that begins after this run. */
  predicate Begins(acts: seq<Action>, a: Action) {
    a.Begin? && a.id !in Run(INIT, acts).running
  }

  function Begun(acts: seq<Action>, a: Action): Scoring
    requires Begins(acts, a)
    ensures Begun(acts, a).Read?
  {
    Step(Run(INIT, acts), a).running[a.id]
  }

  lemma {:induction false} CommitTimesOnFile(acts: seq<Action>)
    ensures |Run(INIT, acts).p.windows.recent|
            == |TimeWindow.Recorded(CommitTimes(Run(INIT, acts).commits), 60.0)|
  {
    WindowsMatchHistory(acts);
  }

  /** The facts behind the boost are those of the history: the number of commits, of recent
      ones and of countries, whether the last one was anonymized, and whether this event
      passed a challenge. */
  lemma FactsAreHistory(acts: seq<Action>, a: Action)
    requires Begins(acts, a)
    ensures var f, cs := Begun(acts, a).facts, Run(INIT, acts).commits;
            && f.totalRequests == |cs| && f.countries == |CountriesOf(cs)|
            && f.recent == |TimeWindow.Recorded(CommitTimes(cs), 60.0)|
            && f.challengePassed == a.e.challengePassed && f.habits == a.habits
            && (f.anonymized <==> cs != [] && (var e := cs[|cs| - 1].e; e.isTor || e.isVPN || e.isDatacenter))
  {
    ProfileRemembersCommits(acts);
    CommitTimesOnFile(acts);
  }

  lemma {:induction false} TailOfTail(previous: seq<Cents>, all: seq<Cents>, n: nat)
    requires RecentScores(previous, all) && n <= |previous|
    ensures previous[|previous| - n..] == all[|all| - n..]
  {
  }

  /** A returning clean visitor is one whom no commit ever refused or challenged, whom no
      CRITICAL hit ever named, and whose last five scores of at least three average 7.00. */
  lemma ReturningVisitorIsClean(acts: seq<Action>, a: Action)
    requires Begins(acts, a)
    ensures var cs, recent := Run(INIT, acts).commits, Last(ScoresOf(acts), 5);
            ReturningCleanVisitor(Begun(acts, a).facts)
            <==> |ScoresOf(acts)| >= 3 && !SomeRefused(cs) && !SomeChallenged(cs) && SEV_CRITICAL !in HitsOf(acts)
                 && Total(recent) as real / |recent| as real >= 700.0
  {
    ProfileRemembersCommits(acts);
    ProfileRemembersHits(acts);
    ScoreHistoryIsRecent(acts);
    SeesRecord(acts, a);
    RecentAverage(Begun(acts, a).facts, ScoresOf(acts));
  }

  /** The scores and flags behind the boost are the profile's. */
  lemma SeesRecord(acts: seq<Action>, a: Action)
    requires Begins(acts, a)
    ensures var f, p := Begun(acts, a).facts, Run(INIT, acts).p;
            f.previousScores == p.previousScores && f.wasBlocked == p.wasBlocked && f.wasChallenged == p.wasChallenged
  {
  }

  lemma RecentAverage(f: BoostFacts, all: seq<Cents>)
    requires RecentScores(f.previousScores, all)
    ensures ReturningCleanVisitor(f)
            <==> |all| >= 3 && !f.wasBlocked && !f.wasChallenged
                 && Total(Last(all, 5)) as real / |Last(all, 5)| as real >= 700.0
  {
    var previous := f.previousScores;
    if |all| >= 3 {
      var n := if |previous| > 5 then 5 else |previous|;
      TailOfTail(previous, all, n);
      assert Last(all, 5) == previous[|previous| - n..];
      AverageAtLeast(Total(Last(all, 5)), n);
    }
  }

  lemma AverageAtLeast(total: nat, n: nat)
    requires n > 0
    ensures total as real / n as real >= 700.0 <==> total >= 700 * n
  {
    var average := total as real / n as real;
    assert average * n as real == total as real;
    if average >= 700.0 {
      ProductMonotone(n as real, 700.0, average);
    } else {
      ProductGap(average, 700.0, n as real);
    }
  }

  /** Undisturbed and without an override or a Tier 1 verdict, the score is the plain one. */
  lemma ScoreAlone(p: Profile, begin: Action, w: Weights, sub: SubScores)
    requires begin.Begin? && p.ewma == NEUTRAL
    requires sub == begin.others.(rasp := RaspPenalty(MaxSeverity(p.raspHits)))
    requires HardOverride(p.(attempts := CountAttempt(p.attempts, begin.e.endpoint)), sub).None?
    ensures |Alone(p, begin, w).commits| == 1
    ensures Alone(p, begin, w).commits[0].score
            == PlainScore(w, sub, TrustBoost(FactsOf(p, begin.e, begin.habits), begin.tuning), p.challengeSolved, begin.gain)
  {
    AloneIs(p, begin, w);
  }

  /** Hits below HIGH do not change which override applies. */
  lemma MinorHitsForceNothing(p: Profile, hits: seq<Severity>, sub: SubScores)
    requires p.raspHits == [] && MaxSeverity(hits) <= SEV_MEDIUM && sub.rasp == 0.0
    ensures HardOverride(p.(raspHits := hits), sub.(rasp := RaspPenalty(MaxSeverity(hits)))) == HardOverride(p, sub)
  {
  }

  lemma ScoreAloneWith(p: Profile, hits: seq<Severity>, begin: Action, w: Weights, sub: SubScores)
    requires begin.Begin? && p.raspHits == [] && p.ewma == NEUTRAL
    requires MaxSeverity(hits) <= SEV_MEDIUM && sub == begin.others.(rasp := 0.0)
    requires HardOverride(p.(attempts := CountAttempt(p.attempts, begin.e.endpoint)), sub).None?
    ensures |Alone(p.(raspHits := hits), begin, w).commits| == 1
    ensures Alone(p.(raspHits := hits), begin, w).commits[0].score
            == PlainScore(w, sub.(rasp := RaspPenalty(MaxSeverity(hits))),
                          TrustBoost(FactsOf(p, begin.e, begin.habits), begin.tuning), p.challengeSolved, begin.gain)
  {
    var q := p.(raspHits := hits);
    var p1 := p.(attempts := CountAttempt(p.attempts, begin.e.endpoint));
    MinorHitsForceNothing(p1, hits, sub);
    assert q.(attempts := CountAttempt(q.attempts, begin.e.endpoint)) == p1.(raspHits := hits);
    ScoreAlone(q, begin, w, sub.(rasp := RaspPenalty(MaxSeverity(hits))));
  }

  lemma PlainCosts(w: Weights, sub: SubScores, cost: real, boost: real, solved: bool, gain: real)
    requires sub.rasp == 0.0
    ensures var before := PlainScore(w, sub, boost, solved, gain);
            var after := PlainScore(w, sub.(rasp := cost), boost, solved, gain);
            Inside(before, solved) && Inside(after, solved) ==> WithinOneCent((before - after) as real, 1000.0 * (w.rasp * cost))
  {
    assert Raised(sub, Rasp, cost) == sub.(rasp := cost);
    if Inside(PlainScore(w, sub, boost, solved, gain), solved)
       && Inside(PlainScore(w, Raised(sub, Rasp, cost), boost, solved, gain), solved) {
      EachModuleCounts(w, sub, Rasp, cost, boost, solved, gain);
    }
  }

  /** RASP evidence below the override counts in the score itself: hits of which the worst is
      LOW cost 200 * weight cents, and MEDIUM 450 * weight, to within one cent, against the
      same profile without hits. */
  lemma RaspEvidenceCosts(p: Profile, hits: seq<Severity>, begin: Action, w: Weights, s: State, t: State)
    requires begin.Begin? && p.raspHits == [] && p.ewma == NEUTRAL
    requires s == Alone(p, begin, w) && t == Alone(p.(raspHits := hits), begin, w)
    requires MaxSeverity(hits) == SEV_LOW || MaxSeverity(hits) == SEV_MEDIUM
    requires HardOverride(p.(attempts := CountAttempt(p.attempts, begin.e.endpoint)), begin.others.(rasp := 0.0)).None?
    ensures |s.commits| == 1 && |t.commits| == 1
    ensures Inside(s.commits[0].score, p.challengeSolved) && Inside(t.commits[0].score, p.challengeSolved)
            ==> WithinOneCent((s.commits[0].score - t.commits[0].score) as real,
                              1000.0 * (w.rasp * if MaxSeverity(hits) == SEV_LOW then 0.2 else 0.45))
  {
    var sub := begin.others.(rasp := 0.0);
    ScoreAlone(p, begin, w, sub);
    ScoreAloneWith(p, hits, begin, w, sub);
    PlainCosts(w, sub, RaspPenalty(MaxSeverity(hits)), TrustBoost(FactsOf(p, begin.e, begin.habits), begin.tuning),
               p.challengeSolved, begin.gain);
  }

  // ---------- what Tier 1 and the policy layer do to it ----------

  lemma ScoreAloneAt(p: Profile, begin: Action, w: Weights, sub: SubScores)
    requires begin.Begin? && sub == begin.others.(rasp := RaspPenalty(MaxSeverity(p.raspHits)))
    requires HardOverride(p.(attempts := CountAttempt(p.attempts, begin.e.endpoint)), sub).None?
    ensures |Alone(p, begin, w).commits| == 1
    ensures Alone(p, begin, w).commits[0].score
            == FinalScore(None, w, sub, TrustBoost(FactsOf(p, begin.e, begin.habits), begin.tuning),
                          p.challengeSolved, p.ewma, begin.gain)
  {
    AloneIs(p, begin, w);
  }

  lemma ScoreAloneNeutral(p: Profile, begin: Action, w: Weights, sub: SubScores)
    requires begin.Begin? && sub == begin.others.(rasp := RaspPenalty(MaxSeverity(p.raspHits)))
    requires HardOverride(p.(attempts := CountAttempt(p.attempts, begin.e.endpoint)), sub).None?
    ensures |Alone(p.(ewma := NEUTRAL), begin, w).commits| == 1
    ensures Alone(p.(ewma := NEUTRAL), begin, w).commits[0].score
            == PlainScore(w, sub, TrustBoost(FactsOf(p, begin.e, begin.habits), begin.tuning), p.challengeSolved, begin.gain)
  {
    ScoreAlone(p.(ewma := NEUTRAL), begin, w, sub);
  }

  /** The Tier 1 score on file reaches the next score: an undisturbed scoring without an
      override is moved by what the verdict is worth from where a neutral one would land. */
  lemma Tier1VerdictReachesScore(p: Profile, begin: Action, w: Weights, s: State, t: State)
    requires begin.Begin? && s == Alone(p.(ewma := NEUTRAL), begin, w) && t == Alone(p, begin, w)
    requires HardOverride(p.(attempts := CountAttempt(p.attempts, begin.e.endpoint)),
                          begin.others.(rasp := RaspPenalty(MaxSeverity(p.raspHits)))).None?
    ensures |s.commits| == 1 && |t.commits| == 1
    ensures MovedBy(s.commits[0].score, t.commits[0].score, Tier1Worth(p.ewma, begin.gain))
  {
    var sub := begin.others.(rasp := RaspPenalty(MaxSeverity(p.raspHits)));
    ScoreAloneAt(p, begin, w, sub);
    ScoreAloneNeutral(p, begin, w, sub);
    Tier1Counts(w, sub, TrustBoost(FactsOf(p, begin.e, begin.habits), begin.tuning), p.challengeSolved, p.ewma, begin.gain);
  }

  /** The decision of a scoring, by its score and by what the profile shows when it is made:
      a probing Tor address is not let through, and an anonymized one that ever touched a
      sensitive path is not simply allowed. */
  lemma DecisionIsPolicy(s: State, id: nat, w: Weights)
    requires id in s.running && s.running[id].Checked?
    ensures id in Step(s, Decide(id, w)).running && Step(s, Decide(id, w)).running[id].Decided?
    ensures var r := Step(s, Decide(id, w)).running[id];
            var marked := (s.p.network.isVPN || s.p.network.isDatacenter) && |s.p.sensitiveHits| > 0;
            var probing := s.p.network.isTor && s.running[id].sub.recon > 0.0;
            && (r.decision.Allow? <==> r.score >= 800 && !marked && !probing)
            && (Lenient(r.decision) <==> r.score >= 500 && (!probing || (marked && r.score >= 800)))
            && (Refusing(r.decision) <==> r.score < 300)
  {
    var r := s.running[id];
    var score := FinalScore(r.override, w, r.sub, TrustBoost(r.facts, r.tuning), r.solved, r.ewma, r.gain);
    PolicyEscalatesExactly(s.p, r.sub, MakeDecision(score));
    PolicyOnlyEscalates(s.p, r.sub, MakeDecision(score));
  }
}
