/** Every interleaving of scorings and RASP hits on one account. A scoring records the
    login, checks the overrides, commits a score, and only then reads the score back to
    decide: four steps with anything in between. */
module UserInterleaving {
  import opened Scores
  import opened Ewma
  import opened Fusion
  import opened UserProfiles
  import IPProfiles
  import Gatekeeping

  datatype Scoring =
    | Started(g: Signals)
    | Checked(g: Signals, ipDecision: Decision, raw: real, override: Option<Cents>, checkedAt: nat)
    | Committed(g: Signals, ipDecision: Decision, checkedAt: nat)

  /** What the policy rules looked at when a scoring was judged. */
  datatype Grounds = Grounds(g: Signals, ipDecision: Decision, everBlocked: bool, knowsCountries: bool)

  /** A finished scoring: when it checked, the score and decision it reported, and why. */
  datatype Report = Report(score: Cents, decision: Decision, checkedAt: nat, grounds: Grounds)

  datatype State = State(u: User, running: map<nat, Scoring>, reports: seq<Report>, clock: nat)

  const INIT := State(NEW_USER, map[], [], 0)

  /** raw is the event score of this request before smoothing; the source clamps it. */
  datatype Action =
    | Begin(id: nat, v: Visit)
    | Check(id: nat, ipDecision: Decision, raw: real)
    | Commit(id: nat)
    | Judge(id: nat)
    | RaspHit(severity: IPProfiles.Severity)

  function CommitScore(u: User, r: Scoring): User
    requires r.Checked?
  {
    match r.override
    case Some(v) => WithScore(u, v)
    case None => Blended(u, r.raw)
  }

  function JudgeScoring(u: User, r: Scoring): Decision
    requires r.Committed?
  {
    UserPolicy(u, r.g, r.ipDecision, MakeDecision(u.score))
  }

  function GroundsOf(u: User, g: Signals, ipDecision: Decision): Grounds {
    Grounds(g, ipDecision, u.everBlocked, u.knownCountries != [])
  }

  function Step(s: State, a: Action): State {
    var t := s.(clock := s.clock + 1);
    match a
    case Begin(id, v) =>
      if id in s.running then t
      else t.(u := AfterVisit(s.u, v), running := s.running[id := Started(SignalsOf(s.u, v))])
    case Check(id, ipDecision, raw) =>
      if id in s.running && s.running[id].Started? && 0.0 <= raw <= MAX_SCORE then
        var g := s.running[id].g;
        t.(running := s.running[id := Checked(g, ipDecision, raw, UserOverride(s.u, g, ipDecision), s.clock)])
      else t
    case Commit(id) =>
      if id in s.running && s.running[id].Checked? then
        var r := s.running[id];
        t.(u := CommitScore(s.u, r), running := s.running[id := Committed(r.g, r.ipDecision, r.checkedAt)])
      else t
    case Judge(id) =>
      if id in s.running && s.running[id].Committed? then
        var r := s.running[id];
        var d := JudgeScoring(s.u, r);
        t.(u := AfterDecision(s.u, d), running := s.running - {id},
           reports := s.reports + [Report(s.u.score, d, r.checkedAt, GroundsOf(s.u, r.g, r.ipDecision))])
      else t
    case RaspHit(severity) => t.(u := AfterRaspHit(s.u, severity))
  }

  function Run(s: State, acts: seq<Action>): State {
    if acts == [] then s else Step(Run(s, acts[..|acts| - 1]), acts[|acts| - 1])
  }

  /** The four steps of one scoring that nothing disturbs. */
  function Alone(u: User, v: Visit, ipDecision: Decision, raw: real): State {
    Step(Step(Step(Step(State(u, map[], [], 0), Begin(0, v)), Check(0, ipDecision, raw)), Commit(0)), Judge(0))
  }

  lemma AloneIs(u: User, v: Visit, ipDecision: Decision, raw: real, u1: User, u2: User, d: Decision)
    requires 0.0 <= raw <= MAX_SCORE && u1 == AfterVisit(u, v)
    requires var override := UserOverride(u1, SignalsOf(u, v), ipDecision);
             u2 == if override.Some? then WithScore(u1, override.value) else Blended(u1, raw)
    requires d == UserPolicy(u2, SignalsOf(u, v), ipDecision, MakeDecision(u2.score))
    ensures var s := Alone(u, v, ipDecision, raw);
            && s.u == AfterDecision(u2, d)
            && s.reports == [Report(u2.score, d, 1, GroundsOf(u2, SignalsOf(u, v), ipDecision))]
  {
  }

  /** Steps 3 to 9 of ComputeUserTrustScore on the live profile: undisturbed, they are those
      four steps, with the merged risk as the raw event score. */
  method ComputeUserTrustScore(profile: UserTrustProfile, v: Visit, ipDecision: Decision,
                               f: UserFacts, w: UserWeights, gain: real)
    returns (finalScore: Cents, decision: Decision)
    modifies profile
    ensures var s := Alone(old(profile.View()), v, ipDecision, RawUserScore(f, w, gain));
            profile.View() == s.u && |s.reports| == 1
            && s.reports[0].score == finalScore && s.reports[0].decision == decision
  {
    ghost var u := profile.View();
    var g := Signals(v.isLogin, v.country !in profile.knownCountries, v.ja4 !in profile.knownJA4s);
    if v.isLogin {
      profile.RecordLogin(v);
    }
    var raw := ComputeRawUserScore(f, w, gain);
    ghost var u1 := profile.View();
    var override := profile.CheckUserHardOverrides(g, ipDecision);
    if override.Some? {
      profile.ForceScore(override.value);
    } else {
      profile.UpdateEWMA(raw);
    }
    ghost var u2 := profile.View();
    finalScore := profile.score;
    decision := profile.ApplyUserPolicyOverrides(g, ipDecision, MakeDecision(finalScore));
    profile.WriteFlags(decision);
    AloneIs(u, v, ipDecision, raw, u1, u2, decision);
  }

  // ---------- how far overtaken scorings can lift a zeroed score ----------

  /** The score after k full-marks observations on top of zero: 0, 1.50, 2.78, ... */
  function Rebound(k: nat): Cents {
    if k == 0 then 0 else Blend(Rebound(k - 1), MAX_SCORE)
  }

  lemma {:induction false} ReboundMonotone(j: nat, k: nat)
    requires j <= k
    ensures Rebound(j) <= Rebound(k)
    ensures k > 0 ==> Rebound(k) >= 150
    decreases k
  {
    if k > 0 {
      BlendStaysBetween(Rebound(k - 1), MAX_SCORE);
      if j < k {
        ReboundMonotone(j, k - 1);
      }
      if k == 1 {
        BlendInCents(0, 1000.0);
      }
    }
  }

  lemma ReboundValues()
    ensures Rebound(1) == 150 && Rebound(2) == 278 && Rebound(3) == 386
  {
    BlendInCents(0, 1000.0);
    BlendInCents(150, 1000.0);
    BlendInCents(278, 1000.0);
  }

  /** The scorings that are past a check made before t0 and have not committed. */
  function Stale(s: State, t0: nat): set<nat> {
    set id | id in s.running && s.running[id].Checked? && s.running[id].checkedAt < t0
  }

  predicate WellFormed(s: State) {
    forall id :: id in s.running && s.running[id].Checked? ==>
      && 0.0 <= s.running[id].raw <= MAX_SCORE && s.running[id].checkedAt < s.clock
      && (s.running[id].override.Some? ==> s.running[id].override.value == 0 || s.running[id].override.value == 50)
  }

  lemma {:induction false} RunWellFormed(s: State, acts: seq<Action>)
    requires WellFormed(s)
    ensures WellFormed(Run(s, acts))
  {
    if acts != [] {
      RunWellFormed(s, acts[..|acts| - 1]);
    }
  }

  /** k scorings had passed their check when the hit came at time t0. */
  predicate AfterHit(s: State, t0: nat, k: nat) {
    && WellFormed(s) && s.clock > t0
    && s.u.confirmedExploit && s.u.everBlocked
    && (forall id :: id in s.running && s.running[id].Checked? && s.running[id].checkedAt > t0
          ==> s.running[id].override == Some(0))
    && |Stale(s, t0 + 1)| <= k
    && s.u.score <= Rebound(k - |Stale(s, t0 + 1)|)
  }

  predicate Commits(s: State, a: Action) {
    a.Commit? && a.id in s.running && s.running[a.id].Checked?
  }

  lemma StepStale(s: State, a: Action, t0: nat)
    requires s.clock >= t0
    ensures Stale(Step(s, a), t0) == if Commits(s, a) then Stale(s, t0) - {a.id} else Stale(s, t0)
  {
  }

  /** An overtaken scoring commits: one fewer is waiting, and the bound moves one on. */
  lemma OvertakenCommit(s: State, a: Action, t0: nat, k: nat)
    requires AfterHit(s, t0, k) && Commits(s, a) && s.running[a.id].checkedAt <= t0
    ensures |Stale(Step(s, a), t0 + 1)| == |Stale(s, t0 + 1)| - 1
    ensures Step(s, a).u.score <= Rebound(k - |Stale(Step(s, a), t0 + 1)|)
  {
    var r := s.running[a.id];
    var j := k - |Stale(s, t0 + 1)|;
    StepStale(s, a, t0 + 1);
    assert a.id in Stale(s, t0 + 1);
    ReboundMonotone(j, j + 1);
    if r.override.None? {
      BlendMonotone(s.u.score, Rebound(j), r.raw, MAX_SCORE);
    }
  }

  lemma CommitAfterHit(s: State, a: Action, t0: nat, k: nat)
    requires AfterHit(s, t0, k) && Commits(s, a)
    ensures AfterHit(Step(s, a), t0, k)
  {
    if s.running[a.id].checkedAt <= t0 {
      OvertakenCommit(s, a, t0, k);
    } else {
      StepStale(s, a, t0 + 1);
      assert a.id !in Stale(s, t0 + 1);
      assert Step(s, a).u.score == 0;
    }
  }

  lemma StepAfterHit(s: State, a: Action, t0: nat, k: nat)
    requires AfterHit(s, t0, k)
    ensures AfterHit(Step(s, a), t0, k)
  {
    if Commits(s, a) {
      CommitAfterHit(s, a, t0, k);
    } else {
      StepStale(s, a, t0 + 1);
    }
  }

  lemma {:induction false} RunAfterHit(s: State, acts: seq<Action>, t0: nat, k: nat)
    requires AfterHit(s, t0, k)
    ensures AfterHit(Run(s, acts), t0, k)
  {
    if acts != [] {
      RunAfterHit(s, acts[..|acts| - 1], t0, k);
      StepAfterHit(Run(s, acts[..|acts| - 1]), acts[|acts| - 1], t0, k);
    }
  }

  lemma HitLands(s0: State, s1: State)
    requires WellFormed(s0) && s1 == Step(s0, RaspHit(IPProfiles.SEV_CRITICAL))
    ensures AfterHit(s1, s0.clock, |Stale(s0, s0.clock)|)
  {
    assert Stale(s0, s0.clock) == Stale(s1, s0.clock + 1);
  }

  lemma HitStands(s: State, t0: nat, k: nat, ip: IPProfiles.Profile)
    requires AfterHit(s, t0, k)
    ensures s.u.score <= Rebound(k)
    ensures forall id :: id in s.running && s.running[id].Checked? && s.running[id].checkedAt > t0
              ==> CommitScore(s.u, s.running[id]).score == 0
    ensures !Lenient(Gatekeeping.Gatekeeper(ip, Some(Gatekeeping.UserStanding(s.u.score, s.u.everBlocked))))
  {
    ReboundMonotone(k - |Stale(s, t0 + 1)|, k);
  }

  /** After a CRITICAL hit, in every interleaving: the flags stay, the score never exceeds
      what the k overtaken scorings can rebuild, a scoring that checks later will set it
      back to zero, and the gatekeeper never lets the account through unchallenged. */
  lemma CriticalHitCapsScore(before: seq<Action>, s0: State, later: seq<Action>, s: State, ip: IPProfiles.Profile)
    requires s0 == Run(INIT, before)
    requires s == Run(Step(s0, RaspHit(IPProfiles.SEV_CRITICAL)), later)
    ensures s.u.confirmedExploit && s.u.everBlocked
    ensures s.u.score <= Rebound(|Stale(s0, s0.clock)|)
    ensures forall id :: id in s.running && s.running[id].Checked? && s.running[id].checkedAt > s0.clock
              ==> CommitScore(s.u, s.running[id]).score == 0
    ensures !Lenient(Gatekeeping.Gatekeeper(ip, Some(Gatekeeping.UserStanding(s.u.score, s.u.everBlocked))))
  {
    var s1 := Step(s0, RaspHit(IPProfiles.SEV_CRITICAL));
    var k := |Stale(s0, s0.clock)|;
    RunWellFormed(INIT, before);
    HitLands(s0, s1);
    RunAfterHit(s1, later, s0.clock, k);
    HitStands(s, s0.clock, k, ip);
  }

  // ---------- the bound is reached ----------

  const CALM := Visit("", "", "", false, false)
  const FAILURE := Visit("", "", "", true, false)

  function Overtaken(k: nat): seq<Action> {
    if k == 0 then [] else Overtaken(k - 1) + [Begin(k - 1, CALM), Check(k - 1, Allow, MAX_SCORE)]
  }

  function CommitAll(k: nat): seq<Action> {
    if k == 0 then [] else CommitAll(k - 1) + [Commit(k - 1)]
  }

  lemma RunTwo(s: State, acts: seq<Action>, a: Action, b: Action)
    ensures Run(s, acts + [a, b]) == Step(Step(Run(s, acts), a), b)
  {
    assert (acts + [a, b])[..|acts| + 1] == acts + [a];
    assert (acts + [a])[..|acts|] == acts;
  }

  lemma RunOne(s: State, acts: seq<Action>, a: Action)
    ensures Run(s, acts + [a]) == Step(Run(s, acts), a)
  {
    assert (acts + [a])[..|acts|] == acts;
  }

  predicate Waiting(s: State, id: nat) {
    id in s.running && s.running[id].Checked? && s.running[id].override.None? && s.running[id].raw == MAX_SCORE
  }

  /** Scorings that are past their check with full marks. */
  predicate AllWaiting(s: State, from: nat, k: nat) {
    forall id: nat :: from <= id < k ==> Waiting(s, id)
  }

  predicate Free(s: State, k: nat) {
    forall id :: id in s.running ==> id < k
  }

  lemma OneMoreWaits(s: State, k: nat)
    requires s.u == NEW_USER && AllWaiting(s, 0, k) && Free(s, k) && s.reports == []
    ensures var t := Step(Step(s, Begin(k, CALM)), Check(k, Allow, MAX_SCORE));
            t.u == NEW_USER && AllWaiting(t, 0, k + 1) && Free(t, k + 1) && t.reports == []
  {
    var t := Step(Step(s, Begin(k, CALM)), Check(k, Allow, MAX_SCORE));
    assert k !in s.running;
    forall id: nat | id < k + 1
      ensures Waiting(t, id)
    {
      assert id < k ==> Waiting(s, id);
    }
  }

  /** Commits of scorings below n leave the rest alone. */
  predicate OnlyScoreMoved(s: State, t: State, n: nat) {
    && t.u.everBlocked == s.u.everBlocked && t.u.knownCountries == s.u.knownCountries && t.reports == s.reports
    && (forall id :: id in s.running && id >= n ==> id in t.running && t.running[id] == s.running[id])
  }

  lemma OneCommits(s: State, n: nat, k: nat)
    requires n < k && AllWaiting(s, n, k)
    ensures var t := Step(s, Commit(n));
            t.u.score == Blend(s.u.score, MAX_SCORE) && AllWaiting(t, n + 1, k) && OnlyScoreMoved(s, t, n + 1)
  {
    var t := Step(s, Commit(n));
    assert Waiting(s, n);
    forall id: nat | n + 1 <= id < k
      ensures Waiting(t, id)
    {
      assert Waiting(s, id);
    }
  }

  lemma {:induction false} OvertakenWait(k: nat)
    ensures var s := Run(INIT, Overtaken(k));
            s.u == NEW_USER && AllWaiting(s, 0, k) && Free(s, k) && s.reports == []
  {
    if k > 0 {
      var a, b := Begin(k - 1, CALM), Check(k - 1, Allow, MAX_SCORE);
      OvertakenWait(k - 1);
      RunTwo(INIT, Overtaken(k - 1), a, b);
      OneMoreWaits(Run(INIT, Overtaken(k - 1)), k - 1);
    }
  }

  lemma {:induction false} CommitsRebound(s: State, k: nat, n: nat)
    requires n <= k && AllWaiting(s, 0, k) && s.u.score == 0
    ensures var t := Run(s, CommitAll(n));
            t.u.score == Rebound(n) && AllWaiting(t, n, k) && OnlyScoreMoved(s, t, n)
  {
    if n > 0 {
      CommitsRebound(s, k, n - 1);
      RunOne(s, CommitAll(n - 1), Commit(n - 1));
      OneCommits(Run(s, CommitAll(n - 1)), n - 1, k);
    }
  }

  /** For every k there is a run with k overtaken scorings that ends at exactly Rebound(k). */
  lemma ReboundIsReached(k: nat)
    ensures var s1 := Step(Run(INIT, Overtaken(k)), RaspHit(IPProfiles.SEV_CRITICAL));
            Run(s1, CommitAll(k)).u.score == Rebound(k)
  {
    OvertakenWait(k);
    var s0 := Run(INIT, Overtaken(k));
    var s1 := Step(s0, RaspHit(IPProfiles.SEV_CRITICAL));
    forall id: nat | id < k
      ensures Waiting(s1, id)
    {
      assert Waiting(s0, id);
    }
    CommitsRebound(s1, k, k);
  }

  // ---------- runs in pieces ----------

  lemma {:induction false} RunFrom(s: State, a: Action, rest: seq<Action>)
    ensures Run(s, [a] + rest) == Run(Step(s, a), rest)
  {
    if rest == [] {
      assert [a] + rest == [] + [a];
      RunOne(s, [], a);
    } else {
      var front, b := rest[..|rest| - 1], rest[|rest| - 1];
      RunFrom(s, a, front);
      assert [a] + rest == ([a] + front) + [b] && rest == front + [b];
      RunOne(s, [a] + front, b);
      RunOne(Step(s, a), front, b);
    }
  }
}
