/** Twenty failed logins: what they force in every interleaving, and exactly when. */
module UserLockOut {
  import opened Scores
  import opened Ewma
  import opened UserProfiles
  import opened UserInterleaving
  import IPProfiles

  predicate CommittedBefore(s: State) {
    forall id :: id in s.running && s.running[id].Committed? ==> s.running[id].checkedAt < s.clock
  }

  lemma {:induction false} RunCommittedBefore(acts: seq<Action>)
    ensures WellFormed(Run(INIT, acts)) && CommittedBefore(Run(INIT, acts))
  {
    if acts != [] {
      RunCommittedBefore(acts[..|acts| - 1]);
    }
  }

  predicate Forced(r: Scoring) {
    r.Checked? ==> r.override == Some(0) || r.override == Some(50)
  }

  /** From time t0 on the account has twenty failed logins; every scoring that waits to
      commit will commit an override. */
  predicate LockedOut(s: State, t0: nat) {
    && s.clock >= t0 && s.u.failedLogins >= 20
    && (forall id :: id in s.running ==> Forced(s.running[id]))
  }

  predicate Refused(r: Report) {
    (r.score == 0 || r.score == 50) && r.decision.Ban?
  }

  /** Scores that only overrides have produced. */
  predicate OnlyOverrides(s: State, t0: nat) {
    (exists id :: id in s.running && s.running[id].Committed? && s.running[id].checkedAt >= t0)
      ==> s.u.score == 0 || s.u.score == 50
  }

  lemma StepLockedOut(s: State, a: Action, t0: nat)
    requires LockedOut(s, t0) && OnlyOverrides(s, t0)
    ensures LockedOut(Step(s, a), t0) && OnlyOverrides(Step(s, a), t0)
    ensures forall i :: |s.reports| <= i < |Step(s, a).reports| && Step(s, a).reports[i].checkedAt >= t0
              ==> Refused(Step(s, a).reports[i])
  {
  }

  predicate AllRefused(s: State, n: nat, t0: nat) {
    |s.reports| >= n && forall i :: n <= i < |s.reports| && s.reports[i].checkedAt >= t0 ==> Refused(s.reports[i])
  }

  lemma {:induction false} RunLockedOut(s: State, acts: seq<Action>, t0: nat)
    requires LockedOut(s, t0) && OnlyOverrides(s, t0)
    ensures LockedOut(Run(s, acts), t0) && OnlyOverrides(Run(s, acts), t0)
    ensures AllRefused(Run(s, acts), |s.reports|, t0)
  {
    if acts != [] {
      RunLockedOut(s, acts[..|acts| - 1], t0);
      StepLockedOut(Run(s, acts[..|acts| - 1]), acts[|acts| - 1], t0);
    }
  }

  /** No scoring that had checked before s is still waiting to commit a smoothed score. */
  predicate NoneSmoothing(s: State) {
    forall id :: id in Stale(s, s.clock) ==> s.running[id].override.Some?
  }

  /** Once an account has twenty failed logins and no older scoring is about to commit a
      smoothed score, every scoring that checks from then on reports 0.00 or 0.50 and
      "ban". */
  lemma TwentyFailuresLockOut(before: seq<Action>, s0: State, later: seq<Action>)
    requires s0 == Run(INIT, before)
    requires s0.u.failedLogins >= 20 && NoneSmoothing(s0)
    ensures AllRefused(Run(s0, later), |s0.reports|, s0.clock)
  {
    RunCommittedBefore(before);
    assert forall id :: id in s0.running && s0.running[id].Checked? ==> id in Stale(s0, s0.clock);
    RunLockedOut(s0, later, s0.clock);
  }

  /** The lock-out over every future of s0. */
  ghost predicate LocksOut(s0: State) {
    forall later: seq<Action> :: AllRefused(Run(s0, later), |s0.reports|, s0.clock)
  }

  lemma {:induction false} Unused(ids: set<nat>) returns (n: nat)
    ensures forall id :: id in ids ==> id < n
  {
    if ids == {} {
      return 0;
    }
    var id :| id in ids;
    var m := Unused(ids - {id});
    n := if m > id then m else id + 1;
    assert forall x :: x in ids ==> x == id || x in ids - {id};
  }

  /** Scoring n starts, checks and commits; the older scoring commits on top of it; n reads
      the score back. */
  function Overtaking(n: nat, stale: nat): seq<Action> {
    [Begin(n, CALM), Check(n, Allow, MAX_SCORE)] + [Commit(n), Commit(stale)] + [Judge(n)]
  }

  lemma RunOvertaking(s: State, n: nat, stale: nat)
    ensures Run(s, Overtaking(n, stale))
            == Step(Step(Step(Step(Step(s, Begin(n, CALM)), Check(n, Allow, MAX_SCORE)), Commit(n)), Commit(stale)),
                    Judge(n))
  {
    var first := [Begin(n, CALM), Check(n, Allow, MAX_SCORE)];
    assert [] + first == first;
    RunTwo(s, [], first[0], first[1]);
    RunTwo(s, first, Commit(n), Commit(stale));
    RunOne(s, first + [Commit(n), Commit(stale)], Judge(n));
  }

  /** The report then shows the older scoring's smoothed score, not the forced one. */
  lemma OvertakenReport(s: State, n: nat, stale: nat)
    requires n !in s.running && s.u.failedLogins >= 20
    requires stale in s.running && s.running[stale].Checked? && s.running[stale].override.None?
    ensures var t := Run(s, Overtaking(n, stale));
            var forced := if s.u.confirmedExploit then 0 else 50;
            && |t.reports| == |s.reports| + 1
            && t.reports[|s.reports|].checkedAt == s.clock + 1
            && t.reports[|s.reports|].score == Blend(forced, s.running[stale].raw)
  {
    RunOvertaking(s, n, stale);
  }

  /** No observation is smoothed to 0.00 or 0.50 from both of the forced scores. */
  lemma OneOfTwoShows(raw: real)
    requires 0.0 <= raw <= MAX_SCORE
    ensures Blend(50, raw) == 50 ==> Blend(0, raw) != 0 && Blend(0, raw) != 50
    ensures Blend(50, raw) != 0
  {
    BlendInCents(50, raw * 100.0);
    BlendInCents(0, raw * 100.0);
  }

  /** n starts, checks and commits; two older scorings commit on top of it; n reads back. */
  function OvertakingTwice(n: nat, first: nat, second: nat): seq<Action> {
    [Begin(n, CALM), Check(n, Allow, MAX_SCORE)] + [Commit(n), Commit(first)] + [Commit(second), Judge(n)]
  }

  /** If the first of them brings a confirmed exploit's zero to 0.50, the report shows what
      the second one makes of that. */
  lemma TwiceOvertakenReport(s: State, n: nat, first: nat, second: nat)
    requires n !in s.running && s.u.confirmedExploit && first != second
    requires first in s.running && s.running[first].Checked?
    requires s.running[first].override == Some(50)
             || (s.running[first].override.None? && Blend(0, s.running[first].raw) == 50)
    requires second in s.running && s.running[second].Checked? && s.running[second].override.None?
    ensures var t := Run(s, OvertakingTwice(n, first, second));
            && |t.reports| == |s.reports| + 1
            && t.reports[|s.reports|].checkedAt == s.clock + 1
            && t.reports[|s.reports|].score == Blend(50, s.running[second].raw)
  {
    var start := [Begin(n, CALM), Check(n, Allow, MAX_SCORE)];
    assert [] + start == start;
    RunTwo(s, [], start[0], start[1]);
    RunTwo(s, start, Commit(n), Commit(first));
    RunTwo(s, start + [Commit(n), Commit(first)], Commit(second), Judge(n));
    ForcedToZero(s, n);
    CommitsOnZero(Step(Step(Step(s, Begin(n, CALM)), Check(n, Allow, MAX_SCORE)), Commit(n)), n, first, second);
  }

  lemma ForcedToZero(s: State, n: nat)
    requires n !in s.running && s.u.confirmedExploit
    ensures var t := Step(Step(Step(s, Begin(n, CALM)), Check(n, Allow, MAX_SCORE)), Commit(n));
            && t.u.score == 0 && t.reports == s.reports
            && n in t.running && t.running[n].Committed? && t.running[n].checkedAt == s.clock + 1
            && (forall id :: id in s.running ==> id in t.running && t.running[id] == s.running[id])
  {
  }

  lemma CommitsOnZero(t: State, n: nat, first: nat, second: nat)
    requires t.u.score == 0 && n in t.running && t.running[n].Committed? && first != second
    requires first in t.running && t.running[first].Checked?
    requires t.running[first].override == Some(50)
             || (t.running[first].override.None? && Blend(0, t.running[first].raw) == 50)
    requires second in t.running && t.running[second].Checked? && t.running[second].override.None?
    ensures var u := Step(Step(Step(t, Commit(first)), Commit(second)), Judge(n));
            && |u.reports| == |t.reports| + 1
            && u.reports[|t.reports|].checkedAt == t.running[n].checkedAt
            && u.reports[|t.reports|].score == Blend(50, t.running[second].raw)
  {
    var t1 := Step(t, Commit(first));
    assert t1.u.score == 50 && t1.running[second] == t.running[second] && t1.running[n] == t.running[n];
  }

  /** Waiting to commit a smoothed score. */
  predicate Smoothing(s: State, id: nat) {
    id in s.running && s.running[id].Checked? && s.running[id].override.None?
  }

  /** Smoothed scores that cannot lift a confirmed exploit's zero to anything but 0.50: no
      0.50 is waiting to be committed first, and either every smoothed score leaves zero at
      zero, or there is only one and it makes 0.50 of zero. */
  predicate Docile(s: State) {
    && (forall id :: id in s.running && s.running[id].Checked? ==> s.running[id].override != Some(50))
    && ((forall id :: id in s.running && Smoothing(s, id) ==> Blend(0, s.running[id].raw) == 0)
        || (forall i, j :: i in s.running && j in s.running && Smoothing(s, i) && Smoothing(s, j)
              ==> i == j && Blend(0, s.running[i].raw) == 50))
  }

  /** Nothing in flight at s can soften the lock-out: no smoothed score is waiting, or the
      account is a confirmed exploit and the waiting ones are docile. */
  predicate Harmless(s: State) {
    NoneSmoothing(s) || (s.u.confirmedExploit && Docile(s))
  }

  lemma FreshId(s: State) returns (n: nat)
    ensures n !in s.running
  {
    n := Unused(s.running.Keys);
    assert n !in s.running.Keys;
  }

  lemma SmoothingBreaksLockOut(s: State, stale: nat)
    requires WellFormed(s) && s.u.failedLogins >= 20 && !s.u.confirmedExploit && Smoothing(s, stale)
    ensures !LocksOut(s)
  {
    var n := FreshId(s);
    var raw := s.running[stale].raw;
    OneOfTwoShows(raw);
    if Blend(50, raw) != 50 {
      OvertakenReport(s, n, stale);
      assert !AllRefused(Run(s, Overtaking(n, stale)), |s.reports|, s.clock);
    } else {
      var hit := RaspHit(IPProfiles.SEV_CRITICAL);
      OvertakenReport(Step(s, hit), n, stale);
      RunFrom(s, hit, Overtaking(n, stale));
      assert !AllRefused(Run(s, [hit] + Overtaking(n, stale)), |s.reports|, s.clock);
    }
  }

  /** A smoothed score that makes neither 0.00 nor 0.50 of a confirmed exploit's zero. */
  lemma OneBreaksLockOut(s: State, stale: nat)
    requires WellFormed(s) && s.u.failedLogins >= 20 && s.u.confirmedExploit && Smoothing(s, stale)
    requires Blend(0, s.running[stale].raw) != 0 && Blend(0, s.running[stale].raw) != 50
    ensures !LocksOut(s)
  {
    var n := FreshId(s);
    OvertakenReport(s, n, stale);
    assert !AllRefused(Run(s, Overtaking(n, stale)), |s.reports|, s.clock);
  }

  /** A smoothed score on top of a 0.50. */
  lemma TwoBreakLockOut(s: State, first: nat, second: nat)
    requires WellFormed(s) && s.u.failedLogins >= 20 && s.u.confirmedExploit && Smoothing(s, second)
    requires first != second && first in s.running && s.running[first].Checked?
    requires s.running[first].override == Some(50)
             || (s.running[first].override.None? && Blend(0, s.running[first].raw) == 50)
    ensures !LocksOut(s)
  {
    var raw := s.running[second].raw;
    OneOfTwoShows(raw);
    if Blend(50, raw) == 50 {
      OneBreaksLockOut(s, second);
    } else {
      var n := FreshId(s);
      TwiceOvertakenReport(s, n, first, second);
      assert !AllRefused(Run(s, OvertakingTwice(n, first, second)), |s.reports|, s.clock);
    }
  }

  lemma UndocileBreaksLockOut(s: State)
    requires WellFormed(s) && s.u.failedLogins >= 20 && s.u.confirmedExploit && !NoneSmoothing(s) && !Docile(s)
    ensures !LocksOut(s)
  {
    var id :| id in Stale(s, s.clock) && Smoothing(s, id);
    if i :| i in s.running && s.running[i].Checked? && s.running[i].override == Some(50) {
      TwoBreakLockOut(s, i, id);
    } else {
      var i :| i in s.running && Smoothing(s, i) && Blend(0, s.running[i].raw) != 0;
      if Blend(0, s.running[i].raw) != 50 {
        OneBreaksLockOut(s, i);
      } else {
        var j, k :| j in s.running && k in s.running && Smoothing(s, j) && Smoothing(s, k)
                    && !(j == k && Blend(0, s.running[j].raw) == 50);
        if j != i {
          TwoBreakLockOut(s, i, j);
        } else {
          TwoBreakLockOut(s, i, k);
        }
      }
    }
  }

  /** From time t0 on, with the exploit confirmed: later checks force zero, what was waiting
      is docile, and a committed scoring awaiting its report sees 0.00 or a final 0.50. */
  predicate DocilelyLocked(s: State, t0: nat) {
    && s.clock >= t0 && s.u.confirmedExploit && Docile(s)
    && (forall id :: id in s.running && s.running[id].Checked? && s.running[id].checkedAt >= t0
          ==> s.running[id].override == Some(0))
    && (forall id :: id in s.running && s.running[id].Checked? && s.running[id].override.Some?
          ==> s.running[id].override == Some(0))
    && (forall id :: id in s.running && s.running[id].Committed? && s.running[id].checkedAt >= t0
          ==> s.u.score == 0
              || (s.u.score == 50 && forall j :: j in s.running ==> !Smoothing(s, j)))
  }

  lemma StepDocile(s: State, a: Action)
    requires Docile(s) && s.u.confirmedExploit
    ensures Docile(Step(s, a))
  {
    var t := Step(s, a);
    assert forall id :: id in t.running && Smoothing(t, id) ==> Smoothing(s, id) && t.running[id] == s.running[id];
  }

  lemma CommitDocile(s: State, a: Action, t0: nat)
    requires DocilelyLocked(s, t0) && Commits(s, a)
    ensures DocilelyLocked(Step(s, a), t0)
  {
    var t := Step(s, a);
    StepDocile(s, a);
    var r := s.running[a.id];
    CommitNarrows(s, a);
    if r.override.None? {
      assert Smoothing(s, a.id);
    }
  }

  lemma CommitNarrows(s: State, a: Action)
    requires Commits(s, a)
    ensures forall j :: j in Step(s, a).running && Smoothing(Step(s, a), j)
              ==> j in s.running && Smoothing(s, j) && j != a.id
  {
  }

  lemma StepDocilelyLocked(s: State, a: Action, t0: nat)
    requires DocilelyLocked(s, t0)
    ensures DocilelyLocked(Step(s, a), t0)
    ensures forall i :: |s.reports| <= i < |Step(s, a).reports| && Step(s, a).reports[i].checkedAt >= t0
              ==> Refused(Step(s, a).reports[i])
  {
    if Commits(s, a) {
      CommitDocile(s, a, t0);
    } else {
      StepDocile(s, a);
      var t := Step(s, a);
      assert forall j :: j in t.running && Smoothing(t, j) ==> j in s.running && Smoothing(s, j);
    }
  }

  lemma {:induction false} RunDocilelyLocked(s: State, acts: seq<Action>, t0: nat)
    requires DocilelyLocked(s, t0)
    ensures DocilelyLocked(Run(s, acts), t0) && AllRefused(Run(s, acts), |s.reports|, t0)
  {
    if acts != [] {
      RunDocilelyLocked(s, acts[..|acts| - 1], t0);
      StepDocilelyLocked(Run(s, acts[..|acts| - 1]), acts[|acts| - 1], t0);
    }
  }

  /** The exact condition, for every account: the lock-out holds in every future if and only
      if nothing in flight can soften it. */
  lemma LockOutExactlyWhen(before: seq<Action>, s0: State)
    requires s0 == Run(INIT, before) && s0.u.failedLogins >= 20
    ensures LocksOut(s0) <==> Harmless(s0)
  {
    RunCommittedBefore(before);
    if NoneSmoothing(s0) {
      forall later: seq<Action>
        ensures AllRefused(Run(s0, later), |s0.reports|, s0.clock)
      {
        TwentyFailuresLockOut(before, s0, later);
      }
    } else if !s0.u.confirmedExploit {
      var stale :| stale in Stale(s0, s0.clock) && s0.running[stale].override.None?;
      SmoothingBreaksLockOut(s0, stale);
    } else if Docile(s0) {
      forall later: seq<Action>
        ensures AllRefused(Run(s0, later), |s0.reports|, s0.clock)
      {
        RunDocilelyLocked(s0, later, s0.clock);
      }
    } else {
      UndocileBreaksLockOut(s0);
    }
  }

  // ---------- a run in which the lock-out fails ----------

  const CHECKED_FIRST := [Begin(0, CALM), Check(0, Allow, MAX_SCORE)]

  /** Logins 1 to m fail. */
  function Failures(m: nat): seq<Action> {
    if m == 0 then [] else Failures(m - 1) + [Begin(m, FAILURE)]
  }

  predicate FailedTimes(s: State, m: nat) {
    && s.u == NEW_USER.(failedLogins := m, sessionFailedLogins := m) && s.reports == [] && s.clock == m + 2
    && 0 in s.running && s.running[0] == Checked(Signals(false, true, true), Allow, MAX_SCORE, None, 1)
    && (m > 0 ==> m in s.running && s.running[m] == Started(Signals(true, true, true)))
    && Free(s, m + 1)
  }

  lemma StepFails(s: State, m: nat)
    requires FailedTimes(s, m)
    ensures FailedTimes(Step(s, Begin(m + 1, FAILURE)), m + 1)
  {
    assert m + 1 !in s.running;
  }

  lemma {:induction false} FailuresCount(m: nat)
    ensures FailedTimes(Run(INIT, CHECKED_FIRST + Failures(m)), m)
  {
    if m == 0 {
      assert CHECKED_FIRST + [] == CHECKED_FIRST == [] + CHECKED_FIRST;
      RunTwo(INIT, [], CHECKED_FIRST[0], CHECKED_FIRST[1]);
    } else {
      FailuresCount(m - 1);
      assert CHECKED_FIRST + Failures(m) == (CHECKED_FIRST + Failures(m - 1)) + [Begin(m, FAILURE)];
      RunOne(INIT, CHECKED_FIRST + Failures(m - 1), Begin(m, FAILURE));
      StepFails(Run(INIT, CHECKED_FIRST + Failures(m - 1)), m - 1);
    }
  }

  lemma ReadsBackSmoothed(s: State)
    requires FailedTimes(s, 20)
    ensures var t := Step(Step(Step(Step(s, Check(20, Allow, MAX_SCORE)), Commit(20)), Commit(0)), Judge(20));
            |t.reports| == 1 && t.reports[0].score == 193 && t.reports[0].decision == Block
            && t.reports[0].checkedAt == 22
  {
    var s1 := Step(s, Check(20, Allow, MAX_SCORE));
    assert s1.running[20] == Checked(Signals(true, true, true), Allow, MAX_SCORE, Some(50), 22);
    var s2 := Step(s1, Commit(20));
    assert s2.u.score == 50;
    var s3 := Step(s2, Commit(0));
    assert s3.u.score == 193 by {
      BlendInCents(50, 1000.0);
    }
  }

  /** A concrete failure of the lock-out, from the initial state: one scoring checks, twenty
      logins fail, the twentieth one's scoring checks and commits 0.50, the first one commits
      on top of it, and the twentieth reports 1.93 and "block". */
  lemma OvertakenScoringSoftensLockOut(acts: seq<Action>)
    requires acts == CHECKED_FIRST + Failures(20)
    ensures Run(INIT, acts).u.failedLogins == 20 && Run(INIT, acts).clock == 22
    ensures var t := Run(INIT, acts + [Check(20, Allow, MAX_SCORE), Commit(20)] + [Commit(0), Judge(20)]);
            |t.reports| == 1 && t.reports[0].score == 193 && t.reports[0].decision == Block
            && t.reports[0].checkedAt == 22
  {
    FailuresCount(20);
    RunTwo(INIT, acts, Check(20, Allow, MAX_SCORE), Commit(20));
    RunTwo(INIT, acts + [Check(20, Allow, MAX_SCORE), Commit(20)], Commit(0), Judge(20));
    ReadsBackSmoothed(Run(INIT, acts));
  }
}
