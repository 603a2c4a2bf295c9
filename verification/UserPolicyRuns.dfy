/** The three promises of applyUserPolicyOverrides, over whole runs: the new-country rule
    answers before the other two, so all three have a gap. */
module UserPolicyRuns {
  import opened Scores
  import opened Ewma
  import opened UserProfiles
  import opened UserInterleaving

  /** The report is lenient only because the new-country rule answered first. */
  predicate Early(r: Report) {
    r.score >= 800 && r.grounds.g.isLogin && r.grounds.g.newCountry && r.grounds.knowsCountries
  }

  predicate FromBlockedDevice(r: Report) {
    r.grounds.everBlocked && r.grounds.g.newJA4
  }

  predicate FromRefusedAddress(r: Report) {
    Refusing(r.grounds.ipDecision)
  }

  predicate NewCountryLogin(r: Report) {
    r.grounds.g.isLogin && r.grounds.g.newCountry && r.grounds.knowsCountries
  }

  /** When a report meets the three promises of the policy layer, and when it does not. */
  predicate Explained(r: Report) {
    && (FromRefusedAddress(r) ==> (Lenient(r.decision) <==> Early(r)))
    && (FromBlockedDevice(r) ==> (Lenient(r.decision) <==> Early(r)))
    && (NewCountryLogin(r) ==>
          (Lenient(r.decision)
           <==> r.score >= 800 || (r.score >= 500 && !FromBlockedDevice(r) && !FromRefusedAddress(r))))
  }

  lemma JudgedReportIsExplained(s: State, id: nat)
    requires id in s.running && s.running[id].Committed?
    ensures var t := Step(s, Judge(id));
            |t.reports| == |s.reports| + 1 && t.reports[..|s.reports|] == s.reports
            && Explained(t.reports[|s.reports|])
  {
    var r := s.running[id];
    var d := MakeDecision(s.u.score);
    if Refusing(r.ipDecision) {
      RefusedAddressPassesIff(s.u, r.g, r.ipDecision, d);
    }
    if s.u.everBlocked && r.g.newJA4 {
      BlockedDevicePassesIff(s.u, r.g, r.ipDecision, d);
    }
    if r.g.isLogin && r.g.newCountry && s.u.knownCountries != [] {
      NewCountryPassesIff(s.u, r.g, r.ipDecision, d);
    }
  }

  lemma OnlyJudgesReport(s: State, a: Action)
    requires !(a.Judge? && a.id in s.running && s.running[a.id].Committed?)
    ensures Step(s, a).reports == s.reports
  {
  }

  /** In every run, every report: a scoring from a refused address, or of a once blocked
      account from a new device, is let through exactly when it is also a login of 8.00 or
      more from a new country; and such a login exactly at 8.00 or more, or at 5.00 or more
      with neither of the other two against it. */
  lemma {:induction false} LetThroughExactlyWhen(acts: seq<Action>)
    ensures forall i :: 0 <= i < |Run(INIT, acts).reports| ==> Explained(Run(INIT, acts).reports[i])
  {
    if acts != [] {
      var s := Run(INIT, acts[..|acts| - 1]);
      var a := acts[|acts| - 1];
      LetThroughExactlyWhen(acts[..|acts| - 1]);
      if a.Judge? && a.id in s.running && s.running[a.id].Committed? {
        JudgedReportIsExplained(s, a.id);
        forall i | 0 <= i < |Run(INIT, acts).reports|
          ensures Explained(Run(INIT, acts).reports[i])
        {
          if i < |s.reports| {
            assert Run(INIT, acts).reports[i] == Run(INIT, acts).reports[..|s.reports|][i];
          }
        }
      } else {
        OnlyJudgesReport(s, a);
      }
    }
  }

  /** One scoring that nothing disturbs, in any state. */
  function Scoring4(id: nat, v: Visit, ipDecision: Decision, raw: real): seq<Action> {
    [Begin(id, v), Check(id, ipDecision, raw)] + [Commit(id), Judge(id)]
  }

  lemma ScoringChecks(s: State, id: nat, v: Visit, ipDecision: Decision, raw: real)
    requires id !in s.running && 0.0 <= raw <= MAX_SCORE
    ensures var t := Step(Step(s, Begin(id, v)), Check(id, ipDecision, raw));
            var u := AfterVisit(s.u, v);
            && t.u == u && t.reports == s.reports && t.clock == s.clock + 2
            && t.running == s.running[id := Checked(SignalsOf(s.u, v), ipDecision, raw,
                                                    UserOverride(u, SignalsOf(s.u, v), ipDecision), s.clock + 1)]
  {
  }

  lemma ScoringReports(s: State, id: nat)
    requires id in s.running && s.running[id].Checked?
    ensures var r := s.running[id];
            var t := Step(Step(s, Commit(id)), Judge(id));
            var u := CommitScore(s.u, r);
            var d := UserPolicy(u, r.g, r.ipDecision, MakeDecision(u.score));
            && t.u == AfterDecision(u, d) && t.running == s.running - {id} && t.clock == s.clock + 2
            && t.reports == s.reports + [Report(u.score, d, r.checkedAt, GroundsOf(u, r.g, r.ipDecision))]
  {
  }

  lemma ScoringSteps(acts: seq<Action>, id: nat, v: Visit, ipDecision: Decision, raw: real)
    ensures Run(INIT, acts + Scoring4(id, v, ipDecision, raw))
            == Step(Step(Step(Step(Run(INIT, acts), Begin(id, v)), Check(id, ipDecision, raw)), Commit(id)), Judge(id))
  {
    var first := [Begin(id, v), Check(id, ipDecision, raw)];
    RunTwo(INIT, acts, first[0], first[1]);
    RunTwo(INIT, acts + first, Commit(id), Judge(id));
    assert acts + Scoring4(id, v, ipDecision, raw) == acts + first + [Commit(id), Judge(id)];
  }

  lemma ScoringRuns(acts: seq<Action>, s: State, id: nat, v: Visit, ipDecision: Decision, raw: real)
    requires s == Run(INIT, acts) && id !in s.running && 0.0 <= raw <= MAX_SCORE
    requires UserOverride(AfterVisit(s.u, v), SignalsOf(s.u, v), ipDecision).None?
    ensures var t := Run(INIT, acts + Scoring4(id, v, ipDecision, raw));
            var u := Blended(AfterVisit(s.u, v), raw);
            var d := UserPolicy(u, SignalsOf(s.u, v), ipDecision, MakeDecision(u.score));
            && t.u == AfterDecision(u, d) && t.running == s.running && t.clock == s.clock + 4
            && t.reports == s.reports + [Report(u.score, d, s.clock + 1, GroundsOf(u, SignalsOf(s.u, v), ipDecision))]
  {
    ScoringSteps(acts, id, v, ipDecision, raw);
    ScoringChecks(s, id, v, ipDecision, raw);
    ScoringReports(Step(Step(s, Begin(id, v)), Check(id, ipDecision, raw)), id);
  }

  const AT_HOME := Visit("192.0.2.1", "A", "j", true, true)
  const ABROAD := Visit("198.51.100.1", "B", "j", true, true)

  lemma TwoGoodLogins(acts: seq<Action>)
    requires acts == Scoring4(0, AT_HOME, Allow, MAX_SCORE) + Scoring4(0, AT_HOME, Allow, MAX_SCORE)
    ensures var s := Run(INIT, acts);
            && s.u.score == 820 && !s.u.everBlocked && !s.u.confirmedExploit && s.u.failedLogins == 0
            && s.u.knownCountries == ["A"] && s.u.knownJA4s == ["j"]
            && s.running == map[] && |s.reports| == 2 && s.clock == 8
  {
    var one := Scoring4(0, AT_HOME, Allow, MAX_SCORE);
    assert [] + one == one;
    ScoringRuns([], INIT, 0, AT_HOME, Allow, MAX_SCORE);
    BlendInCents(750, 1000.0);
    assert Run(INIT, one).u.score == 788;
    ScoringRuns(one, Run(INIT, one), 0, AT_HOME, Allow, MAX_SCORE);
    BlendInCents(788, 1000.0);
  }

  /** A concrete failure of two promises, undisturbed: after two good logins from one country,
      a login from another country and from an address the IP layer blocks, with a raw event
      score of 7.00, is answered 8.02 and "allow+stricter". */
  lemma RefusedNewCountryLoginPasses(acts: seq<Action>)
    requires acts == Scoring4(0, AT_HOME, Allow, MAX_SCORE) + Scoring4(0, AT_HOME, Allow, MAX_SCORE)
    ensures var t := Run(INIT, acts + Scoring4(0, ABROAD, Block, 7.0));
            && |t.reports| == 3 && FromRefusedAddress(t.reports[2]) && NewCountryLogin(t.reports[2])
            && t.reports[2].score == 802 && t.reports[2].decision == AllowStricter
  {
    TwoGoodLogins(acts);
    ScoringRuns(acts, Run(INIT, acts), 0, ABROAD, Block, 7.0);
    BlendInCents(820, 700.0);
  }

  // ---------- a run that lets a blocked account's new device through ----------

  const NEW_DEVICE := Visit("198.51.100.1", "B", "k", true, true)

  lemma ReboundNine()
    ensures Rebound(9) == 769 && Blend(769, MAX_SCORE) == 804
  {
    ReboundValues();
    BlendInCents(386, 1000.0);
    assert Rebound(4) == 478;
    BlendInCents(478, 1000.0);
    assert Rebound(5) == 556;
    BlendInCents(556, 1000.0);
    assert Rebound(6) == 623;
    BlendInCents(623, 1000.0);
    assert Rebound(7) == 680;
    BlendInCents(680, 1000.0);
    assert Rebound(8) == 728;
    BlendInCents(728, 1000.0);
    BlendInCents(769, 1000.0);
  }

  predicate NewDeviceWaits(s: State) {
    && 10 in s.running && s.running[10].Checked?
    && s.running[10].g == Signals(true, true, true) && s.running[10].override.None?
    && s.running[10].ipDecision == Allow && s.running[10].raw == MAX_SCORE
  }

  predicate LoggedIn(s: State) {
    && !s.u.confirmedExploit && s.u.failedLogins == 0 && |s.u.knownCountries| == 2
    && s.reports == [] && 11 !in s.running && AllWaiting(s, 0, 9) && NewDeviceWaits(s)
  }

  predicate BlockedSince(s: State) {
    && s.u.score == 0 && s.u.everBlocked && |s.u.knownCountries| == 2
    && AllWaiting(s, 0, 9) && NewDeviceWaits(s) && |s.reports| == 1
  }

  /** A login at home; then one from a new country and device checks. */
  lemma NewDeviceChecks(s: State)
    requires s.u == NEW_USER && Free(s, 9) && AllWaiting(s, 0, 9) && s.reports == []
    ensures LoggedIn(Step(Step(Step(s, Begin(9, AT_HOME)), Begin(10, NEW_DEVICE)), Check(10, Allow, MAX_SCORE)))
  {
    var s1 := Step(s, Begin(9, AT_HOME));
    assert s1.u.knownCountries == ["A"] && s1.u.knownJA4s == ["j"] && 10 !in s1.running;
    var s2 := Step(s1, Begin(10, NEW_DEVICE));
    assert s2.u.knownCountries == ["A", "B"] && s2.running[10] == Started(Signals(true, true, true));
    var t := Step(s2, Check(10, Allow, MAX_SCORE));
    forall id: nat | id < 9
      ensures Waiting(t, id)
    {
      assert Waiting(s, id);
    }
  }

  /** A failed login from a banned address is scored zero and blocks the account. */
  lemma BannedLoginBlocks(s: State)
    requires LoggedIn(s)
    ensures BlockedSince(Step(Step(Step(Step(s, Begin(11, FAILURE)), Check(11, Ban, 0.0)), Commit(11)), Judge(11)))
  {
    ScoringChecks(s, 11, FAILURE, Ban, 0.0);
    var m := Step(Step(s, Begin(11, FAILURE)), Check(11, Ban, 0.0));
    ScoringReports(m, 11);
    var t := Step(Step(m, Commit(11)), Judge(11));
    forall id: nat | id < 9
      ensures Waiting(t, id)
    {
      assert Waiting(s, id);
    }
  }

  function Logins(): seq<Action> {
    [Begin(9, AT_HOME), Begin(10, NEW_DEVICE)] + [Check(10, Allow, MAX_SCORE)]
  }

  function BlockedMeanwhile(): seq<Action> {
    Logins() + Scoring4(11, FAILURE, Ban, 0.0)
  }

  lemma AfterLogins(acts: seq<Action>, s: State)
    requires s == Run(INIT, acts)
    requires s.u == NEW_USER && Free(s, 9) && AllWaiting(s, 0, 9) && s.reports == []
    ensures LoggedIn(Run(INIT, acts + Logins()))
  {
    var two := [Begin(9, AT_HOME), Begin(10, NEW_DEVICE)];
    RunTwo(INIT, acts, two[0], two[1]);
    RunOne(INIT, acts + two, Check(10, Allow, MAX_SCORE));
    assert acts + Logins() == acts + two + [Check(10, Allow, MAX_SCORE)];
    NewDeviceChecks(s);
  }

  lemma AfterBannedLogin(acts: seq<Action>, s: State)
    requires s == Run(INIT, acts) && LoggedIn(s)
    ensures BlockedSince(Run(INIT, acts + Scoring4(11, FAILURE, Ban, 0.0)))
  {
    ScoringSteps(acts, 11, FAILURE, Ban, 0.0);
    BannedLoginBlocks(s);
  }

  lemma AfterMeanwhile(first: seq<Action>, s: State)
    requires s == Run(INIT, first)
    requires s.u == NEW_USER && Free(s, 9) && AllWaiting(s, 0, 9) && s.reports == []
    ensures BlockedSince(Run(INIT, first + BlockedMeanwhile()))
  {
    AfterLogins(first, s);
    AfterBannedLogin(first + Logins(), Run(INIT, first + Logins()));
    assert first + BlockedMeanwhile() == first + Logins() + Scoring4(11, FAILURE, Ban, 0.0);
  }

  lemma NewDeviceReports(s: State)
    requires s.u.score == 769 && s.u.everBlocked && |s.u.knownCountries| == 2 && NewDeviceWaits(s) && |s.reports| == 1
    ensures var t := Step(Step(s, Commit(10)), Judge(10));
            && |t.reports| == 2 && FromBlockedDevice(t.reports[1])
            && t.reports[1].score == 804 && t.reports[1].decision == AllowStricter
  {
    ReboundNine();
    ScoringReports(s, 10);
  }

  /** A concrete failure of the blocked-device promise: nine scorings and a login from a new
      country and device check; a login from a banned address then zeroes and blocks the
      account; the nine commit, the login commits on top of them and is answered 8.04 and
      "allow+stricter". */
  lemma BlockedDevicePasses(s: State)
    requires s == Run(INIT, Overtaken(9) + BlockedMeanwhile())
    ensures var t := Run(s, CommitAll(9) + [Commit(10), Judge(10)]);
            && |t.reports| == 2 && FromBlockedDevice(t.reports[1])
            && t.reports[1].score == 804 && t.reports[1].decision == AllowStricter
  {
    OvertakenWait(9);
    AfterMeanwhile(Overtaken(9), Run(INIT, Overtaken(9)));
    CommitsRebound(s, 9, 9);
    ReboundNine();
    NewDeviceReports(Run(s, CommitAll(9)));
    RunTwo(s, CommitAll(9), Commit(10), Judge(10));
  }

  /** A scoring that nothing disturbs does keep the blocked-device promise: where the early
      answer would apply, the hard override has already forced at most 0.50. */
  lemma UndisturbedBlockedDeviceIsStopped(u: User, v: Visit, ipDecision: Decision, raw: real)
    requires u.everBlocked && SignalsOf(u, v).newJA4 && 0.0 <= raw <= MAX_SCORE
    ensures var s := Alone(u, v, ipDecision, raw);
            |s.reports| == 1 && !Lenient(s.reports[0].decision)
  {
    var u1 := AfterVisit(u, v);
    var override := UserOverride(u1, SignalsOf(u, v), ipDecision);
    var u2 := if override.Some? then WithScore(u1, override.value) else Blended(u1, raw);
    AloneIs(u, v, ipDecision, raw, u1, u2, UserPolicy(u2, SignalsOf(u, v), ipDecision, MakeDecision(u2.score)));
  }
}
