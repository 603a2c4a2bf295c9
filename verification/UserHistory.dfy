/** What an account's record knows, against everything that ever happened to it, in every
    interleaving. */
module UserHistory {
  import opened Scores
  import opened Ewma
  import opened UserProfiles
  import opened UserInterleaving
  import IPHistory
  import IPProfiles

  /** The logins a run recorded, in order: a scoring records its own when it begins. */
  function LoginsOf(acts: seq<Action>): seq<Visit> {
    if acts == [] then []
    else
      var s, a := Run(INIT, acts[..|acts| - 1]), acts[|acts| - 1];
      LoginsOf(acts[..|acts| - 1]) + if a.Begin? && a.id !in s.running && a.v.isLogin then [a.v] else []
  }

  function Count(vs: seq<Visit>, succeeded: bool): nat {
    if vs == [] then 0
    else Count(vs[..|vs| - 1], succeeded) + if vs[|vs| - 1].succeeded == succeeded then 1 else 0
  }

  function FailuresSinceSuccess(vs: seq<Visit>): nat {
    if vs == [] || vs[|vs| - 1].succeeded then 0 else FailuresSinceSuccess(vs[..|vs| - 1]) + 1
  }

  predicate CameFrom(vs: seq<Visit>, ip: string) {
    exists i :: 0 <= i < |vs| && vs[i].succeeded && vs[i].ip == ip
  }

  predicate CameFromCountry(vs: seq<Visit>, country: string) {
    exists i :: 0 <= i < |vs| && vs[i].succeeded && vs[i].country == country
  }

  /** A login without a print teaches none. */
  predicate CameWith(vs: seq<Visit>, ja4: string) {
    exists i :: 0 <= i < |vs| && vs[i].succeeded && vs[i].ja4 == ja4 && ja4 != ""
  }

  predicate NoneTwice(known: seq<string>) {
    forall i, j :: 0 <= i < j < |known| ==> known[i] != known[j]
  }

  ghost predicate LoginsOnFile(u: User, vs: seq<Visit>) {
    && u.failedLogins == Count(vs, false) && u.successLogins == Count(vs, true)
    && u.sessionFailedLogins == FailuresSinceSuccess(vs)
    && (forall x :: x in u.knownIPs <==> CameFrom(vs, x))
    && (forall x :: x in u.knownCountries <==> CameFromCountry(vs, x))
    && (forall x :: x in u.knownJA4s <==> CameWith(vs, x))
    && NoneTwice(u.knownIPs) && NoneTwice(u.knownCountries) && NoneTwice(u.knownJA4s)
  }

  lemma OneMoreLogin(vs: seq<Visit>, v: Visit)
    ensures forall x :: CameFrom(vs + [v], x) <==> CameFrom(vs, x) || (v.succeeded && v.ip == x)
    ensures forall x :: CameFromCountry(vs + [v], x) <==> CameFromCountry(vs, x) || (v.succeeded && v.country == x)
    ensures forall x :: CameWith(vs + [v], x) <==> CameWith(vs, x) || (v.succeeded && v.ja4 == x && x != "")
  {
    assert (vs + [v])[|vs|] == v;
    assert forall i :: 0 <= i < |vs| ==> (vs + [v])[i] == vs[i];
  }

  lemma LearnsOnce(known: seq<string>, x: string)
    requires NoneTwice(known)
    ensures NoneTwice(Learn(known, x))
    ensures forall y :: y in Learn(known, x) <==> y in known || y == x
  {
  }

  lemma VisitOnFile(u: User, vs: seq<Visit>, v: Visit)
    requires LoginsOnFile(u, vs) && v.isLogin
    ensures LoginsOnFile(AfterVisit(u, v), vs + [v])
  {
    OneMoreLogin(vs, v);
    LearnsOnce(u.knownIPs, v.ip);
    LearnsOnce(u.knownCountries, v.country);
    LearnsOnce(u.knownJA4s, v.ja4);
    assert (vs + [v])[..|vs|] == vs;
  }

  /** Only a recorded login touches what logins file. */
  lemma StepVisits(s: State, a: Action)
    ensures var t := Step(s, a);
            if a.Begin? && a.id !in s.running && a.v.isLogin then t.u == AfterVisit(s.u, a.v)
            else
              && t.u.failedLogins == s.u.failedLogins && t.u.successLogins == s.u.successLogins
              && t.u.sessionFailedLogins == s.u.sessionFailedLogins && t.u.knownIPs == s.u.knownIPs
              && t.u.knownCountries == s.u.knownCountries && t.u.knownJA4s == s.u.knownJA4s
  {
  }

  /** In every reachable state the login counters and the known addresses, countries and
      device prints are those of the complete login history. */
  lemma {:induction false} RecordRemembersLogins(acts: seq<Action>)
    ensures LoginsOnFile(Run(INIT, acts).u, LoginsOf(acts))
  {
    if acts != [] {
      var s := Run(INIT, acts[..|acts| - 1]);
      var a := acts[|acts| - 1];
      RecordRemembersLogins(acts[..|acts| - 1]);
      StepVisits(s, a);
      if a.Begin? && a.id !in s.running && a.v.isLogin {
        VisitOnFile(s.u, LoginsOf(acts[..|acts| - 1]), a.v);
      } else {
        assert LoginsOf(acts) == LoginsOf(acts[..|acts| - 1]);
      }
    }
  }

  // ---------- verdicts, hits and scores ----------

  predicate SomeRefused(rs: seq<Report>) {
    exists i :: 0 <= i < |rs| && Refusing(rs[i].decision)
  }

  predicate SomeChallenged(rs: seq<Report>) {
    exists i :: 0 <= i < |rs| && rs[i].decision.Challenge?
  }

  lemma ReportsGrow(rs: seq<Report>, r: Report)
    ensures SomeRefused(rs + [r]) <==> SomeRefused(rs) || Refusing(r.decision)
    ensures SomeChallenged(rs + [r]) <==> SomeChallenged(rs) || r.decision.Challenge?
  {
    assert (rs + [r])[|rs|] == r;
    assert forall i :: 0 <= i < |rs| ==> (rs + [r])[i] == rs[i];
  }

  function HitsOf(acts: seq<Action>): seq<IPProfiles.Severity> {
    if acts == [] then []
    else HitsOf(acts[..|acts| - 1]) + if acts[|acts| - 1].RaspHit? then [acts[|acts| - 1].severity] else []
  }

  predicate VerdictsOnFile(u: User, acts: seq<Action>, rs: seq<Report>) {
    && u.raspHits == IPHistory.Last(HitsOf(acts), IPProfiles.MAX_RASP_HITS)
    && (u.confirmedExploit <==> IPProfiles.SEV_CRITICAL in HitsOf(acts))
    && (u.everBlocked <==> SomeRefused(rs) || IPProfiles.SEV_CRITICAL in HitsOf(acts))
    && (u.everChallenged <==> SomeChallenged(rs))
  }

  predicate Reports(s: State, a: Action) {
    a.Judge? && a.id in s.running && s.running[a.id].Committed?
  }

  lemma StepVerdicts(s: State, a: Action)
    ensures var t := Step(s, a);
            && t.u.raspHits == (if a.RaspHit? then IPProfiles.KeepLast(s.u.raspHits, a.severity, IPProfiles.MAX_RASP_HITS)
                                else s.u.raspHits)
            && t.u.confirmedExploit == (s.u.confirmedExploit || a == RaspHit(IPProfiles.SEV_CRITICAL))
            && (if Reports(s, a) then
                  && |t.reports| == |s.reports| + 1 && t.reports[..|s.reports|] == s.reports
                  && t.u.everBlocked == (s.u.everBlocked || Refusing(t.reports[|s.reports|].decision))
                  && t.u.everChallenged == (s.u.everChallenged || t.reports[|s.reports|].decision.Challenge?)
                else
                  && t.reports == s.reports && t.u.everChallenged == s.u.everChallenged
                  && t.u.everBlocked == (s.u.everBlocked || a == RaspHit(IPProfiles.SEV_CRITICAL)))
  {
  }

  /** The hit log is the last hundred, and the flags say exactly whether a CRITICAL hit came,
      whether some report refused, and whether some report challenged. */
  lemma {:induction false} RecordRemembersVerdicts(acts: seq<Action>)
    ensures VerdictsOnFile(Run(INIT, acts).u, acts, Run(INIT, acts).reports)
  {
    if acts != [] {
      var front := acts[..|acts| - 1];
      var a := acts[|acts| - 1];
      var s := Run(INIT, front);
      RecordRemembersVerdicts(front);
      StepVerdicts(s, a);
      if a.RaspHit? {
        IPHistory.KeepsLast(HitsOf(front), a.severity, IPProfiles.MAX_RASP_HITS);
      } else if Reports(s, a) {
        var rs := Step(s, a).reports;
        assert rs == s.reports + [rs[|s.reports|]];
        ReportsGrow(s.reports, rs[|s.reports|]);
      }
    }
  }

  /** Every score the account ever had after the first: what commits stored, and a zero for
      every CRITICAL hit. */
  function ScoresOf(acts: seq<Action>): seq<Cents> {
    if acts == [] then []
    else
      var s, a := Run(INIT, acts[..|acts| - 1]), acts[|acts| - 1];
      ScoresOf(acts[..|acts| - 1])
      + if Commits(s, a) then
          var r := s.running[a.id];
          [if r.override.Some? then r.override.value else Blend(s.u.score, r.raw)]
        else if a == RaspHit(IPProfiles.SEV_CRITICAL) then [0]
        else []
  }

  lemma StepScores(s: State, a: Action)
    ensures var t := Step(s, a);
            if Commits(s, a) then
              var r := s.running[a.id];
              && t.u.score == (if r.override.Some? then r.override.value else Blend(s.u.score, r.raw))
              && t.u.history == PushScore(s.u.history, t.u.score)
            else if a == RaspHit(IPProfiles.SEV_CRITICAL) then t.u.score == 0 && t.u.history == PushScore(s.u.history, 0)
            else t.u.score == s.u.score && t.u.history == s.u.history
  {
  }

  /** The score is the latest of them, 7.50 before the first, and the history the last thirty. */
  lemma {:induction false} HistoryIsRecent(acts: seq<Action>)
    ensures var u := Run(INIT, acts).u;
            && u.score == (if ScoresOf(acts) == [] then 750 else ScoresOf(acts)[|ScoresOf(acts)| - 1])
            && u.history == IPHistory.Last(ScoresOf(acts), 30)
  {
    if acts != [] {
      var front := acts[..|acts| - 1];
      var s := Run(INIT, front);
      HistoryIsRecent(front);
      StepScores(s, acts[|acts| - 1]);
      var t := Step(s, acts[|acts| - 1]);
      IPHistory.KeepsLast(ScoresOf(front), t.u.score, 30);
    }
  }
}
