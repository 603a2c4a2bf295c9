/** The long-term reputation record of one account. */
module UserProfiles {
  import opened Scores
  import opened Ewma
  import IPProfiles

  const HISTORY_LIMIT := 30
  const INITIAL_SCORE: Cents := 750

  datatype User = User(
    score: Cents,
    history: seq<Cents>,
    failedLogins: nat,
    successLogins: nat,
    sessionFailedLogins: nat,
    knownIPs: seq<string>,
    knownCountries: seq<string>,
    knownJA4s: seq<string>,
    everBlocked: bool,
    everChallenged: bool,
    raspHits: seq<IPProfiles.Severity>,
    confirmedExploit: bool)

  const NEW_USER := User(INITIAL_SCORE, [], 0, 0, 0, [], [], [], false, false, [], false)

  /** The identity facts of one event. */
  datatype Visit = Visit(ip: string, country: string, ja4: string, isLogin: bool, succeeded: bool)

  /** What buildUserBehaviorSignals keeps for the override and policy checks. */
  datatype Signals = Signals(isLogin: bool, newCountry: bool, newJA4: bool)

  function PushScore(history: seq<Cents>, score: Cents): seq<Cents> {
    if |history| >= HISTORY_LIMIT then history[1..] + [score] else history + [score]
  }

  function WithScore(u: User, score: Cents): User {
    u.(score := score, history := PushScore(u.history, score))
  }

  function Blended(u: User, obs: real): User {
    WithScore(u, Blend(u.score, obs))
  }

  function Learn(known: seq<string>, x: string): seq<string> {
    if x in known then known else known + [x]
  }

  /** RecordLogin, or nothing (that matters here) for any other event. */
  function AfterVisit(u: User, v: Visit): User {
    if !v.isLogin then u
    else if v.succeeded then
      u.(successLogins := u.successLogins + 1,
         sessionFailedLogins := 0,
         knownIPs := Learn(u.knownIPs, v.ip),
         knownCountries := Learn(u.knownCountries, v.country),
         knownJA4s := if v.ja4 == "" then u.knownJA4s else Learn(u.knownJA4s, v.ja4))
    else u.(failedLogins := u.failedLogins + 1, sessionFailedLogins := u.sessionFailedLogins + 1)
  }

  function SignalsOf(u: User, v: Visit): Signals {
    Signals(v.isLogin, v.country !in u.knownCountries, v.ja4 !in u.knownJA4s)
  }

  /** A CRITICAL effect drops the score to zero at once and sets the sticky flags. */
  function AfterRaspHit(u: User, s: IPProfiles.Severity): User {
    var v := u.(raspHits := IPProfiles.KeepLast(u.raspHits, s, IPProfiles.MAX_RASP_HITS));
    if s == IPProfiles.SEV_CRITICAL
    then WithScore(v, 0).(confirmedExploit := true, everBlocked := true)
    else v
  }

  /** checkUserHardOverrides: the first matching rule wins. */
  function UserOverride(u: User, g: Signals, ipDecision: Decision): Option<Cents> {
    if u.confirmedExploit then Some(0)
    else if u.failedLogins >= 20 then Some(50)
    else if ipDecision.Ban? && g.isLogin then Some(0)
    else if u.everBlocked && g.newCountry && g.newJA4 then Some(50)
    else None
  }

  /** applyUserPolicyOverrides. The first rule answers "allow+stricter", although its
      comment in the source asks for a challenge. */
  function UserPolicy(u: User, g: Signals, ipDecision: Decision, decision: Decision): Decision {
    if g.isLogin && g.newCountry && u.knownCountries != [] && decision.Allow? then AllowStricter
    else if u.everBlocked && g.newJA4 && Lenient(decision) then Challenge
    else if Refusing(ipDecision) && Lenient(decision) then Challenge
    else decision
  }

  /** The case in which the first rule answers before the other two are looked at. */
  predicate AnsweredEarly(u: User, g: Signals, decision: Decision) {
    decision.Allow? && g.isLogin && g.newCountry && u.knownCountries != []
  }

  /** "IP layer says block/ban: user layer cannot allow" holds but for the early answer. */
  lemma RefusedAddressPassesIff(u: User, g: Signals, ipDecision: Decision, decision: Decision)
    requires Refusing(ipDecision)
    ensures Lenient(UserPolicy(u, g, ipDecision, decision)) <==> AnsweredEarly(u, g, decision)
  {
  }

  /** "Previously blocked user and new device: at minimum challenge" likewise. */
  lemma BlockedDevicePassesIff(u: User, g: Signals, ipDecision: Decision, decision: Decision)
    requires u.everBlocked && g.newJA4
    ensures Lenient(UserPolicy(u, g, ipDecision, decision)) <==> AnsweredEarly(u, g, decision)
  {
  }

  /** "New country login: at minimum challenge" fails for every score of 8.00 or more, and
      below that unless one of the other two rules steps in. */
  lemma NewCountryPassesIff(u: User, g: Signals, ipDecision: Decision, decision: Decision)
    requires g.isLogin && g.newCountry && u.knownCountries != []
    ensures Lenient(UserPolicy(u, g, ipDecision, decision))
            <==> decision.Allow?
                 || (decision.AllowStricter? && !(u.everBlocked && g.newJA4) && !Refusing(ipDecision))
  {
  }

  /** The flag write-back after the decision. */
  function AfterDecision(u: User, decision: Decision): User {
    u.(everBlocked := u.everBlocked || Refusing(decision),
       everChallenged := u.everChallenged || decision.Challenge?)
  }

  class UserTrustProfile {
    var score: Cents
    var history: seq<Cents>
    var failedLogins: nat
    var successLogins: nat
    var sessionFailedLogins: nat
    var knownIPs: seq<string>
    var knownCountries: seq<string>
    var knownJA4s: seq<string>
    var everBlocked: bool
    var everChallenged: bool
    var raspHits: seq<IPProfiles.Severity>
    var confirmedExploit: bool

    ghost function View(): User
      reads this
    {
      User(score, history, failedLogins, successLogins, sessionFailedLogins, knownIPs, knownCountries, knownJA4s,
           everBlocked, everChallenged, raspHits, confirmedExploit)
    }

    constructor ()
      ensures View() == NEW_USER
    {
      score, history := INITIAL_SCORE, [];
      failedLogins, successLogins, sessionFailedLogins := 0, 0, 0;
      knownIPs, knownCountries, knownJA4s := [], [], [];
      everBlocked, everChallenged := false, false;
      raspHits, confirmedExploit := [], false;
    }

    /** Append to the bounded score history. */
    method AddScoreHistory(s: Cents)
      modifies `history
      ensures history == PushScore(old(history), s)
    {
      assert history != [] ==> history[1..] + [s] == (history + [s])[1..];
      history := history + [s];
      if |history| > HISTORY_LIMIT {
        history := history[1..];
      }
    }

    method UpdateEWMA(obs: real)
      modifies this
      ensures View() == Blended(old(View()), obs)
    {
      var blended := ALPHA * obs + (1.0 - ALPHA) * (score as real / 100.0);
      score := ToCents(ClampScore(blended));
      AddScoreHistory(score);
    }

    /** The override branch of step 7: straight to the override, no smoothing. */
    method ForceScore(override: Cents)
      modifies this
      ensures View() == WithScore(old(View()), override)
    {
      score := override;
      AddScoreHistory(score);
    }

    method RecordLogin(v: Visit)
      requires v.isLogin
      modifies this
      ensures View() == AfterVisit(old(View()), v)
    {
      if v.succeeded {
        successLogins := successLogins + 1;
        sessionFailedLogins := 0;
        knownIPs := Learn(knownIPs, v.ip);
        knownCountries := Learn(knownCountries, v.country);
        if v.ja4 != "" {
          knownJA4s := Learn(knownJA4s, v.ja4);
        }
      } else {
        failedLogins := failedLogins + 1;
        sessionFailedLogins := sessionFailedLogins + 1;
      }
    }

    method AddRASPHit(s: IPProfiles.Severity)
      modifies this
      ensures View() == AfterRaspHit(old(View()), s)
    {
      if |raspHits| >= IPProfiles.MAX_RASP_HITS {
        raspHits := raspHits[1..];
      }
      raspHits := raspHits + [s];
      if s == IPProfiles.SEV_CRITICAL {
        confirmedExploit := true;
        everBlocked := true;
        score := 0;
        AddScoreHistory(0);
      }
    }

    method CheckUserHardOverrides(g: Signals, ipDecision: Decision) returns (override: Option<Cents>)
      ensures override == UserOverride(View(), g, ipDecision)
    {
      if confirmedExploit {
        return Some(0);
      }
      if failedLogins >= 20 {
        return Some(50);
      }
      if ipDecision.Ban? && g.isLogin {
        return Some(0);
      }
      if everBlocked && g.newCountry && g.newJA4 {
        return Some(50);
      }
      return None;
    }

    method ApplyUserPolicyOverrides(g: Signals, ipDecision: Decision, decision: Decision) returns (d: Decision)
      ensures d == UserPolicy(View(), g, ipDecision, decision)
    {
      if g.isLogin && g.newCountry && |knownCountries| > 0 && decision.Allow? {
        return AllowStricter;
      }
      if everBlocked && g.newJA4 && Lenient(decision) {
        return Challenge;
      }
      if Refusing(ipDecision) && Lenient(decision) {
        return Challenge;
      }
      return decision;
    }

    method WriteFlags(decision: Decision)
      modifies this
      ensures View() == AfterDecision(old(View()), decision)
    {
      match decision {
        case Block => everBlocked := true;
        case Ban => everBlocked := true;
        case Challenge => everChallenged := true;
        case _ =>
      }
    }

    /** Mean of the last n stored scores, in cents; the score itself when there are none. */
    method AverageRecentScore(n: nat) returns (avg: real)
      requires n > 0
      ensures history == [] ==> avg == score as real
      ensures history != [] ==> var take := if n > |history| then |history| else n;
                                avg == Total(history[|history| - take..]) as real / take as real
    {
      if |history| == 0 {
        return score as real;
      }
      var take := if n > |history| then |history| else n;
      var sum: nat := 0;
      for i := |history| - take to |history|
        invariant sum == Total(history[|history| - take..i])
      {
        var from := |history| - take;
        assert history[from..i + 1][..i - from] == history[from..i];
        sum := sum + history[i];
      }
      assert history[|history| - take..|history|] == history[|history| - take..];
      avg := sum as real / take as real;
    }
  }
}
