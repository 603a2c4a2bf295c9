/** The pre-request check: it reads the two profiles and recommends an action. */
module Gatekeeping {
  import opened Scores
  import opened IPProfiles

  /** What Gatekeeper reads from a user profile. */
  datatype UserStanding = UserStanding(score: Cents, everBlocked: bool)

  const DEFAULT_SCORE: Cents := 750

  function IPScore(p: Profile): Cents {
    if p.previousScores == [] then DEFAULT_SCORE else p.previousScores[|p.previousScores| - 1]
  }

  /** The user's own score decides when there is one; anyone ever blocked is at least
      challenged. */
  function Gatekeeper(p: Profile, user: Option<UserStanding>): Decision {
    var score := if user.Some? then user.value.score else IPScore(p);
    var everBlocked := p.wasBlocked || (user.Some? && user.value.everBlocked);
    var recommended := MakeDecision(score);
    if everBlocked && Lenient(recommended) then Challenge else recommended
  }

  lemma EverBlockedIsNeverLenient(p: Profile, user: Option<UserStanding>)
    requires p.wasBlocked || (user.Some? && user.value.everBlocked)
    ensures !Lenient(Gatekeeper(p, user))
  {
  }

  /** The address of an account neither lifts nor lowers its answer, but for the blocked flag. */
  lemma AccountOutranksAddress(p: Profile, q: Profile, user: UserStanding)
    requires p.wasBlocked == q.wasBlocked
    ensures Gatekeeper(p, Some(user)) == Gatekeeper(q, Some(user))
  {
  }

  /** The exact bands: an account by its own score, an anonymous caller by the address's most
      recent one, or 7.50 without any; a block on record costs leniency and nothing else. */
  lemma GatekeeperBands(p: Profile, user: UserStanding)
    ensures Lenient(Gatekeeper(p, Some(user))) <==> user.score >= 500 && !user.everBlocked && !p.wasBlocked
    ensures Refusing(Gatekeeper(p, Some(user))) <==> user.score < 300
    ensures Lenient(Gatekeeper(p, None))
            <==> !p.wasBlocked && (p.previousScores == [] || p.previousScores[|p.previousScores| - 1] >= 500)
    ensures Refusing(Gatekeeper(p, None))
            <==> p.previousScores != [] && p.previousScores[|p.previousScores| - 1] < 300
    ensures Gatekeeper(p, None).Allow?
            <==> !p.wasBlocked && p.previousScores != [] && p.previousScores[|p.previousScores| - 1] >= 800
    ensures Gatekeeper(p, None).Ban? <==> p.previousScores != [] && p.previousScores[|p.previousScores| - 1] < 100
  {
  }
}
