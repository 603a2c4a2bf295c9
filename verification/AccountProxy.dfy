/** The requests of one account against its trust record: what a CRITICAL hit on the account
    means for everything forwarded for it afterwards, from whatever address. */
module AccountProxy {
  import opened Scores
  import opened IPProfiles
  import opened Gatekeeping
  import opened Proxy
  import UserInterleaving

  /** p is the profile of the address a request comes from, whatever that is. */
  datatype AccountAction =
    | Reputation(a: UserInterleaving.Action)
    | Submit(id: nat, req: Request, w: World, p: Profile)
    | Answer(id: nat, admitted: bool)

  datatype Account = Account(s: UserInterleaving.State, gate: Gate)

  /** The gatekeeper reads the account's score and flag as they are now. */
  function AccountVerdict(s: UserInterleaving.State, p: Profile): Decision {
    Gatekeeper(p, Some(UserStanding(s.u.score, s.u.everBlocked)))
  }

  function AccountStep(c: Settings, t: Account, a: AccountAction): Account {
    match a
    case Reputation(b) => t.(s := UserInterleaving.Step(t.s, b))
    case Submit(id, req, w, p) => t.(gate := Arrived(t.gate, id, Visit(req, w, AccountVerdict(t.s, p), t.s.clock)))
    case Answer(id, admitted) => t.(gate := Concluded(c, t.gate, id, admitted))
  }

  function AccountRun(c: Settings, t: Account, acts: seq<AccountAction>): Account {
    if acts == [] then t else AccountStep(c, AccountRun(c, t, acts[..|acts| - 1]), acts[|acts| - 1])
  }

  const NEW_ACCOUNT := Account(UserInterleaving.INIT, Gate(map[], []))

  function ReputationSide(acts: seq<AccountAction>): seq<UserInterleaving.Action> {
    if acts == [] then []
    else ReputationSide(acts[..|acts| - 1]) + if acts[|acts| - 1].Reputation? then [acts[|acts| - 1].a] else []
  }

  lemma {:induction false} ReputationRuns(c: Settings, t: Account, acts: seq<AccountAction>)
    ensures AccountRun(c, t, acts).s == UserInterleaving.Run(t.s, ReputationSide(acts))
  {
    if acts != [] {
      ReputationRuns(c, t, acts[..|acts| - 1]);
      var side := ReputationSide(acts);
      if acts[|acts| - 1].Reputation? {
        assert side[..|side| - 1] == ReputationSide(acts[..|acts| - 1]);
      } else {
        assert side == ReputationSide(acts[..|acts| - 1]);
      }
    }
  }

  lemma ReputationTicks(s: UserInterleaving.State, a: UserInterleaving.Action)
    ensures UserInterleaving.Step(s, a).clock == s.clock + 1
  {
  }

  lemma {:induction false} NothingAskedAhead(c: Settings, acts: seq<AccountAction>)
    ensures JudgedBy(AccountRun(c, NEW_ACCOUNT, acts).gate, AccountRun(c, NEW_ACCOUNT, acts).s.clock)
  {
    if acts != [] {
      NothingAskedAhead(c, acts[..|acts| - 1]);
      var t := AccountRun(c, NEW_ACCOUNT, acts[..|acts| - 1]);
      if acts[|acts| - 1].Reputation? {
        ReputationTicks(t.s, acts[|acts| - 1].a);
      }
    }
  }

  const ACCOUNT_HIT := UserInterleaving.RaspHit(SEV_CRITICAL)

  /** The scorings of the account that were past their check when the hit came. */
  function OvertakenAt(t0: Account): nat {
    |UserInterleaving.Stale(t0.s, t0.s.clock)|
  }

  /** Everyone, if what those scorings can rebuild stays below the challenge band. */
  function AccountShutAt(t0: Account): Request -> bool {
    _ => UserInterleaving.Rebound(OvertakenAt(t0)) < 300
  }

  lemma AccountGateAfterHit(c: Settings, before: seq<AccountAction>, t0: Account, later: seq<AccountAction>, t1: Account,
                            p: Profile)
    requires t0 == AccountRun(c, NEW_ACCOUNT, before)
    requires t1 == AccountRun(c, AccountStep(c, t0, Reputation(ACCOUNT_HIT)), later)
    ensures !Lenient(AccountVerdict(t1.s, p))
    ensures UserInterleaving.Rebound(OvertakenAt(t0)) < 300 ==> Refusing(AccountVerdict(t1.s, p))
  {
    ReputationRuns(c, NEW_ACCOUNT, before);
    ReputationRuns(c, AccountStep(c, t0, Reputation(ACCOUNT_HIT)), later);
    UserInterleaving.CriticalHitCapsScore(ReputationSide(before), t0.s, ReputationSide(later), t1.s, p);
  }

  /** After a CRITICAL hit on an account, no request of it that the gatekeeper judges later
      reaches the backend without a valid clearance cookie, from any address; and none at
      all while what the overtaken scorings can rebuild stays below 3.00. */
  lemma {:induction false} ForwardedAfterAccountHit(c: Settings, before: seq<AccountAction>, t0: Account,
                                                    later: seq<AccountAction>, t1: Account)
    requires t0 == AccountRun(c, NEW_ACCOUNT, before)
    requires t1 == AccountRun(c, AccountStep(c, t0, Reputation(ACCOUNT_HIT)), later)
    ensures Vetted(c, t1.gate, t0.s.clock, AccountShutAt(t0))
  {
    if later == [] {
      NothingAskedAhead(c, before);
    } else {
      var m := AccountRun(c, AccountStep(c, t0, Reputation(ACCOUNT_HIT)), later[..|later| - 1]);
      ForwardedAfterAccountHit(c, before, t0, later[..|later| - 1], m);
      match later[|later| - 1] {
        case Reputation(_) =>
        case Submit(id, req, w, p) =>
          AccountGateAfterHit(c, before, t0, later[..|later| - 1], m, p);
          ArrivedVetted(c, m.gate, id, Visit(req, w, AccountVerdict(m.s, p), m.s.clock), t0.s.clock, AccountShutAt(t0));
        case Answer(id, admitted) =>
          ConcludedVetted(c, m.gate, id, admitted, t0.s.clock, AccountShutAt(t0));
      }
    }
  }

  /** With at most two overtaken scorings the account is shut out for good. */
  lemma AccountIsShutOut(c: Settings, before: seq<AccountAction>, t0: Account, later: seq<AccountAction>, t1: Account)
    requires t0 == AccountRun(c, NEW_ACCOUNT, before)
    requires t1 == AccountRun(c, AccountStep(c, t0, Reputation(ACCOUNT_HIT)), later)
    requires OvertakenAt(t0) <= 2
    ensures forall i :: 0 <= i < |t1.gate.forwarded| ==> t1.gate.forwarded[i].at <= t0.s.clock
  {
    UserInterleaving.ReboundValues();
    UserInterleaving.ReboundMonotone(OvertakenAt(t0), 2);
    ForwardedAfterAccountHit(c, before, t0, later, t1);
  }

  /** Whatever reached the backend for the account had a probability below the threshold and
      every yes it needed. */
  lemma {:induction false} AccountForwardedWasCleared(c: Settings, acts: seq<AccountAction>)
    ensures AllCleared(c, AccountRun(c, NEW_ACCOUNT, acts).gate)
  {
    if acts != [] {
      var t := AccountRun(c, NEW_ACCOUNT, acts[..|acts| - 1]);
      var a := acts[|acts| - 1];
      AccountForwardedWasCleared(c, acts[..|acts| - 1]);
      if a.Answer? && a.id in t.gate.pending {
        ConcludedCleared(c, t.gate, a.id, a.admitted);
      }
    }
  }
}
