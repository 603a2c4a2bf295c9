/** The in-memory profile store: what an address keeps for as long as its profile lives,
    and exactly when the eviction loop ends that. */
module IPStores {
  import opened Scores
  import opened IPProfiles
  import opened Gatekeeping
  import opened IPInterleaving

  const MAX_UNSEEN := 3600.0

  predicate Expired(lastSeen: real, now: real) {
    now - lastSeen > MAX_UNSEEN
  }

  predicate Unseen(p: Profile, now: real) {
    Expired(p.lastSeen, now)
  }

  class MemoryIPStore {
    var profiles: map<string, IPProfile>

    ghost predicate Valid()
      reads this
    {
      forall a, b :: a in profiles && b in profiles && a != b ==> profiles[a] != profiles[b]
    }

    ghost function View(): map<string, Profile>
      reads this, profiles.Values
    {
      map ip | ip in profiles :: profiles[ip].View()
    }

    constructor ()
      ensures Valid() && View() == map[]
    {
      profiles := map[];
    }

    /** The stored profile, or a new one that is stored. */
    method Load(ip: string) returns (p: IPProfile)
      requires Valid()
      modifies this
      ensures Valid() && ip in profiles && profiles[ip] == p
      ensures View() == if ip in old(View()) then old(View()) else old(View())[ip := FRESH]
    {
      if ip in profiles {
        return profiles[ip];
      }
      p := new IPProfile();
      profiles := profiles[ip := p];
    }

    /** One pass of evictLoop. */
    method EvictUnseen(now: real)
      requires Valid()
      modifies this
      ensures Valid()
      ensures View() == map ip | ip in old(View()) && !Unseen(old(View())[ip], now) :: old(View())[ip]
    {
      var todo := profiles.Keys;
      ghost var all := profiles;
      while todo != {}
        invariant todo <= profiles.Keys <= all.Keys
        invariant forall ip :: ip in profiles ==> profiles[ip] == all[ip]
        invariant forall ip :: ip in all && ip !in todo ==> (ip in profiles <==> !Expired(all[ip].lastSeen, now))
        decreases |todo|
      {
        var ip :| ip in todo;
        todo := todo - {ip};
        if now - profiles[ip].lastSeen > MAX_UNSEEN {
          profiles := profiles - {ip};
        }
      }
    }
  }

  // ---------- many addresses, evicted or not ----------

  /** Everything that happens to the addresses of one store. Every access loads the
      profile. A scoring still running on an evicted profile commits to an orphan. */
  datatype StoreAction = On(ip: string, a: Action) | Evict(now: real)

  type Store = map<string, State>

  function Get(t: Store, ip: string): State {
    if ip in t then t[ip] else INIT
  }

  function StoreStep(t: Store, a: StoreAction): Store {
    match a
    case On(ip, b) => t[ip := Step(Get(t, ip), b)]
    case Evict(now) => map ip | ip in t && !Unseen(t[ip].p, now) :: t[ip]
  }

  function StoreRun(t: Store, acts: seq<StoreAction>): Store {
    if acts == [] then t else StoreStep(StoreRun(t, acts[..|acts| - 1]), acts[|acts| - 1])
  }

  /** The address's own part of a run. */
  function ActionsOn(acts: seq<StoreAction>, ip: string): seq<Action> {
    if acts == [] then []
    else
      var a := acts[|acts| - 1];
      ActionsOn(acts[..|acts| - 1], ip) + if a.On? && a.ip == ip then [a.a] else []
  }

  /** No eviction pass of the run finds the address unseen for more than an hour. */
  predicate KeptAlive(t: Store, acts: seq<StoreAction>, ip: string) {
    acts == [] ||
    (&& KeptAlive(t, acts[..|acts| - 1], ip)
     && (acts[|acts| - 1].Evict? ==> !Unseen(Get(StoreRun(t, acts[..|acts| - 1]), ip).p, acts[|acts| - 1].now)))
  }

  /** Addresses do not disturb each other, and while an address is kept alive its state is
      that of its own actions alone. */
  lemma {:induction false} KeptAliveRunsAlone(t: Store, acts: seq<StoreAction>, ip: string)
    requires ip in t && KeptAlive(t, acts, ip)
    ensures ip in StoreRun(t, acts) && StoreRun(t, acts)[ip] == Run(t[ip], ActionsOn(acts, ip))
  {
    if acts != [] {
      var a := acts[|acts| - 1];
      KeptAliveRunsAlone(t, acts[..|acts| - 1], ip);
      var mine := ActionsOn(acts, ip);
      if a.On? && a.ip == ip {
        assert mine[..|mine| - 1] == ActionsOn(acts[..|acts| - 1], ip);
      } else {
        assert mine == ActionsOn(acts[..|acts| - 1], ip);
      }
    }
  }

  /** A pass that finds the address unseen wipes it: nothing incriminating is left and the
      gatekeeper lets anonymous requests through. */
  lemma EvictionForgets(t: Store, ip: string, now: real)
    requires Unseen(Get(t, ip).p, now)
    ensures Get(StoreStep(t, Evict(now)), ip) == INIT
    ensures Gatekeeper(Get(StoreStep(t, Evict(now)), ip).p, None) == AllowStricter
  {
  }

  lemma OnePass(t: Store, ip: string, now: real)
    requires ip in t && Gatekeeper(t[ip].p, None).Ban?
    ensures Gatekeeper(Get(StoreStep(t, Evict(now)), ip).p, None).Ban? <==> !Unseen(t[ip].p, now)
  {
    if Unseen(t[ip].p, now) {
      EvictionForgets(t, ip, now);
    }
  }

  lemma OneMore(t: Store, acts: seq<StoreAction>, a: StoreAction, ip: string)
    ensures StoreRun(t, acts + [a]) == StoreStep(StoreRun(t, acts), a)
    ensures KeptAlive(t, acts + [a], ip)
            <==> KeptAlive(t, acts, ip) && (a.Evict? ==> !Unseen(Get(StoreRun(t, acts), ip).p, a.now))
  {
    assert (acts + [a])[..|acts|] == acts;
  }

  /** How long a CRITICAL hit lasts: with no scoring past its check at the hit, the next
      anonymous verdict after an eviction pass is "ban" if and only if neither that pass
      nor an earlier one since the hit found the address unseen. */
  lemma BanLastsUntilUnseen(before: seq<Action>, s0: State, t1: Store, later: seq<StoreAction>, ip: string, now: real)
    requires s0 == Run(INIT, before) && Stale(s0, s0.clock) == {}
    requires ip in t1 && t1[ip] == Step(s0, RaspHit(SEV_CRITICAL))
    requires KeptAlive(t1, later, ip)
    ensures Gatekeeper(Get(StoreRun(t1, later + [Evict(now)]), ip).p, None).Ban?
            <==> KeptAlive(t1, later + [Evict(now)], ip)
  {
    KeptAliveRunsAlone(t1, later, ip);
    CriticalHitBansWhenQuiet(before, s0, ActionsOn(later, ip), StoreRun(t1, later)[ip]);
    OnePass(StoreRun(t1, later), ip, now);
    OneMore(t1, later, Evict(now), ip);
  }

  /** Only a committed scoring counts as seeing an address. */
  lemma OnlyCommitsAreSightings(s: State, a: Action)
    ensures Step(s, a).p.lastSeen == if Commits(s, a) then s.running[a.id].e.timestamp else s.p.lastSeen
  {
  }

  /** So an address known from RASP hits alone, however many and however grave, is wiped
      by the first pass: its profile says it was last seen at time zero. */
  lemma {:induction false} HitsAloneAreForgotten(hits: seq<Action>, now: real)
    requires forall i :: 0 <= i < |hits| ==> hits[i].RaspHit?
    ensures Run(INIT, hits).p.lastSeen == 0.0
    ensures Unseen(Run(INIT, hits).p, now) <==> now > 3600.0
  {
    if hits != [] {
      HitsAloneAreForgotten(hits[..|hits| - 1], now);
      OnlyCommitsAreSightings(Run(INIT, hits[..|hits| - 1]), hits[|hits| - 1]);
    }
  }
}
