/** The pure arithmetic of ComputeTrustScore: nine sub-scores, a boost, the
    challenge bonus and the Tier 1 correction become one score in cents. */
module Fusion {
  import opened Scores

  datatype SubScores = SubScores(
    recon: real, bruteforce: real, ddos: real, session: real, scraping: real,
    evasion: real, vulnProbe: real, accountAbuse: real, rasp: real)
  {
    /** Every scoring module ends in math.Min(penalty, 1.0) of a non-negative sum. */
    predicate Valid() {
      && 0.0 <= recon <= 1.0 && 0.0 <= bruteforce <= 1.0 && 0.0 <= ddos <= 1.0
      && 0.0 <= session <= 1.0 && 0.0 <= scraping <= 1.0 && 0.0 <= evasion <= 1.0
      && 0.0 <= vulnProbe <= 1.0 && 0.0 <= accountAbuse <= 1.0 && 0.0 <= rasp <= 1.0
    }

    /** No module sees more risk than it does in other. */
    predicate AtMost(other: SubScores) {
      && recon <= other.recon && bruteforce <= other.bruteforce && ddos <= other.ddos
      && session <= other.session && scraping <= other.scraping && evasion <= other.evasion
      && vulnProbe <= other.vulnProbe && accountAbuse <= other.accountAbuse && rasp <= other.rasp
    }

    /** Some module is above 0.5: the map walk in the Tor branch. */
    predicate AnySuspicious() {
      || recon > 0.5 || bruteforce > 0.5 || ddos > 0.5 || session > 0.5 || scraping > 0.5
      || evasion > 0.5 || vulnProbe > 0.5 || accountAbuse > 0.5 || rasp > 0.5
    }
  }

  datatype Weights = Weights(
    recon: real, bruteforce: real, ddos: real, session: real, scraping: real,
    evasion: real, vulnProbe: real, accountAbuse: real, rasp: real)
  {
    predicate NonNegative() {
      && recon >= 0.0 && bruteforce >= 0.0 && ddos >= 0.0 && session >= 0.0 && scraping >= 0.0
      && evasion >= 0.0 && vulnProbe >= 0.0 && accountAbuse >= 0.0 && rasp >= 0.0
    }
  }

  const DEFAULT_WEIGHTS := Weights(0.20, 0.18, 0.15, 0.12, 0.10, 0.10, 0.10, 0.05, 0.40)
  const DEFAULT_GAIN := 3.0

  function WeightedRisk(w: Weights, s: SubScores): real {
    w.recon * s.recon + w.bruteforce * s.bruteforce + w.ddos * s.ddos
    + w.session * s.session + w.scraping * s.scraping + w.evasion * s.evasion
    + w.vulnProbe * s.vulnProbe + w.accountAbuse * s.accountAbuse + w.rasp * s.rasp
  }

  function FromRisk(risk: real, boost: real): real {
    ClampScore(10.0 * (1.0 - Max(0.0, risk - boost * 0.3)))
  }

  function WithChallenge(score: real, solved: bool): real {
    if solved then Min(MAX_SCORE, score + 0.15) else score
  }

  function Tier1Delta(ewma: real, gain: real): real {
    (ewma - 0.5) * 2.0 * gain
  }

  /** Corrections smaller than 0.01 points are dropped. */
  function WithTier1(score: real, ewma: real, gain: real): real {
    var delta := Tier1Delta(ewma, gain);
    if delta >= 0.01 || delta <= -0.01 then ClampScore(score + delta) else score
  }

  /** The score of ComputeTrustScore: an override replaces the weighted sum and also
      switches the Tier 1 correction off, but not the challenge bonus. */
  function FinalScore(override: Option<Cents>, w: Weights, s: SubScores, boost: real,
                      solved: bool, ewma: real, gain: real): Cents
  {
    match override
    case Some(v) => ToCents(WithChallenge(v as real / 100.0, solved))
    case None => ToCents(WithTier1(WithChallenge(FromRisk(WeightedRisk(w, s), boost), solved), ewma, gain))
  }

  /** The accumulator form of the source. */
  method ComputeFinalScore(override: Option<Cents>, w: Weights, s: SubScores, boost: real,
                           solved: bool, ewma: real, gain: real) returns (final: Cents)
    ensures final == FinalScore(override, w, s, boost, solved, ewma, gain)
  {
    var score: real;
    if override.Some? {
      score := override.value as real / 100.0;
    } else {
      var risk := 0.0;
      risk := risk + w.recon * s.recon;
      risk := risk + w.bruteforce * s.bruteforce;
      risk := risk + w.ddos * s.ddos;
      risk := risk + w.session * s.session;
      risk := risk + w.scraping * s.scraping;
      risk := risk + w.evasion * s.evasion;
      risk := risk + w.vulnProbe * s.vulnProbe;
      risk := risk + w.accountAbuse * s.accountAbuse;
      risk := risk + w.rasp * s.rasp;
      assert risk == WeightedRisk(w, s);
      risk := Max(0.0, risk - boost * 0.3);
      score := 10.0 * (1.0 - risk);
    }
    score := ClampScore(score);
    assert score == if override.Some? then override.value as real / 100.0 else FromRisk(WeightedRisk(w, s), boost);
    if solved {
      score := Min(MAX_SCORE, score + 0.15);
    }
    if override.None? {
      var delta := (ewma - 0.5) * 2.0 * gain;
      assert delta == Tier1Delta(ewma, gain);
      if delta >= 0.01 || delta <= -0.01 {
        score := ClampScore(score + delta);
      }
    }
    final := ToCents(score);
  }

  // ---------- the weighted path ----------

  lemma ProductMonotone(w: real, x: real, y: real)
    requires 0.0 <= w && x <= y
    ensures w * x <= w * y
  {
  }

  lemma RiskMonotone(w: Weights, s: SubScores, t: SubScores)
    requires w.NonNegative() && s.AtMost(t)
    ensures WeightedRisk(w, s) <= WeightedRisk(w, t)
  {
    var d1 := Excess(w.recon, s.recon, t.recon);
    var d2 := Excess(w.bruteforce, s.bruteforce, t.bruteforce);
    var d3 := Excess(w.ddos, s.ddos, t.ddos);
    var d4 := Excess(w.session, s.session, t.session);
    var d5 := Excess(w.scraping, s.scraping, t.scraping);
    var d6 := Excess(w.evasion, s.evasion, t.evasion);
    var d7 := Excess(w.vulnProbe, s.vulnProbe, t.vulnProbe);
    var d8 := Excess(w.accountAbuse, s.accountAbuse, t.accountAbuse);
    var d9 := Excess(w.rasp, s.rasp, t.rasp);
  }

  /** The (non-negative) amount by which a module's contribution grows. */
  lemma Excess(w: real, x: real, y: real) returns (d: real)
    requires 0.0 <= w && x <= y
    ensures d >= 0.0 && w * y == w * x + d
  {
    d := w * (y - x);
  }

  lemma Tier1Monotone(x: real, y: real, e: real, f: real, gain: real)
    requires 0.0 <= x <= y <= MAX_SCORE && e <= f && 0.0 <= gain
    ensures WithTier1(x, e, gain) <= WithTier1(y, f, gain)
  {
    assert Tier1Delta(e, gain) <= Tier1Delta(f, gain) by {
      ProductMonotone(2.0 * gain, e - 0.5, f - 0.5);
      assert Tier1Delta(e, gain) == (2.0 * gain) * (e - 0.5);
      assert Tier1Delta(f, gain) == (2.0 * gain) * (f - 0.5);
    }
  }

  /** Less risk in every module, more boost, a solved challenge and a kinder Tier 1
      verdict can only raise the score. */
  lemma ScoreIsMonotone(w: Weights, s: SubScores, t: SubScores, lowBoost: real, highBoost: real,
                        solved: bool, solved': bool, lowEwma: real, highEwma: real, gain: real)
    requires w.NonNegative() && gain >= 0.0
    requires s.AtMost(t) && lowBoost <= highBoost && (solved ==> solved') && lowEwma <= highEwma
    ensures FinalScore(None, w, t, lowBoost, solved, lowEwma, gain)
         <= FinalScore(None, w, s, highBoost, solved', highEwma, gain)
  {
    RiskMonotone(w, s, t);
    var low := WithChallenge(FromRisk(WeightedRisk(w, t), lowBoost), solved);
    var high := WithChallenge(FromRisk(WeightedRisk(w, s), highBoost), solved');
    assert low <= high;
    Tier1Monotone(low, high, lowEwma, highEwma, gain);
    ToCentsMonotone(WithTier1(low, lowEwma, gain), WithTier1(high, highEwma, gain));
  }

  lemma UnitTimes(x: real, gain: real)
    requires -1.0 <= x <= 1.0 && 0.0 <= gain
    ensures -gain <= x * gain <= gain
  {
    assert (1.0 - x) * gain >= 0.0 && (1.0 + x) * gain >= 0.0;
    assert (1.0 - x) * gain == gain - x * gain && (1.0 + x) * gain == gain + x * gain;
  }

  lemma DeltaBounded(ewma: real, gain: real)
    requires 0.0 <= ewma <= 1.0 && 0.0 <= gain
    ensures -gain <= Tier1Delta(ewma, gain) <= gain
  {
    UnitTimes((ewma - 0.5) * 2.0, gain);
  }

  /** Tier 1 moves the rounded score by at most the gain, whatever everything else is. */
  lemma Tier1MovesAtMostGain(w: Weights, s: SubScores, boost: real, solved: bool,
                             ewma: real, gain: real, gainCents: nat)
    requires 0.0 <= ewma <= 1.0 && 0.0 <= gain && gain * 100.0 <= gainCents as real
    ensures var neutral := FinalScore(None, w, s, boost, solved, 0.5, gain);
            var moved := FinalScore(None, w, s, boost, solved, ewma, gain);
            neutral - gainCents <= moved <= neutral + gainCents
  {
    DeltaBounded(ewma, gain);
    var x := WithChallenge(FromRisk(WeightedRisk(w, s), boost), solved);
    var y := WithTier1(x, ewma, gain);
    assert WithTier1(x, 0.5, gain) == x;
    if x <= y {
      ToCentsGap(x, y, gainCents);
      ToCentsMonotone(x, y);
    } else {
      ToCentsGap(y, x, gainCents);
      ToCentsMonotone(y, x);
    }
  }

  /** A passed challenge (boost of 5 or more) always scores at least 7.00 under the
      shipped weights and gain, so it can never be blocked or banned by the numbers. */
  lemma PassedChallengeScoresSeven(s: SubScores, boost: real, solved: bool, ewma: real)
    requires s.Valid() && boost >= 5.0 && 0.0 <= ewma <= 1.0
    ensures var score := FinalScore(None, DEFAULT_WEIGHTS, s, boost, solved, ewma, DEFAULT_GAIN);
            score >= 700 && Lenient(MakeDecision(score))
  {
    assert WeightedRisk(DEFAULT_WEIGHTS, s) <= 1.4;
    assert FromRisk(WeightedRisk(DEFAULT_WEIGHTS, s), boost) == MAX_SCORE;
    Tier1MovesAtMostGain(DEFAULT_WEIGHTS, s, boost, solved, ewma, DEFAULT_GAIN, 300);
    assert FinalScore(None, DEFAULT_WEIGHTS, s, boost, solved, 0.5, DEFAULT_GAIN) == 1000;
  }

  /** The override path: the stored score is the override, plus fifteen cents after a
      solved challenge. No weight, sub-score, boost or Tier 1 verdict matters. */
  lemma OverrideScore(v: Cents, w: Weights, s: SubScores, boost: real, solved: bool, ewma: real, gain: real)
    ensures FinalScore(Some(v), w, s, boost, solved, ewma, gain)
            == if solved then (if v + 15 <= 1000 then v + 15 else 1000) else v
  {
    if solved && v + 15 <= 1000 {
      assert v as real / 100.0 + 0.15 == (v + 15) as real / 100.0;
    }
  }

  // ---------- the boost ----------

  /** What ComputeTrustBoost reads of an address's habits. cv is the coefficient of variation
      of its recent timestamps, errors its 403, 404 and 500 answers together. */
  datatype Habits = Habits(
    sessionAge: real, cv: real, userAgents: nat, ja4s: nat, assets: nat, pages: nat, errors: nat,
    validReferer: bool, homepage: bool, loginFlow: bool)

  /** ... and of the rest of the profile and the event. */
  datatype BoostFacts = BoostFacts(
    habits: Habits, recent: nat, totalRequests: nat, anonymized: bool, countries: nat,
    previousScores: seq<Cents>, wasBlocked: bool, wasChallenged: bool, challengePassed: bool)

  /** BoostHumanCVMin and BoostAssetRatioMin. */
  datatype BoostConfig = BoostConfig(humanCV: real, assetRatio: real)

  predicate HumanTiming(f: BoostFacts, c: BoostConfig) {
    f.habits.sessionAge > 300.0 && f.recent >= 5 && f.habits.cv > c.humanCV
  }

  predicate ConsistentIdentity(f: BoostFacts) {
    f.habits.userAgents == 1 && f.habits.ja4s == 1 && f.totalRequests >= 10 && f.habits.sessionAge >= 60.0
  }

  /** Ten requests or more and a share of assets above the minimum. */
  predicate BrowserAssets(f: BoostFacts, c: BoostConfig) {
    var total := f.habits.assets + f.habits.pages;
    total >= 10 && f.habits.assets as real / total as real > c.assetRatio
  }

  predicate ResidentialAddress(f: BoostFacts) {
    !f.anonymized && f.countries == 1
  }

  /** Twenty requests or more of which fewer than one in twenty failed. */
  predicate LowErrorRate(f: BoostFacts) {
    f.totalRequests >= 20 && 20 * f.habits.errors < f.totalRequests
  }

  /** At least three scores on file, never refused or challenged, and the last (up to)
      five average 7.00 or more. */
  predicate ReturningCleanVisitor(f: BoostFacts) {
    var n := |f.previousScores|;
    var take := if n > 5 then 5 else n;
    n >= 3 && !f.wasBlocked && !f.wasChallenged && Total(f.previousScores[n - take..]) >= 700 * take
  }

  method IsReturningCleanVisitor(f: BoostFacts) returns (clean: bool)
    ensures clean <==> ReturningCleanVisitor(f)
  {
    var n := |f.previousScores|;
    if n < 3 || f.wasBlocked || f.wasChallenged {
      return false;
    }
    var sum: nat := 0;
    var take := if n > 5 then 5 else n;
    for i := n - take to n
      invariant sum == Total(f.previousScores[n - take..i])
    {
      assert f.previousScores[n - take..i + 1][..i - (n - take)] == f.previousScores[n - take..i];
      sum := sum + f.previousScores[i];
    }
    assert f.previousScores[n - take..n] == f.previousScores[n - take..];
    clean := sum >= 700 * take;
  }

  function Bonus(earned: bool, amount: real): (r: real)
    ensures 0.0 <= amount ==> 0.0 <= r <= amount
  {
    if earned then amount else 0.0
  }

  function Bonuses(f: BoostFacts, c: BoostConfig): (r: real)
    ensures 0.0 <= r <= 1.65
  {
    Bonus(HumanTiming(f, c), 0.3) + Bonus(ConsistentIdentity(f), 0.2) + Bonus(BrowserAssets(f, c), 0.25)
    + Bonus(f.habits.validReferer, 0.15) + Bonus(ResidentialAddress(f), 0.2) + Bonus(LowErrorRate(f), 0.15)
    + Bonus(ReturningCleanVisitor(f), 0.25) + Bonus(f.habits.homepage && f.habits.loginFlow, 0.15)
  }

  /** The bonuses are capped at 1 unless a challenge was passed: that adds 5 on top,
      uncapped. */
  function TrustBoost(f: BoostFacts, c: BoostConfig): (boost: real)
    ensures 0.0 <= boost && (boost > 1.0 <==> f.challengePassed) && (f.challengePassed ==> boost >= 5.0)
  {
    if f.challengePassed then Bonuses(f, c) + 5.0 else Min(Bonuses(f, c), 1.0)
  }

  /** The bonuses for timing, identity and the share of assets. */
  method BrowsingBonuses(f: BoostFacts, c: BoostConfig) returns (boost: real)
    ensures boost == Bonus(HumanTiming(f, c), 0.3) + Bonus(ConsistentIdentity(f), 0.2) + Bonus(BrowserAssets(f, c), 0.25)
  {
    var h := f.habits;
    boost := 0.0;
    if h.sessionAge > 300.0 {
      if f.recent >= 5 {
        if h.cv > c.humanCV {
          boost := boost + 0.3;
        }
      }
    }
    if h.userAgents == 1 && h.ja4s == 1 && f.totalRequests >= 10 && h.sessionAge >= 60.0 {
      boost := boost + 0.2;
    }
    var total := h.assets + h.pages;
    if total >= 10 {
      if h.assets as real / total as real > c.assetRatio {
        boost := boost + 0.25;
      }
    }
  }

  method ComputeTrustBoost(f: BoostFacts, c: BoostConfig) returns (boost: real)
    ensures boost == TrustBoost(f, c)
  {
    var h := f.habits;
    boost := BrowsingBonuses(f, c);
    if h.validReferer {
      boost := boost + 0.15;
    }
    if !f.anonymized && f.countries == 1 {
      boost := boost + 0.2;
    }
    if f.totalRequests >= 20 {
      ErrorRate(h.errors, f.totalRequests);
      if h.errors as real / f.totalRequests as real < 0.05 {
        boost := boost + 0.15;
      }
    }
    var clean := IsReturningCleanVisitor(f);
    if clean {
      boost := boost + 0.25;
    }
    if h.homepage && h.loginFlow {
      boost := boost + 0.15;
    }
    assert boost == Bonuses(f, c);
    if f.challengePassed {
      boost := boost + 5.0;
      return;
    }
    boost := Min(boost, 1.0);
  }

  lemma ErrorRate(errors: nat, total: nat)
    requires total > 0
    ensures errors as real / total as real < 0.05 <==> 20 * errors < total
  {
    var rate := errors as real / total as real;
    assert rate * total as real == errors as real;
    if rate < 0.05 {
      ProductGap(rate, 0.05, total as real);
    } else {
      ProductMonotone(total as real, 0.05, rate);
    }
  }

  lemma ProductGap(x: real, y: real, w: real)
    requires x < y && w > 0.0
    ensures x * w < y * w
  {
  }

  // ---------- the user layer's raw event score ----------

  datatype UserWeights = UserWeights(ip: real, user: real, boost: real)

  /** What step 5 of ComputeUserTrustScore merges. */
  datatype UserFacts = UserFacts(ipScore: Cents, penalty: real, boost: real, solved: bool, ewma: real)

  /** 0 for a perfectly safe address, 1 for the worst. */
  function IPRisk(ipScore: Cents): (r: real)
    ensures 0.0 <= r <= 1.0
  {
    Max(0.0, Min(1.0, (10.0 - ipScore as real / 100.0) / 10.0))
  }

  function MergedRisk(f: UserFacts, w: UserWeights): real {
    w.ip * IPRisk(f.ipScore) + w.user * f.penalty - w.boost * f.boost
  }

  function CombinedRisk(f: UserFacts, w: UserWeights): real {
    Max(0.0, Min(1.0, Max(0.0, MergedRisk(f, w))))
  }

  /** IP risk and user penalty merged, then the challenge bonus and the user's own Tier 1
      correction. */
  function RawUserScore(f: UserFacts, w: UserWeights, gain: real): (r: real)
    ensures 0.0 <= r <= MAX_SCORE
  {
    WithTier1(WithChallenge(ClampScore(10.0 * (1.0 - CombinedRisk(f, w))), f.solved), f.ewma, gain)
  }

  method ComputeRawUserScore(f: UserFacts, w: UserWeights, gain: real) returns (raw: real)
    ensures raw == RawUserScore(f, w, gain)
  {
    var ipRisk := Max(0.0, Min(1.0, (10.0 - f.ipScore as real / 100.0) / 10.0));
    assert ipRisk == IPRisk(f.ipScore);
    var combined := w.ip * ipRisk + w.user * f.penalty;
    assert combined - w.boost * f.boost == MergedRisk(f, w);
    combined := Max(0.0, combined - w.boost * f.boost);
    combined := Max(0.0, Min(1.0, combined));
    assert combined == CombinedRisk(f, w);
    raw := ClampScore(10.0 * (1.0 - combined));
    if f.solved {
      raw := Min(MAX_SCORE, raw + 0.15);
    }
    var delta := (f.ewma - 0.5) * 2.0 * gain;
    assert delta == Tier1Delta(f.ewma, gain);
    if delta >= 0.01 || delta <= -0.01 {
      raw := ClampScore(raw + delta);
    }
  }

  /** A safer address, a smaller penalty, more boost, a solved challenge and a kinder Tier 1
      verdict can only raise the raw event score. */
  lemma RawUserScoreIsMonotone(low: UserFacts, high: UserFacts, w: UserWeights, gain: real)
    requires w.ip >= 0.0 && w.user >= 0.0 && w.boost >= 0.0 && gain >= 0.0
    requires low.ipScore <= high.ipScore && low.penalty >= high.penalty && low.boost <= high.boost
    requires (low.solved ==> high.solved) && low.ewma <= high.ewma
    ensures RawUserScore(low, w, gain) <= RawUserScore(high, w, gain)
  {
    var d1 := Excess(w.ip, IPRisk(high.ipScore), IPRisk(low.ipScore));
    var d2 := Excess(w.user, high.penalty, low.penalty);
    var d3 := Excess(w.boost, low.boost, high.boost);
    assert MergedRisk(low, w) == MergedRisk(high, w) + d1 + d2 + d3;
    var x := WithChallenge(ClampScore(10.0 * (1.0 - CombinedRisk(low, w))), low.solved);
    var y := WithChallenge(ClampScore(10.0 * (1.0 - CombinedRisk(high, w))), high.solved);
    Tier1Monotone(x, y, low.ewma, high.ewma, gain);
  }
}
