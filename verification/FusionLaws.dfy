/** How much each input of a score counts, in cents: the laws that tell the score of
    ComputeTrustScore from any other monotone one. */
module FusionLaws {
  import opened Scores
  import opened Fusion

  /** The nine scoring modules. */
  datatype Module = Recon | Bruteforce | Ddos | Session | Scraping | Evasion | VulnProbe | AccountAbuse | Rasp

  function WeightOf(w: Weights, m: Module): real {
    match m
    case Recon => w.recon
    case Bruteforce => w.bruteforce
    case Ddos => w.ddos
    case Session => w.session
    case Scraping => w.scraping
    case Evasion => w.evasion
    case VulnProbe => w.vulnProbe
    case AccountAbuse => w.accountAbuse
    case Rasp => w.rasp
  }

  /** The same sub-scores with one of them raised by d. */
  function Raised(s: SubScores, m: Module, d: real): SubScores {
    match m
    case Recon => s.(recon := s.recon + d)
    case Bruteforce => s.(bruteforce := s.bruteforce + d)
    case Ddos => s.(ddos := s.ddos + d)
    case Session => s.(session := s.session + d)
    case Scraping => s.(scraping := s.scraping + d)
    case Evasion => s.(evasion := s.evasion + d)
    case VulnProbe => s.(vulnProbe := s.vulnProbe + d)
    case AccountAbuse => s.(accountAbuse := s.accountAbuse + d)
    case Rasp => s.(rasp := s.rasp + d)
  }

  const NO_RISK := SubScores(0.0, 0.0, 0.0, 0.0, 0.0, 0.0, 0.0, 0.0, 0.0)
  const NEUTRAL := 0.5

  /** The score with no override and a neutral Tier 1 verdict. */
  function PlainScore(w: Weights, s: SubScores, boost: real, solved: bool, gain: real): Cents {
    FinalScore(None, w, s, boost, solved, NEUTRAL, gain)
  }

  /** No clamp was active: the score is strictly inside the scale, and above what a solved
      challenge lifts a zero to. */
  predicate Inside(score: Cents, solved: bool) {
    (if solved then 15 else 0) < score < 1000
  }

  predicate WithinOneCent(x: real, y: real) {
    -1.0 <= x - y <= 1.0
  }

  lemma NeutralIsDropped(score: real, gain: real)
    ensures WithTier1(score, NEUTRAL, gain) == score
  {
    assert Tier1Delta(NEUTRAL, gain) == 0.0;
  }

  /** Nothing against an address, nothing for it: the full ten points. */
  lemma CleanSlateScoresTen(w: Weights, solved: bool, gain: real)
    ensures PlainScore(w, NO_RISK, 0.0, solved, gain) == 1000
  {
    assert WeightedRisk(w, NO_RISK) == 0.0;
    NeutralIsDropped(MAX_SCORE, gain);
  }

  /** Rounding, both ways: the cents are within half a cent of the points. */
  lemma Rounded(x: real)
    requires 0.0 <= x <= MAX_SCORE
    ensures -0.5 <= ToCents(x) as real - x * 100.0 <= 0.5
  {
  }

  /** Strictly inside the scale the score is the rounded linear form. */
  lemma InsideIsLinear(w: Weights, s: SubScores, boost: real, solved: bool, gain: real)
    requires Inside(PlainScore(w, s, boost, solved, gain), solved)
    ensures var points := 10.0 - 10.0 * WeightedRisk(w, s) + 3.0 * boost + if solved then 0.15 else 0.0;
            -0.5 <= PlainScore(w, s, boost, solved, gain) as real - 100.0 * points <= 0.5
  {
    var x := FromRisk(WeightedRisk(w, s), boost);
    NeutralIsDropped(WithChallenge(x, solved), gain);
    Rounded(WithChallenge(x, solved));
    assert ToCents(0.0) == 0 && ToCents(0.15) == 15;
    assert ToCents(MAX_SCORE) == 1000;
  }

  lemma RaisedRisk(w: Weights, s: SubScores, m: Module, d: real)
    ensures WeightedRisk(w, Raised(s, m, d)) == WeightedRisk(w, s) + WeightOf(w, m) * d
  {
    var x := match m
      case Recon => s.recon case Bruteforce => s.bruteforce case Ddos => s.ddos
      case Session => s.session case Scraping => s.scraping case Evasion => s.evasion
      case VulnProbe => s.vulnProbe case AccountAbuse => s.accountAbuse case Rasp => s.rasp;
    Spread(WeightOf(w, m), x, d);
  }

  lemma Spread(w: real, x: real, d: real)
    ensures w * (x + d) == w * x + w * d
  {
  }

  /** Each module counts, by itself and at its own weight: raising its sub-score by d, and
      nothing else, lowers the score by 1000 * weight * d cents, to within one cent, as
      long as neither score is at an end of the scale. */
  lemma EachModuleCounts(w: Weights, s: SubScores, m: Module, d: real, boost: real, solved: bool, gain: real)
    requires Inside(PlainScore(w, s, boost, solved, gain), solved)
    requires Inside(PlainScore(w, Raised(s, m, d), boost, solved, gain), solved)
    ensures WithinOneCent((PlainScore(w, s, boost, solved, gain)
                           - PlainScore(w, Raised(s, m, d), boost, solved, gain)) as real,
                          1000.0 * (WeightOf(w, m) * d))
  {
    InsideIsLinear(w, s, boost, solved, gain);
    InsideIsLinear(w, Raised(s, m, d), boost, solved, gain);
    RaisedRisk(w, s, m, d);
  }

  /** Raising the boost by d raises it by 300 * d cents. */
  lemma BoostCounts(w: Weights, s: SubScores, boost: real, d: real, solved: bool, gain: real)
    requires Inside(PlainScore(w, s, boost, solved, gain), solved)
    requires Inside(PlainScore(w, s, boost + d, solved, gain), solved)
    ensures WithinOneCent((PlainScore(w, s, boost + d, solved, gain) - PlainScore(w, s, boost, solved, gain)) as real,
                          300.0 * d)
  {
    InsideIsLinear(w, s, boost, solved, gain);
    InsideIsLinear(w, s, boost + d, solved, gain);
  }

  /** A solved challenge is worth fifteen cents exactly, up to the top of the scale. */
  lemma SolvedChallengeCounts(w: Weights, s: SubScores, boost: real, gain: real)
    ensures var before := PlainScore(w, s, boost, false, gain);
            PlainScore(w, s, boost, true, gain) == if before + 15 <= 1000 then before + 15 else 1000
  {
    var x := FromRisk(WeightedRisk(w, s), boost);
    NeutralIsDropped(x, gain);
    NeutralIsDropped(WithChallenge(x, true), gain);
    assert (x * 100.0 + 15.0 + 0.5).Floor == (x * 100.0 + 0.5).Floor + 15;
  }

  /** The points a Tier 1 verdict is worth. */
  function Tier1Worth(ewma: real, gain: real): real {
    (ewma - 0.5) * 2.0 * gain
  }

  /** Moved by so many points to within one cent, unless the scale ends; not at all by less
      than a cent. */
  predicate MovedBy(plain: Cents, moved: Cents, worth: real) {
    if -0.01 < worth < 0.01 then moved == plain
    else 0 < moved < 1000 ==> WithinOneCent((moved - plain) as real, 100.0 * worth)
  }

  /** A Tier 1 verdict moves the score by what it is worth. */
  lemma Tier1Counts(w: Weights, s: SubScores, boost: real, solved: bool, ewma: real, gain: real)
    ensures MovedBy(PlainScore(w, s, boost, solved, gain), FinalScore(None, w, s, boost, solved, ewma, gain),
                    Tier1Worth(ewma, gain))
  {
    var x := WithChallenge(FromRisk(WeightedRisk(w, s), boost), solved);
    var y := WithTier1(x, ewma, gain);
    assert Tier1Delta(ewma, gain) == Tier1Worth(ewma, gain);
    NeutralIsDropped(x, gain);
    Rounded(x);
    Rounded(y);
    assert ToCents(0.0) == 0 && ToCents(MAX_SCORE) == 1000;
  }

  // ---------- the boost ----------

  /** Each of the eight habits earns at least its own bonus; none of them, nothing; all of
      them, 1.65. */
  lemma EachHabitCounts(f: BoostFacts, c: BoostConfig)
    ensures f.habits.sessionAge > 300.0 && f.recent >= 5 && f.habits.cv > c.humanCV ==> Bonuses(f, c) >= 0.3
    ensures f.habits.userAgents == 1 && f.habits.ja4s == 1 && f.totalRequests >= 10 && f.habits.sessionAge >= 60.0
            ==> Bonuses(f, c) >= 0.2
    ensures f.habits.assets + f.habits.pages >= 10
            && f.habits.assets as real / (f.habits.assets + f.habits.pages) as real > c.assetRatio
            ==> Bonuses(f, c) >= 0.25
    ensures f.habits.validReferer ==> Bonuses(f, c) >= 0.15
    ensures !f.anonymized && f.countries == 1 ==> Bonuses(f, c) >= 0.2
    ensures f.totalRequests >= 20 && 20 * f.habits.errors < f.totalRequests ==> Bonuses(f, c) >= 0.15
    ensures ReturningCleanVisitor(f) ==> Bonuses(f, c) >= 0.25
    ensures f.habits.homepage && f.habits.loginFlow ==> Bonuses(f, c) >= 0.15
    ensures Bonuses(f, c) == 1.65
            <==> HumanTiming(f, c) && ConsistentIdentity(f) && BrowserAssets(f, c) && f.habits.validReferer
                 && ResidentialAddress(f) && LowErrorRate(f) && ReturningCleanVisitor(f)
                 && f.habits.homepage && f.habits.loginFlow
    ensures Bonuses(f, c) == 0.0
            <==> !(HumanTiming(f, c) || ConsistentIdentity(f) || BrowserAssets(f, c) || f.habits.validReferer
                   || ResidentialAddress(f) || LowErrorRate(f) || ReturningCleanVisitor(f)
                   || (f.habits.homepage && f.habits.loginFlow))
  {
  }

  // ---------- the raw event score of an account ----------

  /** What an account's facts are worth in points, against a clean slate. */
  function Worth(f: UserFacts, w: UserWeights): real {
    10.0 * (w.boost * f.boost) - 10.0 * (w.user * f.penalty) - 10.0 * (w.ip * ((1000 - f.ipScore) as real / 1000.0))
  }

  lemma CleanAccountScoresTen(w: UserWeights, solved: bool, gain: real)
    ensures RawUserScore(UserFacts(1000, 0.0, 0.0, solved, NEUTRAL), w, gain) == MAX_SCORE
  {
    var f := UserFacts(1000, 0.0, 0.0, solved, NEUTRAL);
    assert IPRisk(1000) == 0.0;
    assert MergedRisk(f, w) == 0.0;
    NeutralIsDropped(MAX_SCORE, gain);
  }

  /** Strictly inside the scale two raw scores differ by exactly the difference of what the
      address score, the penalty and the boost are worth at their weights. */
  lemma RawScoresDifferByWorth(f: UserFacts, g: UserFacts, w: UserWeights, gain: real)
    requires !f.solved && !g.solved && f.ewma == NEUTRAL && g.ewma == NEUTRAL
    requires 0.0 < RawUserScore(f, w, gain) < MAX_SCORE && 0.0 < RawUserScore(g, w, gain) < MAX_SCORE
    ensures RawUserScore(f, w, gain) - RawUserScore(g, w, gain) == Worth(f, w) - Worth(g, w)
  {
    RawIsWorth(f, w, gain);
    RawIsWorth(g, w, gain);
  }

  lemma RawIsWorth(f: UserFacts, w: UserWeights, gain: real)
    requires !f.solved && f.ewma == NEUTRAL && 0.0 < RawUserScore(f, w, gain) < MAX_SCORE
    ensures RawUserScore(f, w, gain) == MAX_SCORE + Worth(f, w)
  {
    NeutralIsDropped(ClampScore(10.0 * (1.0 - CombinedRisk(f, w))), gain);
    MergedIsWorth(f, w);
  }

  lemma MergedIsWorth(f: UserFacts, w: UserWeights)
    ensures 10.0 * MergedRisk(f, w) == -Worth(f, w)
  {
    var risk := (1000 - f.ipScore) as real / 1000.0;
    assert IPRisk(f.ipScore) == risk;
    var a, b, c := w.ip * risk, w.user * f.penalty, w.boost * f.boost;
    assert w.ip * IPRisk(f.ipScore) == a;
    assert MergedRisk(f, w) == a + b - c;
    assert Worth(f, w) == 10.0 * c - 10.0 * b - 10.0 * a;
  }

  /** A solved challenge is worth 0.15, and a Tier 1 verdict what it is worth or, below a
      hundredth, nothing, up to the ends of the scale. */
  lemma RawBonusesCount(f: UserFacts, w: UserWeights, gain: real)
    ensures RawUserScore(f.(solved := true, ewma := NEUTRAL), w, gain)
            == Min(MAX_SCORE, RawUserScore(f.(solved := false, ewma := NEUTRAL), w, gain) + 0.15)
    ensures var plain, moved := RawUserScore(f.(ewma := NEUTRAL), w, gain), RawUserScore(f, w, gain);
            if -0.01 < Tier1Worth(f.ewma, gain) < 0.01 then moved == plain
            else moved == Max(0.0, Min(MAX_SCORE, plain + Tier1Worth(f.ewma, gain)))
  {
    var x := ClampScore(10.0 * (1.0 - CombinedRisk(f, w)));
    SameRisk(f, w);
    NeutralIsDropped(x, gain);
    NeutralIsDropped(WithChallenge(x, true), gain);
    NeutralIsDropped(WithChallenge(x, f.solved), gain);
    assert Tier1Delta(f.ewma, gain) == Tier1Worth(f.ewma, gain);
  }

  /** Neither of the two is part of the merged risk. */
  lemma SameRisk(f: UserFacts, w: UserWeights)
    ensures forall solved, ewma :: CombinedRisk(f.(solved := solved, ewma := ewma), w) == CombinedRisk(f, w)
  {
  }
}
