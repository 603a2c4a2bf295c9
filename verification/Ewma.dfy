/** The long-term user score: exponential smoothing with weight 0.15, rounded to cents. */
module Ewma {
  import opened Scores

  const ALPHA := 0.15

  /** One smoothing step: Score = Alpha*obs + (1-Alpha)*Score, clamped, rounded to cents. */
  function Blend(score: Cents, obs: real): Cents {
    ToCents(ClampScore(ALPHA * obs + (1.0 - ALPHA) * (score as real / 100.0)))
  }

  function Gap(score: Cents, obs: Cents): nat {
    if score <= obs then obs - score else score - obs
  }

  function InPoints(c: Cents): real {
    c as real / 100.0
  }

  /** A step lands between the old score and the observation, never past it. The
      observation need not be whole cents. */
  lemma BlendStaysBetween(score: Cents, obs: real)
    requires 0.0 <= obs <= MAX_SCORE
    ensures InPoints(score) <= obs ==> InPoints(score) <= InPoints(Blend(score, obs)) <= obs
    ensures obs <= InPoints(score) ==> obs <= InPoints(Blend(score, obs)) <= InPoints(score)
  {
    var o := obs * 100.0;
    BlendInCents(score, o);
    if score as real <= o {
      BetweenUp(score, o);
    } else {
      BetweenDown(score, o);
    }
  }

  /** Blending with the observation also in (real) cents: no clamp is ever active. */
  lemma BlendInCents(score: Cents, o: real)
    requires 0.0 <= o <= 1000.0
    ensures Blend(score, o / 100.0) == (score as real + 0.15 * (o - score as real) + 0.5).Floor
  {
    var x := ALPHA * (o / 100.0) + (1.0 - ALPHA) * (score as real / 100.0);
    assert x * 100.0 == score as real + 0.15 * (o - score as real);
    assert 0.0 <= x <= MAX_SCORE;
  }

  lemma BetweenUp(score: Cents, o: real)
    requires score as real <= o
    ensures score <= (score as real + 0.15 * (o - score as real) + 0.5).Floor
    ensures (score as real + 0.15 * (o - score as real) + 0.5).Floor as real <= o
  {
    var step := (0.15 * (o - score as real) + 0.5).Floor;
    FloorShift(score, 0.15 * (o - score as real) + 0.5);
    assert step as real <= o - score as real;
  }

  lemma BetweenDown(score: Cents, o: real)
    requires 0.0 <= o <= score as real
    ensures (score as real + 0.15 * (o - score as real) + 0.5).Floor <= score
    ensures o <= (score as real + 0.15 * (o - score as real) + 0.5).Floor as real
  {
    var step := (0.15 * (o - score as real) + 0.5).Floor;
    FloorShift(score, 0.15 * (o - score as real) + 0.5);
    assert o - score as real <= step as real <= 0.0;
  }

  lemma FloorShift(n: int, x: real)
    ensures (n as real + x).Floor == n + x.Floor
  {
  }

  lemma BlendMonotone(s: Cents, t: Cents, o: real, p: real)
    requires s <= t && 0.0 <= o <= p <= MAX_SCORE
    ensures Blend(s, o) <= Blend(t, p)
  {
  }

  /** Exact motion under a whole-cent observation: the gap closes by 15 percent to the
      nearest cent, and it is stuck exactly when it is three cents or less. */
  lemma BlendGap(score: Cents, obs: Cents)
    ensures var g, h := Gap(score, obs), Gap(Blend(score, InPoints(obs)), obs);
            && (g >= 4 ==> h < g)
            && (g <= 3 ==> Blend(score, InPoints(obs)) == score)
            && h as real <= 0.85 * g as real + 0.5
  {
  }

  /** The score after n scorings that all observe obs. */
  function Repeat(score: Cents, obs: Cents, n: nat): Cents {
    if n == 0 then score else Blend(Repeat(score, obs, n - 1), InPoints(obs))
  }

  function Pow85(n: nat): (p: real)
    ensures 0.0 < p <= 1.0
  {
    if n == 0 then 1.0 else 0.85 * Pow85(n - 1)
  }

  /** gap <= p * start + 10/3 * (1 - p): the envelope of a gap that shrank by the factor p. */
  predicate UnderEnvelope(gap: real, start: real, p: real) {
    gap <= p * start + 10.0 / 3.0 * (1.0 - p)
  }

  lemma EnvelopeStep(gap: real, start: real, p: real, next: real)
    requires UnderEnvelope(gap, start, p) && next <= 0.85 * gap + 0.5
    ensures UnderEnvelope(next, start, 0.85 * p)
  {
    assert 0.85 * (p * start) == 0.85 * p * start;
  }

  /** Convergence: after n steps the gap is at most 0.85^n of the first one plus at most
      10/3 cents, whatever the rounding did on the way. */
  lemma {:induction false} ConvergesGeometrically(score: Cents, obs: Cents, n: nat)
    ensures UnderEnvelope(Gap(Repeat(score, obs, n), obs) as real, Gap(score, obs) as real, Pow85(n))
  {
    if n > 0 {
      ConvergesGeometrically(score, obs, n - 1);
      BlendGap(Repeat(score, obs, n - 1), obs);
      EnvelopeStep(Gap(Repeat(score, obs, n - 1), obs) as real, Gap(score, obs) as real, Pow85(n - 1),
                   Gap(Repeat(score, obs, n), obs) as real);
    }
  }

  /** ... and it does settle: after gap-many steps the score is within three cents of
      the observation and never moves again. */
  lemma {:induction false} Settles(score: Cents, obs: Cents, n: nat)
    ensures Gap(Repeat(score, obs, n), obs) <= 3 || Gap(Repeat(score, obs, n), obs) + n <= Gap(score, obs)
    ensures n >= Gap(score, obs) ==> Repeat(score, obs, n + 1) == Repeat(score, obs, n)
  {
    if n > 0 {
      Settles(score, obs, n - 1);
      BlendGap(Repeat(score, obs, n - 1), obs);
    }
    BlendGap(Repeat(score, obs, n), obs);
  }
}
