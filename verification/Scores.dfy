/** Scores, bands and rounding shared by the IP layer and the user layer.
    Every stored score has been through math.Round(x*100)/100, so it is kept here
    as a whole number of cents between 0 and 1000. */
module Scores {

  datatype Option<+T> = None | Some(value: T)

  /** The five answers of the trust engine, weakest first. */
  datatype Decision = Allow | AllowStricter | Challenge | Block | Ban

  type Cents = c: int | 0 <= c <= 1000

  const MAX_SCORE := 10.0

  /** math.Round: nearest integer, halves away from zero. */
  function RoundHalfAway(x: real): int {
    if x >= 0.0 then (x + 0.5).Floor else -((-x + 0.5).Floor)
  }

  function Min(x: real, y: real): real {
    if x <= y then x else y
  }

  function Max(x: real, y: real): real {
    if x >= y then x else y
  }

  /** math.Max(0.0, math.Min(10.0, x)). */
  function ClampScore(x: real): (r: real)
    ensures 0.0 <= r <= MAX_SCORE
  {
    Max(0.0, Min(MAX_SCORE, x))
  }

  function ToCents(x: real): Cents
    requires 0.0 <= x <= MAX_SCORE
  {
    RoundHalfAway(x * 100.0)
  }

  function Total(xs: seq<Cents>): nat {
    if xs == [] then 0 else Total(xs[..|xs| - 1]) + xs[|xs| - 1]
  }

  function MakeDecision(score: Cents): Decision {
    if score >= 800 then Allow
    else if score >= 500 then AllowStricter
    else if score >= 300 then Challenge
    else if score >= 100 then Block
    else Ban
  }

  /** The two answers that let a request through without a challenge. */
  predicate Lenient(d: Decision) {
    d.Allow? || d.AllowStricter?
  }

  predicate Refusing(d: Decision) {
    d.Block? || d.Ban?
  }

  lemma ToCentsMonotone(x: real, y: real)
    requires 0.0 <= x <= y <= MAX_SCORE
    ensures ToCents(x) <= ToCents(y)
  {
  }

  /** Rounding moves two values apart by less than one extra cent. */
  lemma ToCentsGap(x: real, y: real, n: nat)
    requires 0.0 <= x <= y <= MAX_SCORE
    requires (y - x) * 100.0 <= n as real
    ensures ToCents(y) - ToCents(x) <= n
  {
    assert y * 100.0 + 0.5 <= (x * 100.0 + 0.5) + n as real;
  }
}
