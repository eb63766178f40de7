/**
 * `Math.round` as the analyzer uses it. JavaScript rounds to the nearest
 * integer and sends halves towards +infinity, so `Math.round(x)` is
 * `floor(x + 1/2)`. On the exact quotients the analyzer rounds this is
 * computed with integers only: `Math.round(n / d) == (2n + d) div (2d)`.
 */
module Rounding {

  /** `Math.round(x)` on an exact real number. */
  function JsRound(x: real): (r: int)
    ensures r as real - 0.5 <= x < r as real + 0.5
  {
    (x + 0.5).Floor
  }

  /** `Math.round(n / d)` for a positive integer denominator. */
  function RoundRatio(n: int, d: int): (r: int)
    requires d > 0
    ensures 2 * d * r <= 2 * n + d < 2 * d * r + 2 * d
  {
    (2 * n + d) / (2 * d)
  }

  /** The integer formula is exactly `Math.round` of the real quotient. */
  lemma RoundRatioIsJsRound(n: int, d: int)
    requires d > 0
    ensures RoundRatio(n, d) == JsRound(n as real / d as real)
  {
    var r := RoundRatio(n, d);
    var q := n as real / d as real;
    RatioAbove(n, d, r);
    RatioBelow(n, d, r);
    NearestIsUnique(r, JsRound(q), q);
  }

  lemma RatioAbove(n: int, d: int, r: int)
    requires d > 0 && 2 * d * r <= 2 * n + d
    ensures r as real - 0.5 <= n as real / d as real
  {
    var dd := d as real;
    var q := n as real / dd;
    var p := d * r;
    assert 2 * p <= 2 * n + d;
    CastProduct(d, r);
    QuotientTimes(n, d);
    assert (r as real - 0.5) * dd == p as real - 0.5 * dd;
    ScaleDown(r as real - 0.5, q, dd);
  }

  lemma RatioBelow(n: int, d: int, r: int)
    requires d > 0 && 2 * n + d < 2 * d * r + 2 * d
    ensures n as real / d as real < r as real + 0.5
  {
    var dd := d as real;
    var q := n as real / dd;
    var p := d * r;
    assert 2 * n + d < 2 * p + 2 * d;
    CastProduct(d, r);
    QuotientTimes(n, d);
    assert (r as real + 0.5) * dd == p as real + 0.5 * dd;
    ScaleDownStrict(q, r as real + 0.5, dd);
  }

  // One-step facts about products, quotients and the nearest integer. They
  // hold no proof of their own: each is stated apart so that the solver sees
  // the nonlinear step in a small context, which keeps the proofs that call
  // them cheap.

  lemma CastProduct(a: int, b: int)
    ensures (a * b) as real == a as real * b as real
  {
  }

  lemma QuotientTimes(n: int, d: int)
    requires d > 0
    ensures (n as real / d as real) * d as real == n as real
  {
  }

  lemma NearestIsUnique(r: int, r': int, x: real)
    requires r as real - 0.5 <= x < r as real + 0.5
    requires r' as real - 0.5 <= x < r' as real + 0.5
    ensures r == r'
  {
  }

  lemma ScaleDown(a: real, b: real, c: real)
    requires c > 0.0 && a * c <= b * c
    ensures a <= b
  {
  }

  lemma ScaleDownStrict(a: real, b: real, c: real)
    requires c > 0.0 && a * c < b * c
    ensures a < b
  {
  }

  /** `total > 0 ? Math.round((part / total) * 100) : 0`. */
  function Percent(part: int, total: int): int {
    if total > 0 then RoundRatio(100 * part, total) else 0
  }

  /** A share of a positive total rounds to a percentage in [0, 100]. */
  lemma PercentBounds(part: int, total: int)
    requires 0 <= part <= total
    ensures 0 <= Percent(part, total) <= 100
  {
    if total > 0 {
      var r := Percent(part, total);
      BelowFromScaled(r, 201, total);
      AboveFromScaled(r, -1, total);
    }
  }

  /** A signed share such as (promoters - detractors) stays in [-100, 100]. */
  lemma SignedPercentBounds(part: int, total: int)
    requires -total <= part <= total
    ensures -100 <= Percent(part, total) <= 100
  {
    if total > 0 {
      var r := Percent(part, total);
      BelowFromScaled(r, 201, total);
      AboveFromScaled(r, -201, total);
    }
  }

  /**
   * Three shares of one positive total: their rounded percentages add up
   * to 100 give or take the rounding of each, that is to 99, 100 or 101.
   */
  lemma PercentsNearHundred(a: int, b: int, c: int)
    requires a + b + c > 0
    ensures var t := a + b + c;
      99 <= Percent(a, t) + Percent(b, t) + Percent(c, t) <= 101
  {
    var t := a + b + c;
    var pa, pb, pc := Percent(a, t), Percent(b, t), Percent(c, t);
    var s := pa + pb + pc;
    var xa, xb, xc := t * pa, t * pb, t * pc;
    assert 2 * xa <= 200 * a + t < 2 * xa + 2 * t;
    assert 2 * xb <= 200 * b + t < 2 * xb + 2 * t;
    assert 2 * xc <= 200 * c + t < 2 * xc + 2 * t;
    SumTimes(t, pa, pb, pc);
    BelowFromScaled(s, 203, t);
    AboveFromScaled(s, 197, t);
  }

  // Nonlinear steps of `PercentsNearHundred`, isolated for the same reason.

  lemma SumTimes(t: int, x: int, y: int, z: int)
    ensures 2 * t * (x + y + z) == 2 * (t * x) + 2 * (t * y) + 2 * (t * z)
  {
  }

  lemma BelowFromScaled(s: int, m: int, t: int)
    requires t > 0 && 2 * t * s <= m * t
    ensures 2 * s <= m
  {
  }

  lemma AboveFromScaled(s: int, m: int, t: int)
    requires t > 0 && 2 * t * s > m * t
    ensures 2 * s > m
  {
  }
}
