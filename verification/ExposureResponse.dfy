/** How the exposure controller answers every measurement, in whole numbers
    (crates/autopiercam-core/src/exposure.rs). */
module ExposureResponse {

  import opened Arithmetic
  import opened AdaptiveExposure

  /** The exposure is to be multiplied by num / den: the target against the measured 90th percentile,
      a percentile of zero counting as one, within four and a sixteenth; a quarter when more than
      five percent of the frame are clipped. */
  predicate Factor(l: Limits, s: Stats, num: nat, den: nat) {
    var p := if s.p90 == 0 then 1 else s.p90;
    if s.clippedFraction > 0.05 then num == 1 && den == 4
    else if l.target > 4 * p then num == 4 && den == 1
    else if 16 * l.target < p then num == 1 && den == 16
    else num == l.target && den == p
  }

  /** `m` is the whole number next to n * num / den, the larger one of two. */
  predicate Nearest(n: nat, num: nat, den: nat, m: int) {
    2 * (m * den) - den <= 2 * (n * num) < 2 * (m * den) + den
  }

  /** `r` is `x`, or the limit it exceeds. */
  predicate Held(x: int, lo: int, hi: int, r: int) {
    if x < lo then r == lo else if x > hi then r == hi else r == x
  }

  /** `ratio` is num / den. */
  predicate IsRatio(ratio: real, num: nat, den: nat) {
    den > 0 && ratio >= 0.0 && ratio * den as real == num as real
  }

  lemma RatioOf(num: nat, den: nat)
    requires den > 0
    ensures IsRatio(num as real / den as real, num, den)
  {
  }

  /** A ratio compares with a number c / d as the cross products do. */
  lemma Compare(ratio: real, num: nat, den: nat, c: nat, d: nat, bound: real)
    requires IsRatio(ratio, num, den) && d > 0 && bound * d as real == c as real
    ensures ratio < bound <==> num * d < c * den
    ensures ratio > bound <==> num * d > c * den
  {
    var n := den as real * d as real;
    Associates(ratio, den as real, d as real);
    assert ratio * n == (num * d) as real;
    Associates(bound, d as real, den as real);
    assert bound * n == (c * den) as real;
    Sides(ratio, bound, n);
  }

  lemma Associates(a: real, b: real, c: real)
    ensures a * b * c == a * (b * c)
  {
  }

  lemma Sides(x: real, y: real, n: real)
    requires n > 0.0
    ensures x < y <==> x * n < y * n
    ensures x > y <==> x * n > y * n
  {
    if x <= y {
      Scale(n, x, y);
    } else {
      Scale(n, y, x);
    }
  }

  lemma FactorIsRatio(l: Limits, s: Stats, num: nat, den: nat)
    requires l.Valid() && Factor(l, s, num, den)
    ensures IsRatio(Ratio(l, s), num, den)
  {
    var p := if s.p90 == 0 then 1 else s.p90;
    if s.clippedFraction <= 0.05 {
      RatioOf(l.target, p);
      Compare(l.target as real / p as real, l.target, p, 4, 1, 4.0);
      Compare(l.target as real / p as real, l.target, p, 1, 16, 0.0625);
    }
  }

  lemma RoundBounds(x: real)
    requires x >= 0.0
    ensures RoundHalfAway(x) as real - 0.5 <= x < RoundHalfAway(x) as real + 0.5
  {
  }

  lemma ScaledProduct(n: nat, num: nat, den: nat, ratio: real)
    requires IsRatio(ratio, num, den)
    ensures n as real * ratio >= 0.0 && n as real * ratio * den as real == (n * num) as real
  {
    Associates(n as real, ratio, den as real);
    Scale(n as real, 0.0, ratio);
  }

  lemma RoundsToNearest(n: nat, num: nat, den: nat, ratio: real)
    requires IsRatio(ratio, num, den)
    ensures Nearest(n, num, den, Times(n, ratio))
  {
    ScaledProduct(n, num, den, ratio);
    var x := n as real * ratio;
    RoundBounds(x);
    NearestScaled(x, RoundHalfAway(x), den, n * num);
  }

  lemma NearestScaled(x: real, m: int, den: nat, product: nat)
    requires den > 0 && x * den as real == product as real && m as real - 0.5 <= x < m as real + 0.5
    ensures 2 * (m * den) - den <= 2 * product < 2 * (m * den) + den
  {
    ScaledBounds(x, m as real, den as real, product as real);
    CastProduct(m, den);
    Halves(m * den, den, product);
  }

  lemma CastProduct(a: int, b: int)
    ensures (a * b) as real == a as real * b as real
  {
  }

  lemma ScaledBounds(x: real, m: real, d: real, product: real)
    requires d > 0.0 && m - 0.5 <= x < m + 0.5 && x * d == product
    ensures m * d - 0.5 * d <= product < m * d + 0.5 * d
  {
    var p, q, e := x * d, m * d, x - m;
    Distributes(x, m, d);
    assert p - q == e * d;
    HalfAtMost(d, e);
  }

  lemma Distributes(x: real, m: real, d: real)
    ensures x * d - m * d == (x - m) * d
  {
  }

  lemma HalfAtMost(d: real, e: real)
    requires d > 0.0 && -0.5 <= e < 0.5
    ensures -0.5 * d <= e * d < 0.5 * d
  {
    assert (e + 0.5) * d >= 0.0;
    assert (0.5 - e) * d > 0.0;
  }

  lemma Halves(k: int, den: nat, product: nat)
    requires k as real - 0.5 * den as real <= product as real < k as real + 0.5 * den as real
    ensures 2 * k - den <= 2 * product < 2 * k + den
  {
  }

  /** The same for a given ratio, too dark above 1.10 and too bright below 0.90. */
  lemma ResponseToRatio(l: Limits, gainFirst: bool, c: Setting, clipped: bool, ratio: real, dark: bool, bright: bool)
    returns (w: Setting)
    requires l.Valid() && (dark <==> ratio > 1.10) && (bright <==> ratio < 0.90) && (clipped ==> bright)
    ensures var next := Adjusted(l, gainFirst, c, clipped, ratio);
            && Held(w.exposureUs, l.minUs, l.maxUs, Clamp(next.exposureUs, l.minUs, l.maxUs))
            && Held(w.gain, l.minGain, l.maxGain, Clamp(next.gain, l.minGain, l.maxGain))
    ensures if gainFirst && !bright && c.gain < l.maxGain && (dark || c.exposureUs > l.minUs) then
              w.exposureUs == c.exposureUs && w.gain == c.gain + 20
            else if !dark && !bright then w == c
            else if bright && !gainFirst && c.exposureUs <= 250000 && c.gain > l.minGain then
              w.exposureUs == c.exposureUs && w.gain == c.gain - 30
            else
              && w.exposureUs == Times(c.exposureUs, ratio)
              && w.gain == (if dark && c.exposureUs >= l.maxUs then c.gain + 20
                            else if bright && c.exposureUs <= l.minUs then c.gain - 30
                            else c.gain)
  {
    hide Times;
    if gainFirst && !bright && c.gain < l.maxGain && (dark || c.exposureUs > l.minUs) {
      w := c.(gain := c.gain + 20);
    } else if !dark && !bright {
      w := c;
    } else if bright && !gainFirst && c.exposureUs <= 250000 && c.gain > l.minGain {
      w := c.(gain := c.gain - 30);
    } else {
      w := Setting(Times(c.exposureUs, ratio),
                   if dark && c.exposureUs >= l.maxUs then c.gain + 20
                   else if bright && c.exposureUs <= l.minUs then c.gain - 30 else c.gain);
    }
  }

  lemma RatioFacts(n: nat, num: nat, den: nat, ratio: real)
    requires IsRatio(ratio, num, den)
    ensures (10 * num > 11 * den <==> ratio > 1.10) && (10 * num < 9 * den <==> ratio < 0.90)
    ensures Nearest(n, num, den, Times(n, ratio))
  {
    hide Times, Nearest;
    Compare(ratio, num, den, 11, 10, 1.10);
    Compare(ratio, num, den, 9, 10, 0.90);
    RoundsToNearest(n, num, den, ratio);
  }

  lemma FactorFacts(l: Limits, c: Setting, s: Stats, num: nat, den: nat)
    requires l.Valid() && c.exposureUs >= 0 && Factor(l, s, num, den)
    ensures (10 * num > 11 * den <==> Ratio(l, s) > 1.10) && (10 * num < 9 * den <==> Ratio(l, s) < 0.90)
    ensures Nearest(c.exposureUs, num, den, Times(c.exposureUs, Ratio(l, s)))
  {
    hide *;
    FactorIsRatio(l, s, num, den);
    RatioFacts(c.exposureUs, num, den, Ratio(l, s));
  }

  /** `w`, held within the limits, is what one measurement makes of a setting. A factor from 0.90 to
      1.10 changes nothing. Too dark a frame lengthens the exposure by the factor, and at its maximum
      raises the gain by 20. Too bright a one lowers the gain by 30 while exposures are short, else
      shortens the exposure by the factor and at its minimum lowers the gain. With gain first, gain is
      raised before the exposure is lengthened, also to replace a long exposure that is bright
      enough, and never lowered before the exposure is at its minimum. */
  lemma ResponseToEveryFrame(l: Limits, gainFirst: bool, c: Setting, s: Stats, num: nat, den: nat) returns (w: Setting)
    requires l.Valid() && c.exposureUs >= 0 && Factor(l, s, num, den)
    ensures Held(w.exposureUs, l.minUs, l.maxUs, Next(l, gainFirst, c, s).exposureUs)
    ensures Held(w.gain, l.minGain, l.maxGain, Next(l, gainFirst, c, s).gain)
    ensures var dark, bright := 10 * num > 11 * den, 10 * num < 9 * den;
            if gainFirst && !bright && c.gain < l.maxGain && (dark || c.exposureUs > l.minUs) then
              w.exposureUs == c.exposureUs && w.gain == c.gain + 20
            else if !dark && !bright then w == c
            else if bright && !gainFirst && c.exposureUs <= 250000 && c.gain > l.minGain then
              w.exposureUs == c.exposureUs && w.gain == c.gain - 30
            else
              && Nearest(c.exposureUs, num, den, w.exposureUs)
              && w.gain == (if dark && c.exposureUs >= l.maxUs then c.gain + 20
                            else if bright && c.exposureUs <= l.minUs then c.gain - 30
                            else c.gain)
  {
    hide Ratio, Nearest, Times;
    FactorFacts(l, c, s, num, den);
    w := ResponseToRatio(l, gainFirst, c, Clipped(s), Ratio(l, s), 10 * num > 11 * den, 10 * num < 9 * den);
  }
}
