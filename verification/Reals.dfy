/** Facts about real products and quotients, one nonlinear step each. */
module Reals {

  function MaxReal(x: real, y: real): real {
    if x >= y then x else y
  }

  function MinReal(x: real, y: real): real {
    if x <= y then x else y
  }

  function AbsReal(x: real): real {
    if x < 0.0 then -x else x
  }

  lemma ScaleLe(a: real, b: real, p: real)
    requires p >= 0.0
    ensures a <= b ==> a * p <= b * p
  {}

  lemma Cancel(x: real, y: real, s: real)
    requires s > 0.0
    ensures x * s <= y * s ==> x <= y
    ensures x * s < y * s ==> x < y
  {}

  lemma TimesNonNegative(a: real, b: real)
    requires a >= 0.0 && b >= 0.0
    ensures a * b >= 0.0
  {}

  lemma QuotientAtLeast(target: real, per: real, k: real)
    requires per > 0.0
    ensures k <= target / per <==> k * per <= target
  {
    ShareAtLeast(target / per, target, per, k);
  }

  lemma ShareAtLeast(q: real, target: real, per: real, k: real)
    requires per > 0.0 && q * per == target
    ensures k <= q <==> k * per <= target
  {
    ScaleLe(k, q, per);
    Cancel(k, q, per);
  }

  // ---------- products by name ----------

  /** The product, kept folded where unfolding it would send the solver astray. */
  function Times(x: real, y: real): real {
    x * y
  }

  lemma TimesPositive(x: real, y: real)
    requires x > 0.0 && y > 0.0
    ensures Times(x, y) > 0.0
  {}

  lemma TimesNegated(x: real, y: real)
    ensures Times(-x, -y) == Times(x, y)
  {}

  lemma TimesCommutes(x: real, y: real)
    ensures Times(x, y) == Times(y, x)
  {}

  lemma TimesUnits(x: real)
    ensures Times(0.0, x) == 0.0 && Times(1.0, x) == x
  {}

  lemma TimesMonotone(a: real, b: real, c: real)
    requires c >= 0.0
    ensures a <= b ==> Times(a, c) <= Times(b, c)
  {
    ScaleLe(a, b, c);
  }

  lemma TimesCancel(a: real, b: real, c: real)
    requires c > 0.0
    ensures Times(a, c) <= Times(b, c) ==> a <= b
  {
    Cancel(a, b, c);
  }

  /** A share of a larger whole is smaller, and at least one of a whole no larger than it. */
  lemma Share(x: real, y: real, e: real, p: real, q: real)
    requires e >= 0.0 && 0.0 < p <= q
    requires Times(x, p) == e && Times(y, q) == e
    ensures 0.0 <= y <= x
    ensures e >= p ==> x >= 1.0
  {
    TimesUnits(q);
    TimesUnits(p);
    TimesCancel(0.0, y, q);
    TimesMonotone(p, q, y);
    TimesCommutes(y, p);
    TimesCommutes(y, q);
    TimesCancel(y, x, p);
    TimesCancel(1.0, x, p);
  }
}
