/** Stock optional value. */
module Options {
  datatype Option<+T> = None | Some(value: T) {
    function GetOr(default: T): T {
      match this
      case Some(v) => v
      case None => default
    }
  }
}

/**
 Money is counted in ten-thousandths of a dollar, the finest grid the harness rounds
 to (`round(..., 4)`); contract prices lie on the same grid, so `price * contracts` is
 exact and only the two-decimal roundings lose anything.
 */
module Money {
  import opened Reals

  const DOLLAR := 10000
  const CENT := 100

  predicate WholeCents(x: int) {
    x % 100 == 0
  }

  /** `round(x, 2)`: to the nearest cent, a tie going to the even cent. */
  function RoundCents(x: int): (r: int)
    ensures WholeCents(r)
    ensures -100 <= 2 * (r - x) <= 100
    ensures r - x == 50 || r - x == -50 ==> r % 200 == 0
    ensures WholeCents(x) ==> r == x
  {
    var q, m := x / 100, x % 100;
    if m < 50 || (m == 50 && q % 2 == 0) then q * 100 else (q + 1) * 100
  }

  lemma RoundCentsMonotone(x: int, y: int)
    requires x <= y
    ensures RoundCents(x) <= RoundCents(y)
  {
    if x / 100 < y / 100 {
      assert x / 100 + 1 <= y / 100;
    }
  }

  lemma WholeCentsClosed(x: int, y: int)
    requires WholeCents(x) && WholeCents(y)
    ensures WholeCents(x + y) && WholeCents(x - y)
  {
    assert x == 100 * (x / 100) && y == 100 * (y / 100);
  }

  /** Rounding cannot push an amount past a whole-cent bound it respected. */
  lemma RoundCentsBounded(x: int, bound: int)
    requires x <= bound && WholeCents(bound)
    ensures RoundCents(x) <= bound
  {
    RoundCentsMonotone(x, bound);
  }

  /** Collateral of a short: what `contracts` YES contracts sold at `price` can still lose. */
  function Locked(price: int, contracts: int): int {
    (10000 - price) * contracts
  }

  lemma HundredTimes(u: int, n: int)
    ensures (100 * u) * n == 100 * (u * n)
    ensures WholeCents(100 * (u * n))
  {}

  /** At whole-cent prices the collateral is whole cents too. */
  lemma LockedWhole(price: int, n: int)
    requires WholeCents(price)
    ensures WholeCents(Locked(price, n))
  {
    var u := 100 - price / 100;
    assert 10000 - price == 100 * u;
    HundredTimes(u, n);
  }

  /** Fewer contracts at a better price lock no more. */
  lemma LockedMonotone(p: int, n: int, q: int, k: int)
    requires p <= q <= DOLLAR
    requires 0 <= k <= n
    ensures 0 <= Locked(q, k) <= Locked(p, n)
  {
    assert (DOLLAR - q) * k <= (DOLLAR - p) * k <= (DOLLAR - p) * n;
  }

  /** Booked collateral is `round((1 - price) * n, 2)`, hence monotone as well. */
  lemma BookedMonotone(p: int, n: int, q: int, k: int)
    requires p <= q <= DOLLAR
    requires 0 <= k <= n
    ensures 0 <= RoundCents(Locked(q, k)) <= RoundCents(Locked(p, n))
  {
    LockedMonotone(p, n, q, k);
    RoundCentsMonotone(0, Locked(q, k));
    RoundCentsMonotone(Locked(q, k), Locked(p, n));
  }

  /** 0.07 * n * P * (1 - P), in hundred-millionths of a cent. */
  function RawFee(price: int, n: int): int {
    7 * n * (price * (10000 - price))
  }

  /** `math.ceil` of raw hundred-millionths, as a whole number of cents. */
  function CeilCents(raw: int): (cents: int)
    ensures 100_000_000 * (cents - 1) < raw <= 100_000_000 * cents
  {
    -((-raw) / 100_000_000)
  }

  /** The trading fee, rounded up to the whole cent. */
  function Fee(price: int, n: int): int {
    100 * CeilCents(RawFee(price, n))
  }

  /** The fee is the least whole number of cents that covers the raw fee. */
  lemma FeeIsCeiling(price: int, n: int, cents: int)
    ensures WholeCents(Fee(price, n))
    ensures Fee(price, n) <= 100 * cents <==> 7 * n * (price * (10000 - price)) <= 100_000_000 * cents
  {
    var fee := CeilCents(RawFee(price, n));
    if fee <= cents {
      assert RawFee(price, n) <= 100_000_000 * cents;
    } else {
      assert cents <= fee - 1;
    }
  }

  lemma ScaleMonotone(a: int, b: int, unit: int)
    requires 0 <= a <= b && unit >= 0
    ensures 0 <= a * unit <= b * unit
  {}

  lemma ProductNonNegative(a: int, b: int)
    requires a >= 0 && b >= 0
    ensures a * b >= 0
  {}

  /** More contracts never cost a smaller fee (prices within a dollar). */
  lemma FeeMonotone(price: int, k: int, n: int)
    requires 0 <= price <= DOLLAR
    requires 0 <= k <= n
    ensures 0 <= Fee(price, k) <= Fee(price, n)
  {
    ProductNonNegative(price, 10000 - price);
    ScaleMonotone(7 * k, 7 * n, price * (10000 - price));
    CeilMonotone(RawFee(price, k), RawFee(price, n));
    CeilMonotone(0, RawFee(price, k));
  }

  lemma CeilMonotone(a: int, b: int)
    requires a <= b
    ensures CeilCents(a) <= CeilCents(b)
  {}

  /** Python's `int(x)`: truncation toward zero. */
  function Trunc(x: real): int {
    if x >= 0.0 then x.Floor else -((-x).Floor)
  }

  /** Truncation is the greatest integer not above a non-negative amount, the least not below a negative one. */
  lemma TruncIsFloor(x: real)
    ensures x >= 0.0 ==> Trunc(x) >= 0 && Trunc(x) as real <= x < Trunc(x) as real + 1.0
    ensures x < 0.0 ==> Trunc(x) <= 0 && Trunc(x) as real - 1.0 < x <= Trunc(x) as real
  {}

  lemma TruncBelowOne(x: real)
    ensures Trunc(x) < 1 <==> x < 1.0
  {}

  lemma TruncAtLeast(x: real, k: int)
    requires k > 1
    ensures k <= Trunc(x) <==> k as real <= x
  {
    TruncIsFloor(x);
  }

  /** `int(target / per) if per > 0 else 0`: units of `per` that `target` pays for. */
  function Affordable(target: real, per: real): int {
    if per > 0.0 then Trunc(target / per) else 0
  }

  predicate PaysFor(target: real, per: real, k: int) {
    k as real * per <= target
  }

  lemma AffordableAtLeast(target: real, per: real, k: int)
    requires per > 0.0 && k > 1
    ensures k <= Affordable(target, per) <==> PaysFor(target, per, k)
  {
    TruncAtLeast(target / per, k);
    QuotientAtLeast(target, per, k as real);
  }

  function Min(x: int, y: int): int {
    if x <= y then x else y
  }

  function Max(x: int, y: int): int {
    if x >= y then x else y
  }
}
