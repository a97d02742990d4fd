/** Recovering a trailing window's hit rate from two rounded cumulative ticks. */
module Window {
  import opened Options
  import opened Reals
  import opened Book
  import opened Reconcile
  import opened LiveTick
  import opened LiveInvariants
  import opened LiveOnce

  /** `round(x, 4)`, a tie going to the even ten-thousandth. */
  function Round4(x: real): real {
    var y := x * 10000.0;
    var q := y.Floor;
    var r := y - q as real;
    (if r < 0.5 || (r == 0.5 && q % 2 == 0) then q else q + 1) as real / 10000.0
  }

  /** It is the nearest whole number of ten-thousandths, the even one of two equally near. */
  lemma Round4Is(x: real)
    ensures exists q :: Nearest4(q, x, Round4(x))
  {
    var y := x * 10000.0;
    var q := y.Floor;
    var r := y - q as real;
    var up := if r < 0.5 || (r == 0.5 && q % 2 == 0) then q else q + 1;
    assert Nearest4(up, x, Round4(x));
  }

  /** `shown` is `q` ten-thousandths, and no other whole number of them is nearer to `x`. */
  ghost predicate Nearest4(q: int, x: real, shown: real) {
    && shown == q as real / 10000.0
    && -0.5 <= q as real - x * 10000.0 <= 0.5
    && (q as real - x * 10000.0 == 0.5 || x * 10000.0 - q as real == 0.5 ==> q % 2 == 0)
  }

  lemma Round4Error(x: real)
    ensures -0.00005 <= Round4(x) - x <= 0.00005
  {}

  /** The part of a history row the window reads. */
  datatype TickRow = TickRow(ts: int, settled: Option<nat>, hitRate: Option<real>)

  /** The last of the rows, in stable timestamp order, at or before `t`. */
  function LatestAt(h: seq<TickRow>, t: int): Option<TickRow> {
    if h == [] then None
    else
      var best, r := LatestAt(h[..|h| - 1], t), h[|h| - 1];
      if r.ts <= t && (best.None? || best.value.ts <= r.ts) then Some(r) else best
  }

  ghost predicate NoneBy(h: seq<TickRow>, t: int) {
    forall i :: 0 <= i < |h| ==> h[i].ts > t
  }

  /** Row `i` is at or before `t`, none such is later, and of equals it is the last. */
  ghost predicate IsLatest(h: seq<TickRow>, t: int, i: int) {
    && 0 <= i < |h| && h[i].ts <= t
    && forall j :: 0 <= j < |h| && h[j].ts <= t ==> h[j].ts <= h[i].ts && (j > i ==> h[j].ts < h[i].ts)
  }

  lemma LatestSnoc(h: seq<TickRow>, t: int, r: TickRow, i: int)
    requires IsLatest(h, t, i)
    ensures if r.ts <= t && h[i].ts <= r.ts then IsLatest(h + [r], t, |h|) else IsLatest(h + [r], t, i)
  {
    var all := h + [r];
    assert all[|h|] == r && all[i] == h[i];
    assert forall j :: 0 <= j < |h| ==> all[j] == h[j];
  }

  lemma FirstLatest(h: seq<TickRow>, t: int, r: TickRow)
    requires NoneBy(h, t)
    ensures if r.ts <= t then IsLatest(h + [r], t, |h|) else NoneBy(h + [r], t)
  {
    var all := h + [r];
    assert all[|h|] == r;
    assert forall j :: 0 <= j < |h| ==> all[j] == h[j];
  }

  /** It is a row at or before `t`, none such is later, and of equals the last one wins. */
  lemma {:induction false} LatestAtIs(h: seq<TickRow>, t: int)
    ensures LatestAt(h, t).None? <==> NoneBy(h, t)
    ensures LatestAt(h, t).Some? ==> exists i :: IsLatest(h, t, i) && h[i] == LatestAt(h, t).value
  {
    if h == [] {
    } else {
      var init, r := h[..|h| - 1], h[|h| - 1];
      assert h == init + [r];
      LatestAtIs(init, t);
      if LatestAt(init, t).None? {
        FirstLatest(init, t, r);
      } else {
        var i :| IsLatest(init, t, i) && init[i] == LatestAt(init, t).value;
        LatestSnoc(init, t, r, i);
      }
    }
  }

  function Clamp01(x: real): real {
    if x < 0.0 then 0.0 else if x > 1.0 then 1.0 else x
  }

  /** Marginal rate between two cumulative ticks. */
  function MarginalRate(ha: real, na: real, hb: real, nb: real): real
    requires na < nb
  {
    Clamp01((hb * nb - ha * na) / (nb - na))
  }

  /** `None`: no full window yet, or nothing settled in it; inner `None`: a rate is missing. */
  function TickWindow(h: seq<TickRow>, now: int, span: int): Option<(nat, Option<real>)> {
    match (LatestAt(h, now - span), LatestAt(h, now))
    case (Some(a), Some(b)) =>
      if a.settled.None? || b.settled.None? || b.settled.value <= a.settled.value then None
      else
        Some((b.settled.value - a.settled.value,
              if a.hitRate.Some? && b.hitRate.Some?
              then Some(MarginalRate(a.hitRate.value, a.settled.value as real,
                                     b.hitRate.value, b.settled.value as real))
              else None))
    case _ => None
  }

  lemma TheLatest(h: seq<TickRow>, t: int, i: int)
    requires IsLatest(h, t, i)
    ensures LatestAt(h, t) == Some(h[i])
  {
    LatestAtIs(h, t);
    var k :| IsLatest(h, t, k) && h[k] == LatestAt(h, t).value;
    assert k == i;
  }

  /** `rate` is `num / den`, cut to the unit interval. */
  ghost predicate UnitRatio(rate: real, num: real, den: real) {
    && (0.0 <= num <= den ==> rate * den == num)
    && (num < 0.0 ==> rate == 0.0) && (num > den ==> rate == 1.0)
  }

  lemma ClampRatio(num: real, den: real)
    requires den > 0.0
    ensures UnitRatio(Clamp01(num / den), num, den)
  {
    var x := num / den;
    assert x * den == num;
    Cancel(x, 0.0, den);
    Cancel(0.0, x, den);
    Cancel(x, 1.0, den);
    Cancel(1.0, x, den);
  }

  /**
   Between the latest rows of its two ends the window reports the number settled in between,
   where there is any, and the share of it that the two rates leave; with no row at one end it
   reports nothing.
   */
  lemma WindowReports(h: seq<TickRow>, now: int, span: int, i: int, j: int)
    requires IsLatest(h, now - span, i) && IsLatest(h, now, j)
    ensures var (a, b, out) := (h[i], h[j], TickWindow(h, now, span));
      && (out.Some? <==> a.settled.Some? && b.settled.Some? && a.settled.value < b.settled.value)
      && (out.Some? ==>
            && out.value.0 == b.settled.value - a.settled.value
            && (out.value.1.Some? <==> a.hitRate.Some? && b.hitRate.Some?)
            && (out.value.1.Some? ==>
                  UnitRatio(out.value.1.value,
                            b.hitRate.value * b.settled.value as real - a.hitRate.value * a.settled.value as real,
                            b.settled.value as real - a.settled.value as real)))
  {
    TheLatest(h, now - span, i);
    TheLatest(h, now, j);
    var a, b := h[i], h[j];
    if TickWindow(h, now, span).Some? && a.hitRate.Some? && b.hitRate.Some? {
      ClampRatio(b.hitRate.value * b.settled.value as real - a.hitRate.value * a.settled.value as real,
                 b.settled.value as real - a.settled.value as real);
    }
  }

  lemma NoWindow(h: seq<TickRow>, now: int, span: int)
    requires NoneBy(h, now - span) || NoneBy(h, now)
    ensures TickWindow(h, now, span).None?
  {
    LatestAtIs(h, now - span);
    LatestAtIs(h, now);
  }

  /** `hit_rate_no` of a snapshot. */
  function HitRate(wins: nat, settled: nat): Option<real> {
    if settled == 0 then None else Some(Round4(wins as real / settled as real))
  }

  lemma ErrorTimes(h: real, x: real, e: real, k: real)
    requires k >= 0.0 && -e <= h - x <= e
    ensures -(e * k) <= h * k - x * k <= e * k
  {
    ScaleLe(h, x + e, k);
    ScaleLe(x, h + e, k);
    assert (x + e) * k == x * k + e * k;
    assert (h + e) * k == h * k + e * k;
  }

  lemma ErrorOfQuotient(h: real, w: real, k: real, e: real)
    requires k > 0.0 && -e <= h - w / k <= e
    ensures -(e * k) <= h * k - w <= e * k
  {
    var x := w / k;
    assert x * k == w;
    ErrorTimes(h, x, e, k);
  }

  lemma ScaledError(w: nat, n: nat)
    requires n > 0
    ensures Rounded(HitRate(w, n).value, w, n)
  {
    Round4Error(w as real / n as real);
    ErrorOfQuotient(HitRate(w, n).value, w as real, n as real, 0.00005);
  }

  lemma DivideBounds(num: real, den: real, bound: real)
    requires den > 0.0 && -bound <= num <= bound
    ensures -(bound / den) <= num / den <= bound / den
  {
    var x, y := num / den, bound / den;
    assert x * den == num && y * den == bound && -y * den == -bound;
    Cancel(x, y, den);
    Cancel(-y, x, den);
  }

  lemma ClampHelps(raw: real, exact: real, bound: real)
    requires 0.0 <= exact <= 1.0 && -bound <= raw - exact <= bound
    ensures 0.0 <= Clamp01(raw) <= 1.0 && -bound <= Clamp01(raw) - exact <= bound
  {}

  lemma QuotientDifference(a: real, b: real, n: real)
    requires n > 0.0
    ensures a / n - b / n == (a - b) / n
  {
    var x, y := a / n, b / n;
    assert (x - y) * n == x * n - y * n == a - b;
  }

  /** The share of wins in the window. */
  function TrueRate(wa: real, na: real, wb: real, nb: real): real
    requires na < nb
  {
    (wb - wa) / (nb - na)
  }

  /** What the two roundings can contribute. */
  function RoundingBound(na: real, nb: real): real
    requires na < nb
  {
    0.00005 * (na + nb) / (nb - na)
  }

  ghost predicate Recovers(rate: real, exact: real, bound: real) {
    0.0 <= rate <= 1.0 && -bound <= rate - exact <= bound
  }

  lemma MarginalError(ha: real, wa: real, na: real, hb: real, wb: real, nb: real)
    requires 0.0 < na < nb && 0.0 <= wb - wa <= nb - na
    requires -(0.00005 * na) <= ha * na - wa <= 0.00005 * na
    requires -(0.00005 * nb) <= hb * nb - wb <= 0.00005 * nb
    ensures Recovers(MarginalRate(ha, na, hb, nb), TrueRate(wa, na, wb, nb), RoundingBound(na, nb))
  {
    QuotientInUnit(wb - wa, nb - na);
    QuotientError(hb * nb - ha * na, wb - wa, nb - na, 0.00005 * (na + nb));
    ClampHelps((hb * nb - ha * na) / (nb - na), (wb - wa) / (nb - na), 0.00005 * (na + nb) / (nb - na));
  }

  /** `h` is the share `w / n` up to the rounding. */
  ghost predicate Rounded(h: real, w: nat, n: nat) {
    -(0.00005 * n as real) <= h * n as real - w as real <= 0.00005 * n as real
  }

  lemma CountedError(ha: real, wa: nat, na: nat, hb: real, wb: nat, nb: nat)
    requires 0 < na < nb && 0 <= wb - wa <= nb - na
    requires Rounded(ha, wa, na) && Rounded(hb, wb, nb)
    ensures Recovers(MarginalRate(ha, na as real, hb, nb as real),
                     TrueRate(wa as real, na as real, wb as real, nb as real), RoundingBound(na as real, nb as real))
  {
    MarginalError(ha, wa as real, na as real, hb, wb as real, nb as real);
  }

  /**
   As long as settlement never un-settles or flips a record (so the window's wins are
   between 0 and its size), the recovered rate lies in [0, 1] and is off by at most the
   two roundings' share: 0.00005 * (na + nb) / (nb - na).
   */
  lemma MarginalRateError(wa: nat, na: nat, wb: nat, nb: nat)
    requires 0 < na < nb && 0 <= wb - wa <= nb - na
    ensures Recovers(MarginalRate(HitRate(wa, na).value, na as real, HitRate(wb, nb).value, nb as real),
                     TrueRate(wa as real, na as real, wb as real, nb as real), RoundingBound(na as real, nb as real))
  {
    ScaledError(wa, na);
    ScaledError(wb, nb);
    CountedError(HitRate(wa, na).value, wa, na, HitRate(wb, nb).value, wb, nb);
  }

  lemma QuotientError(raw: real, exact: real, n: real, bound: real)
    requires n > 0.0 && -bound <= raw - exact <= bound
    ensures -(bound / n) <= raw / n - exact / n <= bound / n
  {
    DivideBounds(raw - exact, n, bound);
    QuotientDifference(raw, exact, n);
  }

  lemma QuotientInUnit(w: real, n: real)
    requires 0.0 < n && 0.0 <= w <= n
    ensures 0.0 <= w / n <= 1.0
  {
    var x := w / n;
    assert x * n == w;
    Cancel(0.0, x, n);
    Cancel(x, 1.0, n);
  }

  /** The row a book gives. */
  function RowOf(ts: int, ps: seq<Position>): TickRow {
    TickRow(ts, Some(SettledTotal(ps)), HitRate(Wins(ps), SettledTotal(ps)))
  }

  lemma BookRates(ps: seq<Position>, qs: seq<Position>)
    requires Extends(ps, qs) && 0 < SettledTotal(ps) < SettledTotal(qs)
    ensures var na, nb := SettledTotal(ps), SettledTotal(qs);
      Recovers(MarginalRate(HitRate(Wins(ps), na).value, na as real, HitRate(Wins(qs), nb).value, nb as real),
               TrueRate(Wins(ps) as real, na as real, Wins(qs) as real, nb as real),
               RoundingBound(na as real, nb as real))
  {
    WinsRiseWithSettled(ps, qs);
    MarginalRateError(Wins(ps), SettledTotal(ps), Wins(qs), SettledTotal(qs));
  }

  /** The window reports `n` settlements, at a rate that recovers the true share of wins. */
  ghost predicate WindowRecovers(report: Option<(nat, Option<real>)>, ps: seq<Position>, qs: seq<Position>)
    requires SettledTotal(ps) < SettledTotal(qs)
  {
    var na, nb := SettledTotal(ps), SettledTotal(qs);
    && report.Some? && report.value.0 == nb - na && report.value.1.Some?
    && Recovers(report.value.1.value, TrueRate(Wins(ps) as real, na as real, Wins(qs) as real, nb as real),
                RoundingBound(na as real, nb as real))
  }

  /**
   From the live harness to the window: when a history's ticks at the two ends of the window
   were written from two moments of a run, with something settled before and in between, the
   window reports the number settled in between, and a rate within the rounding bound of
   their share of wins.
   */
  lemma RecoveredFromRun(w: World, es: seq<Event>, prefix: string, universe: set<Ticker>,
                         h: seq<TickRow>, now: int, span: int, ta: int, tb: int)
    requires WorldOk(w, prefix, universe) && EventsOk(es, prefix, universe)
    requires 0 < SettledTotal(w.disk) < SettledTotal(Run(w, es).disk)
    requires LatestAt(h, now - span) == Some(RowOf(ta, w.disk))
    requires LatestAt(h, now) == Some(RowOf(tb, Run(w, es).disk))
    ensures WindowRecovers(TickWindow(h, now, span), w.disk, Run(w, es).disk)
  {
    BookOnlyGrows(w, es, prefix, universe);
    BookRates(w.disk, Run(w, es).disk);
  }
}
