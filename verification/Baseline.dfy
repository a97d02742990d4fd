/** The Explorer's robust baseline: median, MAD, and the capped surprise score. */
module Baseline {
  import opened Options
  import opened Reals

  // ---------- order statistics ----------

  ghost predicate Sorted(s: seq<real>) {
    forall i, j :: 0 <= i < j < |s| ==> s[i] <= s[j]
  }

  function Insert(x: real, s: seq<real>): (r: seq<real>)
    ensures |r| == |s| + 1
  {
    if s == [] || x <= s[0] then [x] + s else [s[0]] + Insert(x, s[1..])
  }

  /** `sorted(xs)`. */
  function Sort(xs: seq<real>): (r: seq<real>)
    ensures |r| == |xs|
  {
    if xs == [] then [] else Insert(xs[0], Sort(xs[1..]))
  }

  /** How many values lie below `v` (or at it, if `inclusive`). */
  function Count(xs: seq<real>, v: real, inclusive: bool): (n: nat)
    ensures n <= |xs|
  {
    if xs == [] then 0
    else (if xs[0] < v || (inclusive && xs[0] == v) then 1 else 0) + Count(xs[1..], v, inclusive)
  }

  lemma {:induction false} CountInsert(x: real, s: seq<real>, v: real, inclusive: bool)
    ensures Count(Insert(x, s), v, inclusive) == Count([x] + s, v, inclusive)
  {
    assert ([x] + s)[1..] == s;
    if !(s == [] || x <= s[0]) {
      CountInsert(x, s[1..], v, inclusive);
      assert ([x] + s[1..])[1..] == s[1..];
      assert ([s[0]] + Insert(x, s[1..]))[1..] == Insert(x, s[1..]);
    }
  }

  lemma {:induction false} CountSort(xs: seq<real>, v: real, inclusive: bool)
    ensures Count(Sort(xs), v, inclusive) == Count(xs, v, inclusive)
  {
    if xs == [] {
    } else {
      CountSort(xs[1..], v, inclusive);
      CountInsert(xs[0], Sort(xs[1..]), v, inclusive);
      assert ([xs[0]] + Sort(xs[1..]))[1..] == Sort(xs[1..]);
    }
  }

  lemma {:induction false} InsertSorted(x: real, s: seq<real>)
    requires Sorted(s)
    ensures Sorted(Insert(x, s))
    ensures forall i :: 0 <= i < |Insert(x, s)| ==> Insert(x, s)[i] == x || Insert(x, s)[i] in s
  {
    if !(s == [] || x <= s[0]) {
      InsertSorted(x, s[1..]);
      var r := Insert(x, s[1..]);
      forall i | 0 <= i < |r| ensures s[0] <= r[i] && (r[i] == x || r[i] in s) {
        if r[i] != x {
          var k :| 0 <= k < |s[1..]| && s[1..][k] == r[i];
          assert s[k + 1] == r[i];
        }
      }
    }
  }

  lemma {:induction false} SortSorted(xs: seq<real>)
    ensures Sorted(Sort(xs))
  {
    if xs == [] {
    } else {
      SortSorted(xs[1..]);
      InsertSorted(xs[0], Sort(xs[1..]));
    }
  }

  /** In a sorted list the values below `v` are exactly the first `Count` of them. */
  lemma {:induction false} SortedCount(s: seq<real>, v: real, inclusive: bool, j: nat)
    requires Sorted(s) && j < |s|
    ensures j < Count(s, v, inclusive) <==> s[j] < v || (inclusive && s[j] == v)
  {
    if j == 0 {
      if !(s[0] < v || (inclusive && s[0] == v)) {
        NothingBelow(s, v, inclusive);
      }
    } else {
      SortedCount(s[1..], v, inclusive, j - 1);
      if !(s[0] < v || (inclusive && s[0] == v)) {
        NothingBelow(s, v, inclusive);
      }
    }
  }

  lemma {:induction false} NothingBelow(s: seq<real>, v: real, inclusive: bool)
    requires Sorted(s) && s != [] && !(s[0] < v || (inclusive && s[0] == v))
    ensures Count(s, v, inclusive) == 0
  {
    if |s| > 1 {
      NothingBelow(s[1..], v, inclusive);
    }
  }

  /** The `j`-th order statistic, by counting. */
  lemma OrderStatistic(xs: seq<real>, v: real, inclusive: bool, j: nat)
    requires j < |xs|
    ensures j < Count(xs, v, inclusive) <==> Sort(xs)[j] < v || (inclusive && Sort(xs)[j] == v)
  {
    SortSorted(xs);
    CountSort(xs, v, inclusive);
    SortedCount(Sort(xs), v, inclusive, j);
  }

  // ---------- median ----------

  function Median(xs: seq<real>): real
    requires xs != []
  {
    var s, m := Sort(xs), |xs| / 2;
    if |xs| % 2 == 1 then s[m] else (s[m - 1] + s[m]) / 2.0
  }

  /** The middle value, or the mean of the two middle ones. */
  lemma MedianIs(xs: seq<real>)
    requires xs != []
    ensures |xs| % 2 == 1 ==> Median(xs) == Sort(xs)[|xs| / 2]
    ensures |xs| % 2 == 0 ==> Median(xs) + Median(xs) == Sort(xs)[|xs| / 2 - 1] + Sort(xs)[|xs| / 2]
  {
    if |xs| % 2 == 0 {
      TwiceMean(Sort(xs)[|xs| / 2 - 1], Sort(xs)[|xs| / 2]);
    }
  }

  lemma TwiceMean(a: real, b: real)
    ensures (a + b) / 2.0 + (a + b) / 2.0 == a + b
  {}

  /** Positions at which two samples differ. */
  function Replaced(xs: seq<real>, ys: seq<real>): nat
    requires |xs| == |ys|
  {
    if xs == [] then 0 else (if xs[0] != ys[0] then 1 else 0) + Replaced(xs[1..], ys[1..])
  }

  /** Every value kept from `xs` in `ys` lies in `[lo, hi]`. */
  ghost predicate KeptWithin(xs: seq<real>, ys: seq<real>, lo: real, hi: real)
    requires |xs| == |ys|
  {
    forall i :: 0 <= i < |xs| && xs[i] == ys[i] ==> lo <= ys[i] <= hi
  }

  lemma {:induction false} OutsideIsReplaced(xs: seq<real>, ys: seq<real>, lo: real, hi: real)
    requires |xs| == |ys| && KeptWithin(xs, ys, lo, hi)
    ensures Count(ys, lo, false) <= Replaced(xs, ys)
    ensures |ys| - Count(ys, hi, true) <= Replaced(xs, ys)
  {
    if xs == [] {
    } else {
      assert forall i :: 0 <= i < |xs[1..]| ==> xs[1..][i] == xs[i + 1] && ys[1..][i] == ys[i + 1];
      OutsideIsReplaced(xs[1..], ys[1..], lo, hi);
    }
  }

  lemma MiddleWithin(ys: seq<real>, lo: real, hi: real, j: nat)
    requires Count(ys, lo, false) <= j < Count(ys, hi, true)
    ensures j < |ys| && lo <= Sort(ys)[j] <= hi
  {
    OrderStatistic(ys, lo, false, j);
    OrderStatistic(ys, hi, true, j);
  }

  lemma MeanWithin(a: real, b: real, lo: real, hi: real)
    requires lo <= a <= hi && lo <= b <= hi
    ensures lo <= (a + b) / 2.0 <= hi
  {}

  /** With fewer than half of the values on either side of a range, the median lies in it. */
  lemma MedianWithin(ys: seq<real>, lo: real, hi: real)
    requires 2 * Count(ys, lo, false) < |ys| && 2 * (|ys| - Count(ys, hi, true)) < |ys|
    ensures lo <= Median(ys) <= hi
  {
    var m := |ys| / 2;
    MiddleWithin(ys, lo, hi, m);
    if |ys| % 2 == 0 {
      MiddleWithin(ys, lo, hi, m - 1);
      MeanWithin(Sort(ys)[m - 1], Sort(ys)[m], lo, hi);
    }
  }

  /**
   Breakdown point: replacing fewer than half of the values, by anything, leaves the median
   within the range of the ones kept.
   */
  lemma MedianIsRobust(xs: seq<real>, ys: seq<real>, lo: real, hi: real)
    requires |xs| == |ys| > 0 && 2 * Replaced(xs, ys) < |xs|
    requires KeptWithin(xs, ys, lo, hi)
    ensures lo <= Median(ys) <= hi
  {
    OutsideIsReplaced(xs, ys, lo, hi);
    MedianWithin(ys, lo, hi);
  }

  function Copies(v: real, n: nat): (s: seq<real>)
    ensures |s| == n && forall i :: 0 <= i < n ==> s[i] == v
  {
    seq(n, _ => v)
  }

  function Occurrences(xs: seq<real>, v: real): (n: nat)
    ensures n <= |xs|
  {
    if xs == [] then 0 else (if xs[0] == v then 1 else 0) + Occurrences(xs[1..], v)
  }

  lemma {:induction false} ReplacedCopies(xs: seq<real>, v: real)
    ensures Replaced(Copies(v, |xs|), xs) == |xs| - Occurrences(xs, v)
  {
    if xs == [] {
    } else {
      ReplacedCopies(xs[1..], v);
      assert Copies(v, |xs|)[1..] == Copies(v, |xs| - 1);
    }
  }

  /** A value held by a strict majority is the median. */
  lemma MajorityIsMedian(xs: seq<real>, v: real)
    requires 2 * Occurrences(xs, v) > |xs|
    ensures Median(xs) == v
  {
    ReplacedCopies(xs, v);
    MedianIsRobust(Copies(v, |xs|), xs, v, v);
  }

  // ---------- MAD ----------

  function Deviations(xs: seq<real>, med: real): (ds: seq<real>)
    ensures |ds| == |xs| && forall i :: 0 <= i < |xs| ==> ds[i] == AbsReal(xs[i] - med)
  {
    seq(|xs|, i requires 0 <= i < |xs| => AbsReal(xs[i] - med))
  }

  function Mad(xs: seq<real>): real
    requires xs != []
  {
    Median(Deviations(xs, Median(xs)))
  }

  lemma {:induction false} ZeroDeviations(xs: seq<real>, med: real)
    ensures Count(Deviations(xs, med), 0.0, true) == Occurrences(xs, med)
    ensures Count(Deviations(xs, med), 0.0, false) == 0
  {
    if xs == [] {
    } else {
      ZeroDeviations(xs[1..], med);
      assert Deviations(xs, med)[1..] == Deviations(xs[1..], med);
    }
  }

  lemma MiddleNonNegative(ds: seq<real>, j: nat)
    requires j < |ds| && Count(ds, 0.0, false) == 0
    ensures Sort(ds)[j] >= 0.0
  {
    OrderStatistic(ds, 0.0, false, j);
  }

  lemma MedianOfOdd(ds: seq<real>)
    requires |ds| % 2 == 1 && Count(ds, 0.0, false) == 0
    ensures Median(ds) == Sort(ds)[|ds| / 2] >= 0.0
  {
    MiddleNonNegative(ds, |ds| / 2);
  }

  lemma MeanOfNonNegative(a: real, b: real)
    requires 0.0 <= a <= b
    ensures (a + b) / 2.0 >= 0.0
    ensures (a + b) / 2.0 == 0.0 <==> b == 0.0
  {}

  lemma MedianOfEven(ds: seq<real>)
    requires ds != [] && |ds| % 2 == 0 && Count(ds, 0.0, false) == 0
    ensures Median(ds) >= 0.0
    ensures Median(ds) == 0.0 <==> Sort(ds)[|ds| / 2] == 0.0
  {
    var m := |ds| / 2;
    MiddleNonNegative(ds, m - 1);
    SortSorted(ds);
    MeanOfNonNegative(Sort(ds)[m - 1], Sort(ds)[m]);
  }

  /** Of non-negative values the median vanishes exactly with the upper middle one. */
  lemma MedianByMiddle(ds: seq<real>)
    requires ds != [] && Count(ds, 0.0, false) == 0
    ensures Median(ds) >= 0.0
    ensures Median(ds) == 0.0 <==> Sort(ds)[|ds| / 2] == 0.0
  {
    if |ds| % 2 == 0 {
      MedianOfEven(ds);
    } else {
      MedianOfOdd(ds);
    }
  }

  /** The median of non-negative values is zero exactly when more than half of them are. */
  lemma MedianZeroIff(ds: seq<real>)
    requires ds != [] && Count(ds, 0.0, false) == 0
    ensures Median(ds) >= 0.0
    ensures Median(ds) == 0.0 <==> 2 * Count(ds, 0.0, true) > |ds|
  {
    var m := |ds| / 2;
    MedianByMiddle(ds);
    MiddleNonNegative(ds, m);
    OrderStatistic(ds, 0.0, true, m);
  }

  /**
   The MAD degenerates to zero exactly when more than half of the baseline is one repeated
   value - which is then the median.
   */
  lemma MadZeroIff(xs: seq<real>)
    requires xs != []
    ensures Mad(xs) >= 0.0
    ensures Mad(xs) == 0.0 <==> 2 * Occurrences(xs, Median(xs)) > |xs|
    ensures Mad(xs) == 0.0 <==> exists v :: 2 * Occurrences(xs, v) > |xs|
  {
    var med := Median(xs);
    ZeroDeviations(xs, med);
    MedianZeroIff(Deviations(xs, med));
    if v :| 2 * Occurrences(xs, v) > |xs| {
      MajorityIsMedian(xs, v);
    }
  }

  // ---------- robust z ----------

  const MIN_HISTORY := 3
  const MAD_FLOOR := 0.000000001
  const REL_FLOOR := 0.01
  const ABS_FLOOR := 0.000001
  const Z_CAP := 25.0

  function SquaredDeviations(xs: seq<real>, med: real): real {
    if xs == [] then 0.0 else Times(xs[0] - med, xs[0] - med) + SquaredDeviations(xs[1..], med)
  }

  /** `sigma` is the population deviation about `med` (the square root is not computed here). */
  ghost predicate IsSigma(sigma: real, xs: seq<real>, med: real) {
    && sigma >= 0.0
    && (|xs| < 2 ==> sigma == 0.0)
    && (|xs| >= 2 ==> Times(sigma, sigma) * |xs| as real == SquaredDeviations(xs, med))
  }

  /** MAD, then sigma about the median, then a floor relative to the median. */
  function Scale(prior: seq<real>, sigma: real): real
    requires prior != []
  {
    var mad := 1.4826 * Mad(prior);
    if mad > MAD_FLOOR then mad
    else if sigma > MAD_FLOOR then sigma
    else MaxReal(REL_FLOOR * AbsReal(Median(prior)), ABS_FLOOR)
  }

  function Clamp(z: real): real {
    if z > Z_CAP then Z_CAP else if z < -Z_CAP then -Z_CAP else z
  }

  datatype Score = Score(z: real, median: real, mad: real, n: nat)

  function RobustZ(value: real, prior: seq<real>, sigma: real): Option<Score> {
    if |prior| < MIN_HISTORY then None
    else
      assert Scale(prior, sigma) > 0.0;
      Some(Score(Clamp((value - Median(prior)) / Scale(prior, sigma)), Median(prior), Mad(prior), |prior|))
  }

  lemma QuotientSign(a: real, b: real, s: real)
    requires s > 0.0
    ensures a / s > 0.0 <==> a > 0.0
    ensures a / s < 0.0 <==> a < 0.0
    ensures a <= b ==> a / s <= b / s
  {
    var x, y := a / s, b / s;
    assert x * s == a && y * s == b;
    if a <= b {
      Cancel(x, y, s);
    }
    Cancel(0.0, x, s);
    Cancel(x, 0.0, s);
  }

  /**
   The score exists from three prior values on, is bounded by 25, carries the sign of
   `value - median`, and never decreases in the value.
   */
  lemma RobustZProperties(value: real, larger: real, prior: seq<real>, sigma: real)
    requires value <= larger
    ensures RobustZ(value, prior, sigma).Some? <==> |prior| >= 3
    ensures RobustZ(value, prior, sigma).Some? ==>
      var z, z' := RobustZ(value, prior, sigma).value.z, RobustZ(larger, prior, sigma).value.z;
      && -25.0 <= z <= z' <= 25.0
      && (z > 0.0 <==> value > Median(prior))
      && (z < 0.0 <==> value < Median(prior))
  {
    if |prior| >= MIN_HISTORY {
      QuotientSign(value - Median(prior), larger - Median(prior), Scale(prior, sigma));
    }
  }

  /** `z` is `d` in units of `scale`, capped at 25 either way. */
  ghost predicate ScoredOn(z: real, d: real, scale: real) {
    && scale > 0.0
    && (-(25.0 * scale) <= d <= 25.0 * scale ==> z * scale == d)
    && (d > 25.0 * scale ==> z == 25.0)
    && (d < -(25.0 * scale) ==> z == -25.0)
  }

  lemma ClampScores(d: real, scale: real)
    requires scale > 0.0
    ensures ScoredOn(Clamp(d / scale), d, scale)
  {
    var z := d / scale;
    assert z * scale == d;
    Cancel(z, 25.0, scale);
    Cancel(25.0, z, scale);
    Cancel(z, -25.0, scale);
    Cancel(-25.0, z, scale);
  }

  /**
   The score is the distance from the median in units of 1.4826 MAD; of sigma where that is
   as good as zero; of a hundredth of the median, or a millionth, where both are.
   */
  lemma RobustZScores(value: real, prior: seq<real>, sigma: real)
    requires |prior| >= 3
    ensures var r, mad := RobustZ(value, prior, sigma).value, 1.4826 * Mad(prior);
      && r.median == Median(prior) && r.mad == Mad(prior) && r.n == |prior|
      && ScoredOn(r.z, value - Median(prior),
                  if mad > 0.000000001 then mad
                  else if sigma > 0.000000001 then sigma
                  else if AbsReal(Median(prior)) > 0.0001 then AbsReal(Median(prior)) / 100.0
                  else 0.000001)
  {
    ClampScores(value - Median(prior), Scale(prior, sigma));
  }

  lemma SquareZero(x: real)
    ensures Times(x, x) >= 0.0
    ensures Times(x, x) == 0.0 <==> x == 0.0
  {
    if x > 0.0 {
      TimesPositive(x, x);
    } else if x < 0.0 {
      TimesPositive(-x, -x);
      TimesNegated(x, x);
    }
  }

  lemma {:induction false} SquaresZero(xs: seq<real>, med: real)
    ensures SquaredDeviations(xs, med) >= 0.0
    ensures SquaredDeviations(xs, med) == 0.0 <==> forall i :: 0 <= i < |xs| ==> xs[i] == med
  {
    if xs == [] {
    } else {
      SquaresZero(xs[1..], med);
      SquareZero(xs[0] - med);
      assert xs == [xs[0]] + xs[1..];
    }
  }

  lemma {:induction false} SquaresOfEqual(xs: seq<real>, med: real, d: real)
    requires forall i :: 0 <= i < |xs| ==> AbsReal(xs[i] - med) == d
    ensures SquaredDeviations(xs, med) == Times(d, d) * |xs| as real
  {
    if xs == [] {
    } else {
      SquaresOfEqual(xs[1..], med, d);
      TimesNegated(d, d);
      OneMore(Times(d, d), |xs| - 1);
    }
  }

  lemma OneMore(x: real, n: nat)
    ensures x + x * n as real == x * (n + 1) as real
  {}

  /** Of values all at one distance from the median, sigma is that distance. */
  lemma SigmaOfEqual(sigma: real, xs: seq<real>, med: real, d: real)
    requires |xs| >= 2 && forall i :: 0 <= i < |xs| ==> AbsReal(xs[i] - med) == d
    ensures IsSigma(sigma, xs, med) <==> sigma == d
  {
    SquaresOfEqual(xs, med, d);
    assert AbsReal(xs[0] - med) == d;
    SameSquare(sigma, d, |xs|);
  }

  lemma SameSquare(x: real, y: real, n: nat)
    requires y >= 0.0 && n > 0
    ensures x >= 0.0 && Times(x, x) * n as real == Times(y, y) * n as real <==> x == y
  {
    if x >= 0.0 && Times(x, x) * n as real == Times(y, y) * n as real {
      Cancel(Times(x, x), Times(y, y), n as real);
      Cancel(Times(y, y), Times(x, x), n as real);
      if x < y {
        SquareOrder(x, y);
      } else if y < x {
        SquareOrder(y, x);
      }
    }
  }

  lemma SquareOrder(x: real, y: real)
    requires 0.0 <= x < y
    ensures Times(x, x) < Times(y, y)
  {
    TimesPositive(y - x, y + x);
    assert Times(y - x, y + x) == Times(y, y) - Times(x, x);
  }

  /** Sigma about the median vanishes exactly for a truly constant baseline. */
  lemma SigmaZeroIff(sigma: real, xs: seq<real>, med: real)
    requires IsSigma(sigma, xs, med) && |xs| >= 2
    ensures sigma == 0.0 <==> forall i :: 0 <= i < |xs| ==> xs[i] == med
  {
    SquaresZero(xs, med);
    SquareZero(sigma);
  }

  /**
   A stuck metric never divides by the bare epsilon: with a majority repeated, the scale is
   sigma about that value, or, when sigma is as good as zero, a floor relative to the value.
   */
  lemma StuckScale(prior: seq<real>, sigma: real, v: real)
    requires 2 * Occurrences(prior, v) > |prior|
    ensures Scale(prior, sigma)
            == if sigma > 0.000000001 then sigma else MaxReal(0.01 * AbsReal(v), 0.000001)
  {
    MajorityIsMedian(prior, v);
    MadZeroIff(prior);
  }

  /** Three days at zero. */
  const FLAT := [0.0, 0.0, 0.0]

  /** After a flat history the value one is an outlier, at the cap. */
  lemma OutlierAfterFlat()
    ensures Median(FLAT) == 0.0 && IsSigma(0.0, FLAT, 0.0)
    ensures RobustZ(1.0, FLAT, 0.0) == Some(Score(25.0, 0.0, 0.0, 3))
  {
    assert FLAT[1..] == [0.0, 0.0] && [0.0, 0.0][1..] == [0.0] && [0.0][1..] == [];
    assert Occurrences(FLAT, 0.0) == 3;
    MajorityIsMedian(FLAT, 0.0);
    StuckScale(FLAT, 0.0, 0.0);
    MadZeroIff(FLAT);
    SquaresZero(FLAT, 0.0);
    TimesUnits(0.0);
    assert 1.0 / 0.000001 == 1000000.0;
  }

  // ---------- the metric history ----------

  datatype HistoryRow = HistoryRow(date: int, key: string, value: Option<real>)
  datatype Metric = Metric(key: string, value: Option<real>)

  predicate Has(h: seq<HistoryRow>, date: int, key: string) {
    exists i :: 0 <= i < |h| && h[i].date == date && h[i].key == key
  }

  function NewRows(h: seq<HistoryRow>, date: int, ms: seq<Metric>): seq<HistoryRow> {
    if ms == [] then []
    else
      NewRows(h, date, ms[..|ms| - 1])
      + if Has(h, date, ms[|ms| - 1].key) then [] else [HistoryRow(date, ms[|ms| - 1].key, ms[|ms| - 1].value)]
  }

  function PriorValues(h: seq<HistoryRow>, key: string, before: int): seq<real> {
    if h == [] then []
    else
      var r := h[|h| - 1];
      PriorValues(h[..|h| - 1], key, before)
      + if r.key == key && r.date < before && r.value.Some? then [r.value.value] else []
  }

  /** The values of a key before a day, row by row: those of that key, of an earlier date, with a value. */
  lemma PriorRows(h: seq<HistoryRow>, r: HistoryRow, key: string, before: int)
    ensures PriorValues([], key, before) == []
    ensures r.key == key && r.date < before && r.value.Some? ==>
      PriorValues(h + [r], key, before) == PriorValues(h, key, before) + [r.value.value]
    ensures r.key != key || r.date >= before || r.value.None? ==>
      PriorValues(h + [r], key, before) == PriorValues(h, key, before)
  {
    assert (h + [r])[..|h|] == h;
  }

  /** The rows of a day, metric by metric: those whose key the stored rows of the day do not have. */
  lemma {:induction false} NewRowsByMetric(h: seq<HistoryRow>, date: int, a: seq<Metric>, b: seq<Metric>, m: Metric)
    ensures NewRows(h, date, a + b) == NewRows(h, date, a) + NewRows(h, date, b)
    ensures (exists i :: 0 <= i < |h| && h[i].date == date && h[i].key == m.key) ==> NewRows(h, date, [m]) == []
    ensures (forall i :: 0 <= i < |h| && h[i].date == date ==> h[i].key != m.key) ==>
      NewRows(h, date, [m]) == [HistoryRow(date, m.key, m.value)]
  {
    if b == [] {
      assert a + b == a;
    } else {
      NewRowsByMetric(h, date, a, b[..|b| - 1], m);
      assert (a + b)[..|a + b| - 1] == a + b[..|b| - 1];
    }
  }

  /** The in-memory history of a run. */
  class History {
    var rows: seq<HistoryRow>

    /** Append the day's rows for keys the day does not have yet; the count written is returned. */
    method AppendMetrics(date: int, ms: seq<Metric>) returns (n: nat)
      modifies this
      ensures rows == old(rows) + NewRows(old(rows), date, ms)
      ensures n == |rows| - |old(rows)|
    {
      var added := [];
      for i := 0 to |ms|
        invariant rows == old(rows) && added == NewRows(rows, date, ms[..i])
      {
        assert ms[..i + 1][..i] == ms[..i];
        if !Has(rows, date, ms[i].key) {
          added := added + [HistoryRow(date, ms[i].key, ms[i].value)];
        }
      }
      assert ms[..|ms|] == ms;
      rows := rows + added;
      n := |added|;
    }
  }

  lemma {:induction false} NewRowsAre(h: seq<HistoryRow>, date: int, ms: seq<Metric>)
    ensures forall i :: 0 <= i < |NewRows(h, date, ms)| ==> NewRows(h, date, ms)[i].date == date
    ensures forall i :: 0 <= i < |ms| ==> Has(h + NewRows(h, date, ms), date, ms[i].key)
  {
    if ms == [] {
    } else {
      var init, m := ms[..|ms| - 1], ms[|ms| - 1];
      NewRowsAre(h, date, init);
      var before, after := h + NewRows(h, date, init), h + NewRows(h, date, ms);
      forall i | 0 <= i < |ms| ensures Has(after, date, ms[i].key) {
        if i < |init| {
          assert init[i] == ms[i];
          var j :| 0 <= j < |before| && before[j].date == date && before[j].key == ms[i].key;
          assert after[j] == before[j];
        } else if Has(h, date, m.key) {
          var j :| 0 <= j < |h| && h[j].date == date && h[j].key == m.key;
          assert after[j] == h[j];
        } else {
          assert after[|after| - 1].key == m.key;
        }
      }
    }
  }

  lemma {:induction false} NothingNew(h: seq<HistoryRow>, date: int, ms: seq<Metric>)
    requires forall i :: 0 <= i < |ms| ==> Has(h, date, ms[i].key)
    ensures NewRows(h, date, ms) == []
  {
    if ms == [] {
    } else {
      NothingNew(h, date, ms[..|ms| - 1]);
    }
  }

  lemma {:induction false} PriorIgnores(h: seq<HistoryRow>, extra: seq<HistoryRow>, key: string, before: int)
    requires forall i :: 0 <= i < |extra| ==> extra[i].date >= before
    ensures PriorValues(h + extra, key, before) == PriorValues(h, key, before)
  {
    if extra == [] {
      assert h + extra == h;
    } else {
      PriorIgnores(h, extra[..|extra| - 1], key, before);
      assert (h + extra)[..|h + extra| - 1] == h + extra[..|extra| - 1];
    }
  }

  /** A same-day re-run writes nothing, and the day never enters its own baseline. */
  lemma AppendIsIdempotent(h: seq<HistoryRow>, date: int, ms: seq<Metric>, key: string)
    ensures NewRows(h + NewRows(h, date, ms), date, ms) == []
    ensures PriorValues(h + NewRows(h, date, ms), key, date) == PriorValues(h, key, date)
  {
    NewRowsAre(h, date, ms);
    NothingNew(h + NewRows(h, date, ms), date, ms);
    PriorIgnores(h, NewRows(h, date, ms), key, date);
  }
}
