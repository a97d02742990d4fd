/** The max-hold filter of the on-chain backtest and the positions it yields. */
module MaxHold {

  /** State of the filter after a prefix: consecutive long days counted so far. */
  function Hold(raw: seq<real>, maxHold: nat): (h: nat)
    ensures h <= maxHold
  {
    if raw == [] then 0
    else if raw[|raw| - 1] == 1.0 then
      var h := Hold(raw[..|raw| - 1], maxHold) + 1;
      if h > maxHold then 0 else h
    else 0
  }

  /** Flat after `maxHold` consecutive long days. */
  function Filter(raw: seq<real>, maxHold: nat): (r: seq<real>)
    ensures |r| == |raw|
  {
    if raw == [] then []
    else
      var init, x := raw[..|raw| - 1], raw[|raw| - 1];
      Filter(init, maxHold) + [if x == 1.0 && Hold(init, maxHold) + 1 > maxHold then 0.0 else x]
  }

  /** The in-place array loop. */
  method ApplyMaxHold(pos: array<real>, maxHold: nat)
    modifies pos
    ensures pos[..] == Filter(old(pos[..]), maxHold)
  {
    ghost var raw := pos[..];
    var hold := 0;
    for i := 0 to pos.Length
      invariant pos[..i] == Filter(raw[..i], maxHold)
      invariant forall j :: i <= j < pos.Length ==> pos[j] == raw[j]
      invariant hold == Hold(raw[..i], maxHold)
    {
      ghost var before := pos[..i];
      assert raw[..i + 1][..i] == raw[..i] && raw[..i + 1][i] == raw[i];
      if pos[i] == 1.0 {
        hold := hold + 1;
        if hold > maxHold {
          pos[i] := 0.0;
          hold := 0;
        }
      } else {
        hold := 0;
      }
      assert pos[..i] == before && pos[..i + 1] == before + [pos[i]];
    }
    assert raw[..pos.Length] == raw && pos[..pos.Length] == pos[..];
  }

  // ---------- closed form ----------

  /** Consecutive long days that end a series. */
  function LongTail(raw: seq<real>): (k: nat)
    ensures k <= |raw|
  {
    if raw == [] || raw[|raw| - 1] != 1.0 then 0 else 1 + LongTail(raw[..|raw| - 1])
  }

  lemma ModStep(k: nat, m: nat)
    requires m > 0
    ensures (k + 1) % m == if k % m == m - 1 then 0 else k % m + 1
  {
    var q, r := k / m, k % m;
    assert k == m * q + r;
    if r == m - 1 {
      assert k + 1 == m * (q + 1);
      ModUnique(k + 1, m, q + 1, 0);
    } else {
      ModUnique(k + 1, m, q, r + 1);
    }
  }

  lemma ModUnique(n: nat, m: nat, q: nat, r: nat)
    requires m > 0 && r < m && n == m * q + r
    ensures n % m == r
  {
    var q', r' := n / m, n % m;
    assert n == m * q' + r';
    MulMonotone(m, q' + 1, q);
    MulMonotone(m, q + 1, q');
  }

  lemma MulMonotone(m: nat, a: int, b: int)
    ensures a <= b ==> m * a <= m * b
  {}

  /** One more long day, counted and reset. */
  lemma CounterStep(h: nat, k: nat, maxHold: nat)
    requires h == k % (maxHold + 1)
    ensures (if h + 1 > maxHold then 0 else h + 1) == (k + 1) % (maxHold + 1)
  {
    ModStep(k, maxHold + 1);
  }

  /** The counter is the length of the long run so far, modulo `maxHold + 1`. */
  lemma {:induction false} HoldIsModulo(raw: seq<real>, maxHold: nat)
    ensures Hold(raw, maxHold) == LongTail(raw) % (maxHold + 1)
  {
    if raw != [] && raw[|raw| - 1] == 1.0 {
      HoldIsModulo(raw[..|raw| - 1], maxHold);
      CounterStep(Hold(raw[..|raw| - 1], maxHold), LongTail(raw[..|raw| - 1]), maxHold);
    }
  }

  lemma {:induction false} FilterPrefix(raw: seq<real>, maxHold: nat, n: nat)
    requires n <= |raw|
    ensures Filter(raw, maxHold)[..n] == Filter(raw[..n], maxHold)
  {
    if n < |raw| {
      var init := raw[..|raw| - 1];
      FilterPrefix(init, maxHold, n);
      assert init[..n] == raw[..n];
      assert Filter(raw, maxHold)[..n] == Filter(init, maxHold)[..n];
    } else {
      assert raw[..n] == raw;
    }
  }

  /**
   Closed form: day `i` is zeroed exactly when it is long and its place `k` in its run of
   long days (from 0) has `k mod (maxHold + 1) == maxHold`; all else passes unchanged.
   */
  lemma FilterClosedForm(raw: seq<real>, maxHold: nat, i: nat)
    requires i < |raw|
    ensures Filter(raw, maxHold)[i]
            == if raw[i] == 1.0 && LongTail(raw[..i]) % (maxHold + 1) == maxHold then 0.0 else raw[i]
  {
    FilterPrefix(raw, maxHold, i + 1);
    assert raw[..i + 1][..i] == raw[..i];
    assert Filter(raw, maxHold)[i] == Filter(raw, maxHold)[..i + 1][i];
    HoldIsModulo(raw[..i], maxHold);
  }

  /** The long days ending the output are the counter. */
  lemma {:induction false} OutputTail(raw: seq<real>, maxHold: nat)
    ensures LongTail(Filter(raw, maxHold)) == Hold(raw, maxHold)
  {
    if raw == [] {
    } else {
      var init := raw[..|raw| - 1];
      OutputTail(init, maxHold);
      assert Filter(raw, maxHold)[..|raw| - 1] == Filter(init, maxHold);
    }
  }

  /** No position is held longer than `maxHold` days, wherever the run ends. */
  lemma NoRunTooLong(raw: seq<real>, maxHold: nat, n: nat)
    requires n <= |raw|
    ensures LongTail(Filter(raw, maxHold)[..n]) <= maxHold
  {
    FilterPrefix(raw, maxHold, n);
    OutputTail(raw[..n], maxHold);
  }

  // ---------- positions from signals ----------

  function ClipLow(x: real): real {
    if x < 0.0 then 0.0 else x
  }

  /** Yesterday's clipped signal; flat on the first day. */
  function Shifted(signal: seq<real>): (r: seq<real>)
    ensures |r| == |signal|
    ensures forall i :: 0 <= i < |signal| ==> r[i] == if i == 0 then 0.0 else ClipLow(signal[i - 1])
  {
    seq(|signal|, i requires 0 <= i < |signal| => if i == 0 then 0.0 else ClipLow(signal[i - 1]))
  }

  function Positions(signal: seq<real>, maxHold: nat): (r: seq<real>)
    ensures |r| == |signal|
  {
    Filter(Shifted(signal), maxHold)
  }

  /** No look-ahead: the position on day `t` depends only on signals strictly before `t`. */
  lemma NoLookAhead(a: seq<real>, b: seq<real>, maxHold: nat, t: nat)
    requires t < |a| && t < |b| && a[..t] == b[..t]
    ensures Positions(a, maxHold)[..t + 1] == Positions(b, maxHold)[..t + 1]
  {
    FilterPrefix(Shifted(a), maxHold, t + 1);
    FilterPrefix(Shifted(b), maxHold, t + 1);
    forall i | 0 <= i < t + 1 ensures Shifted(a)[i] == Shifted(b)[i] {
      if i > 0 {
        assert a[i - 1] == a[..t][i - 1] && b[i - 1] == b[..t][i - 1];
      }
    }
    assert Shifted(a)[..t + 1] == Shifted(b)[..t + 1];
  }

  /** Days on which the position rises, and falls (the first day has no difference). */
  function Entries(p: seq<real>): nat {
    if |p| < 2 then 0 else Entries(p[..|p| - 1]) + if p[|p| - 1] > p[|p| - 2] then 1 else 0
  }

  function Exits(p: seq<real>): nat {
    if |p| < 2 then 0 else Exits(p[..|p| - 1]) + if p[|p| - 1] < p[|p| - 2] then 1 else 0
  }

  /** Sum of the absolute position changes: what the transaction cost is charged on. */
  function Turnover(p: seq<real>): real {
    if |p| < 2 then 0.0
    else
      var d := p[|p| - 1] - p[|p| - 2];
      Turnover(p[..|p| - 1]) + if d < 0.0 then -d else d
  }

  ghost predicate Binary(p: seq<real>) {
    forall i :: 0 <= i < |p| ==> p[i] == 0.0 || p[i] == 1.0
  }

  /** Entries equal exits, or exceed them by one; the cost is charged once for each. */
  ghost predicate Accounted(p: seq<real>, openAtEnd: bool) {
    && Entries(p) - Exits(p) == (if openAtEnd then 1 else 0)
    && Turnover(p) == (Entries(p) + Exits(p)) as real
  }

  lemma {:induction false} EntriesMinusExits(p: seq<real>)
    requires p != [] && Binary(p) && p[0] == 0.0
    ensures Accounted(p, p[|p| - 1] == 1.0)
  {
    if |p| == 1 {
    } else {
      EntriesMinusExits(p[..|p| - 1]);
    }
  }

  /** Shifting moves a run of long days by one day. */
  lemma {:induction false} ShiftedTail(signal: seq<real>, k: nat)
    requires k < |signal|
    ensures LongTail(Shifted(signal)[..k + 1]) == LongTail(signal[..k])
  {
    var out := Shifted(signal)[..k + 1];
    if k == 0 {
    } else {
      ShiftedTail(signal, k - 1);
      assert out[..k] == Shifted(signal)[..k];
      assert signal[..k][..k - 1] == signal[..k - 1];
    }
  }

  /** The last signal that is acted on is long, and the filter does not zero the day it is held. */
  predicate HeldAtEnd(signal: seq<real>, maxHold: nat) {
    var n := |signal|;
    n >= 2 && signal[n - 2] == 1.0 && LongTail(signal[..n - 2]) % (maxHold + 1) != maxHold
  }

  predicate Ternary(signal: seq<real>) {
    forall i :: 0 <= i < |signal| ==> signal[i] == -1.0 || signal[i] == 0.0 || signal[i] == 1.0
  }

  lemma PositionsBinary(signal: seq<real>, maxHold: nat)
    requires Ternary(signal)
    ensures Binary(Positions(signal, maxHold))
    ensures signal != [] ==> Positions(signal, maxHold)[0] == 0.0
  {
    forall i | 0 <= i < |signal|
      ensures Positions(signal, maxHold)[i] == 0.0 || Positions(signal, maxHold)[i] == 1.0
      ensures i == 0 ==> Positions(signal, maxHold)[i] == 0.0
    {
      FilterClosedForm(Shifted(signal), maxHold, i);
    }
  }

  lemma LastPosition(signal: seq<real>, maxHold: nat)
    requires signal != []
    ensures Positions(signal, maxHold)[|signal| - 1] == 1.0 <==> HeldAtEnd(signal, maxHold)
  {
    FilterClosedForm(Shifted(signal), maxHold, |signal| - 1);
    if |signal| >= 2 {
      ShiftedTail(signal, |signal| - 2);
    }
  }

  /**
   For signals in {-1, 0, 1}: entries equal exits exactly when the series does not end in a
   position, as read off the signals, and otherwise exceed them by one; the cost is charged once
   per entry and once per exit.
   */
  lemma EntriesAndExits(signal: seq<real>, maxHold: nat)
    requires Ternary(signal)
    ensures Accounted(Positions(signal, maxHold), HeldAtEnd(signal, maxHold))
  {
    PositionsBinary(signal, maxHold);
    if signal != [] {
      EntriesMinusExits(Positions(signal, maxHold));
      LastPosition(signal, maxHold);
    }
  }

  /** A series that ends in a position: one entry, no exit. */
  lemma OpenAtTheEnd(maxHold: nat)
    requires maxHold >= 1
    ensures var p := Positions([1.0, 1.0], maxHold);
      Entries(p) == 1 && Exits(p) == 0
  {
    var signal := [1.0, 1.0];
    var p := Positions(signal, maxHold);
    FilterClosedForm(Shifted(signal), maxHold, 0);
    FilterClosedForm(Shifted(signal), maxHold, 1);
    assert p == [0.0, 1.0];
    assert LongTail([0.0]) == 0 && Shifted(signal)[..1] == [0.0];
  }
}
