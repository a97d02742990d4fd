/**
 The event-driven bankroll shared by the two simulators: free cash, locked capital, a
 min-heap of settlements, and the equity marks taken at each settlement. Money is `real`.
 */
module Bankroll {
  import opened Reals

  const TIMESTAMP_MAX := 9_223_372_036_854_775_807
  type Time = t: int | t <= TIMESTAMP_MAX

  /**
   An open position as queued for settlement. The first five fields are the queue's tuple,
   in its comparison order; `payout` is what settlement returns to cash.
   */
  datatype Lot = Lot(settle: Time, n: int, px: real, yes: bool, basis: real, payout: real, win: bool)

  /** Tuple comparison of queued settlements. */
  predicate Before(a: Lot, b: Lot) {
    if a.settle != b.settle then a.settle < b.settle
    else if a.n != b.n then a.n < b.n
    else if a.px != b.px then a.px < b.px
    else if a.yes != b.yes then b.yes
    else a.basis <= b.basis
  }

  /** It is lexicographic: the first of settlement, contracts, price, outcome and basis that differs decides. */
  lemma BeforeIsLexicographic(a: Lot, b: Lot)
    ensures a.settle < b.settle ==> Before(a, b) && !Before(b, a)
    ensures a.settle == b.settle && a.n < b.n ==> Before(a, b) && !Before(b, a)
    ensures a.settle == b.settle && a.n == b.n && a.px < b.px ==> Before(a, b) && !Before(b, a)
    ensures a.settle == b.settle && a.n == b.n && a.px == b.px && !a.yes && b.yes ==> Before(a, b) && !Before(b, a)
    ensures a.settle == b.settle && a.n == b.n && a.px == b.px && a.yes == b.yes ==>
      (Before(a, b) <==> a.basis <= b.basis)
  {}

  ghost predicate Sorted(h: seq<Lot>) {
    forall i, j :: 0 <= i < j < |h| ==> Before(h[i], h[j])
  }

  /** `heappush`, on the heap's contents in order. */
  function Push(h: seq<Lot>, x: Lot): (r: seq<Lot>)
    ensures multiset(r) == multiset(h) + multiset{x}
  {
    if h == [] || Before(x, h[0]) then [x] + h
    else
      assert h == [h[0]] + h[1..];
      [h[0]] + Push(h[1..], x)
  }

  lemma {:induction false} PushSorted(h: seq<Lot>, x: Lot)
    requires Sorted(h)
    ensures Sorted(Push(h, x))
  {
    if h == [] || Before(x, h[0]) {
    } else {
      PushSorted(h[1..], x);
      var r := Push(h[1..], x);
      forall j | 0 <= j < |r| ensures Before(h[0], r[j]) {
        assert r[j] in multiset(r);
        if r[j] != x {
          assert r[j] in multiset(h[1..]);
          var k :| 0 <= k < |h[1..]| && h[1..][k] == r[j];
        }
      }
    }
  }

  // ---------- account ----------

  datatype Account = Account(
    cash: real,
    locked: real,
    heap: seq<Lot>,
    realized: real,
    trades: nat,
    wins: nat,
    losses: nat,
    fees: real,
    peak: real,
    maxDrawdown: real,
    peakLocked: real,
    history: seq<(Time, real)>
  )

  /** Equity `e` against an earlier level `p`, as a fraction. */
  function Drop(e: real, p: real): real
    requires p > 0.0
  {
    (e - p) / p
  }

  /** Mark equity at cost basis: running peak, worst drawdown, history. */
  function Mark(a: Account, ts: Time): Account {
    var eq := a.cash + a.locked;
    var peak := MaxReal(a.peak, eq);
    a.(peak := peak,
       maxDrawdown := if peak > 0.0 && Drop(eq, peak) < a.maxDrawdown then Drop(eq, peak) else a.maxDrawdown,
       history := a.history + [(ts, eq)])
  }

  /** Settle the earliest open lot. */
  function Pop(a: Account): Account
    requires a.heap != []
  {
    var lot := a.heap[0];
    Mark(a.(heap := a.heap[1..], cash := a.cash + lot.payout, locked := a.locked - lot.basis,
            realized := a.realized + lot.payout - lot.basis,
            wins := if lot.win then a.wins + 1 else a.wins,
            losses := if lot.win then a.losses else a.losses + 1),
         lot.settle)
  }

  function SettleDue(a: Account, now: Time): Account
    decreases |a.heap|
  {
    if a.heap != [] && a.heap[0].settle <= now then SettleDue(Pop(a), now) else a
  }

  /** Lock `lot.basis`, pay `upfront` on top. */
  function Open(a: Account, lot: Lot, fee: real, upfront: real): Account {
    a.(cash := a.cash - lot.basis - upfront, locked := a.locked + lot.basis,
       realized := a.realized - upfront, trades := a.trades + 1, fees := a.fees + fee,
       peakLocked := MaxReal(a.peakLocked, a.locked + lot.basis), heap := Push(a.heap, lot))
  }

  function Fresh(bankroll: real): Account {
    Account(bankroll, 0.0, [], 0.0, 0, 0, 0, 0.0, bankroll, 0.0, 0.0, [])
  }

  // ---------- folds ----------

  function Basis(h: seq<Lot>): real {
    if h == [] then 0.0 else h[0].basis + Basis(h[1..])
  }

  function Profit(h: seq<Lot>): real {
    if h == [] then 0.0 else h[0].payout - h[0].basis + Profit(h[1..])
  }

  function WinCount(h: seq<Lot>): nat {
    if h == [] then 0 else (if h[0].win then 1 else 0) + WinCount(h[1..])
  }

  lemma {:induction false} FoldsPush(h: seq<Lot>, x: Lot)
    ensures Basis(Push(h, x)) == Basis(h) + x.basis
    ensures WinCount(Push(h, x)) == WinCount(h) + if x.win then 1 else 0
    ensures Profit(Push(h, x)) == Profit(h) + x.payout - x.basis
  {
    if h == [] || Before(x, h[0]) {
      assert ([x] + h)[1..] == h;
    } else {
      FoldsPush(h[1..], x);
      assert ([h[0]] + Push(h[1..], x))[1..] == Push(h[1..], x);
    }
  }

  lemma {:induction false} FoldsAppend(h: seq<Lot>, x: Lot)
    ensures Profit(h + [x]) == Profit(h) + x.payout - x.basis
    ensures WinCount(h + [x]) == WinCount(h) + if x.win then 1 else 0
  {
    if h == [] {
      assert ([] + [x])[1..] == [];
    } else {
      FoldsAppend(h[1..], x);
      assert (h + [x])[1..] == h[1..] + [x];
    }
  }

  lemma {:induction false} BasisNonNegative(h: seq<Lot>)
    requires forall i :: 0 <= i < |h| ==> h[i].basis >= 0.0
    ensures Basis(h) >= 0.0
  {
    if h == [] {
    } else {
      BasisNonNegative(h[1..]);
    }
  }

  // ---------- drawdown, declaratively ----------

  /** Equity levels: the initial bankroll, then the marks. */
  function Level(initial: real, history: seq<(Time, real)>, k: nat): real
    requires k <= |history|
  {
    if k == 0 then initial else history[k - 1].1
  }

  ghost predicate IsPeak(initial: real, history: seq<(Time, real)>, peak: real) {
    && (forall k: nat :: k <= |history| ==> Level(initial, history, k) <= peak)
    && (exists k: nat :: k <= |history| && Level(initial, history, k) == peak)
  }

  /** No level lies further than `dd` below an earlier one. */
  ghost predicate NoDropBelow(initial: real, history: seq<(Time, real)>, dd: real) {
    forall i: nat, k: nat :: k <= i <= |history| && Level(initial, history, k) > 0.0 ==>
      dd <= Drop(Level(initial, history, i), Level(initial, history, k))
  }

  ghost predicate DropOccurs(initial: real, history: seq<(Time, real)>, dd: real) {
    exists i: nat, k: nat :: k <= i <= |history| && Level(initial, history, k) > 0.0
      && dd == Drop(Level(initial, history, i), Level(initial, history, k))
  }

  /**
   `dd` is the worst fall from any level to the same or any later level; there is no
   running peak in this definition.
   */
  ghost predicate IsWorstDrop(initial: real, history: seq<(Time, real)>, dd: real) {
    -1.0 <= dd <= 0.0 && NoDropBelow(initial, history, dd) && (dd == 0.0 || DropOccurs(initial, history, dd))
  }

  lemma DropBounds(e: real, p: real, q: real)
    requires e >= 0.0 && 0.0 < p <= q
    ensures -1.0 <= Drop(e, q) <= Drop(e, p)
    ensures e >= p ==> Drop(e, p) >= 0.0
  {
    DropTimes(e, p);
    DropTimes(e, q);
    Share(Drop(e, p) + 1.0, Drop(e, q) + 1.0, e, p, q);
  }

  lemma DropTimes(e: real, p: real)
    requires p > 0.0
    ensures Times(Drop(e, p) + 1.0, p) == e
  {
    var d := Drop(e, p);
    assert d * p == e - p;
    assert (d + 1.0) * p == d * p + p;
  }

  lemma LevelsAppend(initial: real, h: seq<(Time, real)>, mark: (Time, real))
    ensures forall k: nat :: k <= |h| ==> Level(initial, h + [mark], k) == Level(initial, h, k)
    ensures Level(initial, h + [mark], |h| + 1) == mark.1
  {}

  lemma MarkPeak(initial: real, h: seq<(Time, real)>, mark: (Time, real), peak: real)
    requires IsPeak(initial, h, peak)
    ensures IsPeak(initial, h + [mark], MaxReal(peak, mark.1))
  {
    LevelsAppend(initial, h, mark);
    var kp: nat :| kp <= |h| && Level(initial, h, kp) == peak;
    var top: nat := if mark.1 > peak then |h| + 1 else kp;
    assert Level(initial, h + [mark], top) == MaxReal(peak, mark.1);
  }

  /** The new mark is compared with the peak only, yet no earlier level is missed. */
  lemma MarkBound(initial: real, h: seq<(Time, real)>, mark: (Time, real), peak: real, dd: real)
    requires IsPeak(initial, h + [mark], peak) && mark.1 >= 0.0
    requires NoDropBelow(initial, h, dd)
    requires peak > 0.0 ==> dd <= Drop(mark.1, peak)
    ensures NoDropBelow(initial, h + [mark], dd)
  {
    LevelsAppend(initial, h, mark);
    var all := h + [mark];
    forall i: nat, k: nat | k <= i <= |all| && Level(initial, all, k) > 0.0
      ensures dd <= Drop(Level(initial, all, i), Level(initial, all, k))
    {
      if i == |all| {
        DropBounds(mark.1, Level(initial, all, k), peak);
      } else {
        assert dd <= Drop(Level(initial, h, i), Level(initial, h, k));
      }
    }
  }

  lemma DropStillOccurs(initial: real, h: seq<(Time, real)>, mark: (Time, real), dd: real)
    requires DropOccurs(initial, h, dd)
    ensures DropOccurs(initial, h + [mark], dd)
  {
    LevelsAppend(initial, h, mark);
    var i: nat, k: nat :| k <= i <= |h| && Level(initial, h, k) > 0.0
      && dd == Drop(Level(initial, h, i), Level(initial, h, k));
    assert dd == Drop(Level(initial, h + [mark], i), Level(initial, h + [mark], k));
  }

  lemma MarkOccurs(initial: real, h: seq<(Time, real)>, mark: (Time, real), peak: real)
    requires IsPeak(initial, h + [mark], peak) && peak > 0.0
    ensures DropOccurs(initial, h + [mark], Drop(mark.1, peak))
  {
    var all := h + [mark];
    LevelsAppend(initial, h, mark);
    var top: nat :| top <= |all| && Level(initial, all, top) == peak;
    assert Drop(mark.1, peak) == Drop(Level(initial, all, |h| + 1), Level(initial, all, top));
  }

  lemma WorseBound(initial: real, h: seq<(Time, real)>, dd: real, lower: real)
    requires NoDropBelow(initial, h, dd) && lower <= dd
    ensures NoDropBelow(initial, h, lower)
  {}

  /** Marking keeps the running peak and the worst drop right. */
  lemma MarkDrawdown(a: Account, ts: Time, initial: real)
    requires IsPeak(initial, a.history, a.peak) && IsWorstDrop(initial, a.history, a.maxDrawdown)
    requires a.cash + a.locked >= 0.0
    ensures IsPeak(initial, Mark(a, ts).history, Mark(a, ts).peak)
    ensures IsWorstDrop(initial, Mark(a, ts).history, Mark(a, ts).maxDrawdown)
  {
    var m, mark := Mark(a, ts), (ts, a.cash + a.locked);
    MarkPeak(initial, a.history, mark, a.peak);
    WorseBound(initial, a.history, a.maxDrawdown, m.maxDrawdown);
    if m.peak > 0.0 {
      DropBounds(mark.1, m.peak, m.peak);
      MarkOccurs(initial, a.history, mark, m.peak);
    }
    MarkBound(initial, a.history, mark, m.peak, m.maxDrawdown);
    if a.maxDrawdown != 0.0 {
      DropStillOccurs(initial, a.history, mark, a.maxDrawdown);
    }
  }

  /** A settlement is recorded with the equity right after it: what it returns to cash, what stays locked. */
  lemma PopRecords(a: Account)
    requires a.heap != []
    ensures var lot := a.heap[0];
      Pop(a).history == a.history + [(lot.settle, a.cash + lot.payout + (a.locked - lot.basis))]
  {}

  // ---------- the loop invariant ----------

  ghost predicate LotOk(x: Lot) {
    x.basis >= 0.0 && x.payout >= 0.0
  }

  ghost predicate AccountOk(a: Account, initial: real) {
    && a.cash >= 0.0
    && a.locked == Basis(a.heap)
    && a.cash + a.locked == initial + a.realized
    && a.trades == a.wins + a.losses + |a.heap|
    && |a.history| == a.wins + a.losses
    && a.locked <= a.peakLocked
    && Sorted(a.heap)
    && (forall i :: 0 <= i < |a.heap| ==> LotOk(a.heap[i]))
    && IsPeak(initial, a.history, a.peak)
    && IsWorstDrop(initial, a.history, a.maxDrawdown)
  }

  lemma FreshOk(bankroll: real)
    requires bankroll >= 0.0
    ensures AccountOk(Fresh(bankroll), bankroll)
  {
    assert Level(bankroll, [], 0) == bankroll;
    if bankroll > 0.0 {
      DropBounds(bankroll, bankroll, bankroll);
    }
  }

  lemma PopOk(a: Account, initial: real)
    requires AccountOk(a, initial) && a.heap != []
    ensures AccountOk(Pop(a), initial)
  {
    var lot := a.heap[0];
    var b := a.(heap := a.heap[1..], cash := a.cash + lot.payout, locked := a.locked - lot.basis,
                realized := a.realized + lot.payout - lot.basis);
    assert LotOk(lot);
    assert forall i :: 0 <= i < |b.heap| ==> b.heap[i] == a.heap[i + 1];
    BasisNonNegative(b.heap);
    MarkDrawdown(b, lot.settle, initial);
  }

  lemma OpenOk(a: Account, initial: real, lot: Lot, fee: real, upfront: real)
    requires AccountOk(a, initial) && LotOk(lot) && lot.basis + upfront <= a.cash
    ensures AccountOk(Open(a, lot, fee, upfront), initial)
  {
    FoldsPush(a.heap, lot);
    PushSorted(a.heap, lot);
    var h := Push(a.heap, lot);
    forall i | 0 <= i < |h| ensures LotOk(h[i]) {
      assert h[i] in multiset(h);
      if h[i] != lot {
        assert h[i] in multiset(a.heap);
        var k :| 0 <= k < |a.heap| && a.heap[k] == h[i];
      }
    }
    assert |h| == |multiset(h)| == |multiset(a.heap)| + 1;
  }

  // ---------- chronology ----------

  function Later(h: seq<Lot>, now: Time): seq<Lot> {
    if h == [] then [] else (if h[0].settle > now then [h[0]] else []) + Later(h[1..], now)
  }

  lemma {:induction false} LaterCounts(h: seq<Lot>, now: Time, x: Lot)
    ensures multiset(Later(h, now))[x] == if x.settle > now then multiset(h)[x] else 0
  {
    if h == [] {
    } else {
      LaterCounts(h[1..], now, x);
      assert h == [h[0]] + h[1..];
    }
  }

  lemma {:induction false} AllLater(h: seq<Lot>, now: Time)
    requires Sorted(h) && (h == [] || h[0].settle > now)
    ensures Later(h, now) == h
  {
    if h == [] {
    } else {
      AllLater(h[1..], now);
    }
  }

  /** Marks are in time order, and none is after `clock` or after an open settlement. */
  ghost predicate InOrder(a: Account, clock: Time) {
    && (forall i, j :: 0 <= i < j < |a.history| ==> a.history[i].0 <= a.history[j].0)
    && (a.history != [] ==>
          a.history[|a.history| - 1].0 <= clock
          && forall i :: 0 <= i < |a.heap| ==> a.history[|a.history| - 1].0 <= a.heap[i].settle)
  }

  /** Settling up to `now` keeps the books, leaves exactly the later lots, and realizes the rest. */
  lemma {:induction false} SettleDueOk(a: Account, now: Time, initial: real)
    requires AccountOk(a, initial)
    ensures AccountOk(SettleDue(a, now), initial)
    ensures SettleDue(a, now).heap == Later(a.heap, now)
    ensures SettleDue(a, now).realized - a.realized == Profit(a.heap) - Profit(SettleDue(a, now).heap)
    ensures SettleDue(a, now).wins - a.wins == WinCount(a.heap) - WinCount(SettleDue(a, now).heap)
    ensures SettleDue(a, now).trades == a.trades && SettleDue(a, now).fees == a.fees
    decreases |a.heap|
  {
    if a.heap != [] && a.heap[0].settle <= now {
      PopOk(a, initial);
      SettleDueOk(Pop(a), now, initial);
    } else {
      AllLater(a.heap, now);
    }
  }

  lemma {:induction false} SettleDueInOrder(a: Account, now: Time)
    requires Sorted(a.heap) && InOrder(a, now)
    ensures InOrder(SettleDue(a, now), now)
    decreases |a.heap|
  {
    if a.heap != [] && a.heap[0].settle <= now {
      assert forall i :: 0 <= i < |Pop(a).heap| ==> Pop(a).heap[i] == a.heap[i + 1];
      SettleDueInOrder(Pop(a), now);
    }
  }

  // ---------- the simulators' common loop ----------

  /** What an entry row leads to. */
  datatype Entry<K> =
    | Ignore
    | SkipCapital(key: K)
    | SkipDepth(key: K)
    | Trade(key: K, lot: Lot, fee: real, upfront: real)

  /** The loop's state; `accepted` logs the lots opened, `paid` the fees taken at entry. */
  datatype Sim<K> = Sim(
    account: Account,
    seen: set<K>,
    skippedCapital: nat,
    skippedDepth: nat,
    accepted: seq<Lot>,
    paid: real
  )

  function Start<K>(bankroll: real): Sim<K> {
    Sim(Fresh(bankroll), {}, 0, 0, [], 0.0)
  }

  function Advance<K>(s: Sim<K>, now: Time): Sim<K> {
    s.(account := SettleDue(s.account, now))
  }

  function Take<K>(s: Sim<K>, e: Entry<K>): Sim<K> {
    match e
    case Ignore => s
    case SkipCapital(k) => s.(seen := s.seen + {k}, skippedCapital := s.skippedCapital + 1)
    case SkipDepth(k) => s.(seen := s.seen + {k}, skippedDepth := s.skippedDepth + 1)
    case Trade(k, lot, fee, upfront) =>
      s.(seen := s.seen + {k}, account := Open(s.account, lot, fee, upfront), accepted := s.accepted + [lot],
         paid := s.paid + upfront)
  }

  /** An entry the cash gate let through, about a key not seen before. */
  ghost predicate EntryOk<K>(s: Sim<K>, e: Entry<K>) {
    && (!e.Ignore? ==> e.key !in s.seen)
    && (e.Trade? ==> LotOk(e.lot) && e.lot.basis + e.upfront <= s.account.cash)
  }

  /**
   Accounting, over the whole loop: cash never negative, locked capital is the heap's,
   cash plus locked is initial plus realized, every trade is won, lost or open, every key
   admitted is a trade or one kind of skip, realized P&L is that of the settled lots.
   */
  ghost predicate SimOk<K>(s: Sim<K>, initial: real) {
    && AccountOk(s.account, initial)
    && |s.seen| == s.account.trades + s.skippedCapital + s.skippedDepth
    && s.account.trades == |s.accepted|
    && s.account.realized == Profit(s.accepted) - Profit(s.account.heap) - s.paid
    && s.account.wins == WinCount(s.accepted) - WinCount(s.account.heap)
  }

  /** The heap holds exactly the accepted lots that settle after `now`. */
  ghost predicate HoldsLater<K>(s: Sim<K>, now: Time) {
    multiset(s.account.heap) == multiset(Later(s.accepted, now))
  }

  /** Only accepted lots sit in the heap, and all those settling after the clock do. */
  ghost predicate Holds<K>(s: Sim<K>, clock: Time) {
    forall x: Lot ::
      && multiset(s.account.heap)[x] <= multiset(s.accepted)[x]
      && (x.settle > clock ==> multiset(s.account.heap)[x] == multiset(s.accepted)[x])
  }

  lemma AdvanceOk<K>(s: Sim<K>, now: Time, initial: real)
    requires SimOk(s, initial)
    ensures SimOk(Advance(s, now), initial)
  {
    SettleDueOk(s.account, now, initial);
  }

  /** Once the clock is advanced to an entry, the heap is exactly the later lots. */
  lemma AdvanceHolds<K>(s: Sim<K>, clock: Time, now: Time, initial: real)
    requires SimOk(s, initial) && Holds(s, clock) && clock <= now
    ensures HoldsLater(Advance(s, now), now) && Holds(Advance(s, now), now)
  {
    SettleDueOk(s.account, now, initial);
    var t := Advance(s, now);
    forall x: Lot
      ensures multiset(t.account.heap)[x] == if x.settle > now then multiset(s.accepted)[x] else 0
      ensures multiset(Later(t.accepted, now))[x] == multiset(t.account.heap)[x]
    {
      LaterCounts(s.account.heap, now, x);
      LaterCounts(s.accepted, now, x);
    }
  }

  lemma PushMembers(h: seq<Lot>, x: Lot, i: nat)
    requires i < |Push(h, x)|
    ensures Push(h, x)[i] == x || Push(h, x)[i] in h
  {
    assert Push(h, x)[i] in multiset(Push(h, x));
  }

  lemma OpenInOrder(a: Account, lot: Lot, fee: real, upfront: real, now: Time)
    requires InOrder(a, now) && lot.settle >= now
    ensures InOrder(Open(a, lot, fee, upfront), now)
  {
    var h := Push(a.heap, lot);
    forall i | 0 <= i < |h| && a.history != [] ensures a.history[|a.history| - 1].0 <= h[i].settle {
      PushMembers(a.heap, lot, i);
    }
  }

  lemma TakeHolds<K>(s: Sim<K>, e: Entry<K>, now: Time)
    requires Holds(s, now)
    ensures Holds(Take(s, e), now)
  {
    if e.Trade? {
      var t := Take(s, e);
      assert multiset(t.account.heap) == multiset(s.account.heap) + multiset{e.lot};
      assert multiset(t.accepted) == multiset(s.accepted) + multiset{e.lot};
    }
  }

  lemma TakeOk<K>(s: Sim<K>, e: Entry<K>, initial: real)
    requires SimOk(s, initial) && EntryOk(s, e)
    ensures SimOk(Take(s, e), initial)
  {
    if e.Trade? {
      OpenOk(s.account, initial, e.lot, e.fee, e.upfront);
      FoldsPush(s.account.heap, e.lot);
      FoldsAppend(s.accepted, e.lot);
    }
  }

  /** The end of a simulation: nothing open, and the bankroll fully explained. */
  ghost predicate Finished<K>(s: Sim<K>, initial: real) {
    && SimOk(s, initial) && s.account.heap == [] && s.account.locked == 0.0
    && s.account.wins + s.account.losses == s.account.trades == |s.accepted|
    && s.account.wins == WinCount(s.accepted)
    && s.account.cash == initial + Profit(s.accepted) - s.paid
  }

  lemma FinishOk<K>(s: Sim<K>, initial: real)
    requires SimOk(s, initial)
    ensures Finished(Advance(s, TIMESTAMP_MAX), initial)
  {
    SettleDueOk(s.account, TIMESTAMP_MAX, initial);
    NothingLater(s.account.heap);
  }

  lemma {:induction false} NothingLater(h: seq<Lot>)
    ensures Later(h, TIMESTAMP_MAX) == []
  {
    if h == [] {
    } else {
      NothingLater(h[1..]);
    }
  }

  // ---------- the loop ----------

  /** An entry reached at time `now`, once everything due by then is settled. */
  datatype Arrival<K> = Arrival(now: Time, entry: Entry<K>)

  function Play<K>(bankroll: real, xs: seq<Arrival<K>>): Sim<K> {
    if xs == [] then Start(bankroll)
    else Take(Advance(Play(bankroll, xs[..|xs| - 1]), xs[|xs| - 1].now), xs[|xs| - 1].entry)
  }

  /** Every entry passed the cash gate where it arrived, about a key not seen before. */
  ghost predicate Gated<K>(bankroll: real, xs: seq<Arrival<K>>) {
    forall i :: 0 <= i < |xs| ==> EntryOk(Advance(Play(bankroll, xs[..i]), xs[i].now), xs[i].entry)
  }

  ghost predicate InTime<K>(xs: seq<Arrival<K>>) {
    forall i, j :: 0 <= i < j < |xs| ==> xs[i].now <= xs[j].now
  }

  /** Nothing settles before it is entered. */
  ghost predicate SettlesLater<K>(xs: seq<Arrival<K>>) {
    forall i :: 0 <= i < |xs| && xs[i].entry.Trade? ==> xs[i].entry.lot.settle >= xs[i].now
  }

  function Clock<K>(xs: seq<Arrival<K>>, otherwise: Time): Time {
    if xs == [] then otherwise else xs[|xs| - 1].now
  }

  lemma InitGated<K>(bankroll: real, xs: seq<Arrival<K>>)
    requires xs != [] && Gated(bankroll, xs)
    ensures Gated(bankroll, xs[..|xs| - 1])
  {
    var init := xs[..|xs| - 1];
    forall i | 0 <= i < |init| ensures EntryOk(Advance(Play(bankroll, init[..i]), init[i].now), init[i].entry) {
      assert init[..i] == xs[..i] && init[i] == xs[i];
    }
  }

  lemma GatedSnoc<K>(bankroll: real, xs: seq<Arrival<K>>, x: Arrival<K>)
    requires Gated(bankroll, xs) && EntryOk(Advance(Play(bankroll, xs), x.now), x.entry)
    ensures Gated(bankroll, xs + [x])
    ensures Play(bankroll, xs + [x]) == Take(Advance(Play(bankroll, xs), x.now), x.entry)
  {
    var all := xs + [x];
    assert all[..|xs|] == xs;
    forall i | 0 <= i < |all| ensures EntryOk(Advance(Play(bankroll, all[..i]), all[i].now), all[i].entry) {
      if i < |xs| {
        assert all[..i] == xs[..i] && all[i] == xs[i];
      }
    }
  }

  /** Accounting through the whole loop: after every arrival, and at the end. */
  lemma {:induction false} PlayOk<K>(bankroll: real, xs: seq<Arrival<K>>)
    requires bankroll >= 0.0 && Gated(bankroll, xs)
    ensures SimOk(Play(bankroll, xs), bankroll)
    ensures Finished(Advance(Play(bankroll, xs), TIMESTAMP_MAX), bankroll)
  {
    if xs == [] {
      FreshOk(bankroll);
    } else {
      var init, x := xs[..|xs| - 1], xs[|xs| - 1];
      InitGated(bankroll, xs);
      PlayOk(bankroll, init);
      AdvanceOk(Play(bankroll, init), x.now, bankroll);
      TakeOk(Advance(Play(bankroll, init), x.now), x.entry, bankroll);
    }
    FinishOk(Play(bankroll, xs), bankroll);
  }

  /**
   Chronology: just before the arrival after `xs` is considered, the heap holds exactly the
   accepted lots that settle after it - no capital is freed early or late.
   */
  lemma {:induction false} PlayHolds<K>(bankroll: real, xs: seq<Arrival<K>>, now: Time)
    requires bankroll >= 0.0 && Gated(bankroll, xs) && InTime(xs) && Clock(xs, now) <= now
    ensures HoldsLater(Advance(Play(bankroll, xs), now), now)
    ensures Holds(Play(bankroll, xs), Clock(xs, now))
  {
    if xs == [] {
    } else {
      var init, x := xs[..|xs| - 1], xs[|xs| - 1];
      InitGated(bankroll, xs);
      PlayHolds(bankroll, init, x.now);
      PlayOk(bankroll, init);
      AdvanceHolds(Play(bankroll, init), Clock(init, x.now), x.now, bankroll);
      TakeHolds(Advance(Play(bankroll, init), x.now), x.entry, x.now);
    }
    PlayOk(bankroll, xs);
    AdvanceHolds(Play(bankroll, xs), Clock(xs, now), now, bankroll);
  }

  lemma TakeInOrder<K>(s: Sim<K>, e: Entry<K>, now: Time)
    requires InOrder(s.account, now) && (e.Trade? ==> e.lot.settle >= now)
    ensures InOrder(Take(s, e).account, now)
  {
    if e.Trade? {
      OpenInOrder(s.account, e.lot, e.fee, e.upfront, now);
    }
  }

  /** When nothing settles before it is entered, the equity history is in time order. */
  lemma {:induction false} PlayInOrder<K>(bankroll: real, xs: seq<Arrival<K>>, now: Time)
    requires bankroll >= 0.0 && Gated(bankroll, xs) && InTime(xs) && SettlesLater(xs) && Clock(xs, now) <= now
    ensures InOrder(Play(bankroll, xs).account, now)
    ensures InOrder(Advance(Play(bankroll, xs), now).account, now)
  {
    if xs == [] {
    } else {
      var init, x := xs[..|xs| - 1], xs[|xs| - 1];
      InitGated(bankroll, xs);
      assert InTime(init) && SettlesLater(init);
      PlayInOrder(bankroll, init, x.now);
      TakeInOrder(Advance(Play(bankroll, init), x.now), x.entry, x.now);
    }
    PlayOk(bankroll, xs);
    SettleDueInOrder(Play(bankroll, xs).account, now);
  }

  // ---------- rows as arrivals ----------

  /** When a row is entered, and when a trade on it settles. */
  datatype Span = Span(entry: Time, settle: Time)

  ghost predicate ByEntry(spans: seq<Span>) {
    forall i, j :: 0 <= i < j < |spans| ==> spans[i].entry <= spans[j].entry
  }

  ghost predicate SettleAfterEntry(spans: seq<Span>) {
    forall i :: 0 <= i < |spans| ==> spans[i].settle >= spans[i].entry
  }

  /** No row after `now`. */
  ghost predicate Until(spans: seq<Span>, now: Time) {
    spans != [] ==> spans[|spans| - 1].entry <= now
  }

  predicate SettlesAt<K>(e: Entry<K>, settle: Time) {
    e.Trade? ==> e.lot.settle == settle
  }

  ghost predicate Arrive<K>(xs: seq<Arrival<K>>, spans: seq<Span>) {
    && |xs| == |spans|
    && forall i :: 0 <= i < |spans| ==> xs[i].now == spans[i].entry && SettlesAt(xs[i].entry, spans[i].settle)
  }

  /** `s` is where the loop gets with one arrival for each of these spans. */
  ghost predicate Plays<K>(s: Sim<K>, bankroll: real, xs: seq<Arrival<K>>, spans: seq<Span>) {
    s == Play(bankroll, xs) && Gated(bankroll, xs) && Arrive(xs, spans)
  }

  lemma PlaysSnoc<K>(s: Sim<K>, bankroll: real, xs: seq<Arrival<K>>, spans: seq<Span>, e: Entry<K>, span: Span)
    requires Plays(s, bankroll, xs, spans)
    requires EntryOk(Advance(s, span.entry), e) && SettlesAt(e, span.settle)
    ensures Plays(Take(Advance(s, span.entry), e), bankroll, xs + [Arrival(span.entry, e)], spans + [span])
  {
    GatedSnoc(bankroll, xs, Arrival(span.entry, e));
  }

  lemma PlaysHolds<K>(s: Sim<K>, bankroll: real, xs: seq<Arrival<K>>, spans: seq<Span>, now: Time)
    requires bankroll >= 0.0 && Plays(s, bankroll, xs, spans) && ByEntry(spans) && Until(spans, now)
    ensures HoldsLater(Advance(s, now), now)
  {
    PlayHolds(bankroll, xs, now);
  }

  lemma PlaysInOrder<K>(s: Sim<K>, bankroll: real, xs: seq<Arrival<K>>, spans: seq<Span>, now: Time)
    requires bankroll >= 0.0 && Plays(s, bankroll, xs, spans)
    requires ByEntry(spans) && SettleAfterEntry(spans) && Until(spans, now)
    ensures InOrder(s.account, now) && InOrder(Advance(s, now).account, now)
  {
    PlayInOrder(bankroll, xs, now);
  }

  /** Locked after the first `k` arrivals. */
  ghost function LockedAfter<K>(bankroll: real, xs: seq<Arrival<K>>, k: nat): real
    requires k <= |xs|
  {
    Play(bankroll, xs[..k]).account.locked
  }

  /** The peak reported is the largest amount ever locked. */
  ghost predicate IsPeakLocked<K>(bankroll: real, xs: seq<Arrival<K>>, peak: real) {
    && (forall k: nat :: k <= |xs| ==> LockedAfter(bankroll, xs, k) <= peak)
    && exists k: nat :: k <= |xs| && LockedAfter(bankroll, xs, k) == peak
  }

  lemma LockedPrefix<K>(bankroll: real, xs: seq<Arrival<K>>, k: nat)
    requires k < |xs|
    ensures LockedAfter(bankroll, xs, k) == LockedAfter(bankroll, xs[..|xs| - 1], k)
  {
    assert xs[..|xs| - 1][..k] == xs[..k];
  }

  lemma PeakSnoc<K>(bankroll: real, xs: seq<Arrival<K>>, before: real, peak: real)
    requires xs != [] && IsPeakLocked(bankroll, xs[..|xs| - 1], before)
    requires peak == MaxReal(before, LockedAfter(bankroll, xs, |xs|))
    ensures IsPeakLocked(bankroll, xs, peak)
  {
    var init := xs[..|xs| - 1];
    forall k: nat | k <= |xs| ensures LockedAfter(bankroll, xs, k) <= peak {
      if k < |xs| {
        LockedPrefix(bankroll, xs, k);
      }
    }
    var at: nat :| at <= |init| && LockedAfter(bankroll, init, at) == before;
    LockedPrefix(bankroll, xs, at);
    assert LockedAfter(bankroll, xs, if before >= LockedAfter(bankroll, xs, |xs|) then at else |xs|) == peak;
  }

  lemma {:induction false} SettlingKeepsPeak(a: Account, now: Time)
    ensures SettleDue(a, now).peakLocked == a.peakLocked
    decreases |a.heap|
  {
    if a.heap != [] && a.heap[0].settle <= now {
      SettlingKeepsPeak(Pop(a), now);
    }
  }

  lemma TakePeak<K>(s: Sim<K>, e: Entry<K>)
    requires s.account.locked <= s.account.peakLocked
    ensures Take(s, e).account.peakLocked == MaxReal(s.account.peakLocked, Take(s, e).account.locked)
  {}

  lemma {:induction false} PeakLockedIs<K>(bankroll: real, xs: seq<Arrival<K>>)
    requires bankroll >= 0.0 && Gated(bankroll, xs)
    ensures IsPeakLocked(bankroll, xs, Play(bankroll, xs).account.peakLocked)
  {
    assert xs[..|xs|] == xs;
    if xs == [] {
      assert LockedAfter(bankroll, xs, 0) == 0.0;
    } else {
      var init, x := xs[..|xs| - 1], xs[|xs| - 1];
      InitGated(bankroll, xs);
      PeakLockedIs(bankroll, init);
      PlayOk(bankroll, init);
      AdvanceOk(Play(bankroll, init), x.now, bankroll);
      SettlingKeepsPeak(Play(bankroll, init).account, x.now);
      TakePeak(Advance(Play(bankroll, init), x.now), x.entry);
      PeakSnoc(bankroll, xs, Play(bankroll, init).account.peakLocked, Play(bankroll, xs).account.peakLocked);
    }
  }

  // ---------- a log of the trades ----------

  function Sum<T>(ts: seq<T>, f: T -> real): real {
    if ts == [] then 0.0 else Sum(ts[..|ts| - 1], f) + f(ts[|ts| - 1])
  }

  function HowMany<T>(ts: seq<T>, holds: T -> bool): nat {
    if ts == [] then 0 else HowMany(ts[..|ts| - 1], holds) + if holds(ts[|ts| - 1]) then 1 else 0
  }

  /** What a trade gains or loses at settlement, its fee, the part of it paid at entry, and whether it is won. */
  datatype Terms<!T> = Terms(pnl: T -> real, fee: T -> real, upfront: T -> real, win: T -> bool)

  /** The account's totals are those of the trades `ts`, one for each accepted lot. */
  ghost predicate Logged<K, T>(s: Sim<K>, ts: seq<T>, m: Terms<T>) {
    && |s.accepted| == |ts|
    && Profit(s.accepted) == Sum(ts, m.pnl) && WinCount(s.accepted) == HowMany(ts, m.win)
    && s.account.fees == Sum(ts, m.fee) && s.paid == Sum(ts, m.upfront)
  }

  /** The lot is opened on the terms of the trade. */
  predicate OnTerms<K, T>(e: Entry<K>, t: T, m: Terms<T>) {
    e.Trade? ==>
      && e.lot.payout - e.lot.basis == m.pnl(t) && e.lot.win == m.win(t)
      && e.fee == m.fee(t) && e.upfront == m.upfront(t)
  }

  lemma TakeLogs<K, T>(s: Sim<K>, e: Entry<K>, ts: seq<T>, t: T, m: Terms<T>)
    requires Logged(s, ts, m) && OnTerms(e, t, m)
    ensures Logged(Take(s, e), ts + if e.Trade? then [t] else [], m)
  {
    if e.Trade? {
      assert (ts + [t])[..|ts|] == ts;
      FoldsAppend(s.accepted, e.lot);
    } else {
      assert ts + [] == ts;
    }
  }

  lemma AdvanceLogs<K, T>(s: Sim<K>, now: Time, ts: seq<T>, m: Terms<T>, initial: real)
    requires Logged(s, ts, m) && SimOk(s, initial)
    ensures Logged(Advance(s, now), ts, m)
  {
    SettleDueOk(s.account, now, initial);
  }

  /** The outcome of a simulation, from its trades alone. */
  ghost predicate Amounts<T>(a: Account, initial: real, ts: seq<T>, m: Terms<T>) {
    && a.realized == Sum(ts, m.pnl) - Sum(ts, m.upfront) && a.cash == initial + a.realized
    && a.fees == Sum(ts, m.fee)
    && a.trades == |ts| && a.wins == HowMany(ts, m.win) && a.losses == |ts| - HowMany(ts, m.win)
  }

  lemma FinishedAmounts<K, T>(s: Sim<K>, ts: seq<T>, m: Terms<T>, initial: real)
    requires Logged(s, ts, m) && SimOk(s, initial)
    ensures Amounts(Advance(s, TIMESTAMP_MAX).account, initial, ts, m)
  {
    AdvanceLogs(s, TIMESTAMP_MAX, ts, m, initial);
    FinishOk(s, initial);
  }

  // ---------- the mutable account ----------

  /** The closures' shared variables, as the simulators update them. */
  class Ledger {
    var account: Account

    constructor (bankroll: real)
      ensures account == Fresh(bankroll)
    {
      account := Fresh(bankroll);
    }

    method MarkAt(ts: Time)
      modifies this
      ensures account == Mark(old(account), ts)
    {
      var eq := account.cash + account.locked;
      if eq > account.peak {
        account := account.(peak := eq);
      }
      if account.peak > 0.0 {
        var dd := (eq - account.peak) / account.peak;
        if dd < account.maxDrawdown {
          account := account.(maxDrawdown := dd);
        }
      }
      account := account.(history := account.history + [(ts, eq)]);
    }

    /** Settle, in calendar order, everything due by `now`. */
    method Settle(now: Time)
      modifies this
      ensures account == SettleDue(old(account), now)
    {
      while account.heap != [] && account.heap[0].settle <= now
        invariant SettleDue(account, now) == SettleDue(old(account), now)
        decreases |account.heap|
      {
        var lot := account.heap[0];
        account := account.(heap := account.heap[1..], cash := account.cash + lot.payout,
                            locked := account.locked - lot.basis,
                            realized := account.realized + lot.payout - lot.basis);
        if lot.win {
          account := account.(wins := account.wins + 1);
        } else {
          account := account.(losses := account.losses + 1);
        }
        MarkAt(lot.settle);
      }
    }

    method OpenLot(lot: Lot, fee: real, upfront: real)
      modifies this
      ensures account == Open(old(account), lot, fee, upfront)
    {
      account := account.(cash := account.cash - lot.basis - upfront, locked := account.locked + lot.basis,
                          realized := account.realized - upfront, trades := account.trades + 1,
                          fees := account.fees + fee);
      if account.locked > account.peakLocked {
        account := account.(peakLocked := account.locked);
      }
      account := account.(heap := Push(account.heap, lot));
    }
  }
}
