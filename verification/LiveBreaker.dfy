/**
 The daily-loss breaker's line through a day: how far settlements and new shorts move
 start-of-day equity, and exactly when they move the line toward the account.
 */
module LiveBreaker {
  import opened Options
  import opened Money
  import opened Config
  import opened Book
  import opened Reconcile
  import opened Risk
  import opened Discovery
  import opened Exchanges
  import opened Execution
  import opened LiveTick
  import opened LiveInvariants
  import opened LiveCaps
  import opened LiveOnce
  import opened LiveEquity

  /** Equity as a tick computes it, less what was realized on the day. */
  function StartOfDay(ps: seq<Position>, cash: int, day: int): int {
    cash + Deployed(ps) - RealizedOn(ps, day)
  }

  function Threshold(cfg: Config, ps: seq<Position>, cash: int, day: int): real {
    DailyLossCap(cfg, Some(cash + Deployed(ps)), RealizedOn(ps, day))
  }

  /** What booking collateral in whole cents adds to a priced record: up to half a cent, or minus that. */
  function RoundingGain(p: Position): int {
    match p.price
    case Some(price) => p.collateral.GetOr(0) - Locked(price, Contracts(p))
    case None => 0
  }

  /**
   In a complete, current book start-of-day equity depends only on funds, on the P&L of
   other days, on open fees, and on the rounding of the booked collateral.
   */
  lemma StartOfDayIs(ps: seq<Position>, ex: Exchange, funds: int, day: int)
    requires LedgerOk(ex, funds) && Complete(ps, ex) && Current(ps, ex.settlements)
    ensures StartOfDay(ps, ex.cash, day)
            == funds + (Realized(ps) - RealizedOn(ps, day)) - OpenFees(ps) + FeeGap(ps, ex)
               + (Deployed(ps) - OpenLocked(ps))
    ensures -CENT * OpenCount(ps) <= 2 * (Deployed(ps) - OpenLocked(ps)) <= CENT * OpenCount(ps)
    ensures WholePrices(ps) ==> Deployed(ps) == OpenLocked(ps)
  {
    BookBalances(ps, ex, funds);
    BookedCollateral(ps, Fills(ex.orders));
  }

  // ---------- what a record adds ----------

  /** What a record adds to start-of-day equity beyond the cash. */
  function Worth(p: Position, day: int): int {
    OpenCollateral(p) - PnlOn(p, day)
  }

  function Worths(ps: seq<Position>, day: int): int {
    if ps == [] then 0 else Worths(ps[..|ps| - 1], day) + Worth(ps[|ps| - 1], day)
  }

  lemma {:induction false} StartOfDayIsWorths(ps: seq<Position>, cash: int, day: int)
    ensures StartOfDay(ps, cash, day) == cash + Worths(ps, day)
  {
    if ps == [] {
    } else {
      StartOfDayIsWorths(ps[..|ps| - 1], cash, day);
    }
  }

  /** The record is open and its market has resolved. */
  predicate Retires(p: Position, ss: seq<Settlement>) {
    p.status.Open? && Lookup(ss, p.ticker).Some? && Lookup(ss, p.ticker).value.result.Some?
  }

  /** Fees of the records that settle. */
  function RetiredFees(ps: seq<Position>, ss: seq<Settlement>): int {
    if ps == [] then 0
    else RetiredFees(ps[..|ps| - 1], ss) + if Retires(ps[|ps| - 1], ss) then ps[|ps| - 1].fee else 0
  }

  /** Rounding gains given back by the records that settle. */
  function RetiredGain(ps: seq<Position>, ss: seq<Settlement>): int {
    if ps == [] then 0
    else RetiredGain(ps[..|ps| - 1], ss) + if Retires(ps[|ps| - 1], ss) then RoundingGain(ps[|ps| - 1]) else 0
  }

  function RetiredCount(ps: seq<Position>, ss: seq<Settlement>): nat {
    if ps == [] then 0
    else RetiredCount(ps[..|ps| - 1], ss) + if Retires(ps[|ps| - 1], ss) then 1 else 0
  }

  predicate OpenIn(ps: seq<Position>, t: Ticker) {
    exists i :: 0 <= i < |ps| && ps[i].status.Open? && ps[i].ticker == t
  }

  /** Payouts, in the rows from `n` on, of markets on which the book has nothing open. */
  function Unbooked(ps: seq<Position>, ss: seq<Settlement>, n: nat): int {
    if |ss| <= n then 0
    else Unbooked(ps, ss[..|ss| - 1], n) + if OpenIn(ps, ss[|ss| - 1].ticker) then 0 else ss[|ss| - 1].revenue.GetOr(0)
  }

  /** Open priced records carry all the contracts held on their market. */
  ghost predicate HoldsAll(ps: seq<Position>, os: seq<Order>) {
    forall i :: 0 <= i < |ps| && ps[i].status.Open? && ps[i].price.Some? ==>
      Contracts(ps[i]) == HeldCount(os, ps[i].ticker)
  }

  /** Nothing open has resolved: the settlements were read when the book was saved. */
  ghost predicate Reread(ps: seq<Position>, ss: seq<Settlement>) {
    forall i :: 0 <= i < |ps| && ps[i].status.Open? ==> Lookup(ss, ps[i].ticker).None?
  }

  /** The row a market resolves with. */
  function RowOf(os: seq<Order>, t: Ticker, result: Outcome): Settlement {
    Settlement(t, Some(result), Some(if result.No? then DOLLAR * HeldCount(os, t) else 0))
  }

  /** One more row settles at most the record of its market, which gives up its rounding gain and frees its fee. */
  lemma WorthOfRow(p: Position, ss: seq<Settlement>, os: seq<Order>, t: Ticker, result: Outcome, day: int)
    requires t != "" && Lookup(ss, t).None?
    requires p.status.Open? && p.price.Some? ==> Contracts(p) == HeldCount(os, p.ticker)
    ensures var row := RowOf(os, t, result);
      var hit := p.status.Open? && p.ticker == t;
      && Worth(SettleOne(p, ss + [row], day), day)
         == Worth(SettleOne(p, ss, day), day)
            + (if hit then p.fee - RoundingGain(p) - row.revenue.value else 0)
      && (Retires(p, ss + [row]) <==> Retires(p, ss) || hit)
      && (hit ==> !Retires(p, ss))
  {
    LookupAppend(ss, RowOf(os, t, result), p.ticker);
    if p.price.Some? {
      NetPnlIsCashFlow(p.price.value, Contracts(p), p.fee, result);
    }
  }

  lemma SettledWorths(ps: seq<Position>, ss: seq<Settlement>, day: int)
    requires ps != []
    ensures Worths(Settle(ps, ss, day), day)
            == Worths(Settle(ps[..|ps| - 1], ss, day), day) + Worth(SettleOne(ps[|ps| - 1], ss, day), day)
  {
    assert Settle(ps, ss, day)[..|ps| - 1] == Settle(ps[..|ps| - 1], ss, day);
  }

  /** From `ss` to `ss'` the settled book loses the freed fees, the gains given back, and `paid`. */
  ghost predicate WorthMoves(ps: seq<Position>, ss: seq<Settlement>, ss': seq<Settlement>, day: int, paid: int) {
    Worths(Settle(ps, ss', day), day)
    == Worths(Settle(ps, ss, day), day)
       + (RetiredFees(ps, ss') - RetiredFees(ps, ss)) - (RetiredGain(ps, ss') - RetiredGain(ps, ss)) - paid
  }

  lemma WorthMovesSnoc(ps: seq<Position>, ss: seq<Settlement>, os: seq<Order>, t: Ticker, result: Outcome, day: int,
                       paid: int)
    requires ps != [] && t != "" && Lookup(ss, t).None? && HoldsAll(ps, os)
    requires WorthMoves(ps[..|ps| - 1], ss, ss + [RowOf(os, t, result)], day, paid)
    ensures var row, p := RowOf(os, t, result), ps[|ps| - 1];
      WorthMoves(ps, ss, ss + [row], day, paid + if p.status.Open? && p.ticker == t then row.revenue.value else 0)
  {
    WorthOfRow(ps[|ps| - 1], ss, os, t, result, day);
    SettledWorths(ps, ss, day);
    SettledWorths(ps, ss + [RowOf(os, t, result)], day);
  }

  lemma {:induction false} WorthsOfRow(ps: seq<Position>, ss: seq<Settlement>, os: seq<Order>, t: Ticker,
                                       result: Outcome, day: int)
    requires t != "" && Lookup(ss, t).None? && DistinctTickers(ps) && HoldsAll(ps, os)
    ensures var row := RowOf(os, t, result);
      WorthMoves(ps, ss, ss + [row], day, if OpenIn(ps, t) then row.revenue.value else 0)
  {
    if ps == [] {
    } else {
      var init := ps[..|ps| - 1];
      assert forall i :: 0 <= i < |init| ==> init[i] == ps[i];
      WorthsOfRow(init, ss, os, t, result, day);
      OpenInSnoc(ps, t);
      WorthMovesSnoc(ps, ss, os, t, result, day, if OpenIn(init, t) then RowOf(os, t, result).revenue.value else 0);
    }
  }

  lemma OpenInSnoc(ps: seq<Position>, t: Ticker)
    requires ps != [] && DistinctTickers(ps)
    ensures var init, p := ps[..|ps| - 1], ps[|ps| - 1];
      && (OpenIn(ps, t) <==> OpenIn(init, t) || (p.status.Open? && p.ticker == t))
      && !(OpenIn(init, t) && p.ticker == t)
  {
    var init := ps[..|ps| - 1];
    if OpenIn(init, t) {
      var i :| 0 <= i < |init| && init[i].status.Open? && init[i].ticker == t;
      assert ps[i] == init[i];
    }
    if OpenIn(ps, t) {
      var i :| 0 <= i < |ps| && ps[i].status.Open? && ps[i].ticker == t;
      assert i < |init| ==> init[i] == ps[i];
    }
  }

  // ---------- settlements ----------

  ghost predicate OnlyResolves(es: seq<Event>) {
    forall i :: 0 <= i < |es| ==> es[i].ResolveEvent?
  }

  /** A saved book as later settlements find it. */
  ghost predicate Ready(ps: seq<Position>, ex: Exchange) {
    DistinctTickers(ps) && HoldsAll(ps, ex.orders) && Reread(ps, ex.settlements)
  }

  lemma {:induction false} NothingRetires(ps: seq<Position>, ss: seq<Settlement>, day: int)
    requires Reread(ps, ss)
    ensures Settle(ps, ss, day) == ps
    ensures RetiredFees(ps, ss) == 0 && RetiredGain(ps, ss) == 0
  {
    if ps == [] {
    } else {
      var init := ps[..|ps| - 1];
      assert forall i :: 0 <= i < |init| ==> init[i] == ps[i];
      NothingRetires(init, ss, day);
      assert Settle(ps, ss, day)[..|ps| - 1] == Settle(init, ss, day);
    }
  }

  /** The book's worth after settling by the rows of `v`, against the book at `w`. */
  ghost predicate Accounts(w: World, v: World, day: int) {
    && v.disk == w.disk && v.ex.orders == w.ex.orders && |w.ex.settlements| <= |v.ex.settlements|
    && v.ex.cash + Worths(Settle(w.disk, v.ex.settlements, day), day)
       == w.ex.cash + Worths(w.disk, day)
          + RetiredFees(w.disk, v.ex.settlements) - RetiredGain(w.disk, v.ex.settlements)
          + Unbooked(w.disk, v.ex.settlements, |w.ex.settlements|)
  }

  lemma ResolveAccounts(w: World, v: World, t: Ticker, result: Outcome, day: int)
    requires Ready(w.disk, w.ex) && Accounts(w, v, day)
    ensures Accounts(w, v.(ex := Resolve(v.ex, t, result)), day)
  {
    if t != "" && !Closed(v.ex.settlements, t) {
      var row := RowOf(v.ex.orders, t, result);
      NotClosed(v.ex.settlements, t);
      WorthsOfRow(w.disk, v.ex.settlements, v.ex.orders, t, result, day);
      var ss := v.ex.settlements + [row];
      assert ss[..|ss| - 1] == v.ex.settlements;
    }
  }

  lemma {:induction false} ResolvesAccount(w: World, es: seq<Event>, day: int)
    requires Ready(w.disk, w.ex) && OnlyResolves(es)
    ensures Accounts(w, Run(w, es), day)
  {
    if es == [] {
      NothingRetires(w.disk, w.ex.settlements, day);
    } else {
      var init, e := es[..|es| - 1], es[|es| - 1];
      assert OnlyResolves(init);
      ResolvesAccount(w, init, day);
      ResolveAccounts(w, Run(w, init), e.ticker, e.result, day);
    }
  }

  // ---------- what the next tick reads ----------

  lemma SettledIsCanonical(p: Position, ss: seq<Settlement>, day: int)
    requires Canonical(p)
    ensures Canonical(SettleOne(p, ss, day))
  {}

  lemma {:induction false} AdoptAddsNoWorth(ps: seq<Position>, hs: seq<Holding>, day: int)
    ensures Worths(Adopt(ps, hs), day) == Worths(ps, day)
  {
    if hs == [] {
    } else {
      var before, after := Adopt(ps, hs[..|hs| - 1]), Adopt(ps, hs);
      AdoptAddsNoWorth(ps, hs[..|hs| - 1], day);
      if after != before {
        assert after[..|after| - 1] == before;
      }
    }
  }

  /** Healing and adopting leave start-of-day equity alone. */
  lemma ReconciledWorth(env: Env, w: World, day: int)
    requires AllCanonical(w.disk)
    ensures Worths(Reconciled(env, w), day)
            == Worths(Settle(w.disk, SettlementRows(env, w), env.settleDay), day)
  {
    var settled := Settle(w.disk, SettlementRows(env, w), env.settleDay);
    forall i | 0 <= i < |settled| ensures Healed(settled[i]) == settled[i] {
      SettledIsCanonical(w.disk[i], SettlementRows(env, w), env.settleDay);
      HealedIsCanonical(settled[i]);
    }
    assert Heal(settled) == settled;
    AdoptAddsNoWorth(settled, PositionRows(env, w), day);
  }

  /** A saved book, and a tick that reads the settlements on the day they are booked. */
  ghost predicate SettlesOn(env: Env, w: World) {
    && Ready(w.disk, w.ex) && AllCanonical(w.disk)
    && env.settlementsRead && env.settleDay == env.Day()
  }

  /** Start-of-day equity at the last save, and as the next tick computes it. */
  function SavedLine(env: Env, w: World): int {
    StartOfDay(w.disk, w.ex.cash, env.Day())
  }

  function NextLine(env: Env, v: World): int {
    StartOfDay(Reconciled(env, v), v.ex.cash, env.Day())
  }

  /** Rounding gains the settlements give back, less the fees they free and the payouts the book did not expect. */
  function Fall(w: World, v: World): int {
    RetiredGain(w.disk, v.ex.settlements) - RetiredFees(w.disk, v.ex.settlements)
    - Unbooked(w.disk, v.ex.settlements, |w.ex.settlements|)
  }

  /**
   Settlements - any number, winning or losing, of priced records and of orphans, at any
   price - move start-of-day equity by exactly the rounding gains they give back, less the
   fees they free and any payout on a market the book has nothing open on.
   */
  lemma SettlingMovesLine(env: Env, w: World, es: seq<Event>)
    requires SettlesOn(env, w) && OnlyResolves(es)
    ensures NextLine(env, Run(w, es)) == SavedLine(env, w) - Fall(w, Run(w, es))
  {
    var v := Run(w, es);
    ResolvesAccount(w, es, env.Day());
    ReconciledWorth(env, v, env.Day());
    StartOfDayIsWorths(w.disk, w.ex.cash, env.Day());
    StartOfDayIsWorths(Reconciled(env, v), v.ex.cash, env.Day());
  }

  function SavedThreshold(env: Env, w: World): real {
    Threshold(env.cfg, w.disk, w.ex.cash, env.Day())
  }

  function NextThreshold(env: Env, v: World): real {
    Threshold(env.cfg, Reconciled(env, v), v.ex.cash, env.Day())
  }

  /** The line falls exactly when start-of-day equity does and the fraction is what binds. */
  lemma LineFallsExactly(cfg: Config, ps: seq<Position>, cash: int, qs: seq<Position>, cash': int, day: int)
    ensures Threshold(cfg, qs, cash', day) < Threshold(cfg, ps, cash, day)
            <==> StartOfDay(qs, cash', day) < StartOfDay(ps, cash, day)
                 && FractionBinds(cfg, StartOfDay(qs, cash', day))
  {
    ThresholdFallsExactly(cfg, cash + Deployed(ps), RealizedOn(ps, day), cash' + Deployed(qs), RealizedOn(qs, day));
  }

  /**
   Settlements tighten the breaker exactly when the gains given back exceed what they free,
   and the fraction - not the absolute cap - is what binds afterwards.
   */
  lemma SettlingTightensExactly(env: Env, w: World, es: seq<Event>)
    requires SettlesOn(env, w) && OnlyResolves(es)
    ensures NextThreshold(env, Run(w, es)) < SavedThreshold(env, w)
            <==> Fall(w, Run(w, es)) > 0 && FractionBinds(env.cfg, NextLine(env, Run(w, es)))
  {
    SettlingMovesLine(env, w, es);
    LineFallsExactly(env.cfg, w.disk, w.ex.cash, Reconciled(env, Run(w, es)), Run(w, es).ex.cash, env.Day());
  }

  // ---------- the condition, on the book alone ----------

  /** Whatever resolves, start-of-day equity does not fall. */
  ghost predicate HoldsStill(env: Env, w: World) {
    forall es :: OnlyResolves(es) ==> NextLine(env, Run(w, es)) >= SavedLine(env, w)
  }

  /** No open record gained more by rounding than it paid in fees. */
  ghost predicate FeesCoverRounding(ps: seq<Position>) {
    forall i :: 0 <= i < |ps| && ps[i].status.Open? && ps[i].ticker != "" ==> RoundingGain(ps[i]) <= ps[i].fee
  }

  lemma {:induction false} CoveredNeverFalls(ps: seq<Position>, ss: seq<Settlement>)
    requires FeesCoverRounding(ps)
    ensures RetiredGain(ps, ss) <= RetiredFees(ps, ss)
  {
    if ps == [] {
    } else {
      var init := ps[..|ps| - 1];
      assert forall i :: 0 <= i < |init| ==> init[i] == ps[i];
      CoveredNeverFalls(init, ss);
      LookupOfNothing(ss);
    }
  }

  lemma {:induction false} UnbookedNonNegative(ps: seq<Position>, ss: seq<Settlement>, n: nat)
    requires forall i :: n <= i < |ss| ==> ss[i].revenue.GetOr(0) >= 0
    ensures Unbooked(ps, ss, n) >= 0
  {
    if |ss| <= n {
    } else {
      UnbookedNonNegative(ps, ss[..|ss| - 1], n);
    }
  }

  lemma {:induction false} PayoutsNonNegative(w: World, es: seq<Event>)
    requires OnlyResolves(es)
    ensures |w.ex.settlements| <= |Run(w, es).ex.settlements|
    ensures forall i :: |w.ex.settlements| <= i < |Run(w, es).ex.settlements| ==>
      Run(w, es).ex.settlements[i].revenue.GetOr(0) >= 0
  {
    if es == [] {
    } else {
      assert OnlyResolves(es[..|es| - 1]);
      PayoutsNonNegative(w, es[..|es| - 1]);
    }
  }

  lemma {:induction false} OnlyOneRetires(ps: seq<Position>, ss: seq<Settlement>, row: Settlement, i: nat)
    requires DistinctTickers(ps) && Reread(ps, ss) && row.ticker != "" && row.result.Some?
    requires i < |ps| && ps[i].status.Open? && ps[i].ticker == row.ticker
    ensures RetiredFees(ps, ss + [row]) == ps[i].fee
    ensures RetiredGain(ps, ss + [row]) == RoundingGain(ps[i])
  {
    var init, p := ps[..|ps| - 1], ps[|ps| - 1];
    assert forall j :: 0 <= j < |init| ==> init[j] == ps[j];
    LookupAppend(ss, row, p.ticker);
    if i == |ps| - 1 {
      forall j | 0 <= j < |init| && init[j].status.Open? ensures Lookup(ss + [row], init[j].ticker).None? {
        LookupAppend(ss, row, init[j].ticker);
      }
      NothingRetires(init, ss + [row], 0);
    } else {
      OnlyOneRetires(init, ss, row, i);
    }
  }

  /** One market resolving, either way, gives back just its own rounding gain. */
  lemma ResolvingOneFalls(env: Env, w: World, i: nat, result: Outcome)
    requires SettlesOn(env, w) && i < |w.disk| && w.disk[i].status.Open? && w.disk[i].ticker != ""
    ensures Fall(w, Run(w, [ResolveEvent(w.disk[i].ticker, result)])) == RoundingGain(w.disk[i]) - w.disk[i].fee
  {
    var t := w.disk[i].ticker;
    var e := ResolveEvent(t, result);
    assert Run(w, [e]) == Apply(w, e) by {
      assert [e][..0] == [];
    }
    if Closed(w.ex.settlements, t) {
      LookupClosed(w.ex.settlements, t);
    }
    var ss, row := w.ex.settlements, RowOf(w.ex.orders, t, result);
    assert Apply(w, e).ex.settlements == ss + [row];
    OnlyOneRetires(w.disk, ss, row, i);
    assert OpenIn(w.disk, t);
    assert (ss + [row])[..|ss|] == ss;
    assert Unbooked(w.disk, ss + [row], |ss|) == Unbooked(w.disk, ss, |ss|) == 0;
  }

  /**
   The exact condition, checkable on the book before anything resolves: no settlement, now or
   later, moves start-of-day equity toward the account exactly when no open record gained
   more by rounding than it paid in fees.
   */
  lemma SettlingHoldsExactly(env: Env, w: World)
    requires SettlesOn(env, w)
    ensures HoldsStill(env, w) <==> FeesCoverRounding(w.disk)
  {
    if FeesCoverRounding(w.disk) {
      forall es | OnlyResolves(es) ensures NextLine(env, Run(w, es)) >= SavedLine(env, w) {
        var v := Run(w, es);
        SettlingMovesLine(env, w, es);
        CoveredNeverFalls(w.disk, v.ex.settlements);
        PayoutsNonNegative(w, es);
        UnbookedNonNegative(w.disk, v.ex.settlements, |w.ex.settlements|);
      }
    }
    if HoldsStill(env, w) {
      forall i | 0 <= i < |w.disk| && w.disk[i].status.Open? && w.disk[i].ticker != ""
        ensures RoundingGain(w.disk[i]) <= w.disk[i].fee
      {
        var es := [ResolveEvent(w.disk[i].ticker, Yes)];
        SettlingMovesLine(env, w, es);
        ResolvingOneFalls(env, w, i, Yes);
      }
    }
  }

  /** A record is booked as the harness books it. */
  ghost predicate BookedRight(p: Position) {
    match p.price
    case Some(price) => p.collateral == Some(RoundCents(Locked(price, Contracts(p))))
    case None => p.collateral.None? && p.fee == 0
  }

  /** Whole-cent prices, orphans, and fees of half a cent or more all cover the rounding. */
  lemma UsuallyCovered(p: Position)
    requires BookedRight(p)
    ensures 2 * RoundingGain(p) <= CENT
    ensures p.price.Some? && WholeCents(p.price.value) ==> RoundingGain(p) == 0
    ensures p.price.None? || (WholeCents(p.price.value) && p.fee >= 0) || 2 * p.fee >= CENT ==>
      RoundingGain(p) <= p.fee
  {
    if p.price.Some? && WholeCents(p.price.value) {
      LockedWhole(p.price.value, Contracts(p));
    }
  }

  lemma {:induction false} RetiredGainBound(ps: seq<Position>, ss: seq<Settlement>)
    requires forall i :: 0 <= i < |ps| ==> BookedRight(ps[i])
    ensures 2 * RetiredGain(ps, ss) <= CENT * RetiredCount(ps, ss)
  {
    if ps == [] {
    } else {
      RetiredGainBound(ps[..|ps| - 1], ss);
      UsuallyCovered(ps[|ps| - 1]);
    }
  }

  /** At worst start-of-day equity falls by half a cent per settled record, fees aside. */
  lemma SettlingCostsAtMost(env: Env, w: World, es: seq<Event>)
    requires SettlesOn(env, w) && OnlyResolves(es)
    requires forall i :: 0 <= i < |w.disk| ==> BookedRight(w.disk[i])
    ensures var v := Run(w, es);
      2 * (SavedLine(env, w) - NextLine(env, v) + RetiredFees(w.disk, v.ex.settlements))
      <= CENT * RetiredCount(w.disk, v.ex.settlements)
  {
    var v := Run(w, es);
    SettlingMovesLine(env, w, es);
    RetiredGainBound(w.disk, v.ex.settlements);
    PayoutsNonNegative(w, es);
    UnbookedNonNegative(w.disk, v.ex.settlements, |w.ex.settlements|);
  }

  // ---------- new shorts ----------

  /** Rounding gain of a whole book. */
  function OpenGain(ps: seq<Position>): int {
    Deployed(ps) - OpenLocked(ps)
  }

  /** Rounding gains of the records from `n` on. */
  function NewGain(ps: seq<Position>, n: nat): int {
    if |ps| <= n then 0 else NewGain(ps[..|ps| - 1], n) + RoundingGain(ps[|ps| - 1])
  }

  lemma {:induction false} GainOfNew(ps: seq<Position>, qs: seq<Position>)
    requires ps <= qs && forall i :: |ps| <= i < |qs| ==> qs[i].status.Open? && qs[i].price.Some?
    ensures OpenGain(qs) == OpenGain(ps) + NewGain(qs, |ps|)
  {
    if |ps| == |qs| {
      assert ps == qs;
    } else {
      GainOfNew(ps, qs[..|qs| - 1]);
    }
  }

  lemma {:induction false} NewGainBound(ps: seq<Position>, n: nat)
    requires n <= |ps| && forall i :: n <= i < |ps| ==> BookedRight(ps[i])
    ensures 2 * NewGain(ps, n) >= -CENT * (|ps| - n)
    ensures (forall i :: n <= i < |ps| ==> WholeCents(ps[i].price.GetOr(0))) ==> NewGain(ps, n) == 0
  {
    if |ps| == n {
    } else {
      NewGainBound(ps[..|ps| - 1], n);
      UsuallyCovered(ps[|ps| - 1]);
      assert forall i :: n <= i < |ps| - 1 ==> ps[..|ps| - 1][i] == ps[i];
    }
  }

  /** Start-of-day equity before and after the shorts of a tick; the fees the exchange charged for them. */
  function BeforeOpening(env: Env, w: World): int {
    StartOfDay(Reconciled(env, w), w.ex.cash, env.Day())
  }

  function AfterOpening(env: Env, w: World): int {
    StartOfDay(EndWalk(env, w).positions, EndWalk(env, w).ex.cash, env.Day())
  }

  function NewFees(env: Env, w: World): int {
    ChargedFees(Fills(EndWalk(env, w).ex.orders)) - ChargedFees(Fills(w.ex.orders))
  }

  /** A tick that reads the settlements, is no dry run, and whose book records every fill. */
  ghost predicate LosesNoFill(env: Env, w: World, prefix: string, universe: set<Ticker>) {
    && WorldOk(w, prefix, universe) && EnvOk(env, prefix, universe) && env.settlementsRead && !env.dryRun
    && Complete(w.disk, w.ex) && Complete(EndWalk(env, w).positions, EndWalk(env, w).ex)
  }

  lemma OpeningBetween(ps: seq<Position>, ex: Exchange, qs: seq<Position>, ex': Exchange, funds: int, day: int)
    requires Balanced(ps, ex, funds) && Balanced(qs, ex', funds)
    requires ps <= qs && forall i :: |ps| <= i < |qs| ==> qs[i].status.Open? && qs[i].price.Some?
    ensures StartOfDay(qs, ex'.cash, day)
            == StartOfDay(ps, ex.cash, day) - (ChargedFees(Fills(ex'.orders)) - ChargedFees(Fills(ex.orders)))
               + NewGain(qs, |ps|)
  {
    OpensBookNothing(ps, qs, day);
    GainOfNew(ps, qs);
  }

  lemma NewAreBooked(env: Env, w: World)
    requires !env.dryRun
    ensures Reconciled(env, w) <= EndWalk(env, w).positions
    ensures forall i :: |Reconciled(env, w)| <= i < |EndWalk(env, w).positions| ==>
      && EndWalk(env, w).positions[i].status.Open? && EndWalk(env, w).positions[i].price.Some?
      && BookedRight(EndWalk(env, w).positions[i])
  {
    TickOpensOnly(env, w);
    var e := EndWalk(env, w);
    assert forall i :: |Reconciled(env, w)| <= i < |e.positions| ==> FreshRecord(e.positions[i]);
  }

  /** What opening `qs` beyond the first `n` records does to start-of-day equity. */
  ghost predicate MovesBy(before: int, after: int, fees: int, qs: seq<Position>, n: nat) {
    && n <= |qs|
    && after == before - fees + NewGain(qs, n)
    && 2 * NewGain(qs, n) >= -CENT * (|qs| - n)
    && ((forall i :: n <= i < |qs| ==> WholeCents(qs[i].price.GetOr(0))) ==> NewGain(qs, n) == 0)
  }

  lemma MovesBetween(ps: seq<Position>, ex: Exchange, qs: seq<Position>, ex': Exchange, funds: int, day: int)
    requires Balanced(ps, ex, funds) && Balanced(qs, ex', funds) && ps <= qs
    requires forall i :: |ps| <= i < |qs| ==> qs[i].status.Open? && qs[i].price.Some? && BookedRight(qs[i])
    ensures MovesBy(StartOfDay(ps, ex.cash, day), StartOfDay(qs, ex'.cash, day),
                    ChargedFees(Fills(ex'.orders)) - ChargedFees(Fills(ex.orders)), qs, |ps|)
  {
    OpeningBetween(ps, ex, qs, ex', funds, day);
    NewGainBound(qs, |ps|);
  }

  /**
   Opening shorts, at any price, moves start-of-day equity by exactly the fees charged and
   the rounding of the new collateral: it never costs more than the fees and half a cent a
   position, and nothing but the fees at whole-cent prices.
   */
  lemma OpeningMovesLine(env: Env, w: World, prefix: string, universe: set<Ticker>)
    requires LosesNoFill(env, w, prefix, universe)
    ensures MovesBy(BeforeOpening(env, w), AfterOpening(env, w), NewFees(env, w), EndWalk(env, w).positions,
                    |Reconciled(env, w)|)
  {
    TickBalances(env, w, prefix, universe);
    NewAreBooked(env, w);
    MovesBetween(Reconciled(env, w), w.ex, EndWalk(env, w).positions, EndWalk(env, w).ex, w.funds, env.Day());
  }

  // ---------- one order ----------

  /** Start-of-day equity at a point of the walk. */
  function WalkLine(c: Ctx, w: Walk): int {
    StartOfDay(w.positions, w.ex.cash, c.env.Day())
  }

  /** The order, if the exchange takes it. */
  function FillFor(c: Ctx, cand: Candidate, reply: Reply): Order
    requires reply.fill.Some?
  {
    FillOf(OrderId(c, cand.ticker), cand.ticker, cand.size, cand.price, reply.fill.value)
  }

  /** The fee the exchange charges for the order. */
  function ChargedFee(c: Ctx, w: Walk, cand: Candidate, reply: Reply): int {
    if !c.env.dryRun && Takes(w.ex, OrderId(c, cand.ticker), cand.ticker, reply) then FillFor(c, cand, reply).fee else 0
  }

  predicate CostsAtMostFee(c: Ctx, w: Walk, cand: Candidate, reply: Reply) {
    WalkLine(c, Send(c, w, cand, reply)) >= WalkLine(c, w) - ChargedFee(c, w, cand, reply)
  }

  /** One more open record. */
  ghost predicate GrowsBy(ps: seq<Position>, qs: seq<Position>, collateral: int) {
    && |qs| == |ps| + 1 && qs[..|ps|] == ps
    && qs[|ps|].status.Open? && qs[|ps|].pnl.None? && qs[|ps|].collateral == Some(collateral)
  }

  lemma LineGrows(ps: seq<Position>, qs: seq<Position>, collateral: int, cash: int, day: int)
    requires GrowsBy(ps, qs, collateral)
    ensures StartOfDay(qs, cash, day) == StartOfDay(ps, cash, day) + collateral
  {}

  /** A fill the client hears of is booked, if it is one, and paid for. */
  lemma HeardIsBooked(c: Ctx, w: Walk, cand: Candidate, reply: Reply)
    requires !c.env.dryRun && cand.size >= 1 && HeardInFull(reply.answer)
    requires Takes(w.ex, OrderId(c, cand.ticker), cand.ticker, reply)
    ensures var o, v := FillFor(c, cand, reply), Send(c, w, cand, reply);
      && v.ex.cash == w.ex.cash - Locked(o.price, o.filled) - o.fee
      && (if o.filled == 0 then v.positions == w.positions
          else GrowsBy(w.positions, v.positions, RoundCents(Locked(o.price, o.filled))))
  {
    FillIsHeard(w.ex, OrderId(c, cand.ticker), cand.ticker, cand.size, cand.price, reply);
  }

  /**
   A fill the client hears of costs its fee, and what booking its collateral in whole cents
   loses or gains: at most the fee exactly when the collateral does not round down, hence
   always at a whole-cent price.
   */
  lemma FillCostsFeeExactly(c: Ctx, w: Walk, cand: Candidate, reply: Reply)
    requires !c.env.dryRun && cand.size >= 1 && HeardInFull(reply.answer)
    requires Takes(w.ex, OrderId(c, cand.ticker), cand.ticker, reply)
    ensures var o := FillFor(c, cand, reply);
      var exact := Locked(o.price, o.filled);
      && WalkLine(c, Send(c, w, cand, reply)) == WalkLine(c, w) - o.fee + (RoundCents(exact) - exact)
      && (CostsAtMostFee(c, w, cand, reply) <==> RoundCents(exact) >= exact)
      && (WholeCents(o.price) ==> CostsAtMostFee(c, w, cand, reply))
  {
    var o, v := FillFor(c, cand, reply), Send(c, w, cand, reply);
    HeardIsBooked(c, w, cand, reply);
    if o.filled > 0 {
      LineGrows(w.positions, v.positions, RoundCents(Locked(o.price, o.filled)), v.ex.cash, c.env.Day());
    }
    if WholeCents(o.price) {
      LockedWhole(o.price, o.filled);
    }
  }

  /** Whatever the exchange answers, as long as the client learns of the fill, the order costs at most its fee. */
  ghost predicate SafeToSend(c: Ctx, w: Walk, cand: Candidate) {
    forall reply: Reply :: HeardInFull(reply.answer) ==> CostsAtMostFee(c, w, cand, reply)
  }

  /** One contract, filled at 99.99 cents: it locks a hundredth of a cent, and books nothing. */
  const SLIVER := Reply(Some(RawFill(1, 9999, 0)), Accepted(Inline))

  lemma SliverCosts(c: Ctx, w: Walk, cand: Candidate)
    requires !c.env.dryRun && cand.size >= 1 && cand.price < DOLLAR
    requires cand.ticker != "" && !HasCoid(w.ex.orders, OrderId(c, cand.ticker))
    ensures WalkLine(c, Send(c, w, cand, SLIVER)) == WalkLine(c, w) - 1
    ensures !CostsAtMostFee(c, w, cand, SLIVER)
  {
    FillCostsFeeExactly(c, w, cand, SLIVER);
    assert Locked(9999, 1) == 1 && RoundCents(1) == 0;
  }

  /** An id that is taken can only put the order that holds it into the book, at no cost. */
  lemma StaleCostsNothing(c: Ctx, w: Walk, cand: Candidate, reply: Reply, funds: int)
    requires LedgerOk(w.ex, funds) && cand.size >= 1
    requires cand.ticker == "" || HasCoid(w.ex.orders, OrderId(c, cand.ticker))
    ensures WalkLine(c, Send(c, w, cand, reply)) >= WalkLine(c, w)
  {
    var coid := OrderId(c, cand.ticker);
    var res := Hear(w.ex, coid, cand.ticker, cand.size, cand.price, reply);
    if !c.env.dryRun && res.Some? && IsBooked(res.value) {
      HeardIsOneOf(w.ex, coid, cand.ticker, cand.size, cand.price, reply);
      var o := FindOrder(w.ex.orders, coid);
      assert OrderOk(o);
      BookedMonotone(o.price, o.filled, o.price, 0);
      LineGrows(w.positions, Send(c, w, cand, reply).positions, RoundCents(Locked(o.price, o.filled)), w.ex.cash,
                c.env.Day());
    }
  }

  /**
   What can be checked before sending: an order is sure to cost at most its fee exactly when
   it cannot be taken at all - a dry run, no ticker, or an id already used.
   */
  lemma SafeToSendExactly(c: Ctx, w: Walk, cand: Candidate, funds: int)
    requires LedgerOk(w.ex, funds) && cand.size >= 1 && cand.price < DOLLAR
    ensures SafeToSend(c, w, cand)
            <==> c.env.dryRun || cand.ticker == "" || HasCoid(w.ex.orders, OrderId(c, cand.ticker))
  {
    if !c.env.dryRun && cand.ticker != "" && !HasCoid(w.ex.orders, OrderId(c, cand.ticker)) {
      SliverCosts(c, w, cand);
      assert HeardInFull(SLIVER.answer);
    } else {
      forall reply: Reply | HeardInFull(reply.answer) ensures CostsAtMostFee(c, w, cand, reply) {
        if !c.env.dryRun {
          StaleCostsNothing(c, w, cand, reply, funds);
        }
      }
    }
  }

  // ---------- how far the line falls ----------

  /** The line at `(qs, cash')` is at most the fraction of `drop` below the line at `(ps, cash)`. */
  ghost predicate LineFallsAtMost(cfg: Config, ps: seq<Position>, cash: int, qs: seq<Position>, cash': int, day: int,
                                  drop: int)
  {
    Threshold(cfg, qs, cash', day) >= Threshold(cfg, ps, cash, day) - cfg.maxDailyLossFrac * drop as real
  }

  lemma ThresholdAfterFall(cfg: Config, ps: seq<Position>, cash: int, qs: seq<Position>, cash': int, day: int,
                           drop: int)
    requires cfg.maxDailyLossFrac >= 0.0 && StartOfDay(qs, cash', day) >= StartOfDay(ps, cash, day) - drop && drop >= 0
    ensures LineFallsAtMost(cfg, ps, cash, qs, cash', day, drop)
  {
    ThresholdFallsAtMost(cfg, cash + Deployed(ps), RealizedOn(ps, day), cash' + Deployed(qs), RealizedOn(qs, day),
                         drop);
  }

  /** Fees charged for the new shorts, and half a cent for each. */
  function OpeningCost(env: Env, w: World): int {
    NewFees(env, w) + 50 * (|EndWalk(env, w).positions| - |Reconciled(env, w)|)
  }

  lemma OpeningFallsAtMost(env: Env, w: World, prefix: string, universe: set<Ticker>)
    requires LosesNoFill(env, w, prefix, universe)
    ensures OpeningCost(env, w) >= 0
    ensures AfterOpening(env, w) >= BeforeOpening(env, w) - OpeningCost(env, w)
  {
    OpeningMovesLine(env, w, prefix, universe);
    NewFeesNonNegative(env, w, prefix, universe);
  }

  /**
   The shorts a tick opens lower the breaker's line by at most the fraction of their fees and
   of half a cent per new position.
   */
  lemma OpeningCostsAtMost(env: Env, w: World, prefix: string, universe: set<Ticker>)
    requires LosesNoFill(env, w, prefix, universe) && env.cfg.maxDailyLossFrac >= 0.0
    ensures LineFallsAtMost(env.cfg, Reconciled(env, w), w.ex.cash, EndWalk(env, w).positions, EndWalk(env, w).ex.cash,
                            env.Day(), OpeningCost(env, w))
  {
    OpeningFallsAtMost(env, w, prefix, universe);
    ThresholdAfterFall(env.cfg, Reconciled(env, w), w.ex.cash, EndWalk(env, w).positions, EndWalk(env, w).ex.cash,
                       env.Day(), OpeningCost(env, w));
  }

  lemma {:induction false} ChargesGrow(os: seq<Order>, more: seq<Order>)
    requires os <= more && forall i :: 0 <= i < |more| ==> more[i].fee >= 0
    ensures ChargedFees(Fills(os)) <= ChargedFees(Fills(more))
  {
    if |os| == |more| {
      assert os == more;
    } else {
      var init, o := more[..|more| - 1], more[|more| - 1];
      ChargesGrow(os, init);
      if o.filled > 0 {
        assert Fills(more)[..|Fills(more)| - 1] == Fills(init);
      } else {
        assert Fills(more) == Fills(init);
      }
    }
  }

  lemma NewFeesNonNegative(env: Env, w: World, prefix: string, universe: set<Ticker>)
    requires LosesNoFill(env, w, prefix, universe)
    ensures NewFees(env, w) >= 0
  {
    TickKeeps(env, w, prefix, universe);
    TickTradesOutside(env, w);
    forall i | 0 <= i < |EndWalk(env, w).ex.orders| ensures EndWalk(env, w).ex.orders[i].fee >= 0 {
      assert OrderOk(EndWalk(env, w).ex.orders[i]);
    }
    ChargesGrow(w.ex.orders, EndWalk(env, w).ex.orders);
  }

  // ---------- such books are what runs save ----------

  ghost predicate Kept(ps: seq<Position>) {
    forall i :: 0 <= i < |ps| ==> BookedRight(ps[i]) && Canonical(ps[i])
  }

  lemma ReconciledKept(env: Env, w: World)
    requires DistinctTickers(w.disk) && CollateralWhole(w.disk) && Kept(w.disk)
    ensures Kept(Reconciled(env, w))
  {
    var ps := Reconciled(env, w);
    ReconciledShape(env, w);
    AdoptedAreOrphans(Heal(Settle(w.disk, SettlementRows(env, w), env.settleDay)), PositionRows(env, w));
    forall i | 0 <= i < |ps| ensures BookedRight(ps[i]) && Canonical(ps[i]) {
      if i < |w.disk| {
        assert BookedRight(w.disk[i]);
        HealedIsCanonical(SettleOne(w.disk[i], SettlementRows(env, w), env.settleDay));
      }
    }
  }

  lemma {:induction false} AdoptedAreOrphans(ps: seq<Position>, hs: seq<Holding>)
    ensures ps <= Adopt(ps, hs)
    ensures forall i :: |ps| <= i < |Adopt(ps, hs)| ==> BookedRight(Adopt(ps, hs)[i]) && Adopt(ps, hs)[i].status.Open?
  {
    if hs == [] {
    } else {
      AdoptedAreOrphans(ps, hs[..|hs| - 1]);
    }
  }

  lemma TickKept(env: Env, w: World)
    requires DistinctTickers(w.disk) && CollateralWhole(w.disk) && Kept(w.disk)
    ensures Kept(Tick(env, w).0.disk)
  {
    var ps, e := Reconciled(env, w), EndWalk(env, w);
    ReconciledKept(env, w);
    TickOpensOnly(env, w);
    forall i | 0 <= i < |e.positions| ensures BookedRight(e.positions[i]) && Canonical(e.positions[i]) {
      if i < |ps| {
        assert e.positions[i] == ps[i];
      } else {
        assert FreshRecord(e.positions[i]);
      }
    }
  }

  lemma EventKept(w: World, e: Event)
    requires DistinctTickers(w.disk) && CollateralWhole(w.disk) && Kept(w.disk)
    ensures Kept(Apply(w, e).disk)
  {
    if e.TickEvent? {
      TickKept(e.env, w);
    }
  }

  lemma {:induction false} RunKept(w: World, es: seq<Event>, prefix: string, universe: set<Ticker>)
    requires WorldOk(w, prefix, universe) && EventsOk(es, prefix, universe) && Kept(w.disk)
    ensures Kept(Run(w, es).disk)
  {
    if es == [] {
    } else {
      var init, e := es[..|es| - 1], es[|es| - 1];
      assert forall i :: 0 <= i < |init| ==> init[i] == es[i];
      RunKept(w, init, prefix, universe);
      RunKeeps(w, init, prefix, universe);
      EventKept(Run(w, init), e);
    }
  }

  lemma {:induction false} HeldFixed(os: seq<Order>, more: seq<Order>, t: Ticker)
    requires os <= more && forall i :: |os| <= i < |more| ==> more[i].ticker != t
    ensures HeldCount(more, t) == HeldCount(os, t)
  {
    if |os| == |more| {
      assert os == more;
    } else {
      HeldFixed(os, more[..|more| - 1], t);
    }
  }

  /** Records of known markets still hold all their contracts after trades elsewhere. */
  lemma StillHolds(ps: seq<Position>, a: Walk, b: Walk)
    requires HoldsAll(ps, a.ex.orders) && Tickers(ps) <= a.have && TradesOutside(a, b)
    ensures HoldsAll(ps, b.ex.orders)
  {
    forall i | 0 <= i < |ps| && ps[i].status.Open? && ps[i].price.Some?
      ensures Contracts(ps[i]) == HeldCount(b.ex.orders, ps[i].ticker)
    {
      assert ps[i].ticker in Tickers(ps);
      HeldFixed(a.ex.orders, b.ex.orders, ps[i].ticker);
    }
  }

  lemma HeldAppend(os: seq<Order>, o: Order, t: Ticker)
    ensures HeldCount(os + [o], t) == HeldCount(os, t) + if o.ticker == t then o.filled else 0
  {
    assert (os + [o])[..|os|] == os;
  }

  /** A fill that is booked carries all the contracts of its market. */
  lemma BookedHoldsItsFill(c: Ctx, w: Walk, cand: Candidate, reply: Reply, r: FillResult)
    requires BooksOneOf(w.ex, OrderId(c, cand.ticker), cand.ticker, cand.size, cand.price, reply, r)
    requires !FilledUnder(w.ex.orders, OrderId(c, cand.ticker)) && !HasFill(w.ex.orders, cand.ticker)
    ensures Contracts(Opened(cand.ticker, r)) == HeldCount(Sent(c, w, cand, reply).ex.orders, cand.ticker)
  {
    HeldPositive(w.ex.orders, cand.ticker);
    HeldAppend(w.ex.orders, FillFor(c, cand, reply), cand.ticker);
  }

  lemma SentTradesOutside(c: Ctx, w: Walk, cand: Candidate, reply: Reply)
    requires cand.ticker !in w.have
    ensures TradesOutside(w, Sent(c, w, cand, reply))
  {}

  lemma OneMoreHolds(ps: seq<Position>, p: Position, os: seq<Order>)
    requires HoldsAll(ps, os) && Contracts(p) == HeldCount(os, p.ticker)
    ensures HoldsAll(ps + [p], os)
  {}

  /** The book can account for everything the account holds: what is open carries it all. */
  ghost predicate Carried(w: Walk) {
    HoldsAll(w.positions, w.ex.orders) && (Known(w) || w.dead)
  }

  lemma SendHolds(c: Ctx, w: Walk, cand: Candidate, reply: Reply, prefix: string, universe: set<Ticker>)
    requires Known(w) && OrdersFrom(w.ex.orders, prefix, universe) && Separable(universe) && cand.size >= 1
    requires c.env.cfg.orderIdPrefix == prefix && cand.ticker in universe && !c.env.dryRun
    requires cand.ticker !in w.have && !Closed(w.ex.settlements, cand.ticker)
    requires HoldsAll(w.positions, w.ex.orders) && Tickers(w.positions) <= w.have
    ensures HoldsAll(Send(c, w, cand, reply).positions, Send(c, w, cand, reply).ex.orders)
  {
    var v, sent := Send(c, w, cand, reply), Sent(c, w, cand, reply);
    SentTradesOutside(c, w, cand, reply);
    StillHolds(w.positions, w, sent);
    SendCases(c, w, cand, reply);
    if BooksFill(c, w, cand, reply, v) {
      var r :| BooksOneOf(w.ex, OrderId(c, cand.ticker), cand.ticker, cand.size, cand.price, reply, r)
               && v == Record(sent, cand.ticker, r);
      KnownIsFresh(w, cand.ticker, c.env.Epoch(), prefix, universe);
      BookedHoldsItsFill(c, w, cand, reply, r);
      OneMoreHolds(w.positions, Opened(cand.ticker, r), sent.ex.orders);
    }
  }

  lemma SendCarries(c: Ctx, w: Walk, cand: Candidate, reply: Reply, prefix: string, universe: set<Ticker>)
    requires Known(w) && OrdersFrom(w.ex.orders, prefix, universe) && Separable(universe) && cand.size >= 1
    requires c.env.cfg.orderIdPrefix == prefix && cand.ticker in universe
    requires cand.ticker !in w.have && !Closed(w.ex.settlements, cand.ticker)
    requires HoldsAll(w.positions, w.ex.orders) && Tickers(w.positions) <= w.have
    ensures Carried(Send(c, w, cand, reply))
  {
    SendKnows(c, w, cand, reply);
    if !c.env.dryRun {
      SendHolds(c, w, cand, reply, prefix, universe);
    }
  }

  lemma StepHolds(c: Ctx, w: Walk, q: Quote, prefix: string, universe: set<Ticker>)
    requires Known(w) && OrdersFrom(w.ex.orders, prefix, universe) && Separable(universe)
    requires c.env.cfg.orderIdPrefix == prefix && q.market.ticker in universe
    requires HoldsAll(w.positions, w.ex.orders) && Tickers(w.positions) <= w.have
    ensures Carried(Step(c, w, q))
  {
    var w1 := w.(killFile := w.killFile || q.operatorKills);
    if !(w.dead || Closed(w.ex.settlements, q.market.ticker)) && Decide(c, w1, q.market).Some? {
      DecideFacts(c, w1, q.market);
      SendCarries(c, w1, Decide(c, w1, q.market).value, q.reply, prefix, universe);
    }
  }

  lemma {:induction false} WalkHolds(c: Ctx, w: Walk, qs: seq<Quote>, funds: int, prefix: string, universe: set<Ticker>)
    requires WalkOk(w, funds, prefix, universe) && Known(w) && Separable(universe)
    requires c.env.cfg.orderIdPrefix == prefix && QuotesIn(qs, universe)
    requires HoldsAll(w.positions, w.ex.orders)
    ensures Carried(WalkAll(c, w, qs))
  {
    if qs == [] {
    } else {
      var init := qs[..|qs| - 1];
      assert QuotesIn(init, universe);
      WalkHolds(c, w, init, funds, prefix, universe);
      WalkKeeps(c, w, init, funds, prefix, universe);
      var v := WalkAll(c, w, init);
      if v.dead {
        DeadStep(c, v, qs[|qs| - 1]);
      } else {
        StepHolds(c, v, qs[|qs| - 1], prefix, universe);
      }
    }
  }

  lemma ReconciledHolds(env: Env, w: World)
    requires DistinctTickers(w.disk) && CollateralWhole(w.disk) && HoldsAll(w.disk, w.ex.orders)
    ensures HoldsAll(Reconciled(env, w), w.ex.orders)
    ensures Tickers(w.disk) <= Tickers(Reconciled(env, w))
  {
    var ps := Reconciled(env, w);
    ReconciledShape(env, w);
    forall i | 0 <= i < |ps| && ps[i].status.Open? && ps[i].price.Some?
      ensures Contracts(ps[i]) == HeldCount(w.ex.orders, ps[i].ticker)
    {
      assert ps[i] == Healed(SettleOne(w.disk[i], SettlementRows(env, w), env.settleDay));
    }
    forall t | t in Tickers(w.disk) ensures t in Tickers(ps) {
      var i :| 0 <= i < |w.disk| && w.disk[i].ticker == t;
      assert ps[i].ticker == t;
    }
  }

  lemma TickHolds(env: Env, w: World, prefix: string, universe: set<Ticker>)
    requires WorldOk(w, prefix, universe) && EnvOk(env, prefix, universe) && Separable(universe) && env.positionsRead
    requires HoldsAll(w.disk, w.ex.orders)
    ensures HoldsAll(Tick(env, w).0.disk, Tick(env, w).0.ex.orders)
  {
    var ps := Reconciled(env, w);
    var s := StartWalk(env, w, ps);
    ReconciledHolds(env, w);
    StartKeeps(env, w, prefix, universe);
    ReadingPositionsMakesKnown(env, w);
    WalkHolds(CtxOf(env, w, ps), s, Flatten(env.listings), w.funds, prefix, universe);
    TickTradesOutside(env, w);
    StillHolds(w.disk, s, EndWalk(env, w));
  }

  lemma EventHolds(w: World, e: Event, prefix: string, universe: set<Ticker>)
    requires WorldOk(w, prefix, universe) && Separable(universe) && HoldsAll(w.disk, w.ex.orders)
    requires e.TickEvent? ==> EnvOk(e.env, prefix, universe) && e.env.positionsRead
    ensures HoldsAll(Apply(w, e).disk, Apply(w, e).ex.orders)
  {
    if e.TickEvent? {
      TickHolds(e.env, w, prefix, universe);
    }
  }

  lemma {:induction false} RunHolds(w: World, es: seq<Event>, prefix: string, universe: set<Ticker>)
    requires WorldOk(w, prefix, universe) && EventsOk(es, prefix, universe) && Separable(universe)
    requires AllReadPositions(es) && HoldsAll(w.disk, w.ex.orders)
    ensures HoldsAll(Run(w, es).disk, Run(w, es).ex.orders)
  {
    if es == [] {
    } else {
      var init, e := es[..|es| - 1], es[|es| - 1];
      assert forall i :: 0 <= i < |init| ==> init[i] == es[i];
      assert EventsOk(init, prefix, universe) && AllReadPositions(init);
      RunHolds(w, init, prefix, universe);
      RunKeeps(w, init, prefix, universe);
      EventHolds(Run(w, init), e, prefix, universe);
    }
  }

  /** A tick that completes, having read the settlements, saves nothing open that has resolved. */
  lemma SavedIsReread(env: Env, w: World, prefix: string, universe: set<Ticker>)
    requires WorldOk(w, prefix, universe) && env.settlementsRead && Completes(env, w)
    ensures Reread(Tick(env, w).0.disk, Tick(env, w).0.ex.settlements)
  {
    var ps, e := Reconciled(env, w), EndWalk(env, w);
    TickOpensOnly(env, w);
    ReconciledShape(env, w);
    forall i | 0 <= i < |e.positions| && e.positions[i].status.Open?
      ensures Lookup(w.ex.settlements, e.positions[i].ticker).None?
    {
      if i < |ps| {
        assert e.positions[i] == ps[i];
        ReconciledIsReread(env, w, i);
      }
    }
  }

  lemma ReconciledIsReread(env: Env, w: World, i: nat)
    requires DistinctTickers(w.disk) && CollateralWhole(w.disk) && CleanSettlements(w.ex.settlements)
    requires env.settlementsRead && i < |Reconciled(env, w)| && Reconciled(env, w)[i].status.Open?
    ensures Lookup(w.ex.settlements, Reconciled(env, w)[i].ticker).None?
  {
    var ps, kept := Reconciled(env, w), Heal(Settle(w.disk, w.ex.settlements, env.settleDay));
    ReconciledShape(env, w);
    if i < |w.disk| {
      assert ps[i] == Healed(SettleOne(w.disk[i], w.ex.settlements, env.settleDay));
      LookupIsClean(w.ex.settlements, w.disk[i].ticker);
    } else {
      var t := ps[i].ticker;
      assert forall j :: 0 <= j < |kept| ==> kept[j].ticker == w.disk[j].ticker && kept[j] == ps[j];
      AdoptKeeps(kept, PositionRows(env, w));
      assert t in Tickers(ps) && t !in Tickers(kept);
      HoldingsShow(w.ex, t);
      NotClosed(w.ex.settlements, t);
    }
  }

  /**
   Every run from an empty account whose ticks read their positions, however often it crashed
   and whatever was adopted, saves - in a tick that also read the settlements - a book to
   which the settlement theorems apply.
   */
  lemma SavedBookSettles(cash: int, es: seq<Event>, env: Env, prefix: string, universe: set<Ticker>)
    requires EventsOk(es, prefix, universe) && EnvOk(env, prefix, universe) && Separable(universe)
    requires AllReadPositions(es) && env.positionsRead && env.settlementsRead
    requires Completes(env, Run(Genesis(cash), es))
    ensures var w := Tick(env, Run(Genesis(cash), es)).0;
      Ready(w.disk, w.ex) && Kept(w.disk)
  {
    var w := Run(Genesis(cash), es);
    GenesisOk(cash, prefix, universe);
    RunKeepsGenesis(cash, es, prefix, universe);
    RunKept(Genesis(cash), es, prefix, universe);
    RunHolds(Genesis(cash), es, prefix, universe);
    TickKeeps(env, w, prefix, universe);
    TickKept(env, w);
    TickHolds(env, w, prefix, universe);
    SavedIsReread(env, w, prefix, universe);
  }
}
