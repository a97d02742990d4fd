/** Equity is conserved: cash plus collateral is explained, to the fee, by the booked P&L. */
module LiveEquity {
  import opened Options
  import opened Money
  import opened Book
  import opened Reconcile
  import opened Discovery
  import opened Exchanges
  import opened Execution
  import opened LiveTick
  import opened LiveInvariants
  import opened LiveCaps

  // ---------- the book against the ledger ----------

  /** The orders that traded, oldest first. */
  function Fills(os: seq<Order>): seq<Order> {
    if os == [] then []
    else Fills(os[..|os| - 1]) + if os[|os| - 1].filled > 0 then [os[|os| - 1]] else []
  }

  /** The record of a fill; the fee may be the formula's where the exchange showed none. */
  ghost predicate Records(p: Position, o: Order) {
    && p.ticker == o.ticker && p.price == Some(o.price) && Contracts(p) == o.filled
    && p.collateral == Some(RoundCents(Locked(o.price, o.filled)))
  }

  /** The record carries the market's outcome and canonical P&L. */
  ghost predicate SettledRight(p: Position, ss: seq<Settlement>) {
    Lookup(ss, p.ticker).Some? && p.price.Some?
    && var s := Lookup(ss, p.ticker).value;
       s.result.Some? && p.result == s.result
       && p.pnl == Some(NetPnl(p.price.value, Contracts(p), p.fee, s.result.value))
  }

  /** Nothing traded is missing from the book, in order; settled records are right. */
  ghost predicate Complete(ps: seq<Position>, ex: Exchange) {
    var fs := Fills(ex.orders);
    && |ps| == |fs|
    && forall i :: 0 <= i < |ps| ==>
         Records(ps[i], fs[i]) && (ps[i].status.Settled? ==> SettledRight(ps[i], ex.settlements))
  }

  /** Moreover every settled market is settled in the book. */
  ghost predicate Current(ps: seq<Position>, ss: seq<Settlement>) {
    forall i :: 0 <= i < |ps| ==> (ps[i].status.Open? <==> Lookup(ss, ps[i].ticker).None?)
  }

  // ---------- folds ----------

  function OpenLocked(ps: seq<Position>): int {
    if ps == [] then 0
    else
      var p := ps[|ps| - 1];
      OpenLocked(ps[..|ps| - 1]) + if p.status.Open? then Locked(p.price.GetOr(DOLLAR), Contracts(p)) else 0
  }

  function OpenFees(ps: seq<Position>): int {
    if ps == [] then 0
    else OpenFees(ps[..|ps| - 1]) + if ps[|ps| - 1].status.Open? then ps[|ps| - 1].fee else 0
  }

  /** Fees as booked, over the whole book. */
  function BookedFees(ps: seq<Position>): int {
    if ps == [] then 0 else BookedFees(ps[..|ps| - 1]) + ps[|ps| - 1].fee
  }

  /** Fees as the exchange charged them. */
  function ChargedFees(os: seq<Order>): int {
    if os == [] then 0 else ChargedFees(os[..|os| - 1]) + os[|os| - 1].fee
  }

  /** What the book overstates the fees by: nothing, when every fee was shown. */
  function FeeGap(ps: seq<Position>, ex: Exchange): int {
    BookedFees(ps) - ChargedFees(Fills(ex.orders))
  }

  lemma {:induction false} ShownFeesLeaveNoGap(ps: seq<Position>, fs: seq<Order>)
    requires |ps| == |fs| && forall i :: 0 <= i < |ps| ==> ps[i].fee == fs[i].fee
    ensures BookedFees(ps) == ChargedFees(fs)
  {
    if ps == [] {
    } else {
      ShownFeesLeaveNoGap(ps[..|ps| - 1], fs[..|fs| - 1]);
    }
  }

  lemma {:induction false} OutflowsOfFills(os: seq<Order>, ss: seq<Settlement>)
    requires forall i :: 0 <= i < |os| ==> OrderOk(os[i])
    ensures Outflows(os, ss) == Outflows(Fills(os), ss)
  {
    if os == [] {
    } else {
      var init, o := os[..|os| - 1], os[|os| - 1];
      OutflowsOfFills(init, ss);
      if o.filled > 0 {
        OutflowsAppend(Fills(init), o, ss);
      } else {
        UnfilledCostsNothing(o, ss);
        assert Fills(os) == Fills(init);
      }
    }
  }

  lemma UnfilledCostsNothing(o: Order, ss: seq<Settlement>)
    requires o.filled == 0 && o.fee == 0
    ensures Outflow(o, ss) == 0
  {
    assert Locked(o.price, 0) == 0;
  }

  /** Order by order, the ledger's outflow is the book's collateral, fee and P&L. */
  lemma {:induction false} OutflowsOfBook(ps: seq<Position>, fs: seq<Order>, ss: seq<Settlement>)
    requires |ps| == |fs| && CleanSettlements(ss)
    requires forall i :: 0 <= i < |ps| ==>
      && Records(ps[i], fs[i]) && (ps[i].status.Settled? ==> SettledRight(ps[i], ss))
      && (ps[i].status.Open? ==> Lookup(ss, ps[i].ticker).None?)
    ensures Outflows(fs, ss) == OpenLocked(ps) + OpenFees(ps) - Realized(ps) - (BookedFees(ps) - ChargedFees(fs))
  {
    if ps == [] {
    } else {
      OutflowsOfBook(ps[..|ps| - 1], fs[..|fs| - 1], ss);
    }
  }

  /**
   Cash plus the collateral still locked equals the funds paid in plus settled P&L minus the
   fees of the open positions, up to what the booked fees differ from those charged.
   */
  ghost predicate Balanced(ps: seq<Position>, ex: Exchange, funds: int) {
    ex.cash + OpenLocked(ps) == funds + Realized(ps) - OpenFees(ps) + FeeGap(ps, ex)
  }

  /** The accounting identity of a complete, current book. */
  lemma BookBalances(ps: seq<Position>, ex: Exchange, funds: int)
    requires LedgerOk(ex, funds) && Complete(ps, ex) && Current(ps, ex.settlements)
    ensures Balanced(ps, ex, funds)
  {
    OutflowsOfFills(ex.orders, ex.settlements);
    OutflowsOfBook(ps, Fills(ex.orders), ex.settlements);
  }

  ghost predicate WholePrices(ps: seq<Position>) {
    forall i :: 0 <= i < |ps| && ps[i].status.Open? ==> WholeCents(ps[i].price.GetOr(0))
  }

  /** Booked collateral is within half a cent per open position, and exact at whole-cent prices. */
  lemma {:induction false} BookedCollateral(ps: seq<Position>, fs: seq<Order>)
    requires |ps| == |fs| && forall i :: 0 <= i < |ps| ==> Records(ps[i], fs[i])
    ensures -CENT * OpenCount(ps) <= 2 * (Deployed(ps) - OpenLocked(ps)) <= CENT * OpenCount(ps)
    ensures WholePrices(ps) ==> Deployed(ps) == OpenLocked(ps)
  {
    if ps == [] {
    } else {
      var init, p := ps[..|ps| - 1], ps[|ps| - 1];
      BookedCollateral(init, fs[..|fs| - 1]);
      assert Records(p, fs[|fs| - 1]);
      if WholePrices(ps) {
        assert forall i :: 0 <= i < |init| ==> init[i] == ps[i];
        if p.status.Open? {
          LockedWhole(p.price.value, Contracts(p));
        }
      }
    }
  }

  // ---------- reconciling a complete book ----------

  lemma {:induction false} FillsIn(os: seq<Order>, o: Order)
    ensures o in Fills(os) <==> o in os && o.filled > 0
  {
    if os == [] {
    } else {
      FillsIn(os[..|os| - 1], o);
      assert os == os[..|os| - 1] + [os[|os| - 1]];
    }
  }

  predicate OnMarket(os: seq<Order>, t: Ticker) {
    exists i :: 0 <= i < |os| && os[i].ticker == t
  }

  lemma FillsAre(os: seq<Order>, t: Ticker)
    ensures HasFill(os, t) <==> OnMarket(Fills(os), t)
  {
    if HasFill(os, t) {
      var i :| 0 <= i < |os| && os[i].ticker == t && os[i].filled > 0;
      FillsIn(os, os[i]);
    }
    if i :| 0 <= i < |Fills(os)| && Fills(os)[i].ticker == t {
      FillsIn(os, Fills(os)[i]);
    }
  }

  lemma SameMarkets(ps: seq<Position>, os: seq<Order>, t: Ticker)
    requires |ps| == |os| && forall i :: 0 <= i < |ps| ==> ps[i].ticker == os[i].ticker
    ensures t in Tickers(ps) <==> OnMarket(os, t)
  {
    if OnMarket(os, t) {
      var i :| 0 <= i < |os| && os[i].ticker == t;
      assert ps[i].ticker in Tickers(ps);
    }
  }

  /** A complete book knows every market that ever traded. */
  lemma CompleteKnows(ps: seq<Position>, ex: Exchange, t: Ticker)
    requires Complete(ps, ex)
    ensures HasFill(ex.orders, t) <==> t in Tickers(ps)
  {
    forall i | 0 <= i < |ps| ensures ps[i].ticker == Fills(ex.orders)[i].ticker {
      assert Records(ps[i], Fills(ex.orders)[i]);
    }
    FillsAre(ex.orders, t);
    SameMarkets(ps, Fills(ex.orders), t);
  }

  lemma {:induction false} NothingToAdopt(ps: seq<Position>, hs: seq<Holding>)
    requires forall i :: 0 <= i < |hs| ==> hs[i].ticker in Tickers(ps)
    ensures Adopt(ps, hs) == ps
  {
    if hs == [] {
    } else {
      NothingToAdopt(ps, hs[..|hs| - 1]);
    }
  }

  /** Reconciling a complete book adopts and heals nothing; with settlements read it becomes current. */
  lemma ReconcileComplete(env: Env, w: World)
    requires LedgerOk(w.ex, w.funds) && Complete(w.disk, w.ex)
    ensures Complete(Reconciled(env, w), w.ex)
    ensures env.settlementsRead ==> Current(Reconciled(env, w), w.ex.settlements)
  {
    var ss := SettlementRows(env, w);
    var settled := Settle(w.disk, ss, env.settleDay);
    var fs := Fills(w.ex.orders);
    forall i | 0 <= i < |w.disk|
      ensures Records(settled[i], fs[i]) && (settled[i].status.Settled? ==> SettledRight(settled[i], w.ex.settlements))
      ensures Healed(settled[i]) == settled[i]
      ensures env.settlementsRead ==> (settled[i].status.Open? <==> Lookup(w.ex.settlements, settled[i].ticker).None?)
    {
      SettleOneRight(w.disk[i], fs[i], ss, w.ex.settlements, env.settleDay);
      FillsAre(w.ex.orders, fs[i].ticker);
    }
    assert Heal(settled) == settled;
    forall i | 0 <= i < |PositionRows(env, w)|
      ensures PositionRows(env, w)[i].ticker in Tickers(settled)
    {
      var t := PositionRows(env, w)[i].ticker;
      assert t in HeldTickers(w.ex.orders, w.ex.settlements);
      HeldTickersAre(w.ex.orders, w.ex.settlements, t);
      assert Complete(settled, w.ex);
      CompleteKnows(settled, w.ex, t);
    }
    NothingToAdopt(settled, PositionRows(env, w));
  }

  lemma SettleOneRight(p: Position, o: Order, rows: seq<Settlement>, ss: seq<Settlement>, day: int)
    requires Records(p, o) && (p.status.Settled? ==> SettledRight(p, ss))
    requires CleanSettlements(ss) && (rows == [] || rows == ss)
    ensures var q := SettleOne(p, rows, day);
      && Records(q, o) && (q.status.Settled? ==> SettledRight(q, ss))
      && Healed(q) == q
      && (rows == ss ==> (q.status.Open? <==> Lookup(ss, q.ticker).None?))
  {
    if p.ticker != "" {
      LookupClosed(ss, p.ticker);
    } else {
      LookupOfNothing(ss);
    }
  }

  lemma {:induction false} LookupOfNothing(ss: seq<Settlement>)
    ensures Lookup(ss, "").None?
  {
    if ss == [] {
    } else {
      LookupOfNothing(ss[..|ss| - 1]);
    }
  }

  // ---------- ticks that lose nothing ----------

  /** No crash, no escaping exception, and any fill is reported. */
  predicate Orderly(q: Quote) {
    && !q.dies && !q.reply.answer.RateLimited?
    && !(q.reply.answer.Lost? && q.reply.answer.search.SearchRaises?)
    && (q.reply.fill.Some? && q.reply.fill.value.count > 0 ==> HeardInFull(q.reply.answer))
  }

  ghost predicate AllOrderly(qs: seq<Quote>) {
    forall i :: 0 <= i < |qs| ==> Orderly(qs[i])
  }

  lemma CompleteIsKnown(w: Walk)
    requires Complete(w.positions, w.ex) && Tickers(w.positions) <= w.have
    ensures Known(w)
  {
    forall i | 0 <= i < |w.ex.orders| && w.ex.orders[i].filled > 0
      ensures w.ex.orders[i].ticker in w.have
    {
      assert HasFill(w.ex.orders, w.ex.orders[i].ticker);
      CompleteKnows(w.positions, w.ex, w.ex.orders[i].ticker);
    }
  }

  /** An orderly reply books exactly the fill that happened, its fee as shown or by the formula. */
  lemma OrderlyIsHeard(w: Walk, ticker: Ticker, count: int, limit: int, epoch: nat, q: Quote,
                       prefix: string, universe: set<Ticker>)
    requires Known(w) && OrdersFrom(w.ex.orders, prefix, universe) && Separable(universe)
    requires ticker in universe && ticker !in w.have && !Closed(w.ex.settlements, ticker) && ticker != ""
    requires count >= 1 && Orderly(q)
    ensures var coid := ClientOrderId(prefix, ticker, epoch);
      var res := Hear(w.ex, coid, ticker, count, limit, q.reply);
      && res.Some?
      && (IsBooked(res.value) <==>
            Takes(w.ex, coid, ticker, q.reply) && FillOf(coid, ticker, count, limit, q.reply.fill.value).filled > 0)
      && (IsBooked(res.value) ==>
            HeardInFull(q.reply.answer)
            && res.value == Booked(coid, ticker, count, Read(FillOf(coid, ticker, count, limit, q.reply.fill.value),
                                                             ViewOf(q.reply.answer))))
  {
    var coid := ClientOrderId(prefix, ticker, epoch);
    if Takes(w.ex, coid, ticker, q.reply) && FillOf(coid, ticker, count, limit, q.reply.fill.value).filled > 0 {
      FillIsHeard(w.ex, coid, ticker, count, limit, q.reply);
    } else {
      KnownIsFresh(w, ticker, epoch, prefix, universe);
      if Takes(w.ex, coid, ticker, q.reply) {
        TakenIsFound(w.ex, coid, ticker, count, limit, q.reply);
      }
      NoFillIsHeard(w.ex, coid, ticker, count, limit, q.reply);
    }
  }

  lemma RecordStaysComplete(ps: seq<Position>, ex: Exchange, after: Exchange, o: Order, p: Position)
    requires Complete(ps, ex) && o.filled > 0 && Records(p, o) && p.status.Open?
    requires after.orders == ex.orders + [o] && after.settlements == ex.settlements
    ensures Complete(ps + [p], after)
  {
    assert after.orders[..|ex.orders|] == ex.orders;
    assert Fills(after.orders) == Fills(ex.orders) + [o];
  }

  lemma UnfilledStaysComplete(ps: seq<Position>, ex: Exchange, after: Exchange)
    requires Complete(ps, ex) && after.settlements == ex.settlements
    requires after.orders == ex.orders || (exists o: Order :: o.filled == 0 && after.orders == ex.orders + [o])
    ensures Complete(ps, after)
  {
    if after.orders != ex.orders {
      var o: Order :| o.filled == 0 && after.orders == ex.orders + [o];
      assert after.orders[..|ex.orders|] == ex.orders;
      assert Fills(after.orders) == Fills(ex.orders);
    }
  }

  lemma SendStaysComplete(c: Ctx, w: Walk, cand: Candidate, q: Quote, funds: int, prefix: string, universe: set<Ticker>)
    requires WalkOk(w, funds, prefix, universe) && Complete(w.positions, w.ex) && !w.dead && Separable(universe)
    requires c.env.cfg.orderIdPrefix == prefix && cand.ticker in universe && cand.size >= 1 && Orderly(q)
    requires cand.ticker !in w.have && !Closed(w.ex.settlements, cand.ticker) && cand.ticker != ""
    ensures Complete(Send(c, w, cand, q.reply).positions, Send(c, w, cand, q.reply).ex)
    ensures !Send(c, w, cand, q.reply).dead
  {
    if c.env.dryRun { return; }
    var coid := ClientOrderId(prefix, cand.ticker, c.env.Epoch());
    CompleteIsKnown(w);
    OrderlyIsHeard(w, cand.ticker, cand.size, cand.price, c.env.Epoch(), q, prefix, universe);
    var after := Submit(w.ex, coid, cand.ticker, cand.size, cand.price, q.reply);
    var r := Hear(w.ex, coid, cand.ticker, cand.size, cand.price, q.reply).value;
    if IsBooked(r) {
      var o := FillOf(coid, cand.ticker, cand.size, cand.price, q.reply.fill.value);
      RecordStaysComplete(w.positions, w.ex, after, o, Opened(cand.ticker, r));
    } else {
      if Takes(w.ex, coid, cand.ticker, q.reply) {
        var o := FillOf(coid, cand.ticker, cand.size, cand.price, q.reply.fill.value);
        assert o.filled == 0 && after.orders == w.ex.orders + [o];
      }
      UnfilledStaysComplete(w.positions, w.ex, after);
    }
  }

  lemma {:induction false} WalkStaysComplete(c: Ctx, w: Walk, qs: seq<Quote>, funds: int, prefix: string,
                                             universe: set<Ticker>)
    requires WalkOk(w, funds, prefix, universe) && Complete(w.positions, w.ex) && !w.dead && Separable(universe)
    requires c.env.cfg.orderIdPrefix == prefix && QuotesIn(qs, universe) && AllOrderly(qs)
    requires forall i :: 0 <= i < |qs| ==> qs[i].market.ticker != ""
    ensures Complete(WalkAll(c, w, qs).positions, WalkAll(c, w, qs).ex) && !WalkAll(c, w, qs).dead
  {
    if qs == [] {
    } else {
      var init, q := qs[..|qs| - 1], qs[|qs| - 1];
      assert QuotesIn(init, universe) && AllOrderly(init);
      assert forall i :: 0 <= i < |init| ==> init[i] == qs[i];
      WalkStaysComplete(c, w, init, funds, prefix, universe);
      WalkKeeps(c, w, init, funds, prefix, universe);
      var v := WalkAll(c, w, init);
      var v1 := v.(killFile := v.killFile || q.operatorKills);
      if !Closed(v.ex.settlements, q.market.ticker) && Decide(c, v1, q.market).Some? {
        DecideFacts(c, v1, q.market);
        SendStaysComplete(c, v1, Decide(c, v1, q.market).value, q, funds, prefix, universe);
      }
    }
  }

  // ---------- whole runs ----------

  ghost predicate OrderlyEnv(env: Env) {
    env.saved && AllOrderly(Flatten(env.listings))
    && forall i :: 0 <= i < |Flatten(env.listings)| ==> Flatten(env.listings)[i].market.ticker != ""
  }

  /** A tick that loses nothing: orderly, or cut short before any order was accepted. */
  ghost predicate LosesNothing(env: Env, w: World) {
    OrderlyEnv(env) || (!Completes(env, w) && EndWalk(env, w).ex.orders == w.ex.orders)
  }

  ghost predicate RunLosesNothing(w: World, es: seq<Event>) {
    forall i :: 0 <= i < |es| && es[i].TickEvent? ==> LosesNothing(es[i].env, Run(w, es[..i]))
  }

  lemma TickStaysComplete(env: Env, w: World, prefix: string, universe: set<Ticker>)
    requires WorldOk(w, prefix, universe) && EnvOk(env, prefix, universe) && Separable(universe)
    requires Complete(w.disk, w.ex) && OrderlyEnv(env)
    ensures Completes(env, w) && Complete(EndWalk(env, w).positions, EndWalk(env, w).ex)
  {
    var ps := Reconciled(env, w);
    ReconcileComplete(env, w);
    StartKeeps(env, w, prefix, universe);
    WalkStaysComplete(CtxOf(env, w, ps), StartWalk(env, w, ps), Flatten(env.listings), w.funds, prefix, universe);
  }

  lemma EventStaysComplete(w: World, e: Event, prefix: string, universe: set<Ticker>)
    requires WorldOk(w, prefix, universe) && Separable(universe) && Complete(w.disk, w.ex)
    requires e.TickEvent? ==> EnvOk(e.env, prefix, universe) && LosesNothing(e.env, w)
    ensures Complete(Apply(w, e).disk, Apply(w, e).ex)
  {
    match e
    case TickEvent(env) =>
      if OrderlyEnv(env) {
        TickStaysComplete(env, w, prefix, universe);
      } else {
        TickOpensOnly(env, w);
      }
    case ResolveEvent(t, result) =>
      forall i | 0 <= i < |w.disk| && w.disk[i].status.Settled?
        ensures SettledRight(w.disk[i], Apply(w, e).ex.settlements)
      {
        assert SettledRight(w.disk[i], w.ex.settlements);
        ResolveKeepsLookup(w.ex, t, result, w.disk[i].ticker);
      }
    case _ =>
  }

  lemma ResolveKeepsLookup(ex: Exchange, t: Ticker, result: Outcome, u: Ticker)
    requires Lookup(ex.settlements, u).Some?
    ensures Lookup(Resolve(ex, t, result).settlements, u) == Lookup(ex.settlements, u)
  {
    if t != "" && !Closed(ex.settlements, t) {
      LookupClosed(ex.settlements, t);
      var payout := if result.No? then DOLLAR * HeldCount(ex.orders, t) else 0;
      LookupAppend(ex.settlements, Settlement(t, Some(result), Some(payout)), u);
    }
  }

  /** A run that loses nothing keeps the book complete: no orphan ever appears. */
  lemma {:induction false} RunStaysComplete(w: World, es: seq<Event>, prefix: string, universe: set<Ticker>)
    requires WorldOk(w, prefix, universe) && EventsOk(es, prefix, universe) && Separable(universe)
    requires Complete(w.disk, w.ex) && RunLosesNothing(w, es)
    ensures Complete(Run(w, es).disk, Run(w, es).ex)
  {
    if es == [] {
    } else {
      var init, e := es[..|es| - 1], es[|es| - 1];
      assert forall i :: 0 <= i < |init| ==> init[i] == es[i] && init[..i] == es[..i];
      assert EventsOk(init, prefix, universe) && RunLosesNothing(w, init);
      RunStaysComplete(w, init, prefix, universe);
      RunKeeps(w, init, prefix, universe);
      EventStaysComplete(Run(w, init), e, prefix, universe);
    }
  }

  // ---------- the end of a tick ----------

  lemma ReconciledIsCurrent(env: Env, w: World, i: nat)
    requires DistinctTickers(w.disk) && CollateralWhole(w.disk) && CleanSettlements(w.ex.settlements)
    requires env.settlementsRead && i < |Reconciled(env, w)|
    requires Reconciled(env, w)[i].price.Some? && Reconciled(env, w)[i].status.Open?
    ensures Lookup(w.ex.settlements, Reconciled(env, w)[i].ticker).None?
  {
    ReconciledShape(env, w);
    if i < |w.disk| {
      assert Reconciled(env, w)[i] == Healed(SettleOne(w.disk[i], w.ex.settlements, env.settleDay));
      LookupIsClean(w.ex.settlements, w.disk[i].ticker);
    }
  }

  lemma {:induction false} LookupIsClean(ss: seq<Settlement>, t: Ticker)
    requires CleanSettlements(ss)
    ensures Lookup(ss, t).Some? ==> Lookup(ss, t).value.result.Some?
  {
    if ss == [] {
    } else {
      LookupIsClean(ss[..|ss| - 1], t);
    }
  }

  /** A tick that read the settlements ends with a current book, if it ends with a complete one. */
  lemma EndIsCurrent(env: Env, w: World, prefix: string, universe: set<Ticker>)
    requires WorldOk(w, prefix, universe) && env.settlementsRead
    requires Complete(EndWalk(env, w).positions, EndWalk(env, w).ex)
    ensures Current(EndWalk(env, w).positions, EndWalk(env, w).ex.settlements)
  {
    var ps, e := Reconciled(env, w), EndWalk(env, w);
    TickOpensOnly(env, w);
    forall i | 0 <= i < |e.positions|
      ensures e.positions[i].status.Open? <==> Lookup(e.ex.settlements, e.positions[i].ticker).None?
    {
      assert Records(e.positions[i], Fills(e.ex.orders)[i]);
      if i < |ps| {
        assert e.positions[i] == ps[i];
        if ps[i].status.Open? {
          ReconciledIsCurrent(env, w, i);
        }
      }
    }
  }

  /** The start and the end of a tick that loses no fill both balance. */
  lemma TickBalances(env: Env, w: World, prefix: string, universe: set<Ticker>)
    requires WorldOk(w, prefix, universe) && EnvOk(env, prefix, universe) && env.settlementsRead
    requires Complete(w.disk, w.ex) && Complete(EndWalk(env, w).positions, EndWalk(env, w).ex)
    ensures Balanced(Reconciled(env, w), w.ex, w.funds)
    ensures Balanced(EndWalk(env, w).positions, EndWalk(env, w).ex, w.funds)
  {
    ReconcileComplete(env, w);
    BookBalances(Reconciled(env, w), w.ex, w.funds);
    TickKeeps(env, w, prefix, universe);
    EndIsCurrent(env, w, prefix, universe);
    BookBalances(EndWalk(env, w).positions, EndWalk(env, w).ex, w.funds);
  }

  /** Snapshot equity around a balanced book. */
  lemma SnapshotEquity(ps: seq<Position>, ex: Exchange, books: int, placed: nat, settledNow: nat, killed: bool)
    requires Complete(ps, ex) && CollateralWhole(ps) && ex.cash + OpenLocked(ps) == books
    ensures var s := LiveSnapshot(ps, Some(ex.cash), placed, settledNow, killed);
      && s.equity.Some?
      && -CENT * (OpenCount(ps) + 1) <= 2 * (s.equity.value - books) <= CENT * (OpenCount(ps) + 1)
      && (WholePrices(ps) ==> s.equity.value == RoundCents(books))
  {
    BookedCollateral(ps, Fills(ex.orders));
    DeployedWhole(ps);
  }

  /**
   The reported equity is the funds paid in, plus settled P&L, minus the fees of open
   positions (and what the booked fees overstate) - to half a cent per open position and the
   final rounding, exactly when the open prices are whole cents.
   */
  ghost predicate Explains(ps: seq<Position>, ex: Exchange, funds: int, snap: Option<Snapshot>) {
    var books := funds + Realized(ps) - OpenFees(ps) + FeeGap(ps, ex);
    && snap.Some? && snap.value.equity.Some?
    && -CENT * (OpenCount(ps) + 1) <= 2 * (snap.value.equity.value - books) <= CENT * (OpenCount(ps) + 1)
    && (WholePrices(ps) ==> snap.value.equity.value == RoundCents(books))
  }

  lemma {:induction false} UnfilledOutflows(os: seq<Order>, more: seq<Order>, ss: seq<Settlement>)
    requires os <= more && forall i :: |os| <= i < |more| ==> more[i].filled == 0 && more[i].fee == 0
    ensures Outflows(more, ss) == Outflows(os, ss)
  {
    if |os| == |more| {
      assert os == more;
    } else {
      UnfilledOutflows(os, more[..|more| - 1], ss);
      UnfilledCostsNothing(more[|more| - 1], ss);
    }
  }

  /** If nothing was booked and nothing is missing, nothing was filled: the cash has not moved. */
  lemma IdleKeepsCash(s: Walk, e: Walk, funds: int)
    requires LedgerOk(s.ex, funds) && LedgerOk(e.ex, funds)
    requires OnlyOpens(s, e, false) && TradesOutside(s, e) && e.placed == s.placed
    requires s.have == Tickers(s.positions) && Complete(e.positions, e.ex)
    ensures e.ex.cash == s.ex.cash
  {
    assert e.positions == s.positions;
    forall i | |s.ex.orders| <= i < |e.ex.orders| ensures e.ex.orders[i].filled == 0 && e.ex.orders[i].fee == 0 {
      var o := e.ex.orders[i];
      assert OrderOk(o);
      if o.filled > 0 {
        assert HasFill(e.ex.orders, o.ticker);
        CompleteKnows(e.positions, e.ex, o.ticker);
      }
    }
    UnfilledOutflows(s.ex.orders, e.ex.orders, s.ex.settlements);
  }

  lemma {:induction false} DryWalkKeepsExchange(c: Ctx, w: Walk, qs: seq<Quote>)
    requires c.env.dryRun
    ensures WalkAll(c, w, qs).ex == w.ex
  {
    if qs == [] {
    } else {
      DryWalkKeepsExchange(c, w, qs[..|qs| - 1]);
    }
  }

  /** The balance is re-read after the orders, if there were any. */
  predicate RereadsBalance(env: Env, w: World) {
    env.balanceRead && (env.refetched || env.dryRun || EndWalk(env, w).placed == 0)
  }

  /** Then the snapshot's balance is the cash after the last order. */
  lemma BalanceIsFresh(env: Env, w: World, prefix: string, universe: set<Ticker>)
    requires WorldOk(w, prefix, universe) && EnvOk(env, prefix, universe)
    requires RereadsBalance(env, w) && Complete(EndWalk(env, w).positions, EndWalk(env, w).ex)
    ensures ReportedBalance(env, w, EndWalk(env, w)) == Some(EndWalk(env, w).ex.cash)
  {
    var ps, e := Reconciled(env, w), EndWalk(env, w);
    if env.dryRun {
      DryWalkKeepsExchange(CtxOf(env, w, ps), StartWalk(env, w, ps), Flatten(env.listings));
    } else if e.placed == 0 {
      TickKeeps(env, w, prefix, universe);
      TickOpensOnly(env, w);
      TickTradesOutside(env, w);
      IdleKeepsCash(StartWalk(env, w, ps), e, w.funds);
    }
  }

  lemma EndReportsEquity(env: Env, w: World, e: Walk)
    requires Complete(e.positions, e.ex) && CollateralWhole(e.positions)
    requires Balanced(e.positions, e.ex, w.funds)
    requires ReportedBalance(env, w, e) == Some(e.ex.cash)
    ensures Explains(e.positions, e.ex, w.funds, Some(SnapshotOf(env, w, e)))
  {
    SnapshotEquity(e.positions, e.ex, e.ex.cash + OpenLocked(e.positions), e.placed,
                   SettledCount(w.disk, SettlementRows(env, w), env.settleDay), env.envKill || e.killFile);
  }

  /**
   Equity conservation: in any reachable world, a tick that completes without an orphan - its
   book records every fill there ever was - reports the equity the book explains.
   */
  lemma ReportedEquity(env: Env, w: World, prefix: string, universe: set<Ticker>)
    requires WorldOk(w, prefix, universe) && EnvOk(env, prefix, universe)
    requires env.settlementsRead && RereadsBalance(env, w)
    requires Completes(env, w) && Complete(Tick(env, w).0.disk, Tick(env, w).0.ex)
    ensures Explains(Tick(env, w).0.disk, Tick(env, w).0.ex, w.funds, Tick(env, w).1)
  {
    var e := EndWalk(env, w);
    TickKeeps(env, w, prefix, universe);
    EndIsCurrent(env, w, prefix, universe);
    BookBalances(e.positions, e.ex, w.funds);
    BalanceIsFresh(env, w, prefix, universe);
    EndReportsEquity(env, w, e);
  }

  /** Such are all orderly runs, from an empty account on. */
  lemma OrderlyRunReportsEquity(cash: int, es: seq<Event>, env: Env, prefix: string, universe: set<Ticker>)
    requires EventsOk(es, prefix, universe) && EnvOk(env, prefix, universe) && Separable(universe)
    requires RunLosesNothing(Genesis(cash), es) && OrderlyEnv(env)
    requires env.settlementsRead && RereadsBalance(env, Run(Genesis(cash), es))
    ensures var w := Run(Genesis(cash), es);
      Explains(Tick(env, w).0.disk, Tick(env, w).0.ex, w.funds, Tick(env, w).1)
  {
    var w := Run(Genesis(cash), es);
    RunKeepsGenesis(cash, es, prefix, universe);
    GenesisOk(cash, prefix, universe);
    RunStaysComplete(Genesis(cash), es, prefix, universe);
    TickStaysComplete(env, w, prefix, universe);
    ReportedEquity(env, w, prefix, universe);
  }

  /** What the cash gave up between two balanced books: the new collateral, and the fees charged. */
  ghost predicate PaidForOpening(ps: seq<Position>, ex: Exchange, qs: seq<Position>, ex': Exchange) {
    ex.cash - ex'.cash
    == (OpenLocked(qs) + ChargedFees(Fills(ex'.orders))) - (OpenLocked(ps) + ChargedFees(Fills(ex.orders)))
  }

  lemma OpeningIsPaidFor(ps: seq<Position>, ex: Exchange, qs: seq<Position>, ex': Exchange, funds: int)
    requires Balanced(ps, ex, funds) && Balanced(qs, ex', funds)
    requires ps <= qs && forall i :: |ps| <= i < |qs| ==> qs[i].status.Open?
    ensures PaidForOpening(ps, ex, qs, ex')
  {
    OpensBookNothing(ps, qs, 0);
  }

  lemma NewAreOpen(env: Env, w: World)
    ensures Reconciled(env, w) <= EndWalk(env, w).positions
    ensures forall i :: |Reconciled(env, w)| <= i < |EndWalk(env, w).positions| ==>
      EndWalk(env, w).positions[i].status.Open?
  {
    TickOpensOnly(env, w);
    assert forall i :: |Reconciled(env, w)| <= i < |EndWalk(env, w).positions| ==>
      FreshRecord(EndWalk(env, w).positions[i]);
  }

  /**
   Why the balance is re-read: pairing the start-of-tick balance with the fresh collateral
   would overstate equity by exactly the collateral and fees of this tick's fills.
   */
  lemma StaleBalanceInflates(env: Env, w: World, prefix: string, universe: set<Ticker>)
    requires WorldOk(w, prefix, universe) && EnvOk(env, prefix, universe) && env.settlementsRead
    requires Complete(w.disk, w.ex) && Complete(EndWalk(env, w).positions, EndWalk(env, w).ex)
    ensures PaidForOpening(Reconciled(env, w), w.ex, EndWalk(env, w).positions, EndWalk(env, w).ex)
    ensures env.balanceRead && !env.refetched ==> ReportedBalance(env, w, EndWalk(env, w)) == Some(w.ex.cash)
  {
    TickBalances(env, w, prefix, universe);
    NewAreOpen(env, w);
    OpeningIsPaidFor(Reconciled(env, w), w.ex, EndWalk(env, w).positions, EndWalk(env, w).ex, w.funds);
  }

  /** New open records book no P&L, and their fees are open fees. */
  lemma {:induction false} OpensBookNothing(ps: seq<Position>, qs: seq<Position>, day: int)
    requires ps <= qs && forall i :: |ps| <= i < |qs| ==> qs[i].status.Open?
    ensures Realized(qs) == Realized(ps) && RealizedOn(qs, day) == RealizedOn(ps, day)
    ensures BookedFees(qs) - OpenFees(qs) == BookedFees(ps) - OpenFees(ps)
  {
    if |ps| == |qs| {
      assert ps == qs;
    } else {
      OpensBookNothing(ps, qs[..|qs| - 1], day);
    }
  }
}
