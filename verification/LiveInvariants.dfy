/** What every step of a tick, every tick, and every run keeps. */
module LiveInvariants {
  import opened Options
  import opened Money
  import opened Book
  import opened Reconcile
  import opened Risk
  import opened Discovery
  import opened Exchanges
  import opened Execution
  import opened LiveTick

  // ---------- facts about one decision ----------

  /** Everything the tick checked before it sends an order. */
  lemma DecideFacts(c: Ctx, w: Walk, m: Market)
    requires Decide(c, w, m).Some?
    ensures var cand := Decide(c, w, m).value;
      && cand.ticker == m.ticker && m.ticker !in w.have
      && 0 < cand.price < DOLLAR
      && 1 <= cand.size <= c.env.cfg.maxPerTradeContracts
      && cand.collateral == RoundCents(Locked(cand.price, cand.size))
      && Locked(cand.price, cand.size) <= c.equity - w.deployed
      && !(c.env.envKill || w.killFile)
      && w.open < c.env.cfg.maxOpenPositions
      && UnderDeployedCap(c.env.cfg, Some(c.equity), w.deployed + cand.collateral)
      && w.spent + cand.collateral <= c.balance
      && !UnderlyingFull(c.env.cfg, w.dbu, cand)
  {
    CandidateFacts(c.env.cfg, m, c.env.now, c.equity, w.deployed);
    var native := SizeCandidate(c.env.cfg, m, c.env.now, c.equity, w.deployed).value;
    var cand := Decide(c, w, m).value;
    GateAllowsExactly(c.env.cfg, c.env.envKill || w.killFile, ExposureOf(c, w), cand.size, cand.collateral);
    LockedMonotone(native.price, native.size, native.price, Min(native.size, cand.size));
  }

  /** The clip of a market, cut to the per-trade cap, and what it would lock in whole cents. */
  function CutClip(c: Ctx, m: Market): int
    requires m.bid.Some? && m.bidSize.Some?
  {
    Min(ClipSize(c.env.cfg, c.equity, m.bid.value, m.bidSize.value), c.env.cfg.maxPerTradeContracts)
  }

  function CutCollateral(c: Ctx, m: Market): int
    requires m.bid.Some? && m.bidSize.Some?
  {
    RoundCents((10000 - m.bid.value) * CutClip(c, m))
  }

  /** Every test between a listed market and an order on it, in terms of the market, the config and the figures. */
  predicate MaySell(c: Ctx, w: Walk, m: Market) {
    var cfg := c.env.cfg;
    && m.ticker !in w.have && (c.env.surfaces.Off? || m.oraclePasses)
    && Tradeable(cfg, m, c.env.now)
    && 100 <= (10000 - m.bid.value) * ClipSize(cfg, c.equity, m.bid.value, m.bidSize.value) <= c.equity - w.deployed
    && (cfg.maxUnderlyingCollateral > 0 ==>
          Get(w.dbu, UnderlyingKey(m.ticker)) + CutCollateral(c, m) <= cfg.maxUnderlyingCollateral)
    && !c.env.envKill && !w.killFile
    && 1 <= CutClip(c, m) <= cfg.maxPerTradeContracts && w.open < cfg.maxOpenPositions
    && UnderDeployedCap(cfg, Some(c.equity), w.deployed + CutCollateral(c, m))
    && w.spent + CutCollateral(c, m) <= c.balance
  }

  /** An order goes out exactly when all of them pass; it sells the cut clip at the bid. */
  lemma DecideExactly(c: Ctx, w: Walk, m: Market)
    ensures Decide(c, w, m).Some? <==> MaySell(c, w, m)
    ensures Decide(c, w, m).Some? ==>
      var cand := Decide(c, w, m).value;
      && cand.ticker == m.ticker && cand.price == m.bid.value
      && cand.size == CutClip(c, m) && cand.collateral == CutCollateral(c, m)
  {
    SizedExactly(c.env.cfg, m, c.env.now, c.equity, w.deployed);
    var sized := SizeCandidate(c.env.cfg, m, c.env.now, c.equity, w.deployed);
    if sized.Some? {
      var cand := TrimToCap(sized.value, c.env.cfg.maxPerTradeContracts);
      assert cand.size == CutClip(c, m) && cand.collateral == CutCollateral(c, m);
      GateAllowsExactly(c.env.cfg, c.env.envKill || w.killFile, ExposureOf(c, w), cand.size, cand.collateral);
    }
  }

  // ---------- positions and the ledger ----------

  ghost predicate FormedBy(o: Order, prefix: string) {
    exists e: nat :: o.coid == ClientOrderId(prefix, o.ticker, e)
  }

  /** Tickers that stay apart once stripped of punctuation. */
  ghost predicate Separable(universe: set<Ticker>) {
    forall t, u :: t in universe && u in universe && Clean(t) == Clean(u) ==> t == u
  }

  ghost predicate OrdersFrom(os: seq<Order>, prefix: string, universe: set<Ticker>) {
    forall i :: 0 <= i < |os| ==> os[i].ticker in universe && FormedBy(os[i], prefix)
  }

  ghost predicate WalkOk(w: Walk, funds: int, prefix: string, universe: set<Ticker>) {
    && LedgerOk(w.ex, funds)
    && OrdersFrom(w.ex.orders, prefix, universe)
    && DistinctTickers(w.positions)
    && Tickers(w.positions) <= w.have
    && CollateralWhole(w.positions)
  }

  lemma RecordKeeps(w: Walk, ticker: Ticker, r: FillResult)
    requires DistinctTickers(w.positions) && CollateralWhole(w.positions)
    requires ticker !in Tickers(w.positions)
    ensures var p := Record(w, ticker, r).positions;
      DistinctTickers(p) && CollateralWhole(p) && Tickers(p) == Tickers(w.positions) + {ticker}
  {
    var p := Opened(ticker, r);
    TickersAppend(w.positions, p);
    forall i | 0 <= i < |w.positions| ensures w.positions[i].ticker != ticker {
      assert w.positions[i].ticker in Tickers(w.positions);
    }
  }

  lemma SubmitKeepsOrigin(ex: Exchange, ticker: Ticker, count: int, limit: int, epoch: nat, reply: Reply,
                          prefix: string, universe: set<Ticker>)
    requires OrdersFrom(ex.orders, prefix, universe) && ticker in universe
    ensures OrdersFrom(Submit(ex, ClientOrderId(prefix, ticker, epoch), ticker, count, limit, reply).orders, prefix,
                       universe)
  {
    var after := Submit(ex, ClientOrderId(prefix, ticker, epoch), ticker, count, limit, reply);
    forall i | 0 <= i < |after.orders|
      ensures after.orders[i].ticker in universe && FormedBy(after.orders[i], prefix)
    {
      if i < |ex.orders| {
        assert after.orders[i] == ex.orders[i];
      } else {
        assert after.orders[i].coid == ClientOrderId(prefix, after.orders[i].ticker, epoch);
      }
    }
  }

  lemma SentKeeps(c: Ctx, w: Walk, cand: Candidate, reply: Reply, funds: int, prefix: string, universe: set<Ticker>)
    requires WalkOk(w, funds, prefix, universe)
    requires cand.ticker in universe && c.env.cfg.orderIdPrefix == prefix && !Closed(w.ex.settlements, cand.ticker)
    ensures WalkOk(Sent(c, w, cand, reply), funds, prefix, universe)
  {
    SubmitKeepsLedger(w.ex, funds, OrderId(c, cand.ticker), cand.ticker, cand.size, cand.price, reply);
    SubmitKeepsOrigin(w.ex, cand.ticker, cand.size, cand.price, c.env.Epoch(), reply, prefix, universe);
  }

  lemma SendKeeps(c: Ctx, w: Walk, cand: Candidate, reply: Reply, funds: int, prefix: string, universe: set<Ticker>)
    requires WalkOk(w, funds, prefix, universe)
    requires cand.ticker !in w.have && cand.ticker in universe && c.env.cfg.orderIdPrefix == prefix
    requires !Closed(w.ex.settlements, cand.ticker)
    ensures WalkOk(Send(c, w, cand, reply), funds, prefix, universe)
  {
    if !c.env.dryRun {
      var v, sent := Send(c, w, cand, reply), Sent(c, w, cand, reply);
      SentKeeps(c, w, cand, reply, funds, prefix, universe);
      SendEnds(c, w, cand, reply);
      if Books(sent, cand.ticker, v) {
        var r :| v == Record(sent, cand.ticker, r);
        RecordKeeps(sent, cand.ticker, r);
      }
    }
  }

  lemma StepKeeps(c: Ctx, w: Walk, q: Quote, funds: int, prefix: string, universe: set<Ticker>)
    requires WalkOk(w, funds, prefix, universe)
    requires q.market.ticker in universe && c.env.cfg.orderIdPrefix == prefix
    ensures WalkOk(Step(c, w, q), funds, prefix, universe)
  {
    var w1 := w.(killFile := w.killFile || q.operatorKills);
    if !(w.dead || Closed(w.ex.settlements, q.market.ticker)) && Decide(c, w1, q.market).Some? {
      DecideFacts(c, w1, q.market);
      SendKeeps(c, w1, Decide(c, w1, q.market).value, q.reply, funds, prefix, universe);
    }
  }

  ghost predicate QuotesIn(qs: seq<Quote>, universe: set<Ticker>) {
    forall i :: 0 <= i < |qs| ==> qs[i].market.ticker in universe
  }

  lemma {:induction false} WalkKeeps(c: Ctx, w: Walk, qs: seq<Quote>, funds: int, prefix: string, universe: set<Ticker>)
    requires WalkOk(w, funds, prefix, universe)
    requires QuotesIn(qs, universe) && c.env.cfg.orderIdPrefix == prefix
    ensures WalkOk(WalkAll(c, w, qs), funds, prefix, universe)
  {
    if qs == [] {
    } else {
      var init := qs[..|qs| - 1];
      assert QuotesIn(init, universe);
      WalkKeeps(c, w, init, funds, prefix, universe);
      StepKeeps(c, WalkAll(c, w, init), qs[|qs| - 1], funds, prefix, universe);
    }
  }

  // ---------- worlds ----------

  /** The invariant of the persisted world. */
  ghost predicate WorldOk(w: World, prefix: string, universe: set<Ticker>) {
    && LedgerOk(w.ex, w.funds)
    && OrdersFrom(w.ex.orders, prefix, universe)
    && DistinctTickers(w.disk)
    && CollateralWhole(w.disk)
  }

  ghost predicate EnvOk(env: Env, prefix: string, universe: set<Ticker>) {
    env.cfg.orderIdPrefix == prefix && QuotesIn(Flatten(env.listings), universe)
  }

  lemma GenesisOk(cash: int, prefix: string, universe: set<Ticker>)
    ensures WorldOk(Genesis(cash), prefix, universe)
  {}

  /** Reconciliation only rewrites settlement fields in place and appends orphans. */
  lemma ReconciledShape(env: Env, w: World)
    requires DistinctTickers(w.disk) && CollateralWhole(w.disk)
    ensures var ps := Reconciled(env, w);
      && |w.disk| <= |ps| && DistinctTickers(ps) && CollateralWhole(ps)
      && (forall i :: 0 <= i < |w.disk| ==>
            ps[i] == Healed(SettleOne(w.disk[i], SettlementRows(env, w), env.settleDay)))
      && (forall i :: |w.disk| <= i < |ps| ==> ps[i].price.None? && ps[i].status.Open?)
  {
    var kept := Heal(Settle(w.disk, SettlementRows(env, w), env.settleDay));
    KeptShape(w.disk, SettlementRows(env, w), env.settleDay);
    AdoptedShape(kept, PositionRows(env, w));
  }

  lemma KeptShape(ps: seq<Position>, ss: seq<Settlement>, day: int)
    requires DistinctTickers(ps) && CollateralWhole(ps)
    ensures var kept := Heal(Settle(ps, ss, day));
      && |kept| == |ps| && DistinctTickers(kept) && CollateralWhole(kept)
      && forall i :: 0 <= i < |ps| ==> kept[i] == Healed(SettleOne(ps[i], ss, day))
  {
    var kept := Heal(Settle(ps, ss, day));
    assert forall i :: 0 <= i < |kept| ==>
      kept[i].ticker == ps[i].ticker && kept[i].collateral == ps[i].collateral;
  }

  lemma AdoptedShape(ps: seq<Position>, hs: seq<Holding>)
    requires DistinctTickers(ps) && CollateralWhole(ps)
    ensures var all := Adopt(ps, hs);
      && ps <= all && DistinctTickers(all) && CollateralWhole(all)
      && forall i :: |ps| <= i < |all| ==> all[i].price.None? && all[i].status.Open?
  {
    AdoptedOrphans(ps, hs);
    AdoptKeeps(ps, hs);
    AppendedIsWhole(ps, Adopt(ps, hs));
  }

  lemma AppendedIsWhole(ps: seq<Position>, all: seq<Position>)
    requires ps <= all && CollateralWhole(ps)
    requires forall i :: |ps| <= i < |all| ==> all[i].collateral.None?
    ensures CollateralWhole(all)
  {
    forall i | 0 <= i < |all| ensures WholeCents(all[i].collateral.GetOr(0)) {
      if i < |ps| {
        assert all[i] == ps[i];
      }
    }
  }

  lemma {:induction false} AdoptedOrphans(ps: seq<Position>, hs: seq<Holding>)
    ensures ps <= Adopt(ps, hs)
    ensures forall i :: |ps| <= i < |Adopt(ps, hs)| ==>
      Adopt(ps, hs)[i].price.None? && Adopt(ps, hs)[i].status.Open? && Adopt(ps, hs)[i].collateral.None?
  {
    if hs == [] {
    } else {
      AdoptedOrphans(ps, hs[..|hs| - 1]);
    }
  }

  /** The walk of a tick starts, and hence stays, inside the invariant. */
  lemma StartKeeps(env: Env, w: World, prefix: string, universe: set<Ticker>)
    requires WorldOk(w, prefix, universe)
    ensures WalkOk(StartWalk(env, w, Reconciled(env, w)), w.funds, prefix, universe)
  {
    ReconciledShape(env, w);
  }

  lemma TickKeeps(env: Env, w: World, prefix: string, universe: set<Ticker>)
    requires WorldOk(w, prefix, universe) && EnvOk(env, prefix, universe)
    ensures WalkOk(EndWalk(env, w), w.funds, prefix, universe)
    ensures WorldOk(Tick(env, w).0, prefix, universe)
  {
    var ps := Reconciled(env, w);
    StartKeeps(env, w, prefix, universe);
    WalkKeeps(CtxOf(env, w, ps), StartWalk(env, w, ps), Flatten(env.listings), w.funds, prefix, universe);
  }

  ghost predicate EventsOk(es: seq<Event>, prefix: string, universe: set<Ticker>) {
    forall i :: 0 <= i < |es| && es[i].TickEvent? ==> EnvOk(es[i].env, prefix, universe)
  }

  lemma EventKeeps(w: World, e: Event, prefix: string, universe: set<Ticker>)
    requires WorldOk(w, prefix, universe) && (e.TickEvent? ==> EnvOk(e.env, prefix, universe))
    ensures WorldOk(Apply(w, e), prefix, universe)
  {
    match e
    case TickEvent(env) => TickKeeps(env, w, prefix, universe);
    case ResolveEvent(t, result) => ResolveKeepsLedger(w.ex, w.funds, t, result);
    case _ =>
  }

  /**
   Safety over whole runs, whatever is lost, delayed or killed: no ticker is ever recorded
   twice, each client order id is accepted at most once, and cash is exactly the funds paid
   in less what the accepted orders have cost.
   */
  lemma {:induction false} RunKeeps(w: World, es: seq<Event>, prefix: string, universe: set<Ticker>)
    requires WorldOk(w, prefix, universe) && EventsOk(es, prefix, universe)
    ensures WorldOk(Run(w, es), prefix, universe)
  {
    if es == [] {
    } else {
      var init, e := es[..|es| - 1], es[|es| - 1];
      assert forall i :: 0 <= i < |init| ==> init[i] == es[i];
      RunKeeps(w, init, prefix, universe);
      EventKeeps(Run(w, init), e, prefix, universe);
    }
  }

  /** In particular from an empty account. */
  lemma RunKeepsGenesis(cash: int, es: seq<Event>, prefix: string, universe: set<Ticker>)
    requires EventsOk(es, prefix, universe)
    ensures WorldOk(Run(Genesis(cash), es), prefix, universe)
  {
    GenesisOk(cash, prefix, universe);
    RunKeeps(Genesis(cash), es, prefix, universe);
  }
}
