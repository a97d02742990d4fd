/**
 One tick of the live harness, and runs of ticks interleaved with the exchange.

 `Tick` is the tick as a function of the persisted world and a script of everything the
 environment decides; `RunOnce` is the tick as the source writes it, and is
 proved to compute exactly that function. The safety theorems are then about `Run`.
 */
module LiveTick {
  import opened Options
  import opened Money
  import opened Config
  import opened Book
  import opened Reconcile
  import opened Risk
  import opened Discovery
  import opened Exchanges
  import opened Execution

  /**
   A market as listed during the tick, with how the exchange would answer an order on it;
   `operatorKills`: the kill file appears just before it is considered;
   `dies`: the process dies right after it was handled.
   */
  datatype Quote = Quote(market: Market, reply: Reply, operatorKills: bool, dies: bool)

  datatype Env = Env(
    cfg: Config,
    now: nat,
    settleDay: int,
    balanceRead: bool,
    positionsRead: bool,
    settlementsRead: bool,
    envKill: bool,
    killWritable: bool,
    surfaces: Surfaces,
    listings: seq<Option<seq<Quote>>>,
    refetched: bool,
    dryRun: bool,
    saved: bool
  ) {
    /** Hourly bucket of the idempotency key. */
    function Epoch(): nat { now / 3600 }
    function Day(): int { now / 86400 }
  }

  /** What is fixed for the whole walk over the markets. */
  datatype Ctx = Ctx(env: Env, equity: int, balance: int, realizedToday: int)

  /** What the walk changes. */
  datatype Walk = Walk(
    ex: Exchange,
    positions: seq<Position>,
    have: set<Ticker>,
    deployed: int,
    spent: int,
    open: nat,
    dbu: map<string, int>,
    placed: nat,
    killFile: bool,
    dead: bool
  )

  function ExposureOf(c: Ctx, w: Walk): Exposure {
    Exposure(w.deployed, w.open, c.realizedToday, Some(c.balance), w.spent, Some(c.equity))
  }

  predicate UnderlyingFull(cfg: Config, dbu: map<string, int>, cand: Candidate) {
    cfg.maxUnderlyingCollateral > 0
    && Get(dbu, UnderlyingKey(cand.ticker)) + cand.collateral > cfg.maxUnderlyingCollateral
  }

  /** The order the tick would send for a market, if any. */
  function Decide(c: Ctx, w: Walk, m: Market): Option<Candidate> {
    if m.ticker in w.have || !Passes(c.env.surfaces, m) then None
    else
      match SizeCandidate(c.env.cfg, m, c.env.now, c.equity, w.deployed)
      case None => None
      case Some(native) =>
        var cand := TrimToCap(native, c.env.cfg.maxPerTradeContracts);
        if UnderlyingFull(c.env.cfg, w.dbu, cand) then None
        else if CheckOrder(c.env.cfg, c.env.envKill || w.killFile, ExposureOf(c, w), cand.size, cand.collateral).Deny?
        then None
        else Some(cand)
  }

  function Opened(ticker: Ticker, r: FillResult): Position {
    Position(ticker, Open, None, Some(r.price), r.filled, r.filled, r.fee,
             Some(RoundCents(Locked(r.price, r.filled))), None, None, Some(r.coid))
  }

  /** Book a fill: append the position and advance every running figure. */
  function Record(w: Walk, ticker: Ticker, r: FillResult): Walk {
    var p := Opened(ticker, r);
    var key := UnderlyingKey(ticker);
    w.(positions := w.positions + [p],
       deployed := w.deployed + p.collateral.value,
       spent := w.spent + p.collateral.value,
       open := w.open + 1,
       dbu := w.dbu[key := Get(w.dbu, key) + p.collateral.value],
       placed := w.placed + 1)
  }

  /** The idempotency key of an order on `ticker` in this tick. */
  function OrderId(c: Ctx, ticker: Ticker): string {
    ClientOrderId(c.env.cfg.orderIdPrefix, ticker, c.env.Epoch())
  }

  function Send(c: Ctx, w: Walk, cand: Candidate, reply: Reply): Walk {
    if c.env.dryRun then w.(have := w.have + {cand.ticker}, placed := w.placed + 1)
    else
      var coid := OrderId(c, cand.ticker);
      var after := w.(ex := Submit(w.ex, coid, cand.ticker, cand.size, cand.price, reply));
      match Hear(w.ex, coid, cand.ticker, cand.size, cand.price, reply)
      case None => after.(dead := true)
      case Some(r) =>
        var known := after.(have := w.have + {cand.ticker});
        if IsBooked(r) then Record(known, cand.ticker, r) else known
  }

  /** The walk right after the order went out, before anything is booked. */
  function Sent(c: Ctx, w: Walk, cand: Candidate, reply: Reply): Walk {
    w.(ex := Submit(w.ex, OrderId(c, cand.ticker), cand.ticker, cand.size, cand.price, reply),
       have := w.have + {cand.ticker})
  }

  /** A fill is booked on top of what was sent. */
  ghost predicate Books(sent: Walk, ticker: Ticker, v: Walk) {
    exists r :: v == Record(sent, ticker, r)
  }

  /** The tick dies, or books nothing, or books a fill. */
  lemma SendEnds(c: Ctx, w: Walk, cand: Candidate, reply: Reply)
    requires !c.env.dryRun
    ensures var v, sent := Send(c, w, cand, reply), Sent(c, w, cand, reply);
      v == sent.(have := w.have, dead := true) || v == sent || Books(sent, cand.ticker, v)
  {
    var res := Hear(w.ex, OrderId(c, cand.ticker), cand.ticker, cand.size, cand.price, reply);
    if res.Some? && IsBooked(res.value) {
      assert Send(c, w, cand, reply) == Record(Sent(c, w, cand, reply), cand.ticker, res.value);
    }
  }

  /** One market of the walk. A settled market is never listed. */
  function Step(c: Ctx, w: Walk, q: Quote): Walk {
    if w.dead || Closed(w.ex.settlements, q.market.ticker) then w
    else
      var w1 := w.(killFile := w.killFile || q.operatorKills);
      var w2 := match Decide(c, w1, q.market) case None => w1 case Some(cand) => Send(c, w1, cand, q.reply);
      w2.(dead := w2.dead || q.dies)
  }

  function WalkAll(c: Ctx, w: Walk, qs: seq<Quote>): Walk {
    if qs == [] then w else Step(c, WalkAll(c, w, qs[..|qs| - 1]), qs[|qs| - 1])
  }

  lemma WalkSnoc(c: Ctx, w: Walk, qs: seq<Quote>, q: Quote)
    ensures WalkAll(c, w, qs + [q]) == Step(c, WalkAll(c, w, qs), q)
  {
    assert (qs + [q])[..|qs|] == qs;
  }

  lemma DeadStep(c: Ctx, w: Walk, q: Quote)
    requires w.dead
    ensures Step(c, w, q) == w
  {}

  /** Nothing happens after the process died. */
  lemma {:induction false} DeadStays(c: Ctx, w: Walk, qs: seq<Quote>, k: nat)
    requires k <= |qs| && WalkAll(c, w, qs[..k]).dead
    ensures WalkAll(c, w, qs) == WalkAll(c, w, qs[..k])
  {
    if k == |qs| {
      assert qs[..k] == qs;
    } else {
      var init := qs[..|qs| - 1];
      assert init[..k] == qs[..k];
      DeadStays(c, w, init, k);
      DeadStep(c, WalkAll(c, w, init), qs[|qs| - 1]);
    }
  }

  // ---------- what a walk leaves alone ----------

  /** An open record as `BookFill` makes it: priced, its collateral rounded to whole cents. */
  ghost predicate FreshRecord(p: Position) {
    p.status.Open? && p.price.Some? && p.collateral == Some(RoundCents(Locked(p.price.value, Contracts(p))))
  }

  /**
   From `a` to `b` no market settled and no record changed; what is new in the book is
   open, booked as `BookFill` does, on an unsettled market, and (outside a dry run) counted
   as placed.
   */
  ghost predicate OnlyOpens(a: Walk, b: Walk, dryRun: bool) {
    && b.ex.settlements == a.ex.settlements
    && a.positions <= b.positions
    && (forall i :: |a.positions| <= i < |b.positions| ==>
          FreshRecord(b.positions[i]) && Lookup(a.ex.settlements, b.positions[i].ticker).None?)
    && (!dryRun ==> |b.positions| - |a.positions| == b.placed - a.placed)
  }

  lemma OnlyOpensTransitive(a: Walk, b: Walk, c: Walk, dryRun: bool)
    requires OnlyOpens(a, b, dryRun) && OnlyOpens(b, c, dryRun)
    ensures OnlyOpens(a, c, dryRun)
  {
    assert forall i :: 0 <= i < |b.positions| ==> c.positions[i] == b.positions[i];
  }

  lemma SendOpensOnly(c: Ctx, w: Walk, cand: Candidate, reply: Reply)
    requires Lookup(w.ex.settlements, cand.ticker).None?
    ensures OnlyOpens(w, Send(c, w, cand, reply), c.env.dryRun)
  {
    if !c.env.dryRun {
      SendEnds(c, w, cand, reply);
    }
  }

  lemma StepOpensOnly(c: Ctx, w: Walk, q: Quote)
    ensures OnlyOpens(w, Step(c, w, q), c.env.dryRun)
  {
    var w1 := w.(killFile := w.killFile || q.operatorKills);
    if !Closed(w.ex.settlements, q.market.ticker) && Decide(c, w1, q.market).Some? {
      NotClosed(w.ex.settlements, q.market.ticker);
      SendOpensOnly(c, w1, Decide(c, w1, q.market).value, q.reply);
    }
  }

  lemma {:induction false} NotClosed(ss: seq<Settlement>, t: Ticker)
    requires !Closed(ss, t)
    ensures Lookup(ss, t).None?
  {
    if ss == [] {
    } else {
      var init := ss[..|ss| - 1];
      assert forall i :: 0 <= i < |init| ==> init[i] == ss[i];
      NotClosed(init, t);
    }
  }

  lemma {:induction false} WalkOpensOnly(c: Ctx, w: Walk, qs: seq<Quote>)
    ensures OnlyOpens(w, WalkAll(c, w, qs), c.env.dryRun)
  {
    if qs == [] {
    } else {
      var v := WalkAll(c, w, qs[..|qs| - 1]);
      WalkOpensOnly(c, w, qs[..|qs| - 1]);
      StepOpensOnly(c, v, qs[|qs| - 1]);
      OnlyOpensTransitive(w, v, Step(c, v, qs[|qs| - 1]), c.env.dryRun);
    }
  }

  /** From `a` to `b` orders were only added, and only on markets unknown at `a`. */
  ghost predicate TradesOutside(a: Walk, b: Walk) {
    && a.ex.orders <= b.ex.orders && a.have <= b.have
    && forall i :: |a.ex.orders| <= i < |b.ex.orders| ==> b.ex.orders[i].ticker !in a.have
  }

  lemma TradesOutsideTransitive(a: Walk, b: Walk, c: Walk)
    requires TradesOutside(a, b) && TradesOutside(b, c)
    ensures TradesOutside(a, c)
  {
    assert forall i :: 0 <= i < |b.ex.orders| ==> c.ex.orders[i] == b.ex.orders[i];
  }

  lemma SendTradesOutside(c: Ctx, w: Walk, cand: Candidate, reply: Reply)
    requires cand.ticker !in w.have
    ensures TradesOutside(w, Send(c, w, cand, reply))
  {
    if !c.env.dryRun {
      SendEnds(c, w, cand, reply);
    }
  }

  lemma StepTradesOutside(c: Ctx, w: Walk, q: Quote)
    ensures TradesOutside(w, Step(c, w, q))
  {
    var w1 := w.(killFile := w.killFile || q.operatorKills);
    if Decide(c, w1, q.market).Some? {
      CandidateFacts(c.env.cfg, q.market, c.env.now, c.equity, w.deployed);
      SendTradesOutside(c, w1, Decide(c, w1, q.market).value, q.reply);
    }
  }

  lemma {:induction false} WalkTradesOutside(c: Ctx, w: Walk, qs: seq<Quote>)
    ensures TradesOutside(w, WalkAll(c, w, qs))
  {
    if qs == [] {
    } else {
      var v := WalkAll(c, w, qs[..|qs| - 1]);
      WalkTradesOutside(c, w, qs[..|qs| - 1]);
      StepTradesOutside(c, v, qs[|qs| - 1]);
      TradesOutsideTransitive(w, v, Step(c, v, qs[|qs| - 1]));
    }
  }

  // ---------- the tick ----------

  datatype World = World(ex: Exchange, disk: seq<Position>, killFile: bool, funds: int)

  /** A failed read leaves its list empty. */
  function SettlementRows(env: Env, w: World): seq<Settlement> {
    if env.settlementsRead then w.ex.settlements else []
  }

  function PositionRows(env: Env, w: World): seq<Holding> {
    if env.positionsRead then Holdings(w.ex) else []
  }

  function Reconciled(env: Env, w: World): seq<Position> {
    Adopt(Heal(Settle(w.disk, SettlementRows(env, w), env.settleDay)), PositionRows(env, w))
  }

  function StartExposure(env: Env, w: World, ps: seq<Position>): Exposure {
    var deployed := Deployed(ps);
    var balance := if env.balanceRead then Some(w.ex.cash) else None;
    Exposure(deployed, OpenCount(ps), RealizedOn(ps, env.Day()), balance, 0,
             if balance.Some? then Some(balance.value + deployed) else None)
  }

  function PretickOf(env: Env, w: World, ps: seq<Position>): Decision {
    Pretick(env.cfg, env.envKill || w.killFile, StartExposure(env, w, ps))
  }

  /** Orders may be placed: gate open, balance known, oracle not failing closed. */
  predicate Trades(env: Env, w: World, ps: seq<Position>) {
    PretickOf(env, w, ps).Allow? && env.balanceRead && !env.surfaces.Unavailable?
  }

  function CtxOf(env: Env, w: World, ps: seq<Position>): Ctx {
    Ctx(env, w.ex.cash + Deployed(ps), w.ex.cash, RealizedOn(ps, env.Day()))
  }

  function StartWalk(env: Env, w: World, ps: seq<Position>): Walk {
    Walk(w.ex, ps, Tickers(ps), Deployed(ps), 0, OpenCount(ps), GroupMap(ps), 0,
         w.killFile || (PretickOf(env, w, ps) == Deny(DailyLoss) && env.killWritable), false)
  }

  function EndWalk(env: Env, w: World): Walk {
    var ps := Reconciled(env, w);
    var start := StartWalk(env, w, ps);
    if Trades(env, w, ps) then WalkAll(CtxOf(env, w, ps), start, Flatten(env.listings)) else start
  }

  /** A tick only settles at its start and only opens afterwards. */
  lemma TickOpensOnly(env: Env, w: World)
    ensures OnlyOpens(StartWalk(env, w, Reconciled(env, w)), EndWalk(env, w), env.dryRun)
  {
    var ps := Reconciled(env, w);
    WalkOpensOnly(CtxOf(env, w, ps), StartWalk(env, w, ps), Flatten(env.listings));
  }

  /** A tick trades only on markets that were not in its book. */
  lemma TickTradesOutside(env: Env, w: World)
    ensures TradesOutside(StartWalk(env, w, Reconciled(env, w)), EndWalk(env, w))
  {
    var ps := Reconciled(env, w);
    WalkTradesOutside(CtxOf(env, w, ps), StartWalk(env, w, ps), Flatten(env.listings));
  }

  /** The balance the snapshot pairs with the fresh collateral: re-read once an order went out. */
  function ReportedBalance(env: Env, w: World, e: Walk): Option<int> {
    if e.placed > 0 && !env.dryRun && env.refetched then Some(e.ex.cash)
    else if env.balanceRead then Some(w.ex.cash) else None
  }

  function SnapshotOf(env: Env, w: World, e: Walk): Snapshot {
    LiveSnapshot(e.positions, ReportedBalance(env, w, e), e.placed,
                 SettledCount(w.disk, SettlementRows(env, w), env.settleDay), env.envKill || e.killFile)
  }

  predicate Completes(env: Env, w: World) {
    !EndWalk(env, w).dead && env.saved
  }

  /** A tick that dies, or fails to save, leaves the disk as it was; the exchange moves on. */
  function Tick(env: Env, w: World): (World, Option<Snapshot>) {
    var e := EndWalk(env, w);
    if Completes(env, w)
    then (World(e.ex, e.positions, e.killFile, w.funds), Some(SnapshotOf(env, w, e)))
    else (World(e.ex, w.disk, e.killFile, w.funds), None)
  }

  // ---------- runs ----------

  datatype Event =
    | TickEvent(env: Env)
    | ResolveEvent(ticker: Ticker, result: Outcome)
    | DepositEvent(amount: int)
    | KillEvent
    | ClearKillEvent

  function Apply(w: World, e: Event): World {
    match e
    case TickEvent(env) => Tick(env, w).0
    case ResolveEvent(t, result) => w.(ex := Resolve(w.ex, t, result))
    case DepositEvent(amount) => w.(ex := w.ex.(cash := w.ex.cash + amount), funds := w.funds + amount)
    case KillEvent => w.(killFile := true)
    case ClearKillEvent => w.(killFile := false)
  }

  function Run(w: World, es: seq<Event>): World {
    if es == [] then w else Apply(Run(w, es[..|es| - 1]), es[|es| - 1])
  }

  /** A fresh account and an empty state file. */
  function Genesis(cash: int): World {
    World(Exchange(cash, [], [], []), [], false, cash)
  }

  // ---------- the tick as the source writes it ----------

  /** Running exposure of a tick; only the first three figures move. */
  class PortfolioRisk {
    var deployedCollateral: int
    var openPositions: nat
    var deployedThisTick: int
    const realizedToday: int
    const availableBalance: Option<int>
    const equity: Option<int>

    constructor (deployed: int, open: nat, realizedToday: int, balance: Option<int>, equity: Option<int>)
      ensures Value() == Exposure(deployed, open, realizedToday, balance, 0, equity)
      ensures this.realizedToday == realizedToday && this.availableBalance == balance && this.equity == equity
    {
      deployedCollateral, openPositions, deployedThisTick := deployed, open, 0;
      this.realizedToday, availableBalance, this.equity := realizedToday, balance, equity;
    }

    function Value(): Exposure
      reads this
    {
      Exposure(deployedCollateral, openPositions, realizedToday, availableBalance, deployedThisTick, equity)
    }
  }

  /** The persisted files: the state file and the kill sentinel. */
  class Store {
    var disk: seq<Position>
    var killFile: bool
  }

  /** The in-memory objects of one tick. */
  class Harness {
    const env: Env
    const store: Store
    const broker: Broker
    const state: LocalState
    const pr: PortfolioRisk
    const executor: Executor
    var have: set<Ticker>
    var dbu: map<string, int>
    var placed: nat

    ghost predicate Valid()
      reads this, store, broker, state, pr, executor
    {
      && executor.broker == broker
      && executor.prefix == env.cfg.orderIdPrefix
      && executor.dryRun == env.dryRun
    }

    constructor (env: Env, store: Store, broker: Broker, state: LocalState, pr: PortfolioRisk, dbu: map<string, int>)
      ensures Valid() && fresh(executor)
      ensures this.env == env && this.store == store && this.broker == broker && this.state == state && this.pr == pr
      ensures have == Tickers(state.positions) && this.dbu == dbu && placed == 0
    {
      this.env, this.store, this.broker, this.state, this.pr := env, store, broker, state, pr;
      executor := new Executor(broker, env.cfg.orderIdPrefix, env.dryRun);
      have, this.dbu, placed := Tickers(state.positions), dbu, 0;
    }

    ghost function Value(dead: bool): Walk
      reads this, store, broker, state, pr
    {
      Walk(broker.ex, state.positions, have, pr.deployedCollateral, pr.deployedThisTick, pr.openPositions, dbu,
           placed, store.killFile, dead)
    }

    ghost predicate Matches(c: Ctx) {
      && c.env == env && pr.realizedToday == c.realizedToday
      && pr.equity == Some(c.equity) && pr.availableBalance == Some(c.balance)
    }

    /** Size, trim, correlation cap, gate: the order to send, if any. */
    method Choose(ghost c: Ctx, m: Market) returns (choice: Option<Candidate>)
      requires Valid() && Matches(c)
      ensures choice == Decide(c, Value(false), m)
    {
      if m.ticker in have || !Passes(env.surfaces, m) {
        return None;
      }
      var native := SizeCandidate(env.cfg, m, env.now, pr.equity.value, pr.deployedCollateral);
      if native.None? {
        return None;
      }
      var cand := TrimToCap(native.value, env.cfg.maxPerTradeContracts);
      if UnderlyingFull(env.cfg, dbu, cand) {
        return None;
      }
      var d := CheckOrder(env.cfg, env.envKill || store.killFile, pr.Value(), cand.size, cand.collateral);
      return if d.Deny? then None else Some(cand);
    }

    /** Append the filled position and advance the running figures. */
    method BookFill(ticker: Ticker, r: FillResult)
      requires Valid()
      modifies this, state, pr
      ensures Valid() && Value(false) == Record(old(Value(false)), ticker, r)
    {
      var collateral := RoundCents(Locked(r.price, r.filled));
      state.positions := state.positions + [Opened(ticker, r)];
      pr.deployedCollateral := pr.deployedCollateral + collateral;
      pr.deployedThisTick := pr.deployedThisTick + collateral;
      pr.openPositions := pr.openPositions + 1;
      dbu := dbu[UnderlyingKey(ticker) := Get(dbu, UnderlyingKey(ticker)) + collateral];
      placed := placed + 1;
    }

    /** Place the order and book what came of it; `dead` if an exception escapes. */
    method Execute(ghost c: Ctx, cand: Candidate, reply: Reply) returns (dead: bool)
      requires Valid() && Matches(c)
      modifies this, broker, state, pr
      ensures Valid() && Value(dead) == Send(c, old(Value(false)), cand, reply)
    {
      var res := executor.PlaceShort(cand.ticker, cand.price, cand.size, env.Epoch(), reply);
      if res.None? {
        return true;
      }
      have := have + {cand.ticker};
      var r := res.value;
      if IsBooked(r) {
        BookFill(cand.ticker, r);
      } else if r.status.DryRun? {
        placed := placed + 1;
      }
      return false;
    }

    /** The body of the market loop. */
    method Consider(ghost c: Ctx, q: Quote) returns (dead: bool)
      requires Valid() && Matches(c)
      modifies this, store, broker, state, pr
      ensures Valid() && Value(dead) == Step(c, old(Value(false)), q)
      ensures store.disk == old(store.disk)
    {
      if Closed(broker.ex.settlements, q.market.ticker) {
        return false;
      }
      if q.operatorKills {
        store.killFile := true;
      }
      dead := false;
      var choice := Choose(c, q.market);
      if choice.Some? {
        dead := Execute(c, choice.value, q.reply);
      }
      dead := dead || q.dies;
    }

    /** The walk stands where `WalkAll` stands after `seen`. */
    ghost predicate At(dead: bool, c: Ctx, start: Walk, seen: seq<Quote>)
      reads this, store, broker, state, pr
    {
      Value(dead) == WalkAll(c, start, seen)
    }

    lemma StepsTo(dead: bool, c: Ctx, start: Walk, seen: seq<Quote>, q: Quote, before: Walk)
      requires before == WalkAll(c, start, seen) && Value(dead) == Step(c, before, q)
      ensures At(dead, c, start, seen + [q])
    {
      WalkSnoc(c, start, seen, q);
    }

    /** One series, market by market; `n` of its markets were considered. */
    method WalkSeries(ghost c: Ctx, quotes: seq<Quote>, ghost start: Walk, ghost seen: seq<Quote>)
      returns (dead: bool, ghost n: nat)
      requires Valid() && Matches(c) && At(false, c, start, seen)
      modifies this, store, broker, state, pr
      ensures n <= |quotes| && (if dead then n > 0 else n == |quotes|)
      ensures Valid() && At(dead, c, start, seen + quotes[..n])
      ensures store.disk == old(store.disk)
    {
      assert seen + quotes[..0] == seen;
      for j := 0 to |quotes|
        invariant Valid() && At(false, c, start, seen + quotes[..j])
        invariant store.disk == old(store.disk)
      {
        ghost var before := Value(false);
        dead := Consider(c, quotes[j]);
        StepsTo(dead, c, start, seen + quotes[..j], quotes[j], before);
        assert seen + quotes[..j + 1] == seen + quotes[..j] + [quotes[j]];
        if dead {
          return true, j + 1;
        }
      }
      return false, |quotes|;
    }

    /** Series by series; an escaping exception ends the walk. */
    method WalkMarkets(ghost c: Ctx, listings: seq<Option<seq<Quote>>>) returns (dead: bool)
      requires Valid() && Matches(c)
      modifies this, store, broker, state, pr
      ensures Valid() && Value(dead) == WalkAll(c, old(Value(false)), Flatten(listings))
      ensures store.disk == old(store.disk)
    {
      ghost var start := Value(false);
      for i := 0 to |listings|
        invariant Valid() && At(false, c, start, Flatten(listings[..i]))
        invariant store.disk == old(store.disk)
      {
        assert listings[..i + 1][..i] == listings[..i];
        ghost var seen := Flatten(listings[..i]);
        assert Flatten(listings[..i + 1]) == seen + listings[i].GetOr([]);
        if listings[i].None? {
          assert seen + [] == seen;
          continue;
        }
        ghost var n;
        dead, n := WalkSeries(c, listings[i].value, start, seen);
        if dead {
          RestIsDead(c, start, listings, i, n);
          return true;
        }
        assert listings[i].value[..n] == listings[i].value;
      }
      assert listings[..|listings|] == listings;
      return false;
    }

    /** Step 3: discover and place, interleaved, if the gate is open and the account is known. */
    method Trade(pre: Decision, ghost w: World) returns (dead: bool)
      requires Valid() && Value(false) == StartWalk(env, w, Reconciled(env, w))
      requires pr.Value() == StartExposure(env, w, Reconciled(env, w)) && pre == PretickOf(env, w, Reconciled(env, w))
      modifies this, store, broker, state, pr
      ensures Value(dead) == EndWalk(env, w) && store.disk == old(store.disk)
    {
      dead := false;
      if pre.Allow? && env.balanceRead && !env.surfaces.Unavailable? {
        dead := WalkMarkets(CtxOf(env, w, Reconciled(env, w)), env.listings);
      }
    }

    /** Step 4: snapshot with the balance re-read after the orders, then save. */
    method Save(settledNow: nat, ghost w: World) returns (snap: Option<Snapshot>)
      requires pr.availableBalance == if env.balanceRead then Some(w.ex.cash) else None
      requires settledNow == SettledCount(w.disk, SettlementRows(env, w), env.settleDay)
      modifies store`disk
      ensures store.disk == if env.saved then state.positions else old(store.disk)
      ensures snap == if env.saved then Some(SnapshotOf(env, w, Value(false))) else None
    {
      var balance := pr.availableBalance;
      if placed > 0 && !env.dryRun && env.refetched {
        balance := Some(broker.ex.cash);
      }
      snap := Some(LiveSnapshot(state.positions, balance, placed, settledNow, env.envKill || store.killFile));
      if !env.saved {
        return None;
      }
      store.disk := state.positions;
    }
  }

  lemma {:induction false} FlattenSplit<T>(ls: seq<Option<seq<T>>>, i: nat)
    requires i <= |ls|
    ensures Flatten(ls) == Flatten(ls[..i]) + Flatten(ls[i..])
  {
    if i == |ls| {
      assert ls[..i] == ls;
    } else {
      var init, last := ls[..|ls| - 1], ls[|ls| - 1].GetOr([]);
      FlattenSplit(init, i);
      assert init[..i] == ls[..i];
      assert ls[i..][..|ls[i..]| - 1] == init[i..];
      assert Flatten(ls[i..]) == Flatten(init[i..]) + last;
      assert Flatten(ls[..i]) + Flatten(init[i..]) + last == Flatten(ls[..i]) + (Flatten(init[i..]) + last);
    }
  }

  /** Dying after `n` markets of the `i`-th series is the end of the whole walk. */
  lemma RestIsDead(c: Ctx, start: Walk, ls: seq<Option<seq<Quote>>>, i: nat, n: nat)
    requires i < |ls| && ls[i].Some? && n <= |ls[i].value|
    requires WalkAll(c, start, Flatten(ls[..i]) + ls[i].value[..n]).dead
    ensures WalkAll(c, start, Flatten(ls)) == WalkAll(c, start, Flatten(ls[..i]) + ls[i].value[..n])
  {
    var seen, qs := Flatten(ls[..i]), ls[i].value;
    FlattenSplit(ls, i + 1);
    assert ls[..i + 1][..i] == ls[..i];
    var all, k := Flatten(ls), |seen| + n;
    assert all == seen + qs + Flatten(ls[i + 1..]);
    assert all[..k] == seen + qs[..n];
    DeadStays(c, start, all, k);
  }

  /** Step 1: settle, heal, adopt, against one reading of the exchange. */
  method ReconcileState(env: Env, store: Store, broker: Broker, ghost w: World)
    returns (state: LocalState, settledNow: nat)
    requires w.ex == broker.ex && w.disk == store.disk
    ensures fresh(state) && state.positions == Reconciled(env, w)
    ensures settledNow == SettledCount(w.disk, SettlementRows(env, w), env.settleDay)
  {
    var settlements := if env.settlementsRead then broker.ex.settlements else [];
    var holdings := if env.positionsRead then Holdings(broker.ex) else [];
    state := new LocalState(store.disk);
    settledNow := state.ApplySettlements(settlements, env.settleDay);
    var healed := state.HealSettledPnl();
    var adopted := state.AdoptOrphans(holdings);
  }

  /** Start-of-tick exposure; equity is captured here, once. */
  method ReadExposure(env: Env, state: LocalState, broker: Broker, ghost w: World) returns (pr: PortfolioRisk)
    requires w.ex == broker.ex && state.positions == Reconciled(env, w)
    ensures fresh(pr) && pr.Value() == StartExposure(env, w, state.positions)
  {
    var balance := if env.balanceRead then Some(broker.ex.cash) else None;
    var deployed := Deployed(state.positions);
    var equity := if balance.Some? then Some(balance.value + deployed) else None;
    pr := new PortfolioRisk(deployed, OpenCount(state.positions), RealizedOn(state.positions, env.Day()),
                            balance, equity);
  }

  /** Step 2: the pre-tick gate; a daily-loss breach writes the kill sentinel. */
  method GatePretick(env: Env, pr: PortfolioRisk, store: Store, ghost w: World, ghost ps: seq<Position>)
    returns (pre: Decision)
    requires pr.Value() == StartExposure(env, w, ps) && store.killFile == w.killFile
    modifies store`killFile
    ensures pre == PretickOf(env, w, ps)
    ensures store.killFile == StartWalk(env, w, ps).killFile
  {
    pre := Pretick(env.cfg, env.envKill || store.killFile, pr.Value());
    if pre == Deny(DailyLoss) && env.killWritable {
      store.killFile := true;
    }
  }

  /** Steps 1 and 2, and the objects of the tick. */
  method Begin(env: Env, store: Store, broker: Broker, ghost w: World)
    returns (h: Harness, pre: Decision, settledNow: nat)
    requires w.ex == broker.ex && w.disk == store.disk && w.killFile == store.killFile
    modifies store`killFile
    ensures fresh(h) && fresh(h.state) && fresh(h.pr) && fresh(h.executor) && h.Valid()
    ensures h.env == env && h.store == store && h.broker == broker
    ensures h.Value(false) == StartWalk(env, w, Reconciled(env, w))
    ensures h.pr.Value() == StartExposure(env, w, Reconciled(env, w))
    ensures pre == PretickOf(env, w, Reconciled(env, w))
    ensures settledNow == SettledCount(w.disk, SettlementRows(env, w), env.settleDay)
  {
    var state;
    state, settledNow := ReconcileState(env, store, broker, w);
    var pr := ReadExposure(env, state, broker, w);
    pre := GatePretick(env, pr, store, w, state.positions);
    var dbu := DeployedByUnderlying(state.positions);
    h := new Harness(env, store, broker, state, pr, dbu);
  }

  /** One tick of the live harness. `None` when the tick dies or cannot save. */
  method RunOnce(env: Env, store: Store, broker: Broker, ghost funds: int) returns (snap: Option<Snapshot>)
    modifies store, broker
    ensures (World(broker.ex, store.disk, store.killFile, funds), snap)
            == Tick(env, World(old(broker.ex), old(store.disk), old(store.killFile), funds))
  {
    ghost var w := World(broker.ex, store.disk, store.killFile, funds);
    var h, pre, settledNow := Begin(env, store, broker, w);
    var dead := h.Trade(pre, w);
    if dead {
      return None;
    }
    snap := h.Save(settledNow, w);
  }
}
