/**
 Concrete runs, from an empty account, on which the live harness does not keep what it keeps
 under the conditions proved elsewhere: each exact condition has its failing input here. And one
 on which live and paper agree.
 */
module LiveWitness {
  import opened Options
  import opened Reals
  import opened Money
  import opened Config
  import opened Book
  import opened Reconcile
  import opened Risk
  import opened Discovery
  import opened Exchanges
  import opened Execution
  import opened LiveTick
  import opened LiveCaps
  import opened LiveOnce
  import opened LiveEquity
  import opened LiveBreaker
  import LivePaper

  // ---------- a small setting ----------

  /** A tenth to all of equity a trade, half of it deployed at most; the other knobs out of the way. */
  function SmallConfig(tradeFraction: real): Config {
    Config(1, 9999, 3600, tradeFraction, 1.0, false, 0.0, false, 0, 1_000_000, 0.5, 100, 10, 1_000_000, 0.5, "ls")
  }

  /** One series listed in hour `epoch`; everything is read, except perhaps the positions. */
  function HourEnv(tradeFraction: real, epoch: nat, positionsRead: bool, quotes: seq<Quote>): Env {
    Env(SmallConfig(tradeFraction), 3600 * epoch, 3600 * epoch / 86400, true, positionsRead, true, false, true, Off,
        [Some(quotes)], true, false, true)
  }

  function Listed(ticker: Ticker, bid: int, epoch: nat, reply: Reply): Quote {
    Quote(Market(ticker, Some(bid), Some(bid), Some(100.0), Some(3600 * epoch + 1), 0.0, true), reply, false, false)
  }

  /** A fill at the bid, and what the client hears of it. */
  function FilledBy(count: int, bid: int, fee: int, answer: Answer): Reply {
    Reply(Some(RawFill(count, bid, fee)), answer)
  }

  lemma EpochOf(tradeFraction: real, epoch: nat, positionsRead: bool, quotes: seq<Quote>)
    ensures HourEnv(tradeFraction, epoch, positionsRead, quotes).Epoch() == epoch
  {}

  lemma TruncIs(x: real, n: nat)
    requires n as real <= x < n as real + 1.0
    ensures Trunc(x) == n
  {}

  lemma AffordableIs(target: real, per: real, n: nat)
    requires per > 0.0 && Times(n as real, per) <= target < Times(n as real + 1.0, per)
    ensures Affordable(target, per) == n
  {
    QuotientAtLeast(target, per, n as real);
    QuotientAtLeast(target, per, n as real + 1.0);
    TruncIs(target / per, n);
  }

  /** The clip of `n` contracts that the equity fraction pays for. */
  ghost predicate Pays(c: Ctx, bid: int, n: nat) {
    && 1 <= n <= 100 && 0 < bid < DOLLAR
    && Times(n as real, PerContract(bid)) <= Target(c.env.cfg, c.equity) < Times(n as real + 1.0, PerContract(bid))
  }

  /** Room for it under every test of the gate. */
  ghost predicate Room(c: Ctx, w: Walk, bid: int, n: nat) {
    && w.deployed + Locked(bid, n) <= c.equity && Locked(bid, n) >= CENT
    && (w.deployed + RoundCents(Locked(bid, n))) as real <= 0.5 * c.equity as real
    && w.deployed + RoundCents(Locked(bid, n)) <= 1_000_000
    && w.spent + RoundCents(Locked(bid, n)) <= c.balance && w.open < 10
    && !w.killFile && !w.dead
  }

  lemma ClipIs(cfg: Config, acct: int, bid: int, n: nat)
    requires cfg.maxDepthFrac == 1.0 && bid < DOLLAR && 1 <= n <= 100
    requires Times(n as real, PerContract(bid)) <= Target(cfg, acct) < Times(n as real + 1.0, PerContract(bid))
    ensures ClipSize(cfg, acct, bid, 100.0) == n
  {
    AffordableIs(Target(cfg, acct), PerContract(bid), n);
    TruncIs(cfg.maxDepthFrac * 100.0, 100);
    assert DepthCap(cfg, 100.0) == 100;
  }

  lemma SmallSizes(c: Ctx, deployed: int, m: Market, n: nat)
    requires m.bidSize == Some(100.0) && m.bid.Some? && m.close.Some?
    requires Eligible(c.env.cfg, m, c.env.now) && ClipSize(c.env.cfg, c.equity, m.bid.value, 100.0) == n
    requires deployed + Locked(m.bid.value, n) <= c.equity && Locked(m.bid.value, n) >= CENT
    ensures SizeCandidate(c.env.cfg, m, c.env.now, c.equity, deployed) == Some(Priced(m, n))
  {}

  /** The order goes out. */
  lemma StepSends(c: Ctx, w: Walk, q: Quote, cand: Candidate)
    requires Decide(c, w, q.market) == Some(cand) && !c.env.dryRun
    requires !w.dead && !Closed(w.ex.settlements, q.market.ticker) && !q.operatorKills && !q.dies
    ensures Step(c, w, q) == Send(c, w, cand, q.reply)
    ensures Step(c, w, q).ex
            == Submit(w.ex, OrderId(c, cand.ticker), cand.ticker, cand.size, cand.price, q.reply)
  {
    assert w == w.(killFile := w.killFile || q.operatorKills);
    var v := Send(c, w, cand, q.reply);
    assert v == v.(dead := v.dead || q.dies);
  }

  lemma SmallDecides(c: Ctx, w: Walk, q: Quote, tradeFraction: real, epoch: nat, all: bool, qs: seq<Quote>, bid: int,
                     n: nat)
    requires c.env == HourEnv(tradeFraction, epoch, all, qs)
    requires q == Listed(q.market.ticker, bid, epoch, q.reply) && q.market.ticker !in w.have
    requires Pays(c, bid, n) && Room(c, w, bid, n)
    ensures Decide(c, w, q.market) == Some(Priced(q.market, n))
  {
    ClipIs(c.env.cfg, c.equity, bid, n);
    SmallSizes(c, w.deployed, q.market, n);
  }

  /** A tick on a book with nothing on file starts from nothing and walks its one series. */
  lemma BlankTick(tradeFraction: real, epoch: nat, all: bool, qs: seq<Quote>, w: World)
    requires w.disk == [] && !w.killFile && w.ex.cash > 0 && w.ex.settlements == []
    requires all ==> w.ex.orders == []
    ensures var env := HourEnv(tradeFraction, epoch, all, qs);
      && Reconciled(env, w) == []
      && EndWalk(env, w) == WalkAll(CtxOf(env, w, []), StartWalk(env, w, []), qs)
      && Flatten(env.listings) == qs
      && !StartWalk(env, w, []).killFile && Trades(env, w, [])
  {
    var env := HourEnv(tradeFraction, epoch, all, qs);
    assert Settle([], [], env.settleDay) == [];
    assert Heal([]) == [];
    assert PositionRows(env, w) == [];
    assert Flatten(env.listings) == Flatten([]) + qs == qs by {
      assert env.listings[..0] == [];
    }
    assert 0.5 * w.ex.cash as real > 0.0;
  }

  lemma WalkOne(c: Ctx, s: Walk, q: Quote)
    ensures WalkAll(c, s, [q]) == Step(c, s, q)
  {
    WalkSnoc(c, s, [], q);
    assert [] + [q] == [q];
  }

  lemma WalkTwo(c: Ctx, s: Walk, p: Quote, q: Quote)
    ensures WalkAll(c, s, [p, q]) == Step(c, Step(c, s, p), q)
  {
    WalkOne(c, s, p);
    WalkSnoc(c, s, [p], q);
    assert [p] + [q] == [p, q];
  }

  // ---------- live and paper ----------

  /** One contract sold at `bid`, filled and heard, on an empty account of four dollars. */
  function OneShort(bid: int, fee: int): Env {
    HourEnv(0.25, 0, true, [Listed("A", bid, 0, FilledBy(1, bid, fee, Accepted(Inline)))])
  }

  lemma OnePaperClip(bid: int, c: Ctx, s: Walk, m: Market)
    requires 100 <= bid <= 1000 && m == Listed("A", bid, 0, FilledBy(1, bid, 0, Accepted(Inline))).market
    requires c.env.cfg == SmallConfig(0.25) && c.env.now == 0 && c.env.surfaces == Off && c.equity == 40000
    requires s.have == {} && s.deployed == 0
    ensures var sc := Scan([], s.have, s.deployed, s.dbu);
      && LivePaper.PaperClip(c, sc, m) == Some(Priced(m, 1))
      && LivePaper.PaperOne(c, sc, m) == Scan([Priced(m, 1)], {"A"}, RoundCents(10000 - bid), s.dbu)
  {
    ClipIs(c.env.cfg, c.equity, bid, 1);
    SmallSizes(c, s.deployed, m, 1);
    assert Locked(bid, 1) == 10000 - bid;
  }

  lemma OnePaperScan(bid: int, c: Ctx, s: Walk, q: Quote)
    requires 100 <= bid <= 1000 && q == Listed("A", bid, 0, FilledBy(1, bid, 0, Accepted(Inline)))
    requires c.env.cfg == SmallConfig(0.25) && c.env.now == 0 && c.env.surfaces == Off
    requires c.equity == 40000 && c.balance == 40000 && !c.env.envKill && !c.env.dryRun
    requires s.have == {} && s.deployed == 0 && s.spent == 0 && s.open == 0 && s.ex.orders == []
    requires s.ex.settlements == [] && !s.dead && !s.killFile
    ensures LivePaper.Smooth(c, s, [q]) && LivePaper.Paper(c, s, [q]).cands == [Priced(q.market, 1)]
  {
    OnePaperClip(bid, c, s, q.market);
    assert [q][..0] == [];
    LivePaper.PaperSnoc(c, s, [q]);
    assert LivePaper.Paper(c, s, []) == Scan([], s.have, s.deployed, s.dbu);
    RoundCentsBounded(10000 - bid, 10000);
  }

  lemma OneShortStarts(bid: int)
    requires 100 <= bid <= 1000
    ensures
      var env, w := OneShort(bid, 0), Genesis(40000);
      var q := Listed("A", bid, 0, FilledBy(1, bid, 0, Accepted(Inline)));
      var c, s := CtxOf(env, w, []), StartWalk(env, w, []);
      && Reconciled(env, w) == [] && Trades(env, w, []) && Flatten(env.listings) == [q]
      && LivePaper.Smooth(c, s, [q]) && LivePaper.Paper(c, s, [q]).cands == [Priced(q.market, 1)]
  {
    var q := Listed("A", bid, 0, FilledBy(1, bid, 0, Accepted(Inline)));
    BlankTick(0.25, 0, true, [q], Genesis(40000));
    OnePaperScan(bid, CtxOf(OneShort(bid, 0), Genesis(40000), []), StartWalk(OneShort(bid, 0), Genesis(40000), []), q);
  }

  /**
   The refinement has something to say: with half of equity deployed at most, a tick on which
   paper takes a market, and live just that one.
   */
  lemma PaperAndLiveAgree(bid: int)
    requires 100 <= bid <= 1000
    ensures var env, w := OneShort(bid, 0), Genesis(40000);
      env.cfg.maxDeployedFrac == 0.5 && |LivePaper.TickPaper(env, w)| == 1 && LivePaper.PlaysPaper(env, w)
  {
    OneShortStarts(bid);
    LivePaper.RefinesFrom(OneShort(bid, 0), Genesis(40000), [],
                          [Listed("A", bid, 0, FilledBy(1, bid, 0, Accepted(Inline)))]);
  }

  // ---------- a fill that is lost ----------

  /** In hour `epoch` four contracts at fifty cents are filled, and the reply is a 429: the tick dies. */
  function LostTick(epoch: nat): Env {
    HourEnv(0.5, epoch, true, [Listed("A", 5000, epoch, FilledBy(4, 5000, 0, RateLimited))])
  }

  function LostWorld(epoch: nat): World {
    Run(Genesis(40000), [TickEvent(LostTick(epoch))])
  }

  function LostOrder(epoch: nat): Order {
    Order(ClientOrderId("ls", "A", epoch), "A", 4, 5000, 0)
  }

  lemma RunOne(w: World, e: Event)
    ensures Run(w, [e]) == Apply(w, e)
  {
    assert [e][..0] == [];
  }

  /** The exchange holds the fill; the state file knows nothing of it. */
  lemma LostFill(epoch: nat)
    ensures var w := LostWorld(epoch);
      && w.disk == [] && !w.killFile && w.ex.cash == 20000 && w.ex.settlements == []
      && w.ex.orders == [LostOrder(epoch)]
  {
    var w, env := Genesis(40000), LostTick(epoch);
    var q := Listed("A", 5000, epoch, FilledBy(4, 5000, 0, RateLimited));
    var c, s := CtxOf(env, w, []), StartWalk(env, w, []);
    RunOne(w, TickEvent(env));
    BlankTick(0.5, epoch, true, [q], w);
    EpochOf(0.5, epoch, true, [q]);
    WalkOne(c, s, q);
    SmallDecides(c, s, q, 0.5, epoch, true, [q], 5000, 4);
    StepSends(c, s, q, Priced(q.market, 4));
    assert Step(c, s, q).ex.orders == [] + [LostOrder(epoch)];
  }

  /** The next hour, blind: the positions cannot be read. */
  function BlindTick(epoch: nat, reply: Reply): Env {
    HourEnv(0.5, epoch, false, [Listed("A", 5000, epoch, reply)])
  }

  lemma BlindDecides(hour: nat, epoch: nat, reply: Reply)
    ensures var w, env, q := LostWorld(hour), BlindTick(epoch, reply), Listed("A", 5000, epoch, reply);
      var c, s := CtxOf(env, w, []), StartWalk(env, w, []);
      && Reconciled(env, w) == [] && Flatten(env.listings) == [q]
      && EndWalk(env, w) == WalkAll(c, s, [q]) == Step(c, s, q)
      && Decide(c, s, q.market) == Some(Priced(q.market, 2)) && !s.killFile
      && OrderId(c, "A") == ClientOrderId("ls", "A", epoch)
  {
    var w, env, q := LostWorld(hour), BlindTick(epoch, reply), Listed("A", 5000, epoch, reply);
    var c, s := CtxOf(env, w, []), StartWalk(env, w, []);
    LostFill(hour);
    BlankTick(0.5, epoch, false, [q], w);
    EpochOf(0.5, epoch, false, [q]);
    WalkOne(c, s, q);
    SmallDecides(c, s, q, 0.5, epoch, false, [q], 5000, 2);
  }

  lemma BlindFill(hour: nat)
    ensures var reply := FilledBy(2, 5000, 0, Accepted(Inline));
      EndWalk(BlindTick(hour + 1, reply), LostWorld(hour)).ex.orders
      == [LostOrder(hour)] + [Order(ClientOrderId("ls", "A", hour + 1), "A", 2, 5000, 0)]
  {
    var reply := FilledBy(2, 5000, 0, Accepted(Inline));
    var w, env, q := LostWorld(hour), BlindTick(hour + 1, reply), Listed("A", 5000, hour + 1, reply);
    var c, s := CtxOf(env, w, []), StartWalk(env, w, []);
    LostFill(hour);
    BlindDecides(hour, hour + 1, reply);
    StepSends(c, s, q, Priced(q.market, 2));
    ClientOrderIdInjective("ls", "A", hour, "A", hour + 1);
    assert Takes(w.ex, ClientOrderId("ls", "A", hour + 1), "A", reply);
  }

  /**
   A replayed tick does double-submit: a market filled and lost in one hour is sold again in
   the next by a tick that cannot read its positions.
   */
  lemma BlindTickFillsTwice(hour: nat)
    ensures var reply := FilledBy(2, 5000, 0, Accepted(Inline));
      !OneFillEach(Run(Genesis(40000), [TickEvent(LostTick(hour)), TickEvent(BlindTick(hour + 1, reply))]).ex.orders)
  {
    var first, second := TickEvent(LostTick(hour)),
                         TickEvent(BlindTick(hour + 1, FilledBy(2, 5000, 0, Accepted(Inline))));
    assert [first, second][..1] == [first];
    BlindFill(hour);
    var os := Run(Genesis(40000), [first, second]).ex.orders;
    assert os[0].ticker == os[1].ticker;
  }

  lemma BlindTickBooksFour(hour: nat)
    ensures var w, env := LostWorld(hour), BlindTick(hour, StaleReply());
      var s, v := StartWalk(env, w, []), EndWalk(env, w);
      && Reconciled(env, w) == [] && Flatten(env.listings)[..1] == Flatten(env.listings)
      && v == WalkAll(CtxOf(env, w, []), s, Flatten(env.listings)) && v.deployed == 20000 && s.deployed == 0
  {
    var w, env := LostWorld(hour), BlindTick(hour, StaleReply());
    var q := Listed("A", 5000, hour, StaleReply());
    var c, s := CtxOf(env, w, []), StartWalk(env, w, []);
    LostFill(hour);
    BlindDecides(hour, hour, StaleReply());
    assert w.ex.orders[0].coid == OrderId(c, "A");
    StaleIsBooked(c, s, Priced(q.market, 2));
    assert RoundCents(Locked(5000, 4)) == 20000;
  }

  /**
   A cap is exceeded: in the same hour the order is refused, its reply is lost, and the
   confirmation finds the lost order. Two contracts were admitted, under a cap of one dollar
   deployed; four are booked, at two dollars.
   */
  lemma BlindTickBreaksCap(hour: nat)
    ensures !TickWithin(BlindTick(hour, StaleReply()), LostWorld(hour), 1)
    ensures EndWalk(BlindTick(hour, StaleReply()), LostWorld(hour)).deployed == 20000
    ensures UnderDeployedCap(SmallConfig(0.5), Some(20000), 10000)
    ensures !UnderDeployedCap(SmallConfig(0.5), Some(20000), 20000)
  {
    LostFill(hour);
    BlindTickBooksFour(hour);
  }

  // ---------- twins ----------

  /** Two brackets that differ only in punctuation; the first fills, the second's reply is lost. */
  function TwinQuotes(epoch: nat): seq<Quote> {
    [Listed("B8.95", 5000, epoch, FilledBy(2, 5000, 0, Accepted(Inline))), Listed("B89.5", 5000, epoch, StaleReply())]
  }

  lemma FirstTwinFills(epoch: nat)
    ensures var env, w, q := HourEnv(0.25, epoch, true, TwinQuotes(epoch)), Genesis(40000), TwinQuotes(epoch)[0];
      var v := Step(CtxOf(env, w, []), StartWalk(env, w, []), q);
      && v.ex.orders == [Order(ClientOrderId("ls", "B8.95", epoch), "B8.95", 2, 5000, 0)]
      && v.deployed == 10000 && v.spent == 10000 && v.open == 1 && |v.positions| == 1 && v.ex.settlements == []
      && v.have == {"B8.95"} && !v.dead && !v.killFile
  {
    var env, w, q := HourEnv(0.25, epoch, true, TwinQuotes(epoch)), Genesis(40000), TwinQuotes(epoch)[0];
    var c, s := CtxOf(env, w, []), StartWalk(env, w, []);
    BlankTick(0.25, epoch, true, TwinQuotes(epoch), w);
    EpochOf(0.25, epoch, true, TwinQuotes(epoch));
    SmallDecides(c, s, q, 0.25, epoch, true, TwinQuotes(epoch), 5000, 2);
    var o := Order(ClientOrderId("ls", "B8.95", epoch), "B8.95", 2, 5000, 0);
    FillIsHeard(s.ex, o.coid, "B8.95", 2, 5000, q.reply);
    assert [] + [o] == [o];
  }

  /** On a book of the first twin alone, the lost reply books the second from the first one's order. */
  lemma SecondTwinIsPhantom(c: Ctx, v: Walk, q: Quote, o: Order)
    requires v.ex.orders == [o] && o.filled == 2 && o.coid == OrderId(c, q.market.ticker)
    requires q.reply == StaleReply() && !q.operatorKills && !q.dies && !v.dead && !c.env.dryRun
    requires !Closed(v.ex.settlements, q.market.ticker)
    requires Decide(c, v, q.market).Some? && Decide(c, v, q.market).value.ticker == q.market.ticker
    ensures var u := Step(c, v, q);
      && u.ex.orders == [o] && !u.dead
      && |u.positions| == |v.positions| + 1
      && u.positions[|v.positions|].ticker == q.market.ticker && u.positions[|v.positions|].filled == 2
  {
    var cand := Decide(c, v, q.market).value;
    StepSends(c, v, q, cand);
    assert v.ex.orders[0].coid == OrderId(c, cand.ticker);
    StaleIsBooked(c, v, cand);
  }

  lemma TwinsEnd(epoch: nat)
    ensures var env, w := HourEnv(0.25, epoch, true, TwinQuotes(epoch)), Genesis(40000);
      var e := EndWalk(env, w);
      && |e.positions| == 2 && e.positions[1].ticker == "B89.5" && e.positions[1].filled == 2
      && e.ex.orders == [Order(ClientOrderId("ls", "B8.95", epoch), "B8.95", 2, 5000, 0)] && !e.dead
  {
    var env, w, qs := HourEnv(0.25, epoch, true, TwinQuotes(epoch)), Genesis(40000), TwinQuotes(epoch);
    var c, s := CtxOf(env, w, []), StartWalk(env, w, []);
    var v := Step(c, s, qs[0]);
    BlankTick(0.25, epoch, true, qs, w);
    EpochOf(0.25, epoch, true, qs);
    WalkTwo(c, s, qs[0], qs[1]);
    FirstTwinFills(epoch);
    ClientOrderIdsCollide("ls", epoch);
    SmallDecides(c, v, qs[1], 0.25, epoch, true, qs, 5000, 2);
    SecondTwinIsPhantom(c, v, qs[1], v.ex.orders[0]);
  }

  /**
   A phantom record: even in a tick that reads its positions, on an account with no history,
   the second twin is booked although its market never traded.
   */
  lemma TwinsBookPhantom(epoch: nat)
    ensures var w := Run(Genesis(40000), [TickEvent(HourEnv(0.25, epoch, true, TwinQuotes(epoch)))]);
      && |w.disk| == 2 && w.disk[1].ticker == "B89.5" && w.disk[1].filled == 2
      && !HasFill(w.ex.orders, "B89.5")
  {
    var env, w := HourEnv(0.25, epoch, true, TwinQuotes(epoch)), Genesis(40000);
    RunOne(w, TickEvent(env));
    TwinsEnd(epoch);
    ClientOrderIdsCollide("ls", epoch);
  }

  // ---------- fractions of a cent ----------

  function ShortRecord(bid: int, fee: int): Position {
    Position("A", Open, None, Some(bid), 1, 1, fee, Some(RoundCents(10000 - bid)), None, None,
             Some(ClientOrderId("ls", "A", 0)))
  }

  lemma OneShortIs(bid: int, fee: int)
    requires 100 <= bid <= 1000 && 0 <= fee
    ensures var env, w := OneShort(bid, fee), Genesis(40000);
      var e := EndWalk(env, w);
      && Reconciled(env, w) == [] && Completes(env, w)
      && e.positions == [ShortRecord(bid, fee)]
      && e.ex.orders == [Order(ClientOrderId("ls", "A", 0), "A", 1, bid, fee)]
      && e.ex.settlements == [] && e.ex.cash == 40000 - (10000 - bid) - fee
  {
    var env, w := OneShort(bid, fee), Genesis(40000);
    var q := Listed("A", bid, 0, FilledBy(1, bid, fee, Accepted(Inline)));
    var c, s := CtxOf(env, w, []), StartWalk(env, w, []);
    BlankTick(0.25, 0, true, [q], w);
    EpochOf(0.25, 0, true, [q]);
    WalkOne(c, s, q);
    SmallDecides(c, s, q, 0.25, 0, true, [q], bid, 1);
    var o := Order(ClientOrderId("ls", "A", 0), "A", 1, bid, fee);
    FillIsHeard(s.ex, o.coid, "A", 1, bid, q.reply);
    assert [] + [o] == [o] && [] + [ShortRecord(bid, fee)] == [ShortRecord(bid, fee)];
  }

  lemma FractionIsSaved()
    ensures var env := OneShort(450, 30);
      var w := FractionWorld();
      && w.disk == [ShortRecord(450, 30)] && RoundingGain(w.disk[0]) == 50 && w.disk[0].fee == 30
      && SettlesOn(env, w)
  {
    OneShortIs(450, 30);
    var w := FractionWorld();
    assert RoundCents(9550) == 9600;
    assert HeldCount([], "A") == 0 && w.ex.orders[..0] == [];
    assert HeldCount(w.ex.orders, "A") == 1;
  }

  /** When market `A` resolves, start-of-day equity falls by `fall`. */
  ghost predicate FallsBy(env: Env, w: World, result: Outcome, fall: int) {
    NextLine(env, Run(w, [ResolveEvent("A", result)])) == SavedLine(env, w) - fall
  }

  lemma OneRecordFalls(env: Env, w: World, result: Outcome)
    requires SettlesOn(env, w) && |w.disk| == 1 && w.disk[0].status.Open? && w.disk[0].ticker == "A"
    requires RoundingGain(w.disk[0]) > w.disk[0].fee
    ensures !HoldsStill(env, w) && FallsBy(env, w, result, RoundingGain(w.disk[0]) - w.disk[0].fee)
  {
    SettlingHoldsExactly(env, w);
    ResolvingOneFalls(env, w, 0, result);
    SettlingMovesLine(env, w, [ResolveEvent("A", result)]);
  }

  /** The state after the tick that opens it. */
  function FractionWorld(): World {
    Tick(OneShort(450, 30), Genesis(40000)).0
  }

  /**
   A settlement does move the line toward the account: one contract sold at 4.5 cents with a
   fee of 0.3 cents is booked at 96 cents against 95.5; when it resolves, winning or losing,
   start-of-day equity falls by 0.2 cents.
   */
  lemma SettlingAtFractionFalls(result: Outcome)
    ensures SettlesOn(OneShort(450, 30), FractionWorld()) && !HoldsStill(OneShort(450, 30), FractionWorld())
    ensures FallsBy(OneShort(450, 30), FractionWorld(), result, 20)
  {
    FractionIsSaved();
    OneRecordFalls(OneShort(450, 30), FractionWorld(), result);
  }

  /**
   And a new short does cost more than its fee: at 4.6 cents the collateral of 95.4 cents is
   booked at 95.
   */
  lemma OpeningAtFractionFalls()
    ensures var env := OneShort(460, 30);
      && AfterOpening(env, Genesis(40000)) == BeforeOpening(env, Genesis(40000)) - 30 - 40
      && NewFees(env, Genesis(40000)) == 30
  {
    var env := OneShort(460, 30);
    OneShortIs(460, 30);
    assert RoundCents(9540) == 9500;
    var e := EndWalk(env, Genesis(40000));
    assert e.positions[..0] == [] && e.ex.orders[..0] == [];
    assert Deployed(e.positions) == Deployed([]) + 9500;
    assert Fills(e.ex.orders) == Fills([]) + [e.ex.orders[0]];
    assert Fills(e.ex.orders)[..0] == [];
  }
}
