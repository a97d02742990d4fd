/** Exactly-once under crashes and lost replies, and the kill switch, over whole runs. */
module LiveOnce {
  import opened Options
  import opened Money
  import opened Book
  import opened Reconcile
  import opened Risk
  import opened Discovery
  import opened Exchanges
  import opened Execution
  import opened LiveTick
  import opened LiveInvariants
  import opened LiveCaps

  // ---------- at most one fill per market ----------

  /** No market was ever filled by two orders. */
  ghost predicate OneFillEach(os: seq<Order>) {
    forall i, j :: 0 <= i < j < |os| && os[i].filled > 0 && os[j].filled > 0 ==> os[i].ticker != os[j].ticker
  }

  lemma OneFillAppend(os: seq<Order>, o: Order)
    requires OneFillEach(os)
    ensures OneFillEach(os + [o]) <==> !(o.filled > 0 && HasFill(os, o.ticker))
  {
    var all := os + [o];
    if o.filled > 0 && HasFill(os, o.ticker) {
      var i :| 0 <= i < |os| && os[i].ticker == o.ticker && os[i].filled > 0;
      assert all[i] == os[i] && all[|os|] == o;
    }
  }

  /** Whatever the exchange answers, sending does not fill a market twice. */
  ghost predicate AlwaysFillsOnce(c: Ctx, w: Walk, cand: Candidate) {
    forall reply :: OneFillEach(Send(c, w, cand, reply).ex.orders)
  }

  /**
   The exact condition, checkable before sending: no answer of the exchange can fill the
   market twice exactly when it has not traded, or its id of this hour is already taken.
   */
  lemma SendFillsOnceExactly(c: Ctx, w: Walk, cand: Candidate)
    requires OneFillEach(w.ex.orders) && !c.env.dryRun && cand.size >= 1
    ensures AlwaysFillsOnce(c, w, cand)
            <==> (HasFill(w.ex.orders, cand.ticker) && cand.ticker != "" ==>
                    HasCoid(w.ex.orders, OrderId(c, cand.ticker)))
  {
    var coid := OrderId(c, cand.ticker);
    if HasFill(w.ex.orders, cand.ticker) && cand.ticker != "" ==> HasCoid(w.ex.orders, coid) {
      forall reply ensures OneFillEach(Send(c, w, cand, reply).ex.orders) {
        if Takes(w.ex, coid, cand.ticker, reply) {
          OneFillAppend(w.ex.orders, FillOf(coid, cand.ticker, cand.size, cand.price, reply.fill.value));
        }
      }
    } else {
      var reply := Reply(Some(RawFill(cand.size, cand.price, 0)), HttpError);
      OneFillAppend(w.ex.orders, FillOf(coid, cand.ticker, cand.size, cand.price, reply.fill.value));
      assert !OneFillEach(Send(c, w, cand, reply).ex.orders);
    }
  }

  lemma SendFillsOnce(c: Ctx, w: Walk, cand: Candidate, reply: Reply)
    requires OneFillEach(w.ex.orders) && Known(w) && cand.size >= 1
    requires cand.ticker !in w.have && !Closed(w.ex.settlements, cand.ticker)
    ensures OneFillEach(Send(c, w, cand, reply).ex.orders)
  {
    if !c.env.dryRun {
      SendFillsOnceExactly(c, w, cand);
    }
  }

  lemma StepFillsOnce(c: Ctx, w: Walk, q: Quote)
    requires OneFillEach(w.ex.orders) && Known(w)
    ensures OneFillEach(Step(c, w, q).ex.orders)
    ensures Known(Step(c, w, q)) || Step(c, w, q).dead
  {
    var w1 := w.(killFile := w.killFile || q.operatorKills);
    if !(w.dead || Closed(w.ex.settlements, q.market.ticker)) && Decide(c, w1, q.market).Some? {
      DecideFacts(c, w1, q.market);
      SendKnows(c, w1, Decide(c, w1, q.market).value, q.reply);
      SendFillsOnce(c, w1, Decide(c, w1, q.market).value, q.reply);
    }
  }

  lemma {:induction false} WalkFillsOnce(c: Ctx, w: Walk, qs: seq<Quote>)
    requires OneFillEach(w.ex.orders) && Known(w)
    ensures OneFillEach(WalkAll(c, w, qs).ex.orders)
    ensures Known(WalkAll(c, w, qs)) || WalkAll(c, w, qs).dead
  {
    if qs == [] {
    } else {
      WalkFillsOnce(c, w, qs[..|qs| - 1]);
      var w1 := WalkAll(c, w, qs[..|qs| - 1]);
      if !w1.dead {
        StepFillsOnce(c, w1, qs[|qs| - 1]);
      }
    }
  }

  lemma TickFillsOnce(env: Env, w: World)
    requires OneFillEach(w.ex.orders) && env.positionsRead
    requires DistinctTickers(w.disk) && CollateralWhole(w.disk)
    requires forall i :: 0 <= i < |w.ex.orders| ==> OrderOk(w.ex.orders[i])
    ensures OneFillEach(Tick(env, w).0.ex.orders)
  {
    var ps := Reconciled(env, w);
    ReadingPositionsMakesKnown(env, w);
    WalkFillsOnce(CtxOf(env, w, ps), StartWalk(env, w, ps), Flatten(env.listings));
  }

  lemma EventFillsOnce(w: World, e: Event)
    requires OneFillEach(w.ex.orders) && (e.TickEvent? ==> e.env.positionsRead)
    requires DistinctTickers(w.disk) && CollateralWhole(w.disk)
    requires forall i :: 0 <= i < |w.ex.orders| ==> OrderOk(w.ex.orders[i])
    ensures OneFillEach(Apply(w, e).ex.orders)
  {
    if e.TickEvent? {
      TickFillsOnce(e.env, w);
    }
  }

  /** Every tick of the run reads its positions. */
  ghost predicate AllReadPositions(es: seq<Event>) {
    forall i :: 0 <= i < |es| && es[i].TickEvent? ==> es[i].env.positionsRead
  }

  /**
   Over every interleaving of ticks, settlements, lost replies and crashes before the save,
   at most one short per market is ever filled, as long as each tick manages to read its
   positions: the adopted orphan blocks the retry.
   */
  lemma {:induction false} AtMostOneFill(w: World, es: seq<Event>, prefix: string, universe: set<Ticker>)
    requires WorldOk(w, prefix, universe) && EventsOk(es, prefix, universe)
    requires OneFillEach(w.ex.orders) && AllReadPositions(es)
    ensures OneFillEach(Run(w, es).ex.orders)
  {
    if es == [] {
    } else {
      var init, e := es[..|es| - 1], es[|es| - 1];
      assert forall i :: 0 <= i < |init| ==> init[i] == es[i];
      assert EventsOk(init, prefix, universe) && AllReadPositions(init);
      AtMostOneFill(w, init, prefix, universe);
      RunKeeps(w, init, prefix, universe);
      EventFillsOnce(Run(w, init), e);
    }
  }

  /** From an empty account on. */
  lemma AtMostOneFillEver(cash: int, es: seq<Event>, prefix: string, universe: set<Ticker>)
    requires EventsOk(es, prefix, universe) && AllReadPositions(es)
    ensures OneFillEach(Run(Genesis(cash), es).ex.orders)
  {
    GenesisOk(cash, prefix, universe);
    AtMostOneFill(Genesis(cash), es, prefix, universe);
  }

  /**
   Within one hour even blind ticks cannot fill a market twice, nor two markets that differ
   only in punctuation: the id is taken only once.
   */
  lemma OneOrderPerHour(w: World, prefix: string, universe: set<Ticker>, i: nat, j: nat, e: nat)
    requires WorldOk(w, prefix, universe)
    requires i < j < |w.ex.orders|
    requires w.ex.orders[i].coid == ClientOrderId(prefix, w.ex.orders[i].ticker, e)
    requires w.ex.orders[j].coid == ClientOrderId(prefix, w.ex.orders[j].ticker, e)
    ensures Clean(w.ex.orders[i].ticker) != Clean(w.ex.orders[j].ticker)
  {
    ClientOrderIdInjective(prefix, w.ex.orders[i].ticker, e, w.ex.orders[j].ticker, e);
  }

  // ---------- what is sent ----------

  /** Posts of a tick, given those before it: one per market at most. */
  ghost predicate OnePostEach(before: seq<Post>, w: Walk) {
    && before <= w.ex.posts
    && (forall i, j :: |before| <= i < j < |w.ex.posts| ==> w.ex.posts[i].ticker != w.ex.posts[j].ticker)
    && (w.dead || forall i :: |before| <= i < |w.ex.posts| ==> w.ex.posts[i].ticker in w.have)
  }

  lemma StepPostsOnce(before: seq<Post>, c: Ctx, w: Walk, q: Quote)
    requires OnePostEach(before, w)
    ensures OnePostEach(before, Step(c, w, q))
  {
    var w1 := w.(killFile := w.killFile || q.operatorKills);
    if !(w.dead || Closed(w.ex.settlements, q.market.ticker)) && Decide(c, w1, q.market).Some? {
      DecideFacts(c, w1, q.market);
      SendPostsOnce(before, c, w1, Decide(c, w1, q.market).value, q.reply);
    }
  }

  lemma SendPostsOnce(before: seq<Post>, c: Ctx, w: Walk, cand: Candidate, reply: Reply)
    requires OnePostEach(before, w) && !w.dead && cand.ticker !in w.have
    ensures OnePostEach(before, Send(c, w, cand, reply))
  {
    var coid := OrderId(c, cand.ticker);
    var sent := Send(c, w, cand, reply);
    if !c.env.dryRun {
      assert sent.ex.posts == w.ex.posts + [Post(coid, cand.ticker, cand.size, cand.price)];
    }
  }

  /** In one tick no market is ever sent a second order, whatever came of the first. */
  lemma {:induction false} TickPostsOnce(c: Ctx, w: Walk, qs: seq<Quote>)
    requires !w.dead
    ensures OnePostEach(w.ex.posts, WalkAll(c, w, qs))
  {
    if qs == [] {
    } else {
      TickPostsOnce(c, w, qs[..|qs| - 1]);
      StepPostsOnce(w.ex.posts, c, WalkAll(c, w, qs[..|qs| - 1]), qs[|qs| - 1]);
    }
  }

  ghost predicate PostsSized(posts: seq<Post>, cap: int) {
    forall i :: 0 <= i < |posts| ==> 1 <= posts[i].count <= cap && 0 < posts[i].limit < DOLLAR
  }

  lemma SendPostsSized(c: Ctx, w: Walk, cand: Candidate, reply: Reply, cap: int)
    requires PostsSized(w.ex.posts, cap) && 1 <= cand.size <= cap && 0 < cand.price < DOLLAR
    ensures PostsSized(Send(c, w, cand, reply).ex.posts, cap)
  {
    if !c.env.dryRun {
      SendEnds(c, w, cand, reply);
    }
  }

  lemma StepPostsSized(c: Ctx, w: Walk, q: Quote, cap: int)
    requires PostsSized(w.ex.posts, cap) && c.env.cfg.maxPerTradeContracts <= cap
    ensures PostsSized(Step(c, w, q).ex.posts, cap)
  {
    var w1 := w.(killFile := w.killFile || q.operatorKills);
    if !(w.dead || Closed(w.ex.settlements, q.market.ticker)) && Decide(c, w1, q.market).Some? {
      DecideFacts(c, w1, q.market);
      SendPostsSized(c, w1, Decide(c, w1, q.market).value, q.reply, cap);
    }
  }

  lemma {:induction false} WalkPostsSized(c: Ctx, w: Walk, qs: seq<Quote>, cap: int)
    requires PostsSized(w.ex.posts, cap) && c.env.cfg.maxPerTradeContracts <= cap
    ensures PostsSized(WalkAll(c, w, qs).ex.posts, cap)
  {
    if qs == [] {
    } else {
      WalkPostsSized(c, w, qs[..|qs| - 1], cap);
      StepPostsSized(c, WalkAll(c, w, qs[..|qs| - 1]), qs[|qs| - 1], cap);
    }
  }

  /**
   In every run, with no assumption on reads, replies or crashes, each order sent is for at
   least one contract, at most the per-trade cap, at a limit strictly inside a dollar.
   */
  lemma {:induction false} EveryOrderSized(w: World, es: seq<Event>, cap: int)
    requires PostsSized(w.ex.posts, cap)
    requires forall i :: 0 <= i < |es| && es[i].TickEvent? ==> es[i].env.cfg.maxPerTradeContracts <= cap
    ensures PostsSized(Run(w, es).ex.posts, cap)
  {
    if es == [] {
    } else {
      var init, e := es[..|es| - 1], es[|es| - 1];
      assert forall i :: 0 <= i < |init| ==> init[i] == es[i];
      EveryOrderSized(w, init, cap);
      var v := Run(w, init);
      if e.TickEvent? {
        var ps := Reconciled(e.env, v);
        WalkPostsSized(CtxOf(e.env, v, ps), StartWalk(e.env, v, ps), Flatten(e.env.listings), cap);
      }
    }
  }

  // ---------- which orders are sent ----------

  /** An order the strategy may send on a listed market: its filters, its bid, its id, its size. */
  predicate MayPost(c: Ctx, m: Market, p: Post) {
    && Tradeable(c.env.cfg, m, c.env.now) && (c.env.surfaces.Off? || m.oraclePasses)
    && p.ticker == m.ticker && p.limit == m.bid.value
    && p.coid == ClientOrderId(c.env.cfg.orderIdPrefix, m.ticker, c.env.now / 3600)
    && p.count == CutClip(c, m) >= 1
  }

  lemma StepPostsQuoted(c: Ctx, w: Walk, q: Quote)
    ensures OneQuoted(c, q.market, w.ex.posts, Step(c, w, q).ex.posts)
  {
    var w1 := w.(killFile := w.killFile || q.operatorKills);
    if !(w.dead || Closed(w.ex.settlements, q.market.ticker)) && Decide(c, w1, q.market).Some? && !c.env.dryRun {
      DecideExactly(c, w1, q.market);
      SendEnds(c, w1, Decide(c, w1, q.market).value, q.reply);
    }
  }

  /**
   On one market an order goes out exactly when the tick is alive and not a dry run, the market
   has not settled and passes every test, the sentinel just read included.
   */
  lemma StepPostsExactly(c: Ctx, w: Walk, q: Quote)
    ensures Step(c, w, q).ex.posts != w.ex.posts
            <==> && !w.dead && !c.env.dryRun && !Closed(w.ex.settlements, q.market.ticker)
                 && MaySell(c, w.(killFile := w.killFile || q.operatorKills), q.market)
  {
    var w1 := w.(killFile := w.killFile || q.operatorKills);
    DecideExactly(c, w1, q.market);
    if Decide(c, w1, q.market).Some? && !c.env.dryRun {
      SendEnds(c, w1, Decide(c, w1, q.market).value, q.reply);
    }
  }

  /** A dry run touches nothing: it only counts each order it would have sent, once. */
  lemma DryRunCounts(c: Ctx, w: Walk, q: Quote)
    requires c.env.dryRun && !w.dead && !Closed(w.ex.settlements, q.market.ticker)
    ensures var v, sells := Step(c, w, q), MaySell(c, w.(killFile := w.killFile || q.operatorKills), q.market);
      && v.ex == w.ex && v.positions == w.positions && v.deployed == w.deployed && v.spent == w.spent
      && v.placed == w.placed + (if sells then 1 else 0)
      && v.have == w.have + (if sells then {q.market.ticker} else {})
  {
    DecideExactly(c, w.(killFile := w.killFile || q.operatorKills), q.market);
  }

  /** Order `i` was sent on one of the markets `qs`. */
  ghost predicate Quoted(c: Ctx, qs: seq<Quote>, p: Post) {
    exists j :: 0 <= j < |qs| && MayPost(c, qs[j].market, p)
  }

  lemma QuotedSnoc(c: Ctx, qs: seq<Quote>, p: Post)
    requires qs != [] && (Quoted(c, qs[..|qs| - 1], p) || MayPost(c, qs[|qs| - 1].market, p))
    ensures Quoted(c, qs, p)
  {
    var init := qs[..|qs| - 1];
    if Quoted(c, init, p) {
      var j :| 0 <= j < |init| && MayPost(c, init[j].market, p);
      assert qs[j] == init[j];
    }
  }

  /** Nothing or one order for `m` was added. */
  ghost predicate OneQuoted(c: Ctx, m: Market, before: seq<Post>, after: seq<Post>) {
    after == before || (|after| == |before| + 1 && before <= after && MayPost(c, m, after[|before|]))
  }

  /** Every order added was sent on one of the markets `qs`. */
  ghost predicate AllQuoted(c: Ctx, qs: seq<Quote>, before: seq<Post>, after: seq<Post>) {
    before <= after && forall i :: |before| <= i < |after| ==> Quoted(c, qs, after[i])
  }

  lemma AllQuotedSnoc(c: Ctx, qs: seq<Quote>, first: seq<Post>, before: seq<Post>, after: seq<Post>)
    requires qs != [] && AllQuoted(c, qs[..|qs| - 1], first, before)
    requires OneQuoted(c, qs[|qs| - 1].market, before, after)
    ensures AllQuoted(c, qs, first, after)
  {
    forall i | |first| <= i < |after| ensures Quoted(c, qs, after[i]) {
      assert i < |before| ==> after[i] == before[i];
      QuotedSnoc(c, qs, after[i]);
    }
  }

  lemma {:induction false} WalkPostsQuoted(c: Ctx, w: Walk, qs: seq<Quote>)
    ensures AllQuoted(c, qs, w.ex.posts, WalkAll(c, w, qs).ex.posts)
  {
    if qs == [] {
    } else {
      var init, q := qs[..|qs| - 1], qs[|qs| - 1];
      var v := WalkAll(c, w, init);
      WalkPostsQuoted(c, w, init);
      StepPostsQuoted(c, v, q);
      AllQuotedSnoc(c, qs, w.ex.posts, v.ex.posts, Step(c, v, q).ex.posts);
    }
  }

  /**
   Every order of every tick is on a market listed in that tick whose ask lay in the band and
   which passed every other filter, at its bid, for its cut clip, under the id of the hour.
   */
  lemma TickPostsQuoted(env: Env, w: World, i: nat)
    requires |w.ex.posts| <= i < |Tick(env, w).0.ex.posts|
    ensures Quoted(CtxOf(env, w, Reconciled(env, w)), Flatten(env.listings), Tick(env, w).0.ex.posts[i])
  {
    var ps := Reconciled(env, w);
    WalkPostsQuoted(CtxOf(env, w, ps), StartWalk(env, w, ps), Flatten(env.listings));
  }

  // ---------- the kill switch ----------

  lemma {:induction false} KilledWalkSendsNothing(c: Ctx, w: Walk, qs: seq<Quote>)
    requires w.killFile || c.env.envKill
    ensures WalkAll(c, w, qs).ex == w.ex
    ensures WalkAll(c, w, qs).killFile || c.env.envKill
    ensures w.killFile ==> WalkAll(c, w, qs).killFile
  {
    if qs == [] {
    } else {
      KilledWalkSendsNothing(c, w, qs[..|qs| - 1]);
      var v, q := WalkAll(c, w, qs[..|qs| - 1]), qs[|qs| - 1];
      var v1 := v.(killFile := v.killFile || q.operatorKills);
      if Decide(c, v1, q.market).Some? {
        DecideFacts(c, v1, q.market);
      }
    }
  }

  /** The sentinel appears mid-tick: not one more order goes out in that tick. */
  lemma KillStopsTheTick(c: Ctx, w: Walk, q: Quote, rest: seq<Quote>)
    requires q.operatorKills && !w.dead && !Closed(w.ex.settlements, q.market.ticker)
    ensures WalkAll(c, Step(c, w, q), rest).ex.posts == w.ex.posts
  {
    var w1 := w.(killFile := true);
    if Decide(c, w1, q.market).Some? {
      DecideFacts(c, w1, q.market);
    }
    KilledWalkSendsNothing(c, Step(c, w, q), rest);
  }

  /**
   Once the sentinel is written no later tick sends an order, through any number of
   restarts, until an operator removes the file.
   */
  lemma {:induction false} KillIsFinal(w: World, es: seq<Event>)
    requires w.killFile
    requires forall i :: 0 <= i < |es| ==> !es[i].ClearKillEvent?
    ensures Run(w, es).killFile
    ensures Run(w, es).ex.posts == w.ex.posts && Run(w, es).ex.orders == w.ex.orders
  {
    if es == [] {
    } else {
      var init, e := es[..|es| - 1], es[|es| - 1];
      assert forall i :: 0 <= i < |init| ==> init[i] == es[i];
      KillIsFinal(w, init);
      var v := Run(w, init);
      if e.TickEvent? {
        var ps := Reconciled(e.env, v);
        KilledWalkSendsNothing(CtxOf(e.env, v, ps), StartWalk(e.env, v, ps), Flatten(e.env.listings));
      }
    }
  }

  /** The reconciled book realized such a loss today, on the account as the tick reads it. */
  predicate TickLosses(env: Env, w: World) {
    var ps := Reconciled(env, w);
    LossReached(env.cfg, if env.balanceRead then Some(w.ex.cash + Deployed(ps)) else None,
                RealizedOn(ps, env.now / 86400))
  }

  /**
   A tick that starts on such a loss sends nothing and, if it can write, leaves the sentinel
   behind; and a sentinel that a tick leaves was there, or appeared meanwhile, or is due to
   such a loss.
   */
  lemma DailyLossHalts(env: Env, w: World)
    ensures TickLosses(env, w) ==> Tick(env, w).0.ex == w.ex
    ensures TickLosses(env, w) && env.killWritable && !env.envKill ==> Tick(env, w).0.killFile
    ensures PretickOf(env, w, Reconciled(env, w)) == Deny(DailyLoss)
            <==> TickLosses(env, w) && !w.killFile && !env.envKill
    ensures StartWalk(env, w, Reconciled(env, w)).killFile
            <==> w.killFile || (TickLosses(env, w) && env.killWritable && !env.envKill)
  {
    PretickTripsExactly(env.cfg, env.envKill || w.killFile, StartExposure(env, w, Reconciled(env, w)));
  }

  /** What keeps a tick from trading: a kill, the daily loss, an unknown balance, an unavailable oracle. */
  predicate KeptSilent(env: Env, w: World) {
    env.envKill || w.killFile || TickLosses(env, w) || !env.balanceRead || env.surfaces == Unavailable
  }

  /** A silent tick sends nothing; any other offers every market that was listed, in order. */
  lemma TickTradesExactly(env: Env, w: World)
    ensures KeptSilent(env, w) ==> Tick(env, w).0.ex == w.ex
    ensures !KeptSilent(env, w) ==>
      EndWalk(env, w)
      == WalkAll(CtxOf(env, w, Reconciled(env, w)), StartWalk(env, w, Reconciled(env, w)), Flatten(env.listings))
  {
    PretickTripsExactly(env.cfg, env.envKill || w.killFile, StartExposure(env, w, Reconciled(env, w)));
  }

  /** Only a tick that runs to its end and can write saves its book and shows a snapshot; no other touches the book. */
  lemma TickSavesExactly(env: Env, w: World)
    ensures Tick(env, w).1.Some? <==> env.saved && !EndWalk(env, w).dead
    ensures Tick(env, w).0.disk == if env.saved && !EndWalk(env, w).dead then EndWalk(env, w).positions else w.disk
    ensures Tick(env, w).0.ex == EndWalk(env, w).ex && Tick(env, w).0.funds == w.funds
  {}

  // ---------- settled records never change back ----------

  ghost predicate Extends(ps: seq<Position>, qs: seq<Position>) {
    && |ps| <= |qs|
    && forall i :: 0 <= i < |ps| ==>
         && qs[i].ticker == ps[i].ticker && qs[i].price == ps[i].price && qs[i].fee == ps[i].fee
         && Contracts(qs[i]) == Contracts(ps[i])
         && (ps[i].status.Settled? ==> qs[i].status.Settled? && qs[i].result == ps[i].result)
  }

  lemma TickExtends(env: Env, w: World)
    requires DistinctTickers(w.disk) && CollateralWhole(w.disk)
    ensures Extends(w.disk, Tick(env, w).0.disk)
  {
    var ps := Reconciled(env, w);
    ReconciledShape(env, w);
    assert Extends(w.disk, ps) by {
      forall i | 0 <= i < |w.disk|
        ensures ps[i].ticker == w.disk[i].ticker && ps[i].price == w.disk[i].price && ps[i].fee == w.disk[i].fee
        ensures Contracts(ps[i]) == Contracts(w.disk[i])
        ensures w.disk[i].status.Settled? ==> ps[i].status.Settled? && ps[i].result == w.disk[i].result
      {}
    }
    TickOpensOnly(env, w);
    var e := EndWalk(env, w);
    assert ps <= e.positions;
    assert forall i :: 0 <= i < |ps| ==> e.positions[i] == ps[i];
  }

  lemma EventExtends(w: World, e: Event)
    requires DistinctTickers(w.disk) && CollateralWhole(w.disk)
    ensures Extends(w.disk, Apply(w, e).disk)
  {
    if e.TickEvent? {
      TickExtends(e.env, w);
    }
  }

  /** Over any run the book only grows, and no settled record is un-settled or flipped. */
  lemma {:induction false} BookOnlyGrows(w: World, es: seq<Event>, prefix: string, universe: set<Ticker>)
    requires WorldOk(w, prefix, universe) && EventsOk(es, prefix, universe)
    ensures Extends(w.disk, Run(w, es).disk)
  {
    if es == [] {
    } else {
      var init, e := es[..|es| - 1], es[|es| - 1];
      assert forall i :: 0 <= i < |init| ==> init[i] == es[i];
      BookOnlyGrows(w, init, prefix, universe);
      RunKeeps(w, init, prefix, universe);
      EventExtends(Run(w, init), e);
      ExtendsTransitive(w.disk, Run(w, init).disk, Apply(Run(w, init), e).disk);
    }
  }

  lemma ExtendsTransitive(ps: seq<Position>, qs: seq<Position>, rs: seq<Position>)
    requires Extends(ps, qs) && Extends(qs, rs)
    ensures Extends(ps, rs)
  {
    forall i | 0 <= i < |ps|
      ensures rs[i].ticker == ps[i].ticker && rs[i].price == ps[i].price && rs[i].fee == ps[i].fee
      ensures Contracts(rs[i]) == Contracts(ps[i])
      ensures ps[i].status.Settled? ==> rs[i].status.Settled? && rs[i].result == ps[i].result
    {
      assert qs[i].ticker == ps[i].ticker;
    }
  }

  /** Settled positions of a book. */
  function SettledTotal(ps: seq<Position>): nat {
    OpenCountBound(ps);
    |ps| - OpenCount(ps)
  }

  /** Between two books of a run, wins rise by at least 0 and at most the newly settled. */
  lemma {:induction false} WinsRiseWithSettled(ps: seq<Position>, qs: seq<Position>)
    requires Extends(ps, qs)
    ensures 0 <= Wins(qs) - Wins(ps) <= SettledTotal(qs) - SettledTotal(ps)
    decreases |qs|
  {
    if qs == [] {
    } else {
      var qi := qs[..|qs| - 1];
      if |ps| == |qs| {
        assert Extends(ps[..|ps| - 1], qi);
        WinsRiseWithSettled(ps[..|ps| - 1], qi);
      } else {
        assert Extends(ps, qi);
        WinsRiseWithSettled(ps, qi);
      }
    }
  }

  // ---------- what the snapshot counts ----------

  lemma {:induction false} HealKeepsOpen(ps: seq<Position>)
    ensures OpenCount(Heal(ps)) == OpenCount(ps)
  {
    if ps == [] {
    } else {
      HealKeepsOpen(ps[..|ps| - 1]);
      assert Heal(ps)[..|ps| - 1] == Heal(ps[..|ps| - 1]);
    }
  }

  /** Appending open records settles nothing. */
  lemma {:induction false} OpensSettleNothing(ps: seq<Position>, qs: seq<Position>)
    requires ps <= qs && forall i :: |ps| <= i < |qs| ==> qs[i].status.Open?
    ensures SettledTotal(qs) == SettledTotal(ps)
    ensures Wins(qs) == Wins(ps)
  {
    if |ps| < |qs| {
      OpensSettleNothing(ps, qs[..|qs| - 1]);
    } else {
      assert ps == qs;
    }
  }

  lemma ReconciledSettles(env: Env, w: World)
    ensures SettledTotal(Reconciled(env, w))
            == SettledTotal(w.disk) + SettledCount(w.disk, SettlementRows(env, w), env.settleDay)
  {
    var settled := Settle(w.disk, SettlementRows(env, w), env.settleDay);
    SettleOnce(w.disk, SettlementRows(env, w), env.settleDay);
    HealKeepsOpen(settled);
    AdoptedOrphans(Heal(settled), PositionRows(env, w));
    OpensSettleNothing(Heal(settled), Reconciled(env, w));
  }

  lemma SnapshotOfEnd(env: Env, w: World, s: Walk, e: Walk)
    requires OnlyOpens(s, e, false) && s.placed == 0
    ensures var snap := SnapshotOf(env, w, e);
      && snap.open + snap.settled == |e.positions|
      && snap.placed == |e.positions| - |s.positions|
      && snap.settled == SettledTotal(s.positions) && snap.wins == Wins(s.positions)
  {
    OpenCountBound(e.positions);
    OpensSettleNothing(s.positions, e.positions);
  }

  /**
   The counters of the snapshot are those of the saved book: open and settled make up the
   book, the settled total grew since the last save by exactly `settled_this_tick`, and the
   book grew after reconciliation by exactly `opened_this_tick`. A win is a NO, the sums are
   the saved book's to the nearest cent, and it says killed when the next tick would be.
   */
  lemma SnapshotCounts(env: Env, w: World)
    requires !env.dryRun && Tick(env, w).1.Some?
    ensures var snap, book := Tick(env, w).1.value, Tick(env, w).0.disk;
      && snap.open + snap.settled == |book|
      && snap.settled == SettledTotal(w.disk) + snap.settledNow
      && snap.placed == |book| - |Reconciled(env, w)|
      && snap.wins == Wins(Reconciled(env, w)) == |WonAt(book)|
      && snap.open == |OpenAt(book)|
      && NearestCent(snap.realized, Realized(book)) && NearestCent(snap.deployed, Deployed(book))
      && (snap.killed <==> env.envKill || Tick(env, w).0.killFile)
  {
    var e := EndWalk(env, w);
    SnapshotShows(e.positions, ReportedBalance(env, w, e), e.placed,
                  SettledCount(w.disk, SettlementRows(env, w), env.settleDay), env.envKill || e.killFile);
    TickOpensOnly(env, w);
    ReconciledSettles(env, w);
    SnapshotOfEnd(env, w, StartWalk(env, w, Reconciled(env, w)), EndWalk(env, w));
  }
}
