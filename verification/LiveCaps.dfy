/** Order and exposure caps, over every tick and every answer of the exchange. */
module LiveCaps {
  import opened Options
  import opened Money
  import opened Config
  import opened Book
  import opened Reconcile
  import opened Risk
  import opened Discovery
  import opened Exchanges
  import opened Execution
  import opened LiveTick
  import opened LiveInvariants

  /** Every market the exchange has filled and not settled is known to the tick. */
  ghost predicate Known(w: Walk) {
    forall i :: 0 <= i < |w.ex.orders| && w.ex.orders[i].filled > 0 ==>
      w.ex.orders[i].ticker in w.have || Closed(w.ex.settlements, w.ex.orders[i].ticker)
  }

  /** Reading positions makes every filled, unsettled market known, even after a crash. */
  lemma ReadingPositionsMakesKnown(env: Env, w: World)
    requires DistinctTickers(w.disk) && CollateralWhole(w.disk) && env.positionsRead
    requires forall i :: 0 <= i < |w.ex.orders| ==> OrderOk(w.ex.orders[i])
    ensures Known(StartWalk(env, w, Reconciled(env, w)))
    ensures forall t :: HasFill(w.ex.orders, t) && !Closed(w.ex.settlements, t) ==> t in Tickers(Reconciled(env, w))
  {
    var kept := Heal(Settle(w.disk, SettlementRows(env, w), env.settleDay));
    assert forall i :: 0 <= i < |kept| ==> kept[i].ticker == w.disk[i].ticker;
    AdoptKeeps(kept, Holdings(w.ex));
    forall t | HasFill(w.ex.orders, t) && !Closed(w.ex.settlements, t)
      ensures t in Tickers(Reconciled(env, w))
    {
      HoldingsShow(w.ex, t);
    }
    forall i | 0 <= i < |w.ex.orders| && w.ex.orders[i].filled > 0
      ensures w.ex.orders[i].ticker in Tickers(Reconciled(env, w)) || Closed(w.ex.settlements, w.ex.orders[i].ticker)
    {
      assert HasFill(w.ex.orders, w.ex.orders[i].ticker);
    }
  }

  /**
   When every fill is known, no order under the id of a market still to be sold carries a
   fill, unless two tickers differ only in punctuation.
   */
  lemma KnownIsFresh(w: Walk, ticker: Ticker, epoch: nat, prefix: string, universe: set<Ticker>)
    requires Known(w) && OrdersFrom(w.ex.orders, prefix, universe) && Separable(universe)
    requires ticker in universe && ticker !in w.have && !Closed(w.ex.settlements, ticker)
    ensures !FilledUnder(w.ex.orders, ClientOrderId(prefix, ticker, epoch))
  {
    var coid := ClientOrderId(prefix, ticker, epoch);
    if HasCoid(w.ex.orders, coid) {
      var o := FindOrder(w.ex.orders, coid);
      var i :| 0 <= i < |w.ex.orders| && w.ex.orders[i] == o;
      var e: nat :| o.coid == ClientOrderId(prefix, o.ticker, e);
      ClientOrderIdInjective(prefix, o.ticker, e, ticker, epoch);
      assert o.ticker == ticker;
    }
  }

  /**
   When every fill is known, whatever the client hears of an order is that very order's
   fill: a stale order with the same id never stands in for it.
   */
  lemma HeardIsThisOrder(w: Walk, ticker: Ticker, count: int, limit: int, epoch: nat, reply: Reply,
                         prefix: string, universe: set<Ticker>)
    requires Known(w) && OrdersFrom(w.ex.orders, prefix, universe) && Separable(universe)
    requires ticker in universe && ticker !in w.have && !Closed(w.ex.settlements, ticker)
    requires count >= 1
    ensures var coid := ClientOrderId(prefix, ticker, epoch);
      var res := Hear(w.ex, coid, ticker, count, limit, reply);
      res.Some? && IsBooked(res.value) ==>
        Takes(w.ex, coid, ticker, reply)
        && Carries(res.value, FillOf(coid, ticker, count, limit, reply.fill.value))
  {
    KnownIsFresh(w, ticker, epoch, prefix, universe);
    HeardIsOneOf(w.ex, ClientOrderId(prefix, ticker, epoch), ticker, count, limit, reply);
  }

  // ---------- the caps ----------

  /** Contracts and limit of every order sent so far in this tick are in range. */
  ghost predicate PostsWithin(cfg: Config, before: seq<Post>, posts: seq<Post>) {
    before <= posts
    && forall i :: |before| <= i < |posts| ==>
         1 <= posts[i].count <= cfg.maxPerTradeContracts && 0 < posts[i].limit < DOLLAR
  }

  /** The tick has not exceeded a cap that it did not already exceed when it started. */
  ghost predicate WithinCaps(c: Ctx, s: Walk, w: Walk) {
    var cfg := c.env.cfg;
    && PostsWithin(cfg, s.ex.posts, w.ex.posts)
    && (w.deployed == s.deployed || UnderDeployedCap(cfg, Some(c.equity), w.deployed))
    && w.open <= Max(s.open, cfg.maxOpenPositions)
    && s.spent <= w.spent <= Max(s.spent, c.balance)
    && (cfg.maxUnderlyingCollateral > 0 ==>
          forall k :: Get(w.dbu, k) <= Max(Get(s.dbu, k), cfg.maxUnderlyingCollateral))
  }

  /** What the tick established before sending; see `DecideFacts`. */
  ghost predicate Admitted(c: Ctx, w: Walk, cand: Candidate) {
    && cand.ticker !in w.have && !Closed(w.ex.settlements, cand.ticker)
    && 0 < cand.price < DOLLAR && 1 <= cand.size <= c.env.cfg.maxPerTradeContracts
    && cand.collateral == RoundCents(Locked(cand.price, cand.size))
    && w.open < c.env.cfg.maxOpenPositions
    && UnderDeployedCap(c.env.cfg, Some(c.equity), w.deployed + cand.collateral)
    && w.spent + cand.collateral <= c.balance
    && !UnderlyingFull(c.env.cfg, w.dbu, cand)
  }

  /** There is room, under every cap, for booking `collateral` on a market of group `key`. */
  predicate Fits(c: Ctx, s: Walk, w: Walk, key: string, collateral: int) {
    && (w.deployed + collateral == s.deployed
        || UnderDeployedCap(c.env.cfg, Some(c.equity), w.deployed + collateral))
    && w.open + 1 <= Max(s.open, c.env.cfg.maxOpenPositions)
    && s.spent <= w.spent + collateral <= Max(s.spent, c.balance)
    && (c.env.cfg.maxUnderlyingCollateral > 0 ==>
          Get(w.dbu, key) + collateral <= Max(Get(s.dbu, key), c.env.cfg.maxUnderlyingCollateral))
  }

  lemma RecordFits(c: Ctx, s: Walk, w: Walk, ticker: Ticker, r: FillResult)
    requires WithinCaps(c, s, w)
    ensures WithinCaps(c, s, Record(w, ticker, r))
            <==> Fits(c, s, w, UnderlyingKey(ticker), RoundCents(Locked(r.price, r.filled)))
  {
    var v, key := Record(w, ticker, r), UnderlyingKey(ticker);
    assert Get(v.dbu, key) == Get(w.dbu, key) + RoundCents(Locked(r.price, r.filled));
    assert forall k :: k != key ==> Get(v.dbu, k) == Get(w.dbu, k);
  }

  /** The fill of an admitted order fits, however small and however well priced. */
  lemma AdmittedFits(c: Ctx, s: Walk, w: Walk, cand: Candidate, price: int, filled: int)
    requires WithinCaps(c, s, w) && Admitted(c, w, cand)
    requires 0 < filled <= cand.size && cand.price <= price <= DOLLAR
    ensures Fits(c, s, w, UnderlyingKey(cand.ticker), RoundCents(Locked(price, filled)))
  {
    BookedMonotone(cand.price, cand.size, price, filled);
    LessIsUnderCap(c.env.cfg, Some(c.equity), w.deployed + RoundCents(Locked(price, filled)),
                   w.deployed + cand.collateral);
  }

  lemma LessIsUnderCap(cfg: Config, equity: Option<int>, x: int, y: int)
    requires x <= y && UnderDeployedCap(cfg, equity, y)
    ensures UnderDeployedCap(cfg, equity, x)
  {}

  /**
   Booking the order that already holds the id of this one would stay within every cap. The
   tick could compute it before sending.
   */
  predicate StaleFits(c: Ctx, s: Walk, w: Walk, cand: Candidate) {
    FilledUnder(w.ex.orders, OrderId(c, cand.ticker)) ==>
      var o := FindOrder(w.ex.orders, OrderId(c, cand.ticker));
      Fits(c, s, w, UnderlyingKey(cand.ticker), RoundCents(Locked(o.price, o.filled)))
  }

  lemma SentWithinCaps(c: Ctx, s: Walk, w: Walk, cand: Candidate, reply: Reply)
    requires WithinCaps(c, s, w) && Admitted(c, w, cand)
    ensures WithinCaps(c, s, Sent(c, w, cand, reply))
    ensures WithinCaps(c, s, Sent(c, w, cand, reply).(have := w.have, dead := true))
  {}

  /** A fill is booked on top of what was sent. */
  ghost predicate BooksFill(c: Ctx, w: Walk, cand: Candidate, reply: Reply, v: Walk) {
    exists r ::
      && BooksOneOf(w.ex, OrderId(c, cand.ticker), cand.ticker, cand.size, cand.price, reply, r)
      && v == Record(Sent(c, w, cand, reply), cand.ticker, r)
  }

  /** The tick dies, or books nothing, or books a fill. */
  lemma SendCases(c: Ctx, w: Walk, cand: Candidate, reply: Reply)
    requires !c.env.dryRun && cand.size >= 1
    ensures var v, sent := Send(c, w, cand, reply), Sent(c, w, cand, reply);
      v == sent.(have := w.have, dead := true) || v == sent || BooksFill(c, w, cand, reply, v)
  {
    HeardIsOneOf(w.ex, OrderId(c, cand.ticker), cand.ticker, cand.size, cand.price, reply);
    var res := Hear(w.ex, OrderId(c, cand.ticker), cand.ticker, cand.size, cand.price, reply);
    if res.Some? && IsBooked(res.value) {
      assert Send(c, w, cand, reply) == Record(Sent(c, w, cand, reply), cand.ticker, res.value);
    }
  }

  lemma BookedFits(c: Ctx, s: Walk, w: Walk, cand: Candidate, reply: Reply, r: FillResult)
    requires WithinCaps(c, s, w) && Admitted(c, w, cand) && StaleFits(c, s, w, cand)
    requires BooksOneOf(w.ex, OrderId(c, cand.ticker), cand.ticker, cand.size, cand.price, reply, r)
    ensures Fits(c, s, w, UnderlyingKey(cand.ticker), RoundCents(Locked(r.price, r.filled)))
  {
    if !HasCoid(w.ex.orders, OrderId(c, cand.ticker)) {
      AdmittedFits(c, s, w, cand, r.price, r.filled);
    }
  }

  lemma SendFitting(c: Ctx, s: Walk, w: Walk, cand: Candidate, reply: Reply)
    requires WithinCaps(c, s, w) && Admitted(c, w, cand) && !c.env.dryRun && StaleFits(c, s, w, cand)
    ensures WithinCaps(c, s, Send(c, w, cand, reply))
  {
    var v := Send(c, w, cand, reply);
    SentWithinCaps(c, s, w, cand, reply);
    SendCases(c, w, cand, reply);
    if BooksFill(c, w, cand, reply, v) {
      var r :| BooksOneOf(w.ex, OrderId(c, cand.ticker), cand.ticker, cand.size, cand.price, reply, r)
        && v == Record(Sent(c, w, cand, reply), cand.ticker, r);
      BookedFits(c, s, w, cand, reply, r);
      RecordFits(c, s, Sent(c, w, cand, reply), cand.ticker, r);
    }
  }

  /** A refused order whose reply is lost and whose confirmation finds whatever holds the id. */
  function StaleReply(): Reply {
    Reply(None, Lost(SearchFinds(Inline)))
  }

  /** Such a reply books the order that holds the id, whatever was asked for now. */
  lemma StaleIsBooked(c: Ctx, w: Walk, cand: Candidate)
    requires !c.env.dryRun && FilledUnder(w.ex.orders, OrderId(c, cand.ticker))
    ensures var o := FindOrder(w.ex.orders, OrderId(c, cand.ticker));
      exists r :: Carries(r, o)
        && Send(c, w, cand, StaleReply()) == Record(Sent(c, w, cand, StaleReply()), cand.ticker, r)
  {
    var coid := OrderId(c, cand.ticker);
    var r := Hear(w.ex, coid, cand.ticker, cand.size, cand.price, StaleReply()).value;
    assert Carries(r, FindOrder(w.ex.orders, coid));
  }

  /** An admitted order keeps every cap, whatever the exchange answers. */
  ghost predicate AlwaysWithinCaps(c: Ctx, s: Walk, w: Walk, cand: Candidate) {
    forall reply :: WithinCaps(c, s, Send(c, w, cand, reply))
  }

  /**
   The exact condition: an admitted order keeps every cap under every answer of the exchange
   exactly when no filled order holds its id, or booking that order would keep them too.
   */
  lemma SendWithinCapsExactly(c: Ctx, s: Walk, w: Walk, cand: Candidate)
    requires WithinCaps(c, s, w) && Admitted(c, w, cand) && !c.env.dryRun
    ensures AlwaysWithinCaps(c, s, w, cand) <==> StaleFits(c, s, w, cand)
  {
    if StaleFits(c, s, w, cand) {
      forall reply ensures WithinCaps(c, s, Send(c, w, cand, reply)) {
        SendFitting(c, s, w, cand, reply);
      }
    }
    if AlwaysWithinCaps(c, s, w, cand) && FilledUnder(w.ex.orders, OrderId(c, cand.ticker)) {
      assert WithinCaps(c, s, Send(c, w, cand, StaleReply()));
      StaleIsBooked(c, w, cand);
      var r :| Carries(r, FindOrder(w.ex.orders, OrderId(c, cand.ticker)))
        && Send(c, w, cand, StaleReply()) == Record(Sent(c, w, cand, StaleReply()), cand.ticker, r);
      SentWithinCaps(c, s, w, cand, StaleReply());
      RecordFits(c, s, Sent(c, w, cand, StaleReply()), cand.ticker, r);
    }
  }

  // ---------- the walk ----------

  /** No filled order holds the id of a listed market that is still to be sold. */
  ghost predicate Fresh(c: Ctx, w: Walk, listed: set<Ticker>) {
    forall t :: t in listed && t !in w.have && !Closed(w.ex.settlements, t) ==>
      !FilledUnder(w.ex.orders, OrderId(c, t))
  }

  lemma OtherIdStaysFresh(os: seq<Order>, o: Order, coid: string)
    requires !FilledUnder(os, coid) && o.coid != coid
    ensures !FilledUnder(os + [o], coid)
  {
    CoidAppend(os, o, coid);
    if HasCoid(os, coid) {
      FindOrderAppend(os, o, coid);
    }
  }

  lemma SentStaysFresh(c: Ctx, w: Walk, cand: Candidate, reply: Reply, listed: set<Ticker>)
    requires Fresh(c, w, listed) && Separable(listed) && cand.ticker in listed
    ensures Fresh(c, Sent(c, w, cand, reply), listed)
  {
    var v := Sent(c, w, cand, reply);
    forall t | t in listed && t !in v.have && !Closed(v.ex.settlements, t)
      ensures !FilledUnder(v.ex.orders, OrderId(c, t))
    {
      if v.ex.orders != w.ex.orders {
        ClientOrderIdInjective(c.env.cfg.orderIdPrefix, t, c.env.Epoch(), cand.ticker, c.env.Epoch());
        OtherIdStaysFresh(w.ex.orders, v.ex.orders[|w.ex.orders|], OrderId(c, t));
      }
    }
  }

  lemma SendStaysFresh(c: Ctx, w: Walk, cand: Candidate, reply: Reply, listed: set<Ticker>)
    requires Fresh(c, w, listed) && Separable(listed) && cand.ticker in listed
    ensures Fresh(c, Send(c, w, cand, reply), listed) || Send(c, w, cand, reply).dead
  {
    if !c.env.dryRun {
      SentStaysFresh(c, w, cand, reply, listed);
      SendEnds(c, w, cand, reply);
    }
  }

  lemma StepWithinCaps(c: Ctx, s: Walk, w: Walk, q: Quote, listed: set<Ticker>)
    requires WithinCaps(c, s, w) && Fresh(c, w, listed) && Separable(listed) && q.market.ticker in listed
    ensures WithinCaps(c, s, Step(c, w, q))
    ensures Fresh(c, Step(c, w, q), listed) || Step(c, w, q).dead
  {
    var w1 := w.(killFile := w.killFile || q.operatorKills);
    if !(w.dead || Closed(w.ex.settlements, q.market.ticker)) && Decide(c, w1, q.market).Some? {
      var cand := Decide(c, w1, q.market).value;
      DecideFacts(c, w1, q.market);
      SendStaysFresh(c, w1, cand, q.reply, listed);
      if !c.env.dryRun {
        SendFitting(c, s, w1, cand, q.reply);
      }
    }
  }

  lemma {:induction false} WalkWithinCaps(c: Ctx, s: Walk, qs: seq<Quote>, listed: set<Ticker>)
    requires Fresh(c, s, listed) && Separable(listed) && QuotesIn(qs, listed)
    ensures WithinCaps(c, s, WalkAll(c, s, qs))
    ensures Fresh(c, WalkAll(c, s, qs), listed) || WalkAll(c, s, qs).dead
  {
    if qs == [] {
    } else {
      var init := qs[..|qs| - 1];
      assert QuotesIn(init, listed);
      WalkWithinCaps(c, s, init, listed);
      var w := WalkAll(c, s, init);
      if !w.dead {
        StepWithinCaps(c, s, w, qs[|qs| - 1], listed);
      }
    }
  }

  // ---------- the tick ----------

  /** Within the caps after `seen` of the tick's markets. */
  ghost predicate TickWithin(env: Env, w: World, seen: nat)
    requires seen <= |Flatten(env.listings)|
  {
    var ps := Reconciled(env, w);
    WithinCaps(CtxOf(env, w, ps), StartWalk(env, w, ps),
               WalkAll(CtxOf(env, w, ps), StartWalk(env, w, ps), Flatten(env.listings)[..seen]))
  }

  /** As the tick starts, no filled order holds the id of a listed market it may sell. */
  ghost predicate FreshTick(env: Env, w: World, listed: set<Ticker>) {
    Fresh(CtxOf(env, w, Reconciled(env, w)), StartWalk(env, w, Reconciled(env, w)), listed)
  }

  /**
   A tick that starts with its ids unused respects every cap after every market, for every
   way the exchange may answer: per-trade size, deployed collateral, open positions, free
   cash, and each correlation group. Nothing is asked of the reads or of the book.
   */
  lemma TickWithinCaps(env: Env, w: World, listed: set<Ticker>, seen: nat)
    requires FreshTick(env, w, listed) && Separable(listed) && QuotesIn(Flatten(env.listings), listed)
    requires seen <= |Flatten(env.listings)|
    ensures TickWithin(env, w, seen)
  {
    var ps := Reconciled(env, w);
    WalkWithinCaps(CtxOf(env, w, ps), StartWalk(env, w, ps), Flatten(env.listings)[..seen], listed);
  }

  /** Reading the positions makes the tick start fresh. */
  lemma ReadingIsFresh(env: Env, w: World, prefix: string, universe: set<Ticker>)
    requires WorldOk(w, prefix, universe) && EnvOk(env, prefix, universe) && Separable(universe)
    requires env.positionsRead
    ensures FreshTick(env, w, universe)
  {
    var ps := Reconciled(env, w);
    ReadingPositionsMakesKnown(env, w);
    forall t | t in universe && t !in Tickers(ps) && !Closed(w.ex.settlements, t)
      ensures !FilledUnder(w.ex.orders, OrderId(CtxOf(env, w, ps), t))
    {
      KnownIsFresh(StartWalk(env, w, ps), t, env.Epoch(), prefix, universe);
    }
  }

  /** No accepted order is of the hour `epoch`. */
  ghost predicate HourUnused(os: seq<Order>, prefix: string, epoch: nat) {
    forall i :: 0 <= i < |os| ==> exists e: nat :: e != epoch && os[i].coid == ClientOrderId(prefix, os[i].ticker, e)
  }

  /** So does a new hour, whatever was read and however the tickers are punctuated. */
  lemma NewHourIsFresh(env: Env, w: World, listed: set<Ticker>)
    requires HourUnused(w.ex.orders, env.cfg.orderIdPrefix, env.Epoch())
    ensures FreshTick(env, w, listed)
  {
    var c := CtxOf(env, w, Reconciled(env, w));
    forall t | t in listed ensures !HasCoid(w.ex.orders, OrderId(c, t)) {
      forall i | 0 <= i < |w.ex.orders| ensures w.ex.orders[i].coid != OrderId(c, t) {
        var o, prefix := w.ex.orders[i], env.cfg.orderIdPrefix;
        var e: nat :| e != env.Epoch() && o.coid == ClientOrderId(prefix, o.ticker, e);
        ClientOrderIdInjective(prefix, o.ticker, e, t, env.Epoch());
      }
    }
  }

  /** From an empty account, after any run: a tick that reads its positions keeps every cap. */
  lemma ReachableTickWithinCaps(cash: int, es: seq<Event>, env: Env, prefix: string, universe: set<Ticker>, seen: nat)
    requires EventsOk(es, prefix, universe) && EnvOk(env, prefix, universe) && Separable(universe)
    requires env.positionsRead && seen <= |Flatten(env.listings)|
    ensures TickWithin(env, Run(Genesis(cash), es), seen)
  {
    RunKeepsGenesis(cash, es, prefix, universe);
    ReadingIsFresh(env, Run(Genesis(cash), es), prefix, universe);
    TickWithinCaps(env, Run(Genesis(cash), es), universe, seen);
  }

  // ---------- what is booked ----------

  /** Whatever is booked for `ticker` is on a market that traded. */
  ghost predicate BooksOnlyFills(w: Walk, v: Walk, ticker: Ticker) {
    |v.positions| > |w.positions| ==> HasFill(v.ex.orders, ticker)
  }

  ghost predicate AlwaysBooksOnlyFills(c: Ctx, w: Walk, cand: Candidate) {
    forall reply :: BooksOnlyFills(w, Send(c, w, cand, reply), cand.ticker)
  }

  /**
   A lost reply books a position on a market that never traded exactly when a filled order
   of another market - one whose ticker differs only in punctuation - holds the id.
   */
  lemma PhantomExactly(c: Ctx, w: Walk, cand: Candidate)
    requires !c.env.dryRun && cand.size >= 1
    ensures AlwaysBooksOnlyFills(c, w, cand)
            <==> (FilledUnder(w.ex.orders, OrderId(c, cand.ticker)) ==> HasFill(w.ex.orders, cand.ticker))
  {
    var coid := OrderId(c, cand.ticker);
    if FilledUnder(w.ex.orders, coid) ==> HasFill(w.ex.orders, cand.ticker) {
      forall reply ensures BooksOnlyFills(w, Send(c, w, cand, reply), cand.ticker) {
        BookedIsFill(c, w, cand, reply);
      }
    }
    if AlwaysBooksOnlyFills(c, w, cand) && FilledUnder(w.ex.orders, coid) {
      assert BooksOnlyFills(w, Send(c, w, cand, StaleReply()), cand.ticker);
      StaleIsBooked(c, w, cand);
    }
  }

  lemma BookedIsFill(c: Ctx, w: Walk, cand: Candidate, reply: Reply)
    requires !c.env.dryRun && cand.size >= 1
    requires FilledUnder(w.ex.orders, OrderId(c, cand.ticker)) ==> HasFill(w.ex.orders, cand.ticker)
    ensures BooksOnlyFills(w, Send(c, w, cand, reply), cand.ticker)
  {
    var coid := OrderId(c, cand.ticker);
    var os := Submit(w.ex, coid, cand.ticker, cand.size, cand.price, reply).orders;
    HeardIsOneOf(w.ex, coid, cand.ticker, cand.size, cand.price, reply);
    if HasFill(w.ex.orders, cand.ticker) {
      var i :| 0 <= i < |w.ex.orders| && w.ex.orders[i].ticker == cand.ticker && w.ex.orders[i].filled > 0;
      assert os[i] == w.ex.orders[i];
    } else if Takes(w.ex, coid, cand.ticker, reply) {
      var o := FillOf(coid, cand.ticker, cand.size, cand.price, reply.fill.value);
      assert os[|w.ex.orders|] == o && o.ticker == cand.ticker;
    }
  }

  lemma SentKnows(c: Ctx, w: Walk, cand: Candidate, reply: Reply)
    requires Known(w)
    ensures Known(Sent(c, w, cand, reply))
  {
    var sent := Sent(c, w, cand, reply);
    forall i | 0 <= i < |sent.ex.orders| && sent.ex.orders[i].filled > 0
      ensures sent.ex.orders[i].ticker in sent.have || Closed(sent.ex.settlements, sent.ex.orders[i].ticker)
    {
      if i < |w.ex.orders| {
        assert sent.ex.orders[i] == w.ex.orders[i];
      }
    }
  }

  lemma SendKnows(c: Ctx, w: Walk, cand: Candidate, reply: Reply)
    requires Known(w)
    ensures Known(Send(c, w, cand, reply)) || Send(c, w, cand, reply).dead
  {
    if !c.env.dryRun {
      SentKnows(c, w, cand, reply);
      SendEnds(c, w, cand, reply);
    }
  }
}
