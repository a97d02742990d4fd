/** Live placement against paper discovery: the two affordability tests, and refinement. */
module LivePaper {
  import opened Options
  import opened Money
  import opened Book
  import opened Risk
  import opened Discovery
  import opened Exchanges
  import opened Execution
  import opened LiveTick
  import opened LiveInvariants
  import opened LiveExposure
  import opened LiveCaps

  // ---------- affordability ----------

  /** Money that sizing admits still fits after the collateral is rounded to cents. */
  lemma RoundedStillFits(price: int, n: int, room: int)
    requires Locked(price, n) <= room
    requires WholeCents(room) || WholeCents(price)
    ensures RoundCents(Locked(price, n)) <= room
  {
    if WholeCents(room) {
      RoundCentsBounded(Locked(price, n), room);
    } else {
      LockedWhole(price, n);
    }
  }

  /** What the gate answers to a clip of this market, priced natively or trimmed to the cap. */
  function GateOn(c: Ctx, w: Walk, cand: Candidate): Decision {
    CheckOrder(c.env.cfg, c.env.envKill || w.killFile, ExposureOf(c, w), cand.size, cand.collateral)
  }

  /** Neither the sized clip nor its trimmed form is refused for cash or for its own size. */
  ghost predicate Affords(c: Ctx, w: Walk, m: Market) {
    match SizeCandidate(c.env.cfg, m, c.env.now, c.equity, w.deployed)
    case None => true
    case Some(native) =>
      var trimmed := TrimToCap(native, c.env.cfg.maxPerTradeContracts);
      && GateOn(c, w, native) != Deny(NoFreeCash)
      && GateOn(c, w, trimmed) != Deny(NoFreeCash)
      && GateOn(c, w, trimmed) != Deny(PerTrade)
  }

  lemma GateHasCash(c: Ctx, w: Walk, cand: Candidate)
    requires cand.size >= 1 ==> w.spent + cand.collateral <= c.balance
    ensures GateOn(c, w, cand) != Deny(NoFreeCash)
    ensures cand.size <= c.env.cfg.maxPerTradeContracts ==> GateOn(c, w, cand) != Deny(PerTrade)
  {}

  lemma ClipIsAfforded(c: Ctx, w: Walk, native: Candidate)
    requires native.size >= 1 && w.spent + native.collateral <= c.balance
    requires c.env.cfg.maxPerTradeContracts >= 1 ==>
      TrimToCap(native, c.env.cfg.maxPerTradeContracts).collateral <= native.collateral
    ensures GateOn(c, w, native) != Deny(NoFreeCash)
    ensures GateOn(c, w, TrimToCap(native, c.env.cfg.maxPerTradeContracts)) != Deny(NoFreeCash)
    ensures GateOn(c, w, TrimToCap(native, c.env.cfg.maxPerTradeContracts)) != Deny(PerTrade)
  {
    GateHasCash(c, w, native);
    GateHasCash(c, w, TrimToCap(native, c.env.cfg.maxPerTradeContracts));
  }

  /**
   Sizing against start-of-tick equity and the gate's free-cash test agree: a clip that
   sizing admits is never turned away for lack of cash, before or after trimming, and a
   trimmed clip never trips the per-trade test. Whole cents on either side suffice.
   */
  lemma AffordabilityAgrees(c: Ctx, w: Walk, m: Market, startDeployed: int)
    requires c.equity == c.balance + startDeployed && w.deployed == startDeployed + w.spent
    requires (WholeCents(c.balance) && WholeCents(w.spent)) || WholeCents(m.bid.GetOr(0))
    ensures Affords(c, w, m)
  {
    if SizeCandidate(c.env.cfg, m, c.env.now, c.equity, w.deployed).Some? {
      CandidateFacts(c.env.cfg, m, c.env.now, c.equity, w.deployed);
      var native := SizeCandidate(c.env.cfg, m, c.env.now, c.equity, w.deployed).value;
      if WholeCents(c.balance) && WholeCents(w.spent) {
        WholeCentsClosed(c.balance, w.spent);
      }
      RoundedStillFits(native.price, native.size, c.balance - w.spent);
      TrimIsNative(m, native.size, c.env.cfg.maxPerTradeContracts);
      ClipIsAfforded(c, w, native);
    }
  }

  /** Everything the gate tests of a clip, except free cash. */
  function OtherTests(c: Ctx, w: Walk, cand: Candidate): Decision {
    CheckOrder(c.env.cfg, c.env.envKill || w.killFile, ExposureOf(c, w).(balance := None), cand.size, cand.collateral)
  }

  /**
   Exactly when they disagree: the other tests pass, and rounding the collateral up to the
   cent carries it past the room that sizing saw.
   */
  lemma DisagreeExactly(c: Ctx, w: Walk, m: Market, startDeployed: int)
    requires c.equity == c.balance + startDeployed && w.deployed == startDeployed + w.spent
    requires SizeCandidate(c.env.cfg, m, c.env.now, c.equity, w.deployed).Some?
    ensures var native := SizeCandidate(c.env.cfg, m, c.env.now, c.equity, w.deployed).value;
      var exact, room := Locked(native.price, native.size), c.balance - w.spent;
      && exact <= room
      && (GateOn(c, w, native) == Deny(NoFreeCash) <==> OtherTests(c, w, native).Allow? && room < RoundCents(exact))
      && (room < RoundCents(exact) ==> !WholeCents(room) && !WholeCents(native.price))
  {
    CandidateFacts(c.env.cfg, m, c.env.now, c.equity, w.deployed);
    var native := SizeCandidate(c.env.cfg, m, c.env.now, c.equity, w.deployed).value;
    var room := c.balance - w.spent;
    if WholeCents(room) || WholeCents(native.price) {
      RoundedStillFits(native.price, native.size, room);
    }
  }

  /** A market at 8.5 cents. */
  function HalfCentMarket(): Market {
    Market("KXRAIN", Some(900), Some(850), Some(1.0), Some(3600), 0.0, true)
  }

  /** An account of 91.5 cents, nothing deployed; one contract locks just that, and books 92 cents. */
  predicate HalfCentAccount(c: Ctx, w: Walk) {
    var cfg := c.env.cfg;
    && c.balance == 9150 && c.equity == 9150 && w.deployed == 0 && w.spent == 0 && w.open == 0
    && c.env.now == 0 && !c.env.envKill && !w.killFile
    && cfg.bandLow <= 900 <= cfg.bandHigh && !cfg.oiFilterEnabled && cfg.maxSecondsToClose >= 3600
    && cfg.tradeFraction == 0.02 && cfg.maxDepthFrac == 1.0 && cfg.maxPerTradeContracts >= 1
    && cfg.maxOpenPositions >= 1 && cfg.maxDeployedCollateral >= 9200 && cfg.maxDeployedFrac == 0.0
  }

  /** With fractions of a cent on both sides they do disagree: the market is sized, and refused for cash. */
  lemma FractionsCanDisagree(c: Ctx, w: Walk)
    requires HalfCentAccount(c, w)
    ensures var sized := SizeCandidate(c.env.cfg, HalfCentMarket(), c.env.now, c.equity, w.deployed);
      sized.Some? && GateOn(c, w, sized.value) == Deny(NoFreeCash)
  {
    var cfg := c.env.cfg;
    assert Trunc(cfg.maxDepthFrac * 1.0) == 1;
    assert ClipSize(cfg, 9150, 850, 1.0) == 1;
    assert Locked(850, 1) == 9150 && RoundCents(9150) == 9200;
    var sized := SizeCandidate(cfg, HalfCentMarket(), 0, 9150, 0);
    assert sized == Some(Priced(HalfCentMarket(), 1));
  }

  /**
   At any point of any tick missing cash is never the reason, if the balance read is whole
   cents or the bid is.
   */
  lemma FreeCashNeverBinds(env: Env, w: World, qs: seq<Quote>, m: Market)
    requires DistinctTickers(w.disk) && CollateralWhole(w.disk)
    requires WholeCents(w.ex.cash) || WholeCents(m.bid.GetOr(0))
    ensures var ps := Reconciled(env, w);
      Affords(CtxOf(env, w, ps), WalkAll(CtxOf(env, w, ps), StartWalk(env, w, ps), qs), m)
  {
    var ps := Reconciled(env, w);
    var c := CtxOf(env, w, ps);
    var v := WalkAll(c, StartWalk(env, w, ps), qs);
    RunningFiguresAreFolds(env, w, qs);
    ReconciledShape(env, w);
    WalkOpensOnly(c, StartWalk(env, w, ps), qs);
    SpentWhole(StartWalk(env, w, ps), v, env.dryRun);
    AffordabilityAgrees(c, v, m, Deployed(ps));
  }

  lemma SpentWhole(s: Walk, v: Walk, dryRun: bool)
    requires CollateralWhole(s.positions) && OnlyOpens(s, v, dryRun)
    requires Agrees(v, Deployed(s.positions))
    ensures WholeCents(v.spent)
  {
    forall i | 0 <= i < |v.positions| ensures WholeCents(v.positions[i].collateral.GetOr(0)) {
      if i < |s.positions| {
        assert v.positions[i] == s.positions[i];
      } else {
        assert FreshRecord(v.positions[i]);
      }
    }
    DeployedWhole(s.positions);
    DeployedWhole(v.positions);
    WholeCentsClosed(Deployed(v.positions), Deployed(s.positions));
  }

  // ---------- refinement ----------

  function Markets(qs: seq<Quote>): (ms: seq<Market>)
    ensures |ms| == |qs| && forall i :: 0 <= i < |qs| ==> ms[i] == qs[i].market
  {
    seq(|qs|, i requires 0 <= i < |qs| => qs[i].market)
  }

  /** What paper discovery makes of the markets of `qs`, from the account and book the walk starts with. */
  function Paper(c: Ctx, w: Walk, qs: seq<Quote>): Scan {
    ScanAll(c.env.cfg, c.env.now, c.equity, c.env.surfaces, Scan([], w.have, w.deployed, w.dbu), Markets(qs))
  }

  function PaperOne(c: Ctx, sc: Scan, m: Market): Scan {
    ScanOne(c.env.cfg, c.env.now, c.equity, c.env.surfaces, sc, m)
  }

  /** The clip paper sizes for a new market, before it looks at the market's group. */
  function PaperClip(c: Ctx, sc: Scan, m: Market): Option<Candidate> {
    if m.ticker in sc.have || !Passes(c.env.surfaces, m) then None
    else SizeCandidate(c.env.cfg, m, c.env.now, c.equity, sc.deployed)
  }

  /** What paper deployed fits the caps that only the gate tests. */
  predicate Room(c: Ctx, w: Walk, sc: Scan) {
    sc.cands != [] ==>
      && sc.deployed <= c.equity
      && UnderDeployedCap(c.env.cfg, Some(c.equity), sc.deployed)
      && w.open + |sc.cands| <= c.env.cfg.maxOpenPositions
  }

  /** No two candidates whose tickers agree once stripped of punctuation. */
  ghost predicate NoTwins(cands: seq<Candidate>) {
    forall i, j :: 0 <= i < j < |cands| ==> Clean(cands[i].ticker) != Clean(cands[j].ticker)
  }

  /**
   A tick in which nothing interferes with what paper takes: its candidates fit the caps of
   the gate and the per-trade cap, their ids are free, and their orders fill in full at the
   bid. Nothing is asked of the markets that paper passes over.
   */
  ghost predicate Smooth(c: Ctx, w: Walk, qs: seq<Quote>) {
    Served(c, w, qs) && Room(c, w, Paper(c, w, qs))
  }

  /** All of that but the caps that only the gate tests. */
  ghost predicate Served(c: Ctx, w: Walk, qs: seq<Quote>) {
    && Undisturbed(c, w) && NoTwins(Paper(c, w, qs).cands)
    && forall i :: 0 <= i < |qs| ==> SmoothQuote(c, w, Paper(c, w, qs[..i]), qs[i])
  }

  predicate Undisturbed(c: Ctx, w: Walk) {
    && !w.dead && !w.killFile && !c.env.envKill && !c.env.dryRun
    && w.spent == 0 && c.equity == c.balance + w.deployed
  }

  predicate SmoothQuote(c: Ctx, w: Walk, sc: Scan, q: Quote) {
    && !q.operatorKills && !q.dies
    && (PaperClip(c, sc, q.market).Some? ==>
          PaperClip(c, sc, q.market).value.size <= c.env.cfg.maxPerTradeContracts)
    && (PaperOne(c, sc, q.market) != sc ==>
          PaperClip(c, sc, q.market).Some? && FillsInFull(c, w, PaperClip(c, sc, q.market).value, q.reply))
  }

  predicate FillsInFull(c: Ctx, w: Walk, cand: Candidate, reply: Reply) {
    && cand.ticker != "" && !Closed(w.ex.settlements, cand.ticker)
    && !HasCoid(w.ex.orders, OrderId(c, cand.ticker))
    && HeardInFull(reply.answer) && reply.fill.Some?
    && reply.fill.value.price <= cand.price && cand.size <= reply.fill.value.count
  }

  /** A live position is exactly the paper candidate. */
  ghost predicate Realizes(p: Position, cand: Candidate) {
    && p.ticker == cand.ticker && p.status.Open? && p.price == Some(cand.price)
    && Contracts(p) == cand.size && p.collateral == Some(cand.collateral)
  }

  /** The live walk and the paper scan are in step. */
  ghost predicate Mirrors(c: Ctx, w0: Walk, w: Walk, sc: Scan) {
    && !w.dead && !w.killFile
    && w.ex.settlements == w0.ex.settlements
    && w.have == sc.have && w.deployed == sc.deployed
    && w.spent == w.deployed - w0.deployed
    && w.open == w0.open + |sc.cands|
    && (c.env.cfg.maxUnderlyingCollateral > 0 ==> forall k :: Get(w.dbu, k) == Get(sc.dbu, k))
    && |w.positions| == |w0.positions| + |sc.cands| && w0.positions <= w.positions
    && forall i :: 0 <= i < |sc.cands| ==> Realizes(w.positions[|w0.positions| + i], sc.cands[i])
  }

  /** The only new orders are one for each candidate. */
  ghost predicate OneOrderEach(c: Ctx, w0: Walk, w: Walk, cands: seq<Candidate>) {
    && |w.ex.orders| == |w0.ex.orders| + |cands| && w0.ex.orders <= w.ex.orders
    && forall i :: 0 <= i < |cands| ==> w.ex.orders[|w0.ex.orders| + i].coid == OrderId(c, cands[i].ticker)
  }

  /** So the id of one more candidate is free, if it was at the start. */
  lemma IdIsFree(c: Ctx, w0: Walk, w: Walk, cands: seq<Candidate>, cand: Candidate)
    requires OneOrderEach(c, w0, w, cands) && NoTwins(cands + [cand])
    requires !HasCoid(w0.ex.orders, OrderId(c, cand.ticker))
    ensures !HasCoid(w.ex.orders, OrderId(c, cand.ticker))
  {
    var more := cands + [cand];
    forall k | 0 <= k < |w.ex.orders| ensures w.ex.orders[k].coid != OrderId(c, cand.ticker) {
      var i := k - |w0.ex.orders|;
      if i < 0 {
        assert w.ex.orders[k] == w0.ex.orders[k];
      } else {
        assert w.ex.orders[|w0.ex.orders| + i].coid == OrderId(c, cands[i].ticker);
        assert more[i] == cands[i] && more[|cands|] == cand;
        ClientOrderIdInjective(c.env.cfg.orderIdPrefix, cands[i].ticker, c.env.Epoch(), cand.ticker, c.env.Epoch());
      }
    }
  }

  /** While what paper takes fits the gate's caps, the live decision is the paper decision. */
  lemma DecisionMirrors(c: Ctx, w0: Walk, w: Walk, sc: Scan, q: Quote)
    requires Undisturbed(c, w0) && Mirrors(c, w0, w, sc)
    requires SmoothQuote(c, w0, sc, q) && Room(c, w0, PaperOne(c, sc, q.market))
    ensures match Decide(c, w, q.market)
      case None => PaperOne(c, sc, q.market) == sc
      case Some(cand) =>
        PaperClip(c, sc, q.market) == Some(cand) && Follows(c, sc, cand, PaperOne(c, sc, q.market))
  {
    if PaperClip(c, sc, q.market).Some? {
      CandidateFacts(c.env.cfg, q.market, c.env.now, c.equity, sc.deployed);
      var native := PaperClip(c, sc, q.market).value;
      assert TrimToCap(native, c.env.cfg.maxPerTradeContracts) == native;
      assert UnderlyingFull(c.env.cfg, w.dbu, native) <==> UnderlyingFull(c.env.cfg, sc.dbu, native);
      GateAllowsExactly(c.env.cfg, c.env.envKill || w.killFile, ExposureOf(c, w), native.size, native.collateral);
    }
  }

  /** Paper discovery takes the candidate. */
  ghost predicate Follows(c: Ctx, sc: Scan, cand: Candidate, after: Scan) {
    && after.cands == sc.cands + [cand]
    && after.have == sc.have + {cand.ticker}
    && after.deployed == sc.deployed + cand.collateral
    && (c.env.cfg.maxUnderlyingCollateral > 0 ==>
          after.dbu == sc.dbu[UnderlyingKey(cand.ticker) := Get(sc.dbu, UnderlyingKey(cand.ticker)) + cand.collateral])
  }

  lemma FullFill(c: Ctx, w: Walk, cand: Candidate, reply: Reply)
    requires cand.ticker != "" && cand.size >= 1 && 0 < cand.price < DOLLAR
    requires reply.fill.Some? && HeardInFull(reply.answer)
    requires reply.fill.value.price <= cand.price && reply.fill.value.count >= cand.size
    requires !HasCoid(w.ex.orders, OrderId(c, cand.ticker))
    ensures var coid := OrderId(c, cand.ticker);
      var res := Hear(w.ex, coid, cand.ticker, cand.size, cand.price, reply);
      res.Some? && res.value.status.Filled? && res.value.filled == cand.size && res.value.price == cand.price
  {
    var coid := OrderId(c, cand.ticker);
    var after := Submit(w.ex, coid, cand.ticker, cand.size, cand.price, reply);
    assert after.orders[|w.ex.orders|].coid == coid;
    var o := FindOrder(after.orders, coid);
    var i :| 0 <= i < |after.orders| && after.orders[i] == o;
    assert i == |w.ex.orders|;
  }

  lemma RecordMirrors(c: Ctx, w0: Walk, w: Walk, sc: Scan, cand: Candidate, r: FillResult, after: Scan)
    requires Mirrors(c, w0, w, sc.(have := w.have)) && after.have == w.have
    requires Follows(c, sc, cand, after)
    requires cand.collateral == RoundCents(Locked(cand.price, cand.size))
    requires r.filled == cand.size && r.price == cand.price
    ensures Mirrors(c, w0, Record(w, cand.ticker, r), after)
  {
    var v := Record(w, cand.ticker, r);
    var p := Opened(cand.ticker, r);
    assert v.positions == w.positions + [p];
    assert Realizes(p, cand);
    if c.env.cfg.maxUnderlyingCollateral > 0 {
      var key := UnderlyingKey(cand.ticker);
      assert Get(w.dbu, key) == Get(sc.dbu, key);
      forall k ensures Get(v.dbu, k) == Get(after.dbu, k) {
        assert Get(w.dbu, k) == Get(sc.dbu, k);
      }
    }
    forall i | 0 <= i < |after.cands|
      ensures Realizes(v.positions[|w0.positions| + i], after.cands[i])
    {
      if i < |sc.cands| {
        assert Realizes(w.positions[|w0.positions| + i], sc.cands[i]);
      }
    }
  }

  lemma SendMirrors(c: Ctx, w0: Walk, w: Walk, sc: Scan, cand: Candidate, reply: Reply, after: Scan)
    requires Mirrors(c, w0, w, sc) && !c.env.dryRun
    requires cand.collateral == RoundCents(Locked(cand.price, cand.size))
    requires Follows(c, sc, cand, after)
    requires var coid := OrderId(c, cand.ticker);
      var res := Hear(w.ex, coid, cand.ticker, cand.size, cand.price, reply);
      res.Some? && res.value.status.Filled? && res.value.filled == cand.size && res.value.price == cand.price
    ensures Mirrors(c, w0, Send(c, w, cand, reply), after)
  {
    var coid := OrderId(c, cand.ticker);
    var r := Hear(w.ex, coid, cand.ticker, cand.size, cand.price, reply).value;
    var known := w.(ex := Submit(w.ex, coid, cand.ticker, cand.size, cand.price, reply),
                    have := w.have + {cand.ticker});
    RecordMirrors(c, w0, known, sc, cand, r, after);
  }

  lemma SentAddsOrder(c: Ctx, w0: Walk, w: Walk, cands: seq<Candidate>, cand: Candidate, reply: Reply)
    requires OneOrderEach(c, w0, w, cands) && Takes(w.ex, OrderId(c, cand.ticker), cand.ticker, reply)
    ensures OneOrderEach(c, w0, Sent(c, w, cand, reply), cands + [cand])
  {
    var v := Sent(c, w, cand, reply);
    assert v.ex.orders[..|w.ex.orders|] == w.ex.orders;
  }

  lemma SendAddsOrder(c: Ctx, w0: Walk, w: Walk, cands: seq<Candidate>, cand: Candidate, reply: Reply)
    requires OneOrderEach(c, w0, w, cands) && !c.env.dryRun
    requires Takes(w.ex, OrderId(c, cand.ticker), cand.ticker, reply)
    ensures OneOrderEach(c, w0, Send(c, w, cand, reply), cands + [cand])
  {
    SentAddsOrder(c, w0, w, cands, cand, reply);
    SendEnds(c, w, cand, reply);
  }

  lemma StepMirrors(c: Ctx, w0: Walk, w: Walk, sc: Scan, q: Quote)
    requires Undisturbed(c, w0) && Mirrors(c, w0, w, sc) && OneOrderEach(c, w0, w, sc.cands)
    requires SmoothQuote(c, w0, sc, q)
    requires Room(c, w0, PaperOne(c, sc, q.market)) && NoTwins(PaperOne(c, sc, q.market).cands)
    ensures Mirrors(c, w0, Step(c, w, q), PaperOne(c, sc, q.market))
    ensures OneOrderEach(c, w0, Step(c, w, q), PaperOne(c, sc, q.market).cands)
  {
    DecisionMirrors(c, w0, w, sc, q);
    assert w == w.(killFile := w.killFile || q.operatorKills);
    var choice := Decide(c, w, q.market);
    if choice.Some? {
      var cand, after := choice.value, PaperOne(c, sc, q.market);
      assert after != sc && FillsInFull(c, w0, cand, q.reply);
      CandidateFacts(c.env.cfg, q.market, c.env.now, c.equity, sc.deployed);
      IdIsFree(c, w0, w, sc.cands, cand);
      FullFill(c, w, cand, q.reply);
      SendMirrors(c, w0, w, sc, cand, q.reply, after);
      SendAddsOrder(c, w0, w, sc.cands, cand, q.reply);
    }
  }

  /** Paper only ever adds candidates, each for some collateral. */
  lemma {:induction false} PaperGrows(c: Ctx, w: Walk, qs: seq<Quote>, n: nat)
    requires n <= |qs|
    ensures Paper(c, w, qs[..n]).cands <= Paper(c, w, qs).cands
    ensures Paper(c, w, qs[..n]).deployed <= Paper(c, w, qs).deployed
  {
    if n == |qs| {
      assert qs[..n] == qs;
    } else {
      var init := qs[..|qs| - 1];
      assert init[..n] == qs[..n];
      PaperGrows(c, w, init, n);
      PaperSnoc(c, w, qs);
      var sc, m := Paper(c, w, init), qs[|qs| - 1].market;
      if PaperClip(c, sc, m).Some? {
        CandidateFacts(c.env.cfg, m, c.env.now, c.equity, sc.deployed);
      }
    }
  }

  lemma PaperSnoc(c: Ctx, w: Walk, qs: seq<Quote>)
    requires qs != []
    ensures Paper(c, w, qs) == PaperOne(c, Paper(c, w, qs[..|qs| - 1]), qs[|qs| - 1].market)
  {
    assert Markets(qs)[..|qs| - 1] == Markets(qs[..|qs| - 1]);
  }

  lemma SmoothPrefix(c: Ctx, w: Walk, qs: seq<Quote>, n: nat)
    requires n <= |qs| && Room(c, w, Paper(c, w, qs)) && NoTwins(Paper(c, w, qs).cands)
    ensures Room(c, w, Paper(c, w, qs[..n])) && NoTwins(Paper(c, w, qs[..n]).cands)
  {
    PaperGrows(c, w, qs, n);
  }

  lemma {:induction false} WalkMirrors(c: Ctx, w: Walk, qs: seq<Quote>, n: nat)
    requires n <= |qs| && Smooth(c, w, qs)
    ensures Mirrors(c, w, WalkAll(c, w, qs[..n]), Paper(c, w, qs[..n]))
    ensures OneOrderEach(c, w, WalkAll(c, w, qs[..n]), Paper(c, w, qs[..n]).cands)
  {
    if n == 0 {
    } else {
      WalkMirrors(c, w, qs, n - 1);
      SmoothPrefix(c, w, qs, n);
      assert qs[..n][..n - 1] == qs[..n - 1];
      PaperSnoc(c, w, qs[..n]);
      StepMirrors(c, w, WalkAll(c, w, qs[..n - 1]), Paper(c, w, qs[..n - 1]), qs[n - 1]);
    }
  }

  function MarketListings(ls: seq<Option<seq<Quote>>>): (r: seq<Option<seq<Market>>>)
    ensures |r| == |ls|
  {
    seq(|ls|, i requires 0 <= i < |ls| => match ls[i] case None => None case Some(qs) => Some(Markets(qs)))
  }

  lemma {:induction false} FlattenMarkets(ls: seq<Option<seq<Quote>>>)
    ensures Flatten(MarketListings(ls)) == Markets(Flatten(ls))
  {
    if ls == [] {
    } else {
      var init := ls[..|ls| - 1];
      FlattenMarkets(init);
      assert MarketListings(ls)[..|ls| - 1] == MarketListings(init);
      assert Markets(Flatten(ls)) == Markets(Flatten(init)) + Markets(ls[|ls| - 1].GetOr([]));
    }
  }

  /** The book is `ps` followed by exactly the paper candidates. */
  ghost predicate Plays(live: seq<Position>, ps: seq<Position>, paper: seq<Candidate>) {
    && |live| == |ps| + |paper| && ps <= live
    && forall i :: 0 <= i < |paper| ==> Realizes(live[|ps| + i], paper[i])
  }

  /** The walk opens exactly what paper takes. */
  ghost predicate WalkPlays(c: Ctx, w: Walk, qs: seq<Quote>) {
    Plays(WalkAll(c, w, qs).positions, w.positions, Paper(c, w, qs).cands)
  }

  lemma SmoothWalkPlays(c: Ctx, w: Walk, qs: seq<Quote>)
    requires Smooth(c, w, qs)
    ensures WalkPlays(c, w, qs)
  {
    WalkMirrors(c, w, qs, |qs|);
    assert qs[..|qs|] == qs;
  }

  lemma PaperIsDiscover(c: Ctx, w: Walk)
    requires !c.env.surfaces.Unavailable?
    ensures Discover(c.env.cfg, c.env.now, c.equity, c.env.surfaces, MarketListings(c.env.listings), w.have, w.deployed,
                     w.dbu)
            == Paper(c, w, Flatten(c.env.listings)).cands
  {
    FlattenMarkets(c.env.listings);
  }

  /** What paper discovery finds in the listings of the tick, from its account and its book. */
  function TickPaper(env: Env, w: World): seq<Candidate> {
    var ps := Reconciled(env, w);
    Discover(env.cfg, env.now, w.ex.cash + Deployed(ps), env.surfaces, MarketListings(env.listings), Tickers(ps),
             Deployed(ps), GroupMap(ps))
  }

  /** The tick opens exactly that. */
  ghost predicate PlaysPaper(env: Env, w: World) {
    Plays(EndWalk(env, w).positions, Reconciled(env, w), TickPaper(env, w))
  }

  ghost predicate SmoothTick(env: Env, w: World) {
    Smooth(CtxOf(env, w, Reconciled(env, w)), StartWalk(env, w, Reconciled(env, w)), Flatten(env.listings))
  }

  lemma TickPaperIs(env: Env, w: World)
    requires !env.surfaces.Unavailable?
    ensures TickPaper(env, w)
            == Paper(CtxOf(env, w, Reconciled(env, w)), StartWalk(env, w, Reconciled(env, w)),
                     Flatten(env.listings)).cands
  {
    PaperIsDiscover(CtxOf(env, w, Reconciled(env, w)), StartWalk(env, w, Reconciled(env, w)));
  }

  lemma PlaysPaperIs(env: Env, w: World)
    requires Trades(env, w, Reconciled(env, w))
    ensures PlaysPaper(env, w)
            <==> WalkPlays(CtxOf(env, w, Reconciled(env, w)), StartWalk(env, w, Reconciled(env, w)),
                           Flatten(env.listings))
  {
    var c, s := CtxOf(env, w, Reconciled(env, w)), StartWalk(env, w, Reconciled(env, w));
    TickPaperIs(env, w);
    SamePlays(EndWalk(env, w).positions, WalkAll(c, s, Flatten(env.listings)).positions, s.positions,
              TickPaper(env, w), Paper(c, s, Flatten(env.listings)).cands);
  }

  lemma SamePlays(live: seq<Position>, live': seq<Position>, ps: seq<Position>, paper: seq<Candidate>,
                  paper': seq<Candidate>)
    requires live == live' && paper == paper'
    ensures Plays(live, ps, paper) <==> Plays(live', ps, paper')
  {}

  /**
   Live refines paper: when what paper takes fits the gate's caps and fills in full, the
   interleaved live loop opens exactly the candidates `discover_candidates` returns for the
   same markets, account and starting exposure - same markets, same order, same sizes,
   prices and collateral.
   */
  lemma LiveRefinesPaper(env: Env, w: World)
    requires Trades(env, w, Reconciled(env, w)) && SmoothTick(env, w)
    ensures PlaysPaper(env, w)
  {
    var ps := Reconciled(env, w);
    SmoothWalkPlays(CtxOf(env, w, ps), StartWalk(env, w, ps), Flatten(env.listings));
    PlaysPaperIs(env, w);
  }

  /** The same from the book and the listings in hand. */
  lemma RefinesFrom(env: Env, w: World, ps: seq<Position>, qs: seq<Quote>)
    requires ps == Reconciled(env, w) && qs == Flatten(env.listings) && Trades(env, w, ps)
    requires Smooth(CtxOf(env, w, ps), StartWalk(env, w, ps), qs)
    ensures PlaysPaper(env, w) && TickPaper(env, w) == Paper(CtxOf(env, w, ps), StartWalk(env, w, ps), qs).cands
  {
    assert SmoothTick(env, w);
    LiveRefinesPaper(env, w);
    TickPaperIs(env, w);
  }

  // ---------- and only then ----------

  function TotalCollateral(cands: seq<Candidate>): int {
    if cands == [] then 0 else TotalCollateral(cands[..|cands| - 1]) + cands[|cands| - 1].collateral
  }

  lemma {:induction false} PaperDeploys(c: Ctx, w: Walk, qs: seq<Quote>)
    ensures var sc := Paper(c, w, qs);
      && sc.deployed == w.deployed + TotalCollateral(sc.cands)
      && TotalCollateral(sc.cands) >= CENT * |sc.cands|
  {
    if qs == [] {
    } else {
      var sc, m := Paper(c, w, qs[..|qs| - 1]), qs[|qs| - 1].market;
      PaperDeploys(c, w, qs[..|qs| - 1]);
      PaperSnoc(c, w, qs);
      if PaperClip(c, sc, m).Some? {
        CandidateFacts(c.env.cfg, m, c.env.now, c.equity, sc.deployed);
        assert (sc.cands + [PaperClip(c, sc, m).value])[..|sc.cands|] == sc.cands;
      }
    }
  }

  lemma {:induction false} PlayedFolds(live: seq<Position>, ps: seq<Position>, paper: seq<Candidate>)
    requires Plays(live, ps, paper)
    ensures Deployed(live) == Deployed(ps) + TotalCollateral(paper)
    ensures OpenCount(live) == OpenCount(ps) + |paper|
  {
    if paper == [] {
      assert live == ps;
    } else {
      var init, n := paper[..|paper| - 1], |paper| - 1;
      assert Realizes(live[|ps| + n], paper[n]);
      PlayedFolds(live[..|live| - 1], ps, init);
    }
  }

  /** A walk within the caps that opened what paper took had room for it. */
  lemma PlayedHadRoom(c: Ctx, s: Walk, qs: seq<Quote>, v: Walk)
    requires WithinCaps(c, s, v) && Agrees(v, s.deployed)
    requires s.deployed == Deployed(s.positions) && s.open == OpenCount(s.positions)
    requires s.spent == 0 && c.equity == c.balance + s.deployed
    requires Plays(v.positions, s.positions, Paper(c, s, qs).cands)
    ensures Room(c, s, Paper(c, s, qs))
  {
    PaperDeploys(c, s, qs);
    PlayedFolds(v.positions, s.positions, Paper(c, s, qs).cands);
  }

  ghost predicate ServedTick(env: Env, w: World) {
    Served(CtxOf(env, w, Reconciled(env, w)), StartWalk(env, w, Reconciled(env, w)), Flatten(env.listings))
  }

  ghost predicate RoomInTick(env: Env, w: World) {
    var c, s := CtxOf(env, w, Reconciled(env, w)), StartWalk(env, w, Reconciled(env, w));
    Room(c, s, Paper(c, s, Flatten(env.listings)))
  }

  lemma PlayedTickHadRoom(env: Env, w: World, listed: set<Ticker>)
    requires Trades(env, w, Reconciled(env, w)) && PlaysPaper(env, w)
    requires FreshTick(env, w, listed) && Separable(listed) && QuotesIn(Flatten(env.listings), listed)
    ensures RoomInTick(env, w)
  {
    var ps, qs := Reconciled(env, w), Flatten(env.listings);
    var c, s := CtxOf(env, w, ps), StartWalk(env, w, ps);
    PlaysPaperIs(env, w);
    RunningFiguresAreFolds(env, w, qs);
    WalkWithinCaps(c, s, qs, listed);
    PlayedHadRoom(c, s, qs, WalkAll(c, s, qs));
  }

  /**
   The condition on the caps is exact: where what paper takes fills in full and no listed
   market is barred by an order of an earlier tick, live opens just the candidates of paper
   if and only if they fit the caps that only the gate tests.
   */
  lemma LiveRefinesPaperExactly(env: Env, w: World, listed: set<Ticker>)
    requires Trades(env, w, Reconciled(env, w)) && ServedTick(env, w)
    requires FreshTick(env, w, listed) && Separable(listed) && QuotesIn(Flatten(env.listings), listed)
    ensures PlaysPaper(env, w) <==> RoomInTick(env, w)
  {
    if RoomInTick(env, w) {
      LiveRefinesPaper(env, w);
    }
    if PlaysPaper(env, w) {
      PlayedTickHadRoom(env, w, listed);
    }
  }

  /** What paper deploys fits in equity, if that is whole cents. */
  lemma {:induction false} PaperFitsEquity(c: Ctx, w: Walk, qs: seq<Quote>)
    requires WholeCents(c.equity) && WholeCents(w.deployed)
    ensures var sc := Paper(c, w, qs);
      WholeCents(sc.deployed) && (sc.cands != [] ==> sc.deployed <= c.equity)
  {
    if qs == [] {
    } else {
      var sc, m := Paper(c, w, qs[..|qs| - 1]), qs[|qs| - 1].market;
      PaperFitsEquity(c, w, qs[..|qs| - 1]);
      PaperSnoc(c, w, qs);
      if PaperClip(c, sc, m).Some? {
        CandidateFacts(c.env.cfg, m, c.env.now, c.equity, sc.deployed);
        var native := PaperClip(c, sc, m).value;
        WholeCentsClosed(c.equity, sc.deployed);
        RoundedStillFits(native.price, native.size, c.equity - sc.deployed);
        WholeCentsClosed(sc.deployed, native.collateral);
      }
    }
  }
}
