/** The running figures of a tick always equal the folds over the position list that define them. */
module LiveExposure {
  import opened Book
  import opened Discovery
  import opened Exchanges
  import opened Execution
  import opened LiveTick

  ghost predicate Agrees(w: Walk, startDeployed: int) {
    && w.deployed == Deployed(w.positions)
    && w.open == OpenCount(w.positions)
    && w.spent == w.deployed - startDeployed
    && forall k :: Get(w.dbu, k) == GroupDeployed(w.positions, k)
  }

  lemma RecordAgrees(w: Walk, ticker: Ticker, r: FillResult, startDeployed: int)
    requires Agrees(w, startDeployed)
    ensures Agrees(Record(w, ticker, r), startDeployed)
  {
    var p := Opened(ticker, r);
    FoldsAppend(w.positions, p);
    forall k ensures Get(Record(w, ticker, r).dbu, k) == GroupDeployed(w.positions + [p], k) {
      GroupDeployedAppend(w.positions, p, k);
    }
  }

  lemma StepAgrees(c: Ctx, w: Walk, q: Quote, startDeployed: int)
    requires Agrees(w, startDeployed)
    ensures Agrees(Step(c, w, q), startDeployed)
  {
    var w1 := w.(killFile := w.killFile || q.operatorKills);
    if Decide(c, w1, q.market).Some? && !c.env.dryRun {
      var cand := Decide(c, w1, q.market).value;
      var coid := OrderId(c, cand.ticker);
      var after := w1.(ex := Submit(w.ex, coid, cand.ticker, cand.size, cand.price, q.reply),
                       have := w.have + {cand.ticker});
      var res := Hear(w.ex, coid, cand.ticker, cand.size, cand.price, q.reply);
      if res.Some? {
        RecordAgrees(after, cand.ticker, res.value, startDeployed);
      }
    }
  }

  /**
   At every point of every tick, whatever the exchange answers, `deployed_collateral`,
   `open_positions`, `deployed_this_tick` and each entry of the correlation dictionary are
   what a recomputation from the position list would give.
   */
  lemma {:induction false} RunningFiguresAreFolds(env: Env, w: World, qs: seq<Quote>)
    ensures var ps := Reconciled(env, w);
      Agrees(WalkAll(CtxOf(env, w, ps), StartWalk(env, w, ps), qs), Deployed(ps))
  {
    var ps := Reconciled(env, w);
    if qs == [] {
      forall k ensures Get(GroupMap(ps), k) == GroupDeployed(ps, k) {
        GroupMapIs(ps, k);
      }
    } else {
      var init := qs[..|qs| - 1];
      RunningFiguresAreFolds(env, w, init);
      var v := WalkAll(CtxOf(env, w, ps), StartWalk(env, w, ps), init);
      StepAgrees(CtxOf(env, w, ps), v, qs[|qs| - 1], Deployed(ps));
    }
  }
}
