/** The knobs of the longshot harness that the modelled code reads. Money is in 1e-4 dollars. */
module Config {
  datatype Config = Config(
    bandLow: int,
    bandHigh: int,
    maxSecondsToClose: int,
    tradeFraction: real,
    maxDepthFrac: real,
    oiFilterEnabled: bool,
    oiMax: real,
    oiKeepHigh: bool,
    maxUnderlyingCollateral: int,
    maxDeployedCollateral: int,
    maxDeployedFrac: real,
    maxPerTradeContracts: int,
    maxOpenPositions: int,
    maxDailyLoss: int,
    maxDailyLossFrac: real,
    orderIdPrefix: string
  )
}

/** The risk gate: caps, the daily-loss breaker, and the per-order test. */
module Risk {
  import opened Options
  import opened Reals
  import opened Config

  datatype Reason = Killed | DailyLoss | ZeroContracts | PerTrade | TooManyOpen | OverDeployed | NoFreeCash
  datatype Decision = Allow | Deny(reason: Reason)

  /** What the gate reads of the running tick: exposure so far, and the start-of-tick account. */
  datatype Exposure = Exposure(
    deployed: int,
    open: nat,
    realizedToday: int,
    balance: Option<int>,
    deployedThisTick: int,
    equity: Option<int>
  )

  function DeployedCap(cfg: Config, equity: Option<int>): real {
    var cap := cfg.maxDeployedCollateral as real;
    if cfg.maxDeployedFrac > 0.0 && equity.Some?
    then MinReal(cap, cfg.maxDeployedFrac * equity.value as real)
    else cap
  }

  function Abs(x: int): nat {
    if x < 0 then -x else x
  }

  /** The breaker's threshold: a fraction of start-of-day equity, under the absolute ceiling. */
  function DailyLossCap(cfg: Config, equity: Option<int>, realizedToday: int): real {
    var cap := Abs(cfg.maxDailyLoss) as real;
    if cfg.maxDailyLossFrac > 0.0 && equity.Some?
    then MinReal(cap, cfg.maxDailyLossFrac * (equity.value - realizedToday) as real)
    else cap
  }

  predicate DailyLossHit(cfg: Config, equity: Option<int>, realizedToday: int) {
    realizedToday as real <= -DailyLossCap(cfg, equity, realizedToday)
  }

  function Pretick(cfg: Config, killed: bool, x: Exposure): Decision {
    if killed then Deny(Killed)
    else if DailyLossHit(cfg, x.equity, x.realizedToday) then Deny(DailyLoss)
    else Allow
  }

  function CheckOrder(cfg: Config, killed: bool, x: Exposure, contracts: int, collateral: int): Decision {
    if killed then Deny(Killed)
    else if contracts < 1 then Deny(ZeroContracts)
    else if contracts > cfg.maxPerTradeContracts then Deny(PerTrade)
    else if x.open >= cfg.maxOpenPositions then Deny(TooManyOpen)
    else if (x.deployed + collateral) as real > DeployedCap(cfg, x.equity) then Deny(OverDeployed)
    else if x.balance.Some? && x.deployedThisTick + collateral > x.balance.value then Deny(NoFreeCash)
    else Allow
  }

  /**
   The day's loss is as large as the absolute limit, or - with the fraction on and equity
   known - as that fraction of what the account held before it: equity plus the loss.
   */
  predicate LossReached(cfg: Config, equity: Option<int>, realizedToday: int) {
    var loss := -realizedToday;
    || (loss >= cfg.maxDailyLoss && loss >= -cfg.maxDailyLoss)
    || (cfg.maxDailyLossFrac > 0.0 && equity.Some?
        && loss as real >= cfg.maxDailyLossFrac * (equity.value + loss) as real)
  }

  /** The breaker trips exactly on such a day, in profit or in loss; the kill switch goes first. */
  lemma PretickTripsExactly(cfg: Config, killed: bool, x: Exposure)
    ensures killed ==> Pretick(cfg, killed, x) == Deny(Killed)
    ensures Pretick(cfg, killed, x) == Deny(DailyLoss) <==> !killed && LossReached(cfg, x.equity, x.realizedToday)
    ensures Pretick(cfg, killed, x) == Allow <==> !killed && !LossReached(cfg, x.equity, x.realizedToday)
  {
    var r := x.realizedToday;
    if cfg.maxDailyLossFrac > 0.0 && x.equity.Some? {
      assert x.equity.value - r == x.equity.value + (-r);
    }
  }

  /** A total of `x` is within the deployed cap: under the ceiling, and under the fraction of equity if it is on. */
  predicate UnderDeployedCap(cfg: Config, equity: Option<int>, x: int) {
    && x <= cfg.maxDeployedCollateral
    && (cfg.maxDeployedFrac > 0.0 && equity.Some? ==> x as real <= cfg.maxDeployedFrac * equity.value as real)
  }

  lemma DeployedCapIs(cfg: Config, equity: Option<int>, x: int)
    ensures x as real <= DeployedCap(cfg, equity) <==> UnderDeployedCap(cfg, equity, x)
  {}

  /** An order passes the gate exactly when it passes every test. */
  lemma GateAllowsExactly(cfg: Config, killed: bool, x: Exposure, contracts: int, collateral: int)
    ensures CheckOrder(cfg, killed, x, contracts, collateral).Allow?
            <==> && !killed
                 && 1 <= contracts <= cfg.maxPerTradeContracts
                 && x.open < cfg.maxOpenPositions
                 && UnderDeployedCap(cfg, x.equity, x.deployed + collateral)
                 && (x.balance.Some? ==> x.deployedThisTick + collateral <= x.balance.value)
  {
    DeployedCapIs(cfg, x.equity, x.deployed + collateral);
  }

  /**
   On a day in profit the breaker stays silent, whatever the caps, as long as equity is
   not negative and the fraction is a proper one.
   */
  lemma NoTripInProfit(cfg: Config, equity: Option<int>, realizedToday: int)
    requires equity.Some? ==> equity.value >= 0
    requires 0.0 <= cfg.maxDailyLossFrac < 1.0
    requires realizedToday > 0
    ensures !DailyLossHit(cfg, equity, realizedToday)
  {
    if cfg.maxDailyLossFrac > 0.0 && equity.Some? {
      var f, e, r := cfg.maxDailyLossFrac, equity.value as real, realizedToday as real;
      assert f * e >= 0.0;
      assert f * r < r;
      assert f * (e - r) == f * e - f * r;
    }
  }

  /**
   Both hypotheses of `NoTripInProfit` matter: with the fraction on, a profitable day
   trips the breaker exactly when the fraction of start-of-day equity is no larger than
   minus the profit.
   */
  lemma TripInProfitExactly(cfg: Config, equity: int, realizedToday: int)
    requires realizedToday > 0
    ensures DailyLossHit(cfg, Some(equity), realizedToday) <==>
            cfg.maxDailyLossFrac > 0.0
            && cfg.maxDailyLossFrac * (equity - realizedToday) as real <= -(realizedToday as real)
  {}

  /** A profitable day trips the breaker if equity is negative, ... */
  lemma TripsOnNegativeEquity(cfg: Config)
    requires cfg.maxDailyLossFrac == 0.1
    ensures DailyLossHit(cfg, Some(-100), 10)
  {}

  /** ... or if the fraction is as much as one: the day's own profit counts against itself. */
  lemma TripsOnWholeFraction(cfg: Config)
    requires cfg.maxDailyLossFrac == 1.0
    ensures DailyLossHit(cfg, Some(0), 10)
  {}

  /** The cap, given the fraction of start-of-day equity. */
  function CapAt(cfg: Config, part: real): real {
    var cap := Abs(cfg.maxDailyLoss) as real;
    if cfg.maxDailyLossFrac > 0.0 then MinReal(cap, part) else cap
  }

  /** The fraction of start-of-day equity, not the absolute cap, is what binds. */
  predicate FractionBinds(cfg: Config, startOfDay: int) {
    cfg.maxDailyLossFrac > 0.0 && Part(cfg, startOfDay) < Abs(cfg.maxDailyLoss) as real
  }

  function Part(cfg: Config, startOfDay: int): real {
    cfg.maxDailyLossFrac * startOfDay as real
  }

  lemma CapIs(cfg: Config, equity: int, realizedToday: int)
    ensures DailyLossCap(cfg, Some(equity), realizedToday) == CapAt(cfg, Part(cfg, equity - realizedToday))
  {}

  lemma PartMonotone(cfg: Config, x: int, y: int)
    requires cfg.maxDailyLossFrac >= 0.0
    ensures x <= y ==> Part(cfg, x) <= Part(cfg, y)
    ensures cfg.maxDailyLossFrac > 0.0 && x < y ==> Part(cfg, x) < Part(cfg, y)
  {}

  lemma PartOfFall(cfg: Config, x: int, drop: int)
    ensures Part(cfg, x - drop) == Part(cfg, x) - Part(cfg, drop)
  {
    assert (x - drop) as real == x as real - drop as real;
  }

  /**
   The breaker's line falls exactly when start-of-day equity falls and the fraction is what
   binds afterwards.
   */
  lemma ThresholdFallsExactly(cfg: Config, e0: int, r0: int, e1: int, r1: int)
    ensures DailyLossCap(cfg, Some(e1), r1) < DailyLossCap(cfg, Some(e0), r0)
            <==> e1 - r1 < e0 - r0 && FractionBinds(cfg, e1 - r1)
  {
    CapIs(cfg, e0, r0);
    CapIs(cfg, e1, r1);
    if cfg.maxDailyLossFrac > 0.0 {
      PartMonotone(cfg, e0 - r0, e1 - r1);
      PartMonotone(cfg, e1 - r1, e0 - r0);
    }
  }

  /** And by at most the fraction of that fall. */
  lemma ThresholdFallsAtMost(cfg: Config, e0: int, r0: int, e1: int, r1: int, drop: int)
    requires cfg.maxDailyLossFrac >= 0.0 && drop >= 0 && e1 - r1 >= e0 - r0 - drop
    ensures DailyLossCap(cfg, Some(e1), r1) >= DailyLossCap(cfg, Some(e0), r0) - cfg.maxDailyLossFrac * drop as real
  {
    CapIs(cfg, e0, r0);
    CapIs(cfg, e1, r1);
    PartMonotone(cfg, e0 - r0 - drop, e1 - r1);
    PartOfFall(cfg, e0 - r0, drop);
    PartMonotone(cfg, 0, drop);
  }
}
