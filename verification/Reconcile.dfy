/**
 Reconciliation with the exchange: settle open positions, heal mis-booked P&L, adopt
 positions the book does not know, and report.
 */
module Reconcile {
  import opened Options
  import opened Money
  import opened Book

  /** A settlement row: `revenue` is the gross payout when reported. */
  datatype Settlement = Settlement(ticker: Ticker, result: Option<Outcome>, revenue: Option<int>)

  /** A row of the exchange's position list; shorts carry a negative count. */
  datatype Holding = Holding(ticker: Ticker, count: int)

  /** Net P&L of a short: a NO keeps the premium, a YES loses the collateral; both pay the fee. */
  function NetPnl(price: int, contracts: int, fee: int, result: Outcome): int {
    match result
    case No => price * contracts - fee
    case Yes => -Locked(price, contracts) - fee
  }

  /** Selling takes in the premium; settling YES pays a dollar a contract, NO pays nothing. */
  lemma NetPnlIsCashFlow(price: int, contracts: int, fee: int, result: Outcome)
    ensures NetPnl(price, contracts, fee, result)
            == (if result.No? then 10000 * contracts else 0) - (10000 - price) * contracts - fee
  {}

  // ---------- settlements ----------

  /** `by_ticker.get(t)`: a later row replaces an earlier one; empty tickers are dropped. */
  function Lookup(ss: seq<Settlement>, t: Ticker): Option<Settlement> {
    if ss == [] then None
    else if ss[|ss| - 1].ticker == t && t != "" then Some(ss[|ss| - 1])
    else Lookup(ss[..|ss| - 1], t)
  }

  function SettledPnl(p: Position, s: Settlement, result: Outcome): int {
    match p.price
    case Some(price) => NetPnl(price, Contracts(p), p.fee, result)
    case None =>
      match s.revenue
      case Some(revenue) => revenue - p.collateral.GetOr(0) - p.fee
      case None => 0
  }

  function SettleOne(p: Position, ss: seq<Settlement>, day: int): Position {
    if p.status.Settled? then p
    else
      match Lookup(ss, p.ticker)
      case None => p
      case Some(s) =>
        match s.result
        case None => p
        case Some(result) =>
          p.(status := Settled, result := Some(result), pnl := Some(SettledPnl(p, s, result)),
             settledDay := Some(day))
  }

  function Settle(ps: seq<Position>, ss: seq<Settlement>, day: int): (r: seq<Position>)
    ensures |r| == |ps|
    ensures forall i :: 0 <= i < |ps| ==> r[i] == SettleOne(ps[i], ss, day)
  {
    seq(|ps|, i requires 0 <= i < |ps| => SettleOne(ps[i], ss, day))
  }

  // ---------- heal ----------

  function Healed(p: Position): Position {
    if p.status.Settled? && p.price.Some? && p.result.Some?
    then p.(pnl := Some(NetPnl(p.price.value, Contracts(p), p.fee, p.result.value)))
    else p
  }

  function Heal(ps: seq<Position>): (r: seq<Position>)
    ensures |r| == |ps|
    ensures forall i :: 0 <= i < |ps| ==> r[i] == Healed(ps[i])
  {
    seq(|ps|, i requires 0 <= i < |ps| => Healed(ps[i]))
  }

  // ---------- adopt ----------

  function Orphan(h: Holding): Position {
    var contracts: nat := if h.count < 0 then -h.count else h.count;
    Position(h.ticker, Open, None, None, contracts, contracts, 0, None, None, None, None)
  }

  function AdoptOne(ps: seq<Position>, h: Holding): seq<Position> {
    if h.ticker == "" || h.count == 0 || h.ticker in Tickers(ps) then ps else ps + [Orphan(h)]
  }

  function Adopt(ps: seq<Position>, hs: seq<Holding>): seq<Position> {
    if hs == [] then ps else AdoptOne(Adopt(ps, hs[..|hs| - 1]), hs[|hs| - 1])
  }

  // ---------- reports ----------

  function PnlOn(p: Position, day: int): int {
    if p.status.Settled? && p.settledDay == Some(day) then p.pnl.GetOr(0) else 0
  }

  /** P&L of the positions settled on `day`: what the daily-loss breaker reads. */
  function RealizedOn(ps: seq<Position>, day: int): int {
    if ps == [] then 0 else RealizedOn(ps[..|ps| - 1], day) + PnlOn(ps[|ps| - 1], day)
  }

  function Realized(ps: seq<Position>): int {
    if ps == [] then 0
    else Realized(ps[..|ps| - 1])
         + if ps[|ps| - 1].status.Settled? then ps[|ps| - 1].pnl.GetOr(0) else 0
  }

  function Wins(ps: seq<Position>): nat {
    if ps == [] then 0
    else Wins(ps[..|ps| - 1])
         + if ps[|ps| - 1].status.Settled? && ps[|ps| - 1].result == Some(No) then 1 else 0
  }

  /** The dashboard snapshot; equity is free cash plus locked collateral. */
  datatype Snapshot = Snapshot(
    balance: Option<int>,
    equity: Option<int>,
    deployed: int,
    realized: int,
    open: nat,
    settled: nat,
    wins: nat,
    placed: nat,
    settledNow: nat,
    killed: bool
  )

  function LiveSnapshot(ps: seq<Position>, balance: Option<int>, placed: nat, settledNow: nat,
                        killed: bool): Snapshot
  {
    var open := OpenCount(ps);
    OpenCountBound(ps);
    var deployed := RoundCents(Deployed(ps));
    Snapshot(balance, if balance.Some? then Some(RoundCents(balance.value + deployed)) else None,
             deployed, RoundCents(Realized(ps)), open, |ps| - open, Wins(ps), placed, settledNow,
             killed)
  }

  lemma OpenCountBound(ps: seq<Position>)
    ensures OpenCount(ps) <= |ps|
  {}

  // ---------- the mutating merge functions ----------

  /** Records that `Settle` moves from open to settled. */
  function SettledCount(ps: seq<Position>, ss: seq<Settlement>, day: int): nat {
    if ps == [] then 0
    else
      var p := ps[|ps| - 1];
      SettledCount(ps[..|ps| - 1], ss, day)
      + if p.status.Open? && SettleOne(p, ss, day).status.Settled? then 1 else 0
  }

  function HealCount(ps: seq<Position>): nat {
    if ps == [] then 0
    else HealCount(ps[..|ps| - 1]) + if Healed(ps[|ps| - 1]) != ps[|ps| - 1] then 1 else 0
  }

  /** The in-memory state a tick works on. */
  class LocalState {
    var positions: seq<Position>

    constructor (positions: seq<Position>)
      ensures this.positions == positions
    {
      this.positions := positions;
    }

    method ApplySettlements(ss: seq<Settlement>, day: int) returns (n: nat)
      modifies this
      ensures positions == Settle(old(positions), ss, day)
      ensures n == SettledCount(old(positions), ss, day)
    {
      n := 0;
      var i := 0;
      ghost var before := positions;
      while i < |positions|
        invariant 0 <= i <= |positions| == |before|
        invariant forall j :: 0 <= j < i ==> positions[j] == SettleOne(before[j], ss, day)
        invariant forall j :: i <= j < |before| ==> positions[j] == before[j]
        invariant n == SettledCount(before[..i], ss, day)
      {
        var p := positions[i];
        assert before[..i + 1][..i] == before[..i];
        if p.status.Open? {
          var s := Lookup(ss, p.ticker);
          if s.Some? && s.value.result.Some? {
            var result := s.value.result.value;
            positions := positions[i := p.(status := Settled, result := Some(result),
                                           pnl := Some(SettledPnl(p, s.value, result)),
                                           settledDay := Some(day))];
            n := n + 1;
          }
        }
        i := i + 1;
      }
      assert before[..i] == before;
    }

    method HealSettledPnl() returns (n: nat)
      modifies this
      ensures positions == Heal(old(positions))
      ensures n == HealCount(old(positions))
    {
      n := 0;
      var i := 0;
      ghost var before := positions;
      while i < |positions|
        invariant 0 <= i <= |positions| == |before|
        invariant forall j :: 0 <= j < i ==> positions[j] == Healed(before[j])
        invariant forall j :: i <= j < |before| ==> positions[j] == before[j]
        invariant n == HealCount(before[..i])
      {
        var p := positions[i];
        assert before[..i + 1][..i] == before[..i];
        if p.status.Settled? && p.price.Some? && p.result.Some? {
          var want := NetPnl(p.price.value, Contracts(p), p.fee, p.result.value);
          if p.pnl != Some(want) {
            positions := positions[i := p.(pnl := Some(want))];
            n := n + 1;
          }
        }
        i := i + 1;
      }
      assert before[..i] == before;
    }

    method AdoptOrphans(hs: seq<Holding>) returns (n: nat)
      modifies this
      ensures positions == Adopt(old(positions), hs)
      ensures n == |positions| - |old(positions)|
    {
      var known := Tickers(positions);
      n := 0;
      for i := 0 to |hs|
        invariant positions == Adopt(old(positions), hs[..i])
        invariant known == Tickers(positions)
        invariant n == |positions| - |old(positions)|
      {
        assert hs[..i + 1][..i] == hs[..i];
        var h := hs[i];
        if h.ticker != "" && h.count != 0 && h.ticker !in known {
          TickersAppend(positions, Orphan(h));
          positions := positions + [Orphan(h)];
          known := known + {h.ticker};
          n := n + 1;
        }
      }
      assert hs[..|hs|] == hs;
    }
  }

  // ---------- what settling and healing promise ----------

  /** Row `i` is the last one for `t`. */
  ghost predicate LastRow(ss: seq<Settlement>, t: Ticker, i: int) {
    0 <= i < |ss| && t != "" && ss[i].ticker == t && forall j :: i < j < |ss| ==> ss[j].ticker != t
  }

  /** The last row for a ticker is the one found, and nothing is found only where there is none. */
  lemma {:induction false} LookupIs(ss: seq<Settlement>, t: Ticker)
    ensures forall i :: LastRow(ss, t, i) ==> Lookup(ss, t) == Some(ss[i])
    ensures Lookup(ss, t).None? <==> t == "" || forall j :: 0 <= j < |ss| ==> ss[j].ticker != t
  {
    if ss == [] {
    } else {
      var init := ss[..|ss| - 1];
      LookupIs(init, t);
      forall i | LastRow(ss, t, i) ensures Lookup(ss, t) == Some(ss[i]) {
        assert i < |init| ==> LastRow(init, t, i) && init[i] == ss[i];
      }
      assert forall j :: 0 <= j < |init| ==> init[j] == ss[j];
    }
  }

  /** The contracts a record settles: those filled, or those asked for where no fill is recorded. */
  function SettledContracts(p: Position): nat {
    if p.filled == 0 then p.size else p.filled
  }

  /** What a settlement pays into the book: cash flow of a priced short, reported revenue of an orphan. */
  function Payoff(p: Position, s: Settlement): int {
    if p.price.Some? then
      (if s.result == Some(No) then 10000 * SettledContracts(p) else 0)
      - (10000 - p.price.value) * SettledContracts(p) - p.fee
    else if s.revenue.Some? then
      s.revenue.value - (if p.collateral.Some? then p.collateral.value else 0) - p.fee
    else 0
  }

  /**
   An open record whose last row reports an outcome settles that day, on that outcome, for its
   payoff; every other record is left alone.
   */
  lemma SettlesExactly(p: Position, ss: seq<Settlement>, day: int, i: int)
    ensures LastRow(ss, p.ticker, i) && p.status.Open? && ss[i].result.Some? ==>
      SettleOne(p, ss, day) == p.(status := Settled, result := ss[i].result, pnl := Some(Payoff(p, ss[i])),
                                  settledDay := Some(day))
    ensures LastRow(ss, p.ticker, i) && (p.status.Settled? || ss[i].result.None?) ==> SettleOne(p, ss, day) == p
    ensures (p.ticker == "" || forall j :: 0 <= j < |ss| ==> ss[j].ticker != p.ticker) ==>
      SettleOne(p, ss, day) == p
  {
    LookupIs(ss, p.ticker);
    if LastRow(ss, p.ticker, i) && p.price.Some? && ss[i].result.Some? {
      NetPnlIsCashFlow(p.price.value, Contracts(p), p.fee, ss[i].result.value);
    }
  }

  /** The records settled for NO. */
  function WonAt(ps: seq<Position>): set<int> {
    set i | 0 <= i < |ps| && ps[i].status == Settled && ps[i].result == Some(No)
  }

  /** A win is a record settled for NO. */
  lemma {:induction false} WinsAre(ps: seq<Position>)
    ensures Wins(ps) == |WonAt(ps)|
  {
    if ps == [] {
    } else {
      var init, last := ps[..|ps| - 1], |ps| - 1;
      WinsAre(init);
      if ps[last].status == Settled && ps[last].result == Some(No) {
        assert WonAt(ps) == WonAt(init) + {last};
      } else {
        assert WonAt(ps) == WonAt(init);
      }
    }
  }

  /** What one record books: its P&L once settled, on the day it settled. */
  function Earned(p: Position): int {
    if p.status == Settled && p.pnl.Some? then p.pnl.value else 0
  }

  function EarnedOn(p: Position, day: int): int {
    if p.settledDay == Some(day) then Earned(p) else 0
  }

  /**
   Rewriting one record moves the realized figures by what that record realizes, and by
   nothing else.
   */
  lemma {:induction false} FiguresMove(ps: seq<Position>, i: nat, p: Position, day: int)
    requires i < |ps|
    ensures Realized(ps[i := p]) - Realized(ps) == Earned(p) - Earned(ps[i])
    ensures RealizedOn(ps[i := p], day) - RealizedOn(ps, day) == EarnedOn(p, day) - EarnedOn(ps[i], day)
  {
    var init, n := ps[..|ps| - 1], |ps| - 1;
    if i == n {
      assert ps[i := p][..n] == init;
    } else {
      FiguresMove(init, i, p, day);
      assert ps[i := p][..n] == init[i := p];
    }
  }

  /** A book in which nothing has settled has realized nothing. */
  lemma {:induction false} FiguresStart(ps: seq<Position>, day: int)
    requires forall i :: 0 <= i < |ps| ==> ps[i].status == Open
    ensures Realized(ps) == 0 && RealizedOn(ps, day) == 0
  {
    if ps == [] {
    } else {
      FiguresStart(ps[..|ps| - 1], day);
    }
  }

  /**
   Positions only ever move from open to settled, and only once; nothing but the four
   settlement fields changes, and the returned count is the drop in open positions.
   */
  lemma {:induction false} SettleOnce(ps: seq<Position>, ss: seq<Settlement>, day: int)
    ensures forall i :: 0 <= i < |ps| ==>
      && (ps[i].status.Settled? ==> Settle(ps, ss, day)[i] == ps[i])
      && Settle(ps, ss, day)[i].(status := ps[i].status, result := ps[i].result,
                                 pnl := ps[i].pnl, settledDay := ps[i].settledDay) == ps[i]
    ensures SettledCount(ps, ss, day) == OpenCount(ps) - OpenCount(Settle(ps, ss, day))
  {
    if ps == [] {
    } else {
      var init := ps[..|ps| - 1];
      SettleOnce(init, ss, day);
      assert Settle(ps, ss, day)[..|ps| - 1] == Settle(init, ss, day);
    }
  }

  /** Settling with the same rows again moves nothing. */
  lemma SettleIdempotent(ps: seq<Position>, ss: seq<Settlement>, day: int, later: int)
    ensures Settle(Settle(ps, ss, day), ss, later) == Settle(ps, ss, day)
  {
    var once := Settle(ps, ss, day);
    forall i | 0 <= i < |ps|
      ensures SettleOne(once[i], ss, later) == once[i]
    {
      assert once[i] == SettleOne(ps[i], ss, day);
    }
  }

  ghost predicate Canonical(p: Position) {
    p.status.Settled? && p.price.Some? && p.result.Some? ==>
      p.pnl == Some(NetPnl(p.price.value, Contracts(p), p.fee, p.result.value))
  }

  /** Healing right after settling never touches a freshly settled position. */
  lemma HealAfterSettle(ps: seq<Position>, ss: seq<Settlement>, day: int, i: nat)
    requires i < |ps| && ps[i].status.Open?
    ensures Heal(Settle(ps, ss, day))[i] == Settle(ps, ss, day)[i]
  {
    assert Settle(ps, ss, day)[i] == SettleOne(ps[i], ss, day);
  }

  ghost predicate AllCanonical(ps: seq<Position>) {
    forall i :: 0 <= i < |ps| ==> Canonical(ps[i])
  }

  lemma HealedIsCanonical(p: Position)
    ensures Canonical(Healed(p))
    ensures Canonical(p) <==> Healed(p) == p
  {}

  ghost function MisbookedAt(ps: seq<Position>): set<int> {
    set i | 0 <= i < |ps| && !Canonical(ps[i])
  }

  /** The count is the number of records that were not canonical. */
  lemma {:induction false} HealCountIs(ps: seq<Position>)
    ensures HealCount(ps) == |MisbookedAt(ps)|
  {
    if ps == [] {
    } else {
      var init, last := ps[..|ps| - 1], |ps| - 1;
      HealCountIs(init);
      HealedIsCanonical(ps[last]);
      if Canonical(ps[last]) {
        assert MisbookedAt(ps) == MisbookedAt(init);
      } else {
        assert MisbookedAt(ps) == MisbookedAt(init) + {last};
      }
    }
  }

  lemma HealCountZero(ps: seq<Position>)
    ensures HealCount(ps) == 0 <==> AllCanonical(ps)
  {
    HealCountIs(ps);
    assert forall i :: i in MisbookedAt(ps) <==> 0 <= i < |ps| && !Canonical(ps[i]);
    if AllCanonical(ps) {
      assert MisbookedAt(ps) == {};
    }
  }

  /**
   After healing every priced settled record is canonical with nothing but its P&L rewritten,
   and a second pass changes nothing; a pass changes nothing exactly when there was nothing to heal.
   */
  lemma HealCanonical(ps: seq<Position>)
    ensures AllCanonical(Heal(ps))
    ensures forall i :: 0 <= i < |ps| ==> Heal(ps)[i].(pnl := ps[i].pnl) == ps[i]
    ensures Heal(Heal(ps)) == Heal(ps)
    ensures HealCount(Heal(ps)) == 0
    ensures HealCount(ps) == 0 <==> AllCanonical(ps)
  {
    forall i | 0 <= i < |ps| ensures Canonical(Heal(ps)[i]) && Heal(Heal(ps))[i] == Heal(ps)[i] {
      HealedIsCanonical(ps[i]);
      HealedIsCanonical(Heal(ps)[i]);
    }
    HealCountZero(ps);
    HealCountZero(Heal(ps));
  }

  ghost predicate NearestCent(shown: int, x: int) {
    WholeCents(shown) && -50 <= shown - x <= 50
  }

  /** The snapshot counts the records and shows the sums to the nearest cent. */
  lemma SnapshotShows(ps: seq<Position>, balance: Option<int>, placed: nat, settledNow: nat, killed: bool)
    ensures var s := LiveSnapshot(ps, balance, placed, settledNow, killed);
      && s.open == |OpenAt(ps)| && s.settled == |ps| - |OpenAt(ps)| && s.wins == |WonAt(ps)|
      && NearestCent(s.deployed, Deployed(ps)) && NearestCent(s.realized, Realized(ps))
      && s.balance == balance && (s.equity.Some? <==> balance.Some?)
      && (balance.Some? ==> NearestCent(s.equity.value, balance.value + s.deployed))
      && s.placed == placed && s.settledNow == settledNow && s.killed == killed
  {
    OpenCountIs(ps);
    WinsAre(ps);
    OpenCountBound(ps);
  }

  // ---------- what adopting promises ----------

  lemma AdoptOneKeeps(ps: seq<Position>, h: Holding)
    requires DistinctTickers(ps)
    ensures DistinctTickers(AdoptOne(ps, h))
    ensures ps <= AdoptOne(ps, h)
    ensures Tickers(AdoptOne(ps, h))
            == Tickers(ps) + if h.count != 0 && h.ticker != "" then {h.ticker} else {}
    ensures Deployed(AdoptOne(ps, h)) == Deployed(ps)
  {
    TickersAppend(ps, Orphan(h));
    FoldsAppend(ps, Orphan(h));
    if AdoptOne(ps, h) != ps {
      forall i, j | 0 <= i < j < |ps| + 1
        ensures AdoptOne(ps, h)[i].ticker != AdoptOne(ps, h)[j].ticker
      {
        if j == |ps| {
          assert ps[i].ticker in Tickers(ps);
        }
      }
    }
  }

  /** Some holding names `t` with a nonzero count. */
  ghost predicate Held(hs: seq<Holding>, t: Ticker) {
    t != "" && exists i :: 0 <= i < |hs| && hs[i].ticker == t && hs[i].count != 0
  }

  lemma HeldAppend(hs: seq<Holding>, h: Holding, t: Ticker)
    ensures Held(hs + [h], t) <==> Held(hs, t) || (t != "" && h.ticker == t && h.count != 0)
  {
    var all := hs + [h];
    if Held(hs, t) {
      var i :| 0 <= i < |hs| && hs[i].ticker == t && hs[i].count != 0;
      assert all[i] == hs[i];
    }
    if t != "" && h.ticker == t && h.count != 0 {
      assert all[|hs|] == h;
    }
  }

  /** The open record of a holding: its contracts whichever side it is on, and nothing else known. */
  ghost predicate AdoptedFrom(p: Position, h: Holding) {
    && p.ticker == h.ticker && h.count != 0
    && (h.count > 0 ==> p.filled == h.count) && (h.count < 0 ==> p.filled == -h.count) && p.size == p.filled
    && p.status == Open && p.result.None? && p.price.None? && p.fee == 0 && p.collateral.None? && p.pnl.None?
    && p.settledDay.None? && p.coid.None?
  }

  /** Every record adopted is that of the first nonzero holding of its ticker. */
  ghost predicate FirstHeld(hs: seq<Holding>, i: int, p: Position) {
    0 <= i < |hs| && AdoptedFrom(p, hs[i]) && forall j :: 0 <= j < i ==> hs[j].ticker != p.ticker || hs[j].count == 0
  }

  lemma {:induction false} AdoptsExactly(ps: seq<Position>, hs: seq<Holding>, k: nat)
    requires DistinctTickers(ps) && |ps| <= k < |Adopt(ps, hs)|
    ensures exists i :: FirstHeld(hs, i, Adopt(ps, hs)[k])
  {
    if hs == [] {
    } else {
      var init, h := hs[..|hs| - 1], hs[|hs| - 1];
      AdoptKeeps(ps, init);
      if k < |Adopt(ps, init)| {
        AdoptsExactly(ps, init, k);
        var i :| FirstHeld(init, i, Adopt(ps, init)[k]);
        assert FirstHeld(hs, i, Adopt(ps, hs)[k]);
      } else {
        NewIsOrphan(Adopt(ps, init), h, k);
        FirstOfNew(ps, hs);
      }
    }
  }

  lemma NewIsOrphan(ps: seq<Position>, h: Holding, k: nat)
    requires |ps| <= k < |AdoptOne(ps, h)|
    ensures h.count != 0 && h.ticker != "" && h.ticker !in Tickers(ps) && AdoptOne(ps, h)[k] == Orphan(h)
  {}

  lemma FirstOfNew(ps: seq<Position>, hs: seq<Holding>)
    requires DistinctTickers(ps) && hs != []
    requires var h := hs[|hs| - 1]; h.count != 0 && h.ticker != "" && h.ticker !in Tickers(Adopt(ps, hs[..|hs| - 1]))
    ensures FirstHeld(hs, |hs| - 1, Orphan(hs[|hs| - 1]))
  {
    var init, h := hs[..|hs| - 1], hs[|hs| - 1];
    AdoptKeeps(ps, init);
    forall j | 0 <= j < |init| ensures hs[j].ticker != h.ticker || hs[j].count == 0 {
      assert init[j] == hs[j];
      assert !Held(init, h.ticker);
    }
  }

  /**
   Adoption only appends, never repeats a ticker, leaves the recorded collateral alone
   (an orphan counts 0), and afterwards exactly the old tickers and those of the nonzero
   holdings are known.
   */
  lemma {:induction false} AdoptKeeps(ps: seq<Position>, hs: seq<Holding>)
    requires DistinctTickers(ps)
    ensures DistinctTickers(Adopt(ps, hs))
    ensures ps <= Adopt(ps, hs)
    ensures Deployed(Adopt(ps, hs)) == Deployed(ps)
    ensures forall t :: t in Tickers(Adopt(ps, hs)) <==> t in Tickers(ps) || Held(hs, t)
  {
    if hs == [] {
    } else {
      var init, h := hs[..|hs| - 1], hs[|hs| - 1];
      AdoptKeeps(ps, init);
      AdoptOneKeeps(Adopt(ps, init), h);
      forall t ensures t in Tickers(Adopt(ps, hs)) <==> t in Tickers(ps) || Held(hs, t) {
        HeldAppend(init, h, t);
        assert hs == init + [h];
      }
    }
  }
}
