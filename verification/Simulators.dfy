/** The collateral-aware simulator for shorting longshots. */
module ShortSim {
  import opened Bankroll
  import Money

  /** One shorting opportunity. */
  datatype Row = Row(ticker: string, entry: Time, settle: Time, price: real, resolvedYes: bool, volume: real)

  datatype Params = Params(tradeFraction: real, depthFraction: real, feeMultiplier: real)

  /** The exchange fee in dollars: `ceil(0.07 * n * p * (1 - p) * 100) / 100`. */
  function Fee(p: real, n: int): real {
    -((-(7.0 * n as real * (p * (1.0 - p)))).Floor) as real / 100.0
  }

  /** It is the least whole number of cents that covers 0.07 * n * p * (1 - p) dollars. */
  lemma FeeIsCeiling(p: real, n: int)
    ensures var raw := 7.0 * n as real * (p * (1.0 - p));
      && raw <= 100.0 * Fee(p, n) < raw + 1.0
      && 100.0 * Fee(p, n) == (100.0 * Fee(p, n)).Floor as real
  {
    var cents := -((-(7.0 * n as real * (p * (1.0 - p)))).Floor);
    assert 100.0 * Fee(p, n) == cents as real;
  }

  /** Collateral a trade aims at. */
  function Target(p: Params, equity: real): real {
    equity * p.tradeFraction
  }

  /** Contracts the entry-day volume allows. */
  function DepthCap(p: Params, r: Row): int {
    Money.Trunc(p.depthFraction * r.volume)
  }

  /** Contracts sold: the equity fraction, limited by entry-day volume, at least one. */
  function Size(p: Params, equity: real, r: Row): int {
    Money.Max(1, Money.Min(Money.Affordable(Target(p, equity), 1.0 - r.price), DepthCap(p, r)))
  }

  /** The size is the largest within both the equity fraction and the volume fraction, or one. */
  lemma SizeIsLargest(p: Params, equity: real, r: Row, k: int)
    requires r.price < 1.0 && k > 1
    ensures Size(p, equity, r) >= 1
    ensures k <= Size(p, equity, r) <==>
            k as real * (1.0 - r.price) <= equity * p.tradeFraction && k as real <= p.depthFraction * r.volume
  {
    Money.AffordableAtLeast(Target(p, equity), 1.0 - r.price, k);
    Money.TruncAtLeast(p.depthFraction * r.volume, k);
  }

  function Collateral(r: Row, n: int): real {
    (1.0 - r.price) * n as real
  }

  function Charged(p: Params, r: Row, n: int): real {
    Fee(r.price, n) * p.feeMultiplier
  }

  /** Cash a trade takes: collateral and fee. */
  function Need(p: Params, r: Row, n: int): real {
    Collateral(r, n) + Charged(p, r, n)
  }

  function LotOf(r: Row, n: int): Lot {
    var collateral := Collateral(r, n);
    var pnl := if r.resolvedYes then -(1.0 - r.price) * n as real else r.price * n as real;
    Lot(r.settle, n, r.price, r.resolvedYes, collateral, collateral + pnl, !r.resolvedYes)
  }

  function Decide(p: Params, s: Sim<string>, r: Row): Entry<string> {
    if r.ticker in s.seen then Ignore
    else if DepthCap(p, r) < 1 then SkipDepth(r.ticker)
    else
      var n := Size(p, s.account.cash + s.account.locked, r);
      var fee := Charged(p, r, n);
      if Need(p, r, n) > s.account.cash then SkipCapital(r.ticker)
      else Trade(r.ticker, LotOf(r, n), fee, fee)
  }

  /** Settle what is due, then consider the row. */
  function Before(p: Params, bankroll: real, rows: seq<Row>, now: Time): Sim<string> {
    Advance(Run(p, bankroll, rows), now)
  }

  function Run(p: Params, bankroll: real, rows: seq<Row>): Sim<string> {
    if rows == [] then Start(bankroll)
    else
      var r := rows[|rows| - 1];
      var s := Advance(Run(p, bankroll, rows[..|rows| - 1]), r.entry);
      Take(s, Decide(p, s, r))
  }

  function Simulate(p: Params, bankroll: real, rows: seq<Row>): Sim<string> {
    Advance(Run(p, bankroll, rows), TIMESTAMP_MAX)
  }

  ghost predicate RowsOk(rows: seq<Row>) {
    forall i :: 0 <= i < |rows| ==> 0.0 < rows[i].price < 1.0
  }

  /** What a short of `n` contracts locks and returns. */
  predicate LotIs(r: Row, n: int, lot: Lot) {
    && lot.settle == r.settle && lot.n == n
    && lot.basis == (1.0 - r.price) * n as real
    && lot.payout == (if r.resolvedYes then 0.0 else n as real)
    && (lot.win <==> !r.resolvedYes)
  }

  lemma LotOfOk(r: Row, n: int)
    requires 0.0 < r.price < 1.0 && n >= 1
    ensures LotOk(LotOf(r, n)) && LotIs(r, n, LotOf(r, n))
  {
    ShortPays(r.price, n as real);
  }

  /** Collateral and P&L of a short together: nothing on YES, a dollar a contract on NO. */
  lemma ShortPays(price: real, k: real)
    requires price < 1.0 && k >= 0.0
    ensures (1.0 - price) * k >= 0.0
    ensures (1.0 - price) * k + -(1.0 - price) * k == 0.0
    ensures (1.0 - price) * k + price * k == k
  {
    var u := 1.0 - price;
    assert u * k >= 0.0;
    assert -(1.0 - price) * k == -((1.0 - price) * k);
    assert (1.0 - price) * k == k - price * k;
  }

  lemma DecideOk(p: Params, s: Sim<string>, r: Row)
    requires 0.0 < r.price < 1.0
    ensures EntryOk(s, Decide(p, s, r)) && SettlesAt(Decide(p, s, r), r.settle)
  {
    var e := Decide(p, s, r);
    if e.Trade? {
      LotOfOk(r, e.lot.n);
    }
  }

  /** Contracts the simulator would sell on the row, from the account as it stands. */
  function SizeNow(p: Params, s: Sim<string>, r: Row): int {
    Size(p, s.account.cash + s.account.locked, r)
  }

  lemma DepthCapBelowOne(p: Params, r: Row)
    ensures DepthCap(p, r) < 1 <==> p.depthFraction * r.volume < 1.0
  {
    Money.TruncBelowOne(p.depthFraction * r.volume);
  }

  /** A trade on the row is a short of `e.lot.n` contracts, its fee paid at once. */
  predicate Describes(p: Params, r: Row, e: Entry<string>) {
    && (!e.Ignore? ==> e.key == r.ticker)
    && (e.Trade? ==> LotIs(r, e.lot.n, e.lot) && e.fee == e.upfront == Fee(r.price, e.lot.n) * p.feeMultiplier)
  }

  lemma DecideDescribes(p: Params, s: Sim<string>, r: Row)
    requires 0.0 < r.price < 1.0
    ensures Describes(p, r, Decide(p, s, r))
    ensures Decide(p, s, r).Trade? ==> Decide(p, s, r).lot.n == SizeNow(p, s, r)
  {
    LotOfOk(r, SizeNow(p, s, r));
  }

  /**
   A row is traded exactly when its ticker is new, the fraction of its volume is a contract at
   least, and collateral and fee fit in the cash.
   */
  lemma TradesExactly(p: Params, s: Sim<string>, r: Row)
    requires 0.0 < r.price < 1.0
    ensures var e, n := Decide(p, s, r), SizeNow(p, s, r);
      && (e.Ignore? <==> r.ticker in s.seen)
      && (e.SkipDepth? <==> r.ticker !in s.seen && p.depthFraction * r.volume < 1.0)
      && (e.Trade? <==> && r.ticker !in s.seen && p.depthFraction * r.volume >= 1.0
                        && (1.0 - r.price) * n as real + Fee(r.price, n) * p.feeMultiplier <= s.account.cash)
  {
    DepthCapBelowOne(p, r);
  }

  /** The rows as arrivals of the common loop. */
  function Arrivals(p: Params, bankroll: real, rows: seq<Row>): seq<Arrival<string>>
  {
    if rows == [] then []
    else
      var init, r := Arrivals(p, bankroll, rows[..|rows| - 1]), rows[|rows| - 1];
      init + [Arrival(r.entry, Decide(p, Advance(Play(bankroll, init), r.entry), r))]
  }

  function Spans(rows: seq<Row>): (r: seq<Span>)
    ensures |r| == |rows| && forall i :: 0 <= i < |rows| ==> r[i] == Span(rows[i].entry, rows[i].settle)
  {
    seq(|rows|, i requires 0 <= i < |rows| => Span(rows[i].entry, rows[i].settle))
  }

  lemma {:induction false} RunIsPlay(p: Params, bankroll: real, rows: seq<Row>)
    requires RowsOk(rows)
    ensures Plays(Run(p, bankroll, rows), bankroll, Arrivals(p, bankroll, rows), Spans(rows))
  {
    if rows == [] {
    } else {
      var init, r := rows[..|rows| - 1], rows[|rows| - 1];
      var s := Run(p, bankroll, init);
      assert RowsOk(init);
      RunIsPlay(p, bankroll, init);
      DecideOk(p, Advance(s, r.entry), r);
      PlaysSnoc(s, bankroll, Arrivals(p, bankroll, init), Spans(init), Decide(p, Advance(s, r.entry), r),
                Span(r.entry, r.settle));
      assert Spans(rows) == Spans(init) + [Span(r.entry, r.settle)];
    }
  }

  /** Accounting through the whole loop: after every row, and at the end. */
  lemma Accounting(p: Params, bankroll: real, rows: seq<Row>)
    requires bankroll >= 0.0 && RowsOk(rows)
    ensures SimOk(Run(p, bankroll, rows), bankroll)
    ensures Finished(Simulate(p, bankroll, rows), bankroll)
  {
    RunIsPlay(p, bankroll, rows);
    PlayOk(bankroll, Arrivals(p, bankroll, rows));
  }

  function Tickers(rows: seq<Row>): set<string> {
    set i | 0 <= i < |rows| :: rows[i].ticker
  }

  /** First rows of a ticker whose entry-day volume does not support even one contract. */
  function ThinFirsts(p: Params, rows: seq<Row>): nat {
    if rows == [] then 0
    else
      var init, r := rows[..|rows| - 1], rows[|rows| - 1];
      ThinFirsts(p, init) + if r.ticker !in Tickers(init) && p.depthFraction * r.volume < 1.0 then 1 else 0
  }

  lemma TickersSnoc(rows: seq<Row>)
    requires rows != []
    ensures Tickers(rows) == Tickers(rows[..|rows| - 1]) + {rows[|rows| - 1].ticker}
  {
    var init := rows[..|rows| - 1];
    forall t | t in Tickers(init) ensures t in Tickers(rows) {
      var i :| 0 <= i < |init| && init[i].ticker == t;
      assert rows[i].ticker == t;
    }
  }

  ghost predicate Counts(s: Sim<string>, seen: set<string>, thin: nat) {
    s.seen == seen && s.skippedDepth == thin && s.account.fees == s.paid
  }

  lemma TakeCounts(p: Params, s: Sim<string>, r: Row, seen: set<string>, thin: nat)
    requires Counts(s, seen, thin)
    ensures Counts(Take(s, Decide(p, s, r)), seen + {r.ticker},
                   thin + if r.ticker !in seen && p.depthFraction * r.volume < 1.0 then 1 else 0)
  {
    DepthCapBelowOne(p, r);
  }

  /**
   What is counted, from the rows alone: every ticker is admitted once, by its first row;
   it is skipped for depth exactly when that row is too thin, whatever the account looks
   like; and the fees reported are those paid at entry.
   */
  lemma {:induction false} CountedOnce(p: Params, bankroll: real, rows: seq<Row>)
    requires bankroll >= 0.0 && RowsOk(rows)
    ensures Counts(Run(p, bankroll, rows), Tickers(rows), ThinFirsts(p, rows))
  {
    if rows == [] {
    } else {
      var init, r := rows[..|rows| - 1], rows[|rows| - 1];
      assert RowsOk(init);
      CountedOnce(p, bankroll, init);
      Accounting(p, bankroll, init);
      SettleDueOk(Run(p, bankroll, init).account, r.entry, bankroll);
      TakeCounts(p, Before(p, bankroll, init, r.entry), r, Tickers(init), ThinFirsts(p, init));
      TickersSnoc(rows);
    }
  }

  // ---------- the outcome ----------

  /** The rows traded, with the contracts sold on each. */
  function Trades(p: Params, bankroll: real, rows: seq<Row>): seq<(Row, int)> {
    if rows == [] then []
    else
      var init, r := rows[..|rows| - 1], rows[|rows| - 1];
      var e := Decide(p, Before(p, bankroll, init, r.entry), r);
      Trades(p, bankroll, init) + if e.Trade? then [(r, e.lot.n)] else []
  }

  /** A YES pays out the collateral, a NO keeps the premium and is won; the fee is paid at entry. */
  function PnlOf(t: (Row, int)): real {
    if t.0.resolvedYes then -(1.0 - t.0.price) * t.1 as real else t.0.price * t.1 as real
  }

  function FeeOf(p: Params, t: (Row, int)): real {
    Fee(t.0.price, t.1) * p.feeMultiplier
  }

  function TermsOf(p: Params): Terms<(Row, int)> {
    Terms(t => PnlOf(t), t => FeeOf(p, t), t => FeeOf(p, t), (t: (Row, int)) => !t.0.resolvedYes)
  }

  lemma LotPnl(r: Row, n: int, lot: Lot)
    requires LotIs(r, n, lot)
    ensures lot.payout - lot.basis == PnlOf((r, n))
  {
    assert r.price * n as real == n as real - (1.0 - r.price) * n as real;
  }

  lemma DecideOnTerms(p: Params, s: Sim<string>, r: Row)
    requires 0.0 < r.price < 1.0
    ensures var e := Decide(p, s, r);
      e.Trade? ==> OnTerms(e, (r, e.lot.n), TermsOf(p))
  {
    var e := Decide(p, s, r);
    DecideDescribes(p, s, r);
    if e.Trade? {
      LotPnl(r, e.lot.n, e.lot);
    }
  }

  lemma {:induction false} RunLogs(p: Params, bankroll: real, rows: seq<Row>)
    requires bankroll >= 0.0 && RowsOk(rows)
    ensures Logged(Run(p, bankroll, rows), Trades(p, bankroll, rows), TermsOf(p))
  {
    if rows == [] {
    } else {
      var init, r := rows[..|rows| - 1], rows[|rows| - 1];
      var s := Before(p, bankroll, init, r.entry);
      var e := Decide(p, s, r);
      assert RowsOk(init);
      RunLogs(p, bankroll, init);
      Accounting(p, bankroll, init);
      AdvanceLogs(Run(p, bankroll, init), r.entry, Trades(p, bankroll, init), TermsOf(p), bankroll);
      DecideOnTerms(p, s, r);
      TakeLogs(s, e, Trades(p, bankroll, init), (r, if e.Trade? then e.lot.n else 0), TermsOf(p));
    }
  }

  /**
   The outcome, over the rows traded: the bankroll gains the premiums of the NOs, loses the
   collateral of the YESes and the fees of all, and exactly the NOs are wins.
   */
  lemma Outcome(p: Params, bankroll: real, rows: seq<Row>)
    requires bankroll >= 0.0 && RowsOk(rows)
    ensures Amounts(Simulate(p, bankroll, rows).account, bankroll, Trades(p, bankroll, rows), TermsOf(p))
  {
    RunLogs(p, bankroll, rows);
    Accounting(p, bankroll, rows);
    FinishedAmounts(Run(p, bankroll, rows), Trades(p, bankroll, rows), TermsOf(p), bankroll);
  }

  /**
   Chronology: just before the row after `rows` is sized, the heap holds exactly the
   accepted trades that settle after its entry - no capital is freed early or late.
   */
  lemma Chronology(p: Params, bankroll: real, rows: seq<Row>, now: Time)
    requires bankroll >= 0.0 && RowsOk(rows) && ByEntry(Spans(rows)) && Until(Spans(rows), now)
    ensures HoldsLater(Before(p, bankroll, rows, now), now)
  {
    RunIsPlay(p, bankroll, rows);
    PlaysHolds(Run(p, bankroll, rows), bankroll, Arrivals(p, bankroll, rows), Spans(rows), now);
  }

  /** When nothing settles before it is entered, the equity history is in time order. */
  lemma HistoryInOrder(p: Params, bankroll: real, rows: seq<Row>, now: Time)
    requires bankroll >= 0.0 && RowsOk(rows)
    requires ByEntry(Spans(rows)) && SettleAfterEntry(Spans(rows)) && Until(Spans(rows), now)
    ensures InOrder(Run(p, bankroll, rows).account, now)
    ensures InOrder(Before(p, bankroll, rows, now).account, now)
  {
    RunIsPlay(p, bankroll, rows);
    PlaysInOrder(Run(p, bankroll, rows), bankroll, Arrivals(p, bankroll, rows), Spans(rows), now);
  }

  /** The variables of the simulator's loop. */
  class ShortRun {
    const p: Params
    const book: Ledger
    var seen: set<string>
    var skippedCapital: nat
    var skippedDepth: nat
    ghost var accepted: seq<Lot>
    ghost var paid: real

    constructor (p: Params, bankroll: real)
      ensures fresh(book) && this.p == p && Value() == Start(bankroll)
    {
      this.p := p;
      book := new Ledger(bankroll);
      seen, skippedCapital, skippedDepth, accepted, paid := {}, 0, 0, [], 0.0;
    }

    ghost function Value(): Sim<string>
      reads this, book
    {
      Sim(book.account, seen, skippedCapital, skippedDepth, accepted, paid)
    }

    /** The sizing part of the loop body: what to do about an unseen row. */
    method Sizing(r: Row) returns (e: Entry<string>)
      requires r.ticker !in seen
      ensures e == Decide(p, Value(), r)
    {
      if DepthCap(p, r) < 1 {
        return SkipDepth(r.ticker);
      }
      var n := Size(p, book.account.cash + book.account.locked, r);
      var fee := Charged(p, r, n);
      if Need(p, r, n) > book.account.cash {
        return SkipCapital(r.ticker);
      }
      return Trade(r.ticker, LotOf(r, n), fee, fee);
    }

    /** The loop body after `settle_due`. */
    method Consider(r: Row)
      modifies this, book
      ensures Value() == Take(old(Value()), Decide(p, old(Value()), r))
    {
      if r.ticker in seen {
        return;
      }
      var e := Sizing(r);
      seen := seen + {r.ticker};
      if e.SkipDepth? {
        skippedDepth := skippedDepth + 1;
      } else if e.SkipCapital? {
        skippedCapital := skippedCapital + 1;
      } else {
        book.OpenLot(e.lot, e.fee, e.upfront);
        accepted, paid := accepted + [e.lot], paid + e.upfront;
      }
    }
  }

  /** The simulator as the source writes it: rows in entry order, then settle what is left. */
  method RunShortSim(p: Params, bankroll: real, rows: seq<Row>)
    returns (account: Account, skippedCapital: nat, skippedDepth: nat)
    ensures account == Simulate(p, bankroll, rows).account
    ensures skippedCapital == Simulate(p, bankroll, rows).skippedCapital
    ensures skippedDepth == Simulate(p, bankroll, rows).skippedDepth
  {
    var run := new ShortRun(p, bankroll);
    for i := 0 to |rows|
      invariant fresh(run) && fresh(run.book) && run.p == p
      invariant run.Value() == Run(p, bankroll, rows[..i])
    {
      assert rows[..i + 1][..i] == rows[..i];
      run.book.Settle(rows[i].entry);
      run.Consider(rows[i]);
    }
    assert rows[..|rows|] == rows;
    run.book.Settle(TIMESTAMP_MAX);
    return run.book.account, run.skippedCapital, run.skippedDepth;
  }
}

/** The walk-forward simulator of the favorites strategy. */
module FavoritesSim {
  import opened Bankroll
  import opened Reals
  import Money
  import ShortSim

  datatype Row = Row(
    ticker: string,
    horizon: int,
    bucket: string,
    category: string,
    ask: real,
    resolvedYes: bool,
    momentum: real,
    entry: Time,
    settle: Time
  )

  /** Eligible cells, the (horizon, bucket) pairs that demand rising momentum, and the fee multiplier. */
  datatype Params = Params(cells: set<(int, string, string)>, rising: set<(int, string)>, feeMultiplier: real)

  const TRADE_FRACTION := 0.02

  function Key(r: Row): (string, int) {
    (r.ticker, r.horizon)
  }

  predicate Eligible(p: Params, r: Row) {
    && ((r.horizon, r.bucket, r.category) in p.cells || (r.horizon, r.bucket, "ALL") in p.cells)
    && !((r.horizon, r.bucket) in p.rising && r.momentum < 0.0)
  }

  function Contracts(sizeCash: real, ask: real): int
    requires ask > 0.0
  {
    Money.Max(1, Money.Trunc(sizeCash / ask))
  }

  /** Cost and fee together, as locked by the position. */
  function TotalCost(p: Params, r: Row, n: int): real {
    n as real * r.ask + ShortSim.Fee(r.ask, n) * p.feeMultiplier
  }

  function LotOf(p: Params, r: Row, n: int): Lot {
    var cost, payout := TotalCost(p, r, n), if r.resolvedYes then n as real else 0.0;
    Lot(r.settle, n, cost, r.resolvedYes, cost, payout, payout - cost > 0.0)
  }

  function Decide(p: Params, s: Sim<(string, int)>, r: Row): Entry<(string, int)>
    requires r.ask > 0.0
  {
    if Key(r) in s.seen || !Eligible(p, r) then Ignore
    else
      var sizeCash := (s.account.cash + s.account.locked) * TRADE_FRACTION;
      if sizeCash < 1.0 then SkipCapital(Key(r))
      else
        var n := Contracts(sizeCash, r.ask);
        if TotalCost(p, r, n) > s.account.cash then SkipCapital(Key(r))
        else Trade(Key(r), LotOf(p, r, n), ShortSim.Fee(r.ask, n) * p.feeMultiplier, 0.0)
  }

  ghost predicate RowsOk(rows: seq<Row>) {
    forall i :: 0 <= i < |rows| ==> 0.0 < rows[i].ask <= 1.0
  }

  function Run(p: Params, bankroll: real, rows: seq<Row>): Sim<(string, int)>
    requires RowsOk(rows)
  {
    if rows == [] then Start(bankroll)
    else
      var r := rows[|rows| - 1];
      var s := Advance(Run(p, bankroll, rows[..|rows| - 1]), r.entry);
      Take(s, Decide(p, s, r))
  }

  function Simulate(p: Params, bankroll: real, rows: seq<Row>): Sim<(string, int)>
    requires RowsOk(rows)
  {
    Advance(Run(p, bankroll, rows), TIMESTAMP_MAX)
  }

  /** Contracts bought: the largest number whose asks fit in two per cent of equity, or one. */
  lemma ContractsIsLargest(equity: real, ask: real, k: int)
    requires ask > 0.0 && k > 1
    ensures Contracts(equity * TRADE_FRACTION, ask) >= 1
    ensures k <= Contracts(equity * TRADE_FRACTION, ask) <==> k as real * ask <= 0.02 * equity
  {
    Money.TruncAtLeast(equity * TRADE_FRACTION / ask, k);
    QuotientAtLeast(equity * TRADE_FRACTION, ask, k as real);
  }

  /** What `n` contracts of a favorite cost and pay; a win is a payout above the cost. */
  predicate LotIs(p: Params, r: Row, n: int, lot: Lot) {
    && lot.settle == r.settle && lot.n == n
    && lot.basis == n as real * r.ask + ShortSim.Fee(r.ask, n) * p.feeMultiplier
    && lot.payout == (if r.resolvedYes then n as real else 0.0)
    && (lot.win <==> lot.payout > lot.basis)
  }

  /** Contracts the simulator would buy on the row, from the account as it stands. */
  function SizeNow(s: Sim<(string, int)>, r: Row): int
    requires r.ask > 0.0
  {
    Contracts((s.account.cash + s.account.locked) * TRADE_FRACTION, r.ask)
  }

  /** New, in a tradeable cell - its own or the catch-all - and not falling where momentum must rise. */
  predicate Admissible(p: Params, s: Sim<(string, int)>, r: Row) {
    && (r.ticker, r.horizon) !in s.seen
    && ((r.horizon, r.bucket, r.category) in p.cells || (r.horizon, r.bucket, "ALL") in p.cells)
    && ((r.horizon, r.bucket) in p.rising ==> r.momentum >= 0.0)
  }

  /** A trade on the row is a purchase of `e.lot.n` contracts, its fee locked with the cost. */
  predicate Describes(p: Params, r: Row, e: Entry<(string, int)>) {
    && (!e.Ignore? ==> e.key == (r.ticker, r.horizon))
    && (e.Trade? ==> && LotIs(p, r, e.lot.n, e.lot)
                     && e.fee == ShortSim.Fee(r.ask, e.lot.n) * p.feeMultiplier && e.upfront == 0.0)
  }

  lemma DecideDescribes(p: Params, s: Sim<(string, int)>, r: Row)
    requires r.ask > 0.0
    ensures Describes(p, r, Decide(p, s, r))
    ensures Decide(p, s, r).Trade? ==> Decide(p, s, r).lot.n == SizeNow(s, r)
  {}

  /**
   A row is traded exactly when it is admissible, two per cent of equity are a dollar at least,
   and cost and fee fit in the cash.
   */
  lemma TradesExactly(p: Params, s: Sim<(string, int)>, r: Row)
    requires r.ask > 0.0
    ensures var e, n := Decide(p, s, r), SizeNow(s, r);
      && (e.Ignore? <==> !Admissible(p, s, r)) && !e.SkipDepth?
      && (e.Trade? <==> && Admissible(p, s, r)
                        && 0.02 * (s.account.cash + s.account.locked) >= 1.0
                        && n as real * r.ask + ShortSim.Fee(r.ask, n) * p.feeMultiplier <= s.account.cash)
  {}

  lemma FeeNonNegative(p: real, n: int)
    requires 0.0 < p <= 1.0 && n >= 1
    ensures ShortSim.Fee(p, n) >= 0.0
  {
    var u, k := p * (1.0 - p), 7.0 * n as real;
    TimesNonNegative(p, 1.0 - p);
    TimesNonNegative(k, u);
    assert (-(k * u)).Floor <= 0;
  }

  lemma DecideOk(p: Params, s: Sim<(string, int)>, r: Row)
    requires 0.0 < r.ask <= 1.0 && p.feeMultiplier >= 0.0
    ensures EntryOk(s, Decide(p, s, r)) && SettlesAt(Decide(p, s, r), r.settle)
  {
    var e := Decide(p, s, r);
    if e.Trade? {
      FeeNonNegative(r.ask, e.lot.n);
      TimesNonNegative(ShortSim.Fee(r.ask, e.lot.n), p.feeMultiplier);
      TimesNonNegative(e.lot.n as real, r.ask);
    }
  }

  /** The rows as arrivals of the common loop. */
  function Arrivals(p: Params, bankroll: real, rows: seq<Row>): seq<Arrival<(string, int)>>
    requires RowsOk(rows)
  {
    if rows == [] then []
    else
      var init, r := Arrivals(p, bankroll, rows[..|rows| - 1]), rows[|rows| - 1];
      init + [Arrival(r.entry, Decide(p, Advance(Play(bankroll, init), r.entry), r))]
  }

  function Spans(rows: seq<Row>): (r: seq<Span>)
    ensures |r| == |rows| && forall i :: 0 <= i < |rows| ==> r[i] == Span(rows[i].entry, rows[i].settle)
  {
    seq(|rows|, i requires 0 <= i < |rows| => Span(rows[i].entry, rows[i].settle))
  }

  lemma {:induction false} RunIsPlay(p: Params, bankroll: real, rows: seq<Row>)
    requires RowsOk(rows) && p.feeMultiplier >= 0.0
    ensures Plays(Run(p, bankroll, rows), bankroll, Arrivals(p, bankroll, rows), Spans(rows))
  {
    if rows == [] {
    } else {
      var init, r := rows[..|rows| - 1], rows[|rows| - 1];
      var s := Run(p, bankroll, init);
      assert RowsOk(init);
      RunIsPlay(p, bankroll, init);
      DecideOk(p, Advance(s, r.entry), r);
      PlaysSnoc(s, bankroll, Arrivals(p, bankroll, init), Spans(init), Decide(p, Advance(s, r.entry), r),
                Span(r.entry, r.settle));
      assert Spans(rows) == Spans(init) + [Span(r.entry, r.settle)];
    }
  }

  /** Accounting through the whole loop: after every row, and at the end. */
  lemma Accounting(p: Params, bankroll: real, rows: seq<Row>)
    requires bankroll >= 0.0 && RowsOk(rows) && p.feeMultiplier >= 0.0
    ensures SimOk(Run(p, bankroll, rows), bankroll)
    ensures Finished(Simulate(p, bankroll, rows), bankroll)
  {
    RunIsPlay(p, bankroll, rows);
    PlayOk(bankroll, Arrivals(p, bankroll, rows));
  }

  /** Keys of the rows in a tradeable cell. */
  function Keys(p: Params, rows: seq<Row>): set<(string, int)> {
    set i | 0 <= i < |rows| && Eligible(p, rows[i]) :: Key(rows[i])
  }

  lemma KeysSnoc(p: Params, rows: seq<Row>)
    requires rows != []
    ensures Keys(p, rows) == Keys(p, rows[..|rows| - 1])
                             + if Eligible(p, rows[|rows| - 1]) then {Key(rows[|rows| - 1])} else {}
  {
    var init := rows[..|rows| - 1];
    forall k | k in Keys(p, init) ensures k in Keys(p, rows) {
      var i :| 0 <= i < |init| && Eligible(p, init[i]) && Key(init[i]) == k;
      assert rows[i] == init[i];
    }
  }

  /** Each (ticker, horizon) with an eligible row is admitted, once. */
  lemma {:induction false} CountedOnce(p: Params, bankroll: real, rows: seq<Row>)
    requires RowsOk(rows)
    ensures Run(p, bankroll, rows).seen == Keys(p, rows)
  {
    if rows == [] {
    } else {
      assert RowsOk(rows[..|rows| - 1]);
      CountedOnce(p, bankroll, rows[..|rows| - 1]);
      KeysSnoc(p, rows);
    }
  }

  // ---------- the outcome ----------

  /** The rows traded, with the contracts bought on each. */
  function Trades(p: Params, bankroll: real, rows: seq<Row>): seq<(Row, int)>
    requires RowsOk(rows)
  {
    if rows == [] then []
    else
      var init, r := rows[..|rows| - 1], rows[|rows| - 1];
      var e := Decide(p, Advance(Run(p, bankroll, init), r.entry), r);
      Trades(p, bankroll, init) + if e.Trade? then [(r, e.lot.n)] else []
  }

  function FeeOf(p: Params, t: (Row, int)): real {
    ShortSim.Fee(t.0.ask, t.1) * p.feeMultiplier
  }

  /** A YES pays a dollar a contract, a NO nothing; the asks and the fee are gone. */
  function PnlOf(p: Params, t: (Row, int)): real {
    (if t.0.resolvedYes then t.1 as real else 0.0) - (t.1 as real * t.0.ask + FeeOf(p, t))
  }

  /** A trade in profit is won; nothing is paid but what is locked. */
  function TermsOf(p: Params): Terms<(Row, int)> {
    Terms(t => PnlOf(p, t), t => FeeOf(p, t), t => 0.0, t => PnlOf(p, t) > 0.0)
  }

  lemma LotPnl(p: Params, r: Row, n: int, lot: Lot)
    requires LotIs(p, r, n, lot)
    ensures lot.payout - lot.basis == PnlOf(p, (r, n))
    ensures lot.win <==> PnlOf(p, (r, n)) > 0.0
  {}

  lemma DecideOnTerms(p: Params, s: Sim<(string, int)>, r: Row)
    requires r.ask > 0.0
    ensures var e := Decide(p, s, r);
      e.Trade? ==> OnTerms(e, (r, e.lot.n), TermsOf(p))
  {
    var e := Decide(p, s, r);
    DecideDescribes(p, s, r);
    if e.Trade? {
      LotPnl(p, r, e.lot.n, e.lot);
    }
  }

  lemma {:induction false} RunLogs(p: Params, bankroll: real, rows: seq<Row>)
    requires bankroll >= 0.0 && RowsOk(rows) && p.feeMultiplier >= 0.0
    ensures Logged(Run(p, bankroll, rows), Trades(p, bankroll, rows), TermsOf(p))
  {
    if rows == [] {
    } else {
      var init, r := rows[..|rows| - 1], rows[|rows| - 1];
      assert RowsOk(init);
      var s := Advance(Run(p, bankroll, init), r.entry);
      var e := Decide(p, s, r);
      RunLogs(p, bankroll, init);
      Accounting(p, bankroll, init);
      AdvanceLogs(Run(p, bankroll, init), r.entry, Trades(p, bankroll, init), TermsOf(p), bankroll);
      DecideOnTerms(p, s, r);
      TakeLogs(s, e, Trades(p, bankroll, init), (r, if e.Trade? then e.lot.n else 0), TermsOf(p));
    }
  }

  /**
   The outcome, over the rows traded: the bankroll gains a dollar for every contract that
   resolved YES and loses the asks and fees of all; the trades in profit are the wins.
   */
  lemma Outcome(p: Params, bankroll: real, rows: seq<Row>)
    requires bankroll >= 0.0 && RowsOk(rows) && p.feeMultiplier >= 0.0
    ensures Amounts(Simulate(p, bankroll, rows).account, bankroll, Trades(p, bankroll, rows), TermsOf(p))
  {
    RunLogs(p, bankroll, rows);
    Accounting(p, bankroll, rows);
    FinishedAmounts(Run(p, bankroll, rows), Trades(p, bankroll, rows), TermsOf(p), bankroll);
  }

  /**
   Chronology: just before the row after `rows` is sized, the heap holds exactly the
   accepted trades that settle after its entry - no capital is freed early or late.
   */
  lemma Chronology(p: Params, bankroll: real, rows: seq<Row>, now: Time)
    requires bankroll >= 0.0 && RowsOk(rows) && p.feeMultiplier >= 0.0
    requires ByEntry(Spans(rows)) && Until(Spans(rows), now)
    ensures HoldsLater(Advance(Run(p, bankroll, rows), now), now)
  {
    RunIsPlay(p, bankroll, rows);
    PlaysHolds(Run(p, bankroll, rows), bankroll, Arrivals(p, bankroll, rows), Spans(rows), now);
  }

  /** When nothing settles before it is entered, the equity history is in time order. */
  lemma HistoryInOrder(p: Params, bankroll: real, rows: seq<Row>, now: Time)
    requires bankroll >= 0.0 && RowsOk(rows) && p.feeMultiplier >= 0.0
    requires ByEntry(Spans(rows)) && SettleAfterEntry(Spans(rows)) && Until(Spans(rows), now)
    ensures InOrder(Run(p, bankroll, rows).account, now)
    ensures InOrder(Advance(Run(p, bankroll, rows), now).account, now)
  {
    RunIsPlay(p, bankroll, rows);
    PlaysInOrder(Run(p, bankroll, rows), bankroll, Arrivals(p, bankroll, rows), Spans(rows), now);
  }

  /** The variables of the simulator's loop. */
  class FavoritesRun {
    const p: Params
    const book: Ledger
    var seen: set<(string, int)>
    var skipped: nat
    ghost var accepted: seq<Lot>

    constructor (p: Params, bankroll: real)
      ensures fresh(book) && this.p == p && Value() == Start(bankroll)
    {
      this.p := p;
      book := new Ledger(bankroll);
      seen, skipped, accepted := {}, 0, [];
    }

    ghost function Value(): Sim<(string, int)>
      reads this, book
    {
      Sim(book.account, seen, skipped, 0, accepted, 0.0)
    }

    /** The sizing part of the loop body: what to do about an admitted row. */
    method Sizing(r: Row) returns (e: Entry<(string, int)>)
      requires r.ask > 0.0 && Key(r) !in seen && Eligible(p, r)
      ensures e == Decide(p, Value(), r)
    {
      var sizeCash := (book.account.cash + book.account.locked) * TRADE_FRACTION;
      if sizeCash < 1.0 {
        return SkipCapital(Key(r));
      }
      var n := Contracts(sizeCash, r.ask);
      if TotalCost(p, r, n) > book.account.cash {
        return SkipCapital(Key(r));
      }
      return Trade(Key(r), LotOf(p, r, n), ShortSim.Fee(r.ask, n) * p.feeMultiplier, 0.0);
    }

    /** The loop body after `_settle_due`. */
    method Consider(r: Row)
      requires r.ask > 0.0
      modifies this, book
      ensures Value() == Take(old(Value()), Decide(p, old(Value()), r))
    {
      if Key(r) in seen {
        return;
      }
      if (r.horizon, r.bucket, r.category) !in p.cells && (r.horizon, r.bucket, "ALL") !in p.cells {
        return;
      }
      if (r.horizon, r.bucket) in p.rising && r.momentum < 0.0 {
        return;
      }
      var e := Sizing(r);
      seen := seen + {Key(r)};
      if e.SkipCapital? {
        skipped := skipped + 1;
      } else {
        book.OpenLot(e.lot, e.fee, e.upfront);
        accepted := accepted + [e.lot];
      }
    }
  }

  method RunSimulation(p: Params, bankroll: real, rows: seq<Row>) returns (account: Account, skipped: nat)
    requires RowsOk(rows)
    ensures account == Simulate(p, bankroll, rows).account
    ensures skipped == Simulate(p, bankroll, rows).skippedCapital
  {
    var run := new FavoritesRun(p, bankroll);
    for i := 0 to |rows|
      invariant fresh(run) && fresh(run.book) && run.p == p
      invariant run.Value() == Run(p, bankroll, rows[..i])
    {
      assert rows[..i + 1][..i] == rows[..i];
      run.book.Settle(rows[i].entry);
      run.Consider(rows[i]);
    }
    assert rows[..|rows|] == rows;
    run.book.Settle(TIMESTAMP_MAX);
    return run.book.account, run.skipped;
  }
}
