/**
 The exchange, as the harness depends on it, and the order executor.

 The exchange is a ledger. Its behaviour is driven by a script of raw replies that the
 ledger's rules bring into range, so quantifying over all scripts covers every fill the
 rules allow: each client order id is accepted at most once, a fill has at most `count`
 contracts at a price no worse than the limit, and the client may or may not learn of it.
 */
module Exchanges {
  import opened Options
  import opened Money
  import opened Book
  import opened Reconcile

  datatype Order = Order(coid: string, ticker: Ticker, filled: nat, price: int, fee: int)

  /** A POST that reached the wire. */
  datatype Post = Post(coid: string, ticker: Ticker, count: int, limit: int)

  datatype Exchange = Exchange(cash: int, orders: seq<Order>, settlements: seq<Settlement>, posts: seq<Post>)

  datatype RawFill = RawFill(count: int, price: int, fee: int)

  /** A row of the fills endpoint. */
  datatype FillRow = FillRow(count: int, price: int, fee: Option<int>)

  /**
   How a client sees an order: inline in the reply, or by polling the fills endpoint, where
   each attempt lists its fills or nothing yet; `split` is how they are broken into rows.
   */
  datatype View = Inline | Polled(attempts: seq<bool>, feesShown: bool, split: seq<FillRow>)
  datatype Search = SearchRaises | SearchMisses | SearchFinds(view: View)
  datatype Answer = Accepted(view: View) | HttpError | RateLimited | Lost(search: Search)

  /** What the exchange does with a POST (`fill.None?` refuses it) and what the client hears. */
  datatype Reply = Reply(fill: Option<RawFill>, answer: Answer)

  predicate Closed(ss: seq<Settlement>, t: Ticker) {
    exists i :: 0 <= i < |ss| && ss[i].ticker == t
  }

  predicate HasCoid(os: seq<Order>, coid: string) {
    exists i :: 0 <= i < |os| && os[i].coid == coid
  }

  predicate HasFill(os: seq<Order>, t: Ticker) {
    exists i :: 0 <= i < |os| && os[i].ticker == t && os[i].filled > 0
  }

  function FindOrder(os: seq<Order>, coid: string): (o: Order)
    requires HasCoid(os, coid)
    ensures o in os && o.coid == coid
  {
    if os[0].coid == coid then os[0]
    else
      assert HasCoid(os[1..], coid) by {
        var i :| 0 <= i < |os| && os[i].coid == coid;
        assert os[1..][i - 1].coid == coid;
      }
      FindOrder(os[1..], coid)
  }

  // ---------- POST ----------

  predicate Takes(ex: Exchange, coid: string, ticker: Ticker, reply: Reply) {
    reply.fill.Some? && ticker != "" && !HasCoid(ex.orders, coid)
  }

  function FillOf(coid: string, ticker: Ticker, count: int, limit: int, raw: RawFill): (o: Order)
    ensures o.filled == 0 || (o.filled <= count && (limit <= DOLLAR ==> limit <= o.price <= DOLLAR))
    ensures o.fee >= 0
  {
    var filled := Max(0, Min(raw.count, count));
    Order(coid, ticker, filled, Min(DOLLAR, Max(limit, raw.price)), if filled == 0 then 0 else Max(0, raw.fee))
  }

  /** The ledger after a POST: logged; if taken, collateral and fee leave the cash. */
  function Submit(ex: Exchange, coid: string, ticker: Ticker, count: int, limit: int, reply: Reply): Exchange {
    var sent := ex.(posts := ex.posts + [Post(coid, ticker, count, limit)]);
    if Takes(ex, coid, ticker, reply) then
      var o := FillOf(coid, ticker, count, limit, reply.fill.value);
      sent.(orders := ex.orders + [o], cash := ex.cash - Locked(o.price, o.filled) - o.fee)
    else sent
  }

  /** An order just taken is the one found under its id. */
  lemma TakenIsFound(ex: Exchange, coid: string, ticker: Ticker, count: int, limit: int, reply: Reply)
    requires Takes(ex, coid, ticker, reply)
    ensures var after := Submit(ex, coid, ticker, count, limit, reply);
      HasCoid(after.orders, coid)
      && FindOrder(after.orders, coid) == FillOf(coid, ticker, count, limit, reply.fill.value)
  {
    var after := Submit(ex, coid, ticker, count, limit, reply);
    assert after.orders[|ex.orders|].coid == coid;
    var o := FindOrder(after.orders, coid);
    var i :| 0 <= i < |after.orders| && after.orders[i] == o;
    assert i == |ex.orders|;
  }

  /** A later order never hides an earlier one with the same id. */
  lemma {:induction false} FindOrderAppend(os: seq<Order>, o: Order, coid: string)
    requires HasCoid(os, coid)
    ensures HasCoid(os + [o], coid) && FindOrder(os + [o], coid) == FindOrder(os, coid)
  {
    var i :| 0 <= i < |os| && os[i].coid == coid;
    assert (os + [o])[i] == os[i];
    if os[0].coid != coid {
      assert os[1..][i - 1].coid == coid;
      FindOrderAppend(os[1..], o, coid);
      assert (os + [o])[1..] == os[1..] + [o];
    }
  }

  lemma CoidAppend(os: seq<Order>, o: Order, coid: string)
    ensures HasCoid(os + [o], coid) <==> HasCoid(os, coid) || o.coid == coid
  {
    var all := os + [o];
    if HasCoid(os, coid) {
      var i :| 0 <= i < |os| && os[i].coid == coid;
      assert all[i] == os[i];
    }
    assert all[|os|] == o;
  }

  /** The id is taken by an order that carries a fill. */
  predicate FilledUnder(os: seq<Order>, coid: string) {
    HasCoid(os, coid) && FindOrder(os, coid).filled > 0
  }

  // ---------- account endpoints ----------

  function HeldCount(os: seq<Order>, t: Ticker): nat {
    if os == [] then 0
    else HeldCount(os[..|os| - 1], t) + if os[|os| - 1].ticker == t then os[|os| - 1].filled else 0
  }

  function HeldTickers(os: seq<Order>, ss: seq<Settlement>): seq<Ticker> {
    if os == [] then []
    else
      var r, o := HeldTickers(os[..|os| - 1], ss), os[|os| - 1];
      if o.filled > 0 && !Closed(ss, o.ticker) && o.ticker !in r then r + [o.ticker] else r
  }

  /** The positions endpoint: one (negative) row per unsettled market with contracts. */
  function Holdings(ex: Exchange): seq<Holding> {
    var ts := HeldTickers(ex.orders, ex.settlements);
    seq(|ts|, i requires 0 <= i < |ts| => Holding(ts[i], 0 - HeldCount(ex.orders, ts[i])))
  }

  lemma {:induction false} HeldTickersAre(os: seq<Order>, ss: seq<Settlement>, t: Ticker)
    ensures t in HeldTickers(os, ss) <==> HasFill(os, t) && !Closed(ss, t)
  {
    if os == [] {
    } else {
      var init := os[..|os| - 1];
      HeldTickersAre(init, ss, t);
      if HasFill(os, t) {
        var i :| 0 <= i < |os| && os[i].ticker == t && os[i].filled > 0;
        assert i < |init| ==> init[i] == os[i];
      }
      if HasFill(init, t) {
        var i :| 0 <= i < |init| && init[i].ticker == t && init[i].filled > 0;
        assert os[i] == init[i];
      }
    }
  }

  lemma {:induction false} HeldPositive(os: seq<Order>, t: Ticker)
    ensures HasFill(os, t) <==> HeldCount(os, t) > 0
  {
    if os == [] {
    } else {
      var init := os[..|os| - 1];
      HeldPositive(init, t);
      if HasFill(os, t) {
        var i :| 0 <= i < |os| && os[i].ticker == t && os[i].filled > 0;
        assert i < |init| ==> init[i] == os[i];
      }
      if HasFill(init, t) {
        var i :| 0 <= i < |init| && init[i].ticker == t && init[i].filled > 0;
        assert os[i] == init[i];
      }
    }
  }

  /** The positions endpoint shows exactly the unsettled markets with a fill, with a nonzero count. */
  lemma HoldingsShow(ex: Exchange, t: Ticker)
    ensures (exists i :: 0 <= i < |Holdings(ex)| && Holdings(ex)[i].ticker == t && Holdings(ex)[i].count != 0)
            <==> HasFill(ex.orders, t) && !Closed(ex.settlements, t)
  {
    var ts := HeldTickers(ex.orders, ex.settlements);
    HeldTickersAre(ex.orders, ex.settlements, t);
    HeldPositive(ex.orders, t);
    if t in ts {
      var i :| 0 <= i < |ts| && ts[i] == t;
      assert Holdings(ex)[i].ticker == t && Holdings(ex)[i].count != 0;
    }
  }

  /** A market resolves, once: NO pays a dollar a contract, YES nothing. */
  function Resolve(ex: Exchange, t: Ticker, result: Outcome): Exchange {
    if t == "" || Closed(ex.settlements, t) then ex
    else
      var payout := if result.No? then DOLLAR * HeldCount(ex.orders, t) else 0;
      ex.(cash := ex.cash + payout,
          settlements := ex.settlements + [Settlement(t, Some(result), Some(payout))])
  }

  // ---------- the ledger's own books ----------

  /** Cash that an order has cost so far: collateral and fee while open, minus its P&L afterwards. */
  function Outflow(o: Order, ss: seq<Settlement>): int {
    var s := Lookup(ss, o.ticker);
    if s.Some? && s.value.result.Some? then -NetPnl(o.price, o.filled, o.fee, s.value.result.value)
    else Locked(o.price, o.filled) + o.fee
  }

  function Outflows(os: seq<Order>, ss: seq<Settlement>): int {
    if os == [] then 0 else Outflows(os[..|os| - 1], ss) + Outflow(os[|os| - 1], ss)
  }

  ghost predicate DistinctCoids(os: seq<Order>) {
    forall i, j :: 0 <= i < j < |os| ==> os[i].coid != os[j].coid
  }

  /** Settlement rows name a market and carry a result. */
  ghost predicate CleanSettlements(ss: seq<Settlement>) {
    forall i :: 0 <= i < |ss| ==> ss[i].ticker != "" && ss[i].result.Some?
  }

  predicate OrderOk(o: Order) {
    o.ticker != "" && o.price <= DOLLAR && o.fee >= 0 && (o.filled == 0 ==> o.fee == 0)
  }

  ghost predicate LedgerOk(ex: Exchange, funds: int) {
    && ex.cash == funds - Outflows(ex.orders, ex.settlements)
    && DistinctCoids(ex.orders)
    && CleanSettlements(ex.settlements)
    && forall i :: 0 <= i < |ex.orders| ==> OrderOk(ex.orders[i])
  }

  lemma OutflowsAppend(os: seq<Order>, o: Order, ss: seq<Settlement>)
    ensures Outflows(os + [o], ss) == Outflows(os, ss) + Outflow(o, ss)
  {
    assert (os + [o])[..|os|] == os;
  }

  lemma {:induction false} LookupClosed(ss: seq<Settlement>, t: Ticker)
    requires t != ""
    ensures Lookup(ss, t).Some? <==> Closed(ss, t)
    ensures Lookup(ss, t).Some? ==> Lookup(ss, t).value in ss && Lookup(ss, t).value.ticker == t
  {
    if ss == [] {
    } else {
      var init := ss[..|ss| - 1];
      LookupClosed(init, t);
      if Closed(ss, t) {
        var i :| 0 <= i < |ss| && ss[i].ticker == t;
        assert i < |init| ==> init[i] == ss[i];
      }
      if Closed(init, t) {
        var i :| 0 <= i < |init| && init[i].ticker == t;
        assert ss[i] == init[i];
      }
    }
  }

  lemma LookupAppend(ss: seq<Settlement>, s: Settlement, t: Ticker)
    ensures Lookup(ss + [s], t) == if s.ticker == t && t != "" then Some(s) else Lookup(ss, t)
  {
    assert (ss + [s])[..|ss|] == ss;
  }

  lemma {:induction false} OutflowsResolve(os: seq<Order>, ss: seq<Settlement>, s: Settlement)
    requires s.ticker != "" && s.result.Some? && !Closed(ss, s.ticker)
    ensures Outflows(os, ss + [s])
            == Outflows(os, ss) - if s.result.value.No? then DOLLAR * HeldCount(os, s.ticker) else 0
  {
    if os == [] {
    } else {
      var init, o := os[..|os| - 1], os[|os| - 1];
      OutflowsResolve(init, ss, s);
      LookupAppend(ss, s, o.ticker);
      LookupClosed(ss, s.ticker);
      NetPnlIsCashFlow(o.price, o.filled, o.fee, s.result.value);
      if s.result.value.No? && o.ticker == s.ticker {
        assert DOLLAR * HeldCount(os, s.ticker) == DOLLAR * HeldCount(init, s.ticker) + DOLLAR * o.filled;
      }
    }
  }

  /** Every POST keeps the ledger's books: cash is funds less what the orders cost. */
  lemma SubmitKeepsLedger(ex: Exchange, funds: int, coid: string, ticker: Ticker, count: int, limit: int,
                          reply: Reply)
    requires LedgerOk(ex, funds) && !Closed(ex.settlements, ticker)
    ensures LedgerOk(Submit(ex, coid, ticker, count, limit, reply), funds)
  {
    if Takes(ex, coid, ticker, reply) {
      var o := FillOf(coid, ticker, count, limit, reply.fill.value);
      OutflowsAppend(ex.orders, o, ex.settlements);
      LookupClosed(ex.settlements, ticker);
    }
  }

  lemma ResolveKeepsLedger(ex: Exchange, funds: int, t: Ticker, result: Outcome)
    requires LedgerOk(ex, funds)
    ensures LedgerOk(Resolve(ex, t, result), funds)
  {
    if t != "" && !Closed(ex.settlements, t) {
      var payout := if result.No? then DOLLAR * HeldCount(ex.orders, t) else 0;
      OutflowsResolve(ex.orders, ex.settlements, Settlement(t, Some(result), Some(payout)));
    }
  }
}

module Execution {
  import opened Options
  import opened Money
  import opened Book
  import opened Exchanges
  import Decimal

  predicate Alphanumeric(c: char) {
    'A' <= c <= 'Z' || 'a' <= c <= 'z' || '0' <= c <= '9'
  }

  function Kept(c: char): string {
    if Alphanumeric(c) then [c] else ""
  }

  /** `re.sub(r"[^A-Za-z0-9]", "", ticker)`. */
  function Clean(t: string): string {
    if t == "" then "" else Kept(t[0]) + Clean(t[1..])
  }

  function ClientOrderId(prefix: string, t: Ticker, epoch: nat): string {
    prefix + "-" + Clean(t) + "-" + Decimal.Print(epoch)
  }

  lemma CleanCons(c: char, t: string)
    ensures Clean([c] + t) == Kept(c) + Clean(t)
  {
    assert ([c] + t)[1..] == t;
  }

  lemma Associates(a: string, b: string, c: string)
    ensures a + (b + c) == a + b + c
  {}

  lemma {:induction false} CleanConcat(a: string, b: string)
    ensures Clean(a + b) == Clean(a) + Clean(b)
  {
    if a == "" {
      assert a + b == b;
    } else {
      CleanConcat(a[1..], b);
      CleanCons(a[0], a[1..]);
      CleanCons(a[0], a[1..] + b);
      assert [a[0]] + a[1..] == a && [a[0]] + (a[1..] + b) == a + b;
      Associates(Kept(a[0]), Clean(a[1..]), Clean(b));
    }
  }

  /** Stripping keeps just the capitals, small letters and digits, in place. */
  lemma CleanKeeps(a: string, c: char, b: string)
    ensures Clean(a + [c] + b)
            == Clean(a) + (if 'A' <= c <= 'Z' || 'a' <= c <= 'z' || '0' <= c <= '9' then [c] else "") + Clean(b)
  {
    CleanConcat(a + [c], b);
    CleanConcat(a, [c]);
    assert [c][1..] == "";
  }

  /** All letters and digits. */
  predicate Plain(t: string) {
    forall i :: 0 <= i < |t| ==> 'A' <= t[i] <= 'Z' || 'a' <= t[i] <= 'z' || '0' <= t[i] <= '9'
  }

  lemma {:induction false} CleanFixpoint(t: string)
    requires Plain(t)
    ensures Clean(t) == t
  {
    if t == "" {
    } else {
      CleanFixpoint(t[1..]);
      assert t == [t[0]] + t[1..];
    }
  }

  lemma {:induction false} CleanIsPlain(t: string)
    ensures Plain(Clean(t))
  {
    if t == "" {
    } else {
      CleanIsPlain(t[1..]);
    }
  }

  /** Two brackets of one event, of letters and digits, have two ids: B85 and B87 do. */
  lemma BracketsApart(prefix: string, event: string, a: string, b: string, e: nat)
    requires Plain(a) && Plain(b) && a != b
    ensures ClientOrderId(prefix, event + "-" + a, e) != ClientOrderId(prefix, event + "-" + b, e)
  {
    ClientOrderIdInjective(prefix, event + "-" + a, e, event + "-" + b, e);
    CleanConcat(event + "-", a);
    CleanConcat(event + "-", b);
    CleanFixpoint(a);
    CleanFixpoint(b);
    assert a == (Clean(event + "-") + a)[|Clean(event + "-")|..];
    assert b == (Clean(event + "-") + b)[|Clean(event + "-")|..];
  }

  /**
   The format of the id of an event's bracket, as the exchange accepts it: prefix, the letters
   and digits of the ticker, the hour in decimal, with dashes only in between.
   */
  lemma OrderIdFormat(prefix: string, series: string, day: string, strike: string, e: nat)
    requires Plain(series) && Plain(day) && Plain(strike)
    ensures ClientOrderId(prefix, series + "-" + day + "-" + strike, e)
            == prefix + "-" + (series + day + strike) + "-" + Decimal.Print(e)
  {
    CleanJoined(series, day);
    CleanJoined(series + "-" + day, strike);
    CleanFixpoint(series);
    assert series + day + strike == (series + day) + strike;
  }

  /** A dash and what follows it. */
  lemma CleanJoined(t: string, part: string)
    requires Plain(part)
    ensures Clean(t + "-" + part) == Clean(t) + part
  {
    CleanKeeps(t, '-', part);
    CleanFixpoint(part);
    NothingBetween(Clean(t), part);
  }

  lemma NothingBetween(a: string, b: string)
    ensures a + "" + b == a + b
  {}

  lemma {:induction false} LastDash(a: string, x: string, b: string, y: string)
    requires a + "-" + x == b + "-" + y
    requires '-' !in x && '-' !in y
    ensures a == b && x == y
  {
    var s := a + "-" + x;
    var i, j := |a|, |b|;
    assert s[i] == '-' && s[j] == '-';
    forall k | i < k < |s| ensures s[k] != '-' {
      assert s[k] == x[k - i - 1] && x[k - i - 1] in x;
    }
    forall k | j < k < |s| ensures s[k] != '-' {
      assert s[k] == y[k - j - 1] && y[k - j - 1] in y;
    }
    assert i == j;
    assert a == s[..i] == b;
    assert x == s[i + 1..] == y;
  }

  lemma PrintHasNoDash(n: nat)
    ensures '-' !in Decimal.Print(n)
  {
    var s := Decimal.Print(n);
    forall i | 0 <= i < |s| ensures s[i] != '-' {
      assert Decimal.IsDigit(s[i]);
    }
  }

  /**
   The idempotency key identifies the hour, and the ticker up to punctuation: two ids
   coincide exactly when the hours do and the tickers agree once stripped.
   */
  lemma ClientOrderIdInjective(prefix: string, t: Ticker, e: nat, u: Ticker, f: nat)
    ensures ClientOrderId(prefix, t, e) == ClientOrderId(prefix, u, f) <==> Clean(t) == Clean(u) && e == f
  {
    if ClientOrderId(prefix, t, e) == ClientOrderId(prefix, u, f) {
      PrintHasNoDash(e);
      PrintHasNoDash(f);
      LastDash(prefix + "-" + Clean(t), Decimal.Print(e), prefix + "-" + Clean(u), Decimal.Print(f));
      assert Clean(t) == (prefix + "-" + Clean(t))[|prefix| + 1..];
      assert Clean(u) == (prefix + "-" + Clean(u))[|prefix| + 1..];
      Decimal.ParsePrint(e);
      Decimal.ParsePrint(f);
    }
  }

  /** Different tickers can share an id: stripping loses the decimal point of a bracket. */
  lemma ClientOrderIdsCollide(prefix: string, e: nat)
    ensures "B8.95" != "B89.5" && ClientOrderId(prefix, "B8.95", e) == ClientOrderId(prefix, "B89.5", e)
  {
    assert "B8.95"[2] != "B89.5"[2];
    calc {
      Clean("B8.95");
      { assert "B8.95"[1..] == "8.95"; }
      "B" + Clean("8.95");
      { assert "8.95"[1..] == ".95"; }
      "B" + ("8" + Clean(".95"));
      { assert ".95"[1..] == "95"; }
      "B" + ("8" + Clean("95"));
    }
    calc {
      Clean("B89.5");
      { assert "B89.5"[1..] == "89.5"; }
      "B" + Clean("89.5");
      { assert "89.5"[1..] == "9.5"; }
      "B" + ("8" + Clean("9.5"));
      { assert "9.5"[1..] == ".5" && ".5"[1..] == "5"; }
      "B" + ("8" + ("9" + Clean("5")));
      { assert "95"[1..] == "5"; }
      "B" + ("8" + Clean("95"));
    }
  }

  // ---------- place_short ----------

  datatype FillStatus = Filled | Partial | Unfilled | DryRun | Error

  datatype FillResult = FillResult(
    coid: string,
    ticker: Ticker,
    status: FillStatus,
    filled: nat,
    price: int,
    fee: int
  )

  const FILL_POLL_ATTEMPTS: nat := 4

  // ---------- polled fills ----------

  function Total(rows: seq<FillRow>): int {
    if rows == [] then 0 else Total(rows[..|rows| - 1]) + rows[|rows| - 1].count
  }

  lemma {:induction false} SumsConcat(a: seq<FillRow>, b: seq<FillRow>)
    ensures Total(a + b) == Total(a) + Total(b)
    ensures Notional(a + b) == Notional(a) + Notional(b)
    ensures ShownFees(a + b) == ShownFees(a) + ShownFees(b)
  {
    if b == [] {
      assert a + b == a;
    } else {
      SumsConcat(a, b[..|b| - 1]);
      assert (a + b)[..|a + b| - 1] == a + b[..|b| - 1];
    }
  }

  /** The sums over a list of fills: a row adds its contracts, contracts times price, and the fee it shows. */
  lemma SumsOfRow(a: seq<FillRow>, count: int, price: int, fee: Option<int>, b: seq<FillRow>)
    ensures var rows := a + [FillRow(count, price, fee)] + b;
      && Total(rows) == Total(a) + count + Total(b)
      && Notional(rows) == Notional(a) + count * price + Notional(b)
      && ShownFees(rows) == ShownFees(a) + (if fee.Some? then fee.value else 0) + ShownFees(b)
      && (FeeShown(rows) <==> FeeShown(a) || fee.Some? || FeeShown(b))
  {
    var row := FillRow(count, price, fee);
    SumsConcat(a + [row], b);
    SumsConcat(a, [row]);
    assert [row][..0] == [];
    FeeShownConcat(a + [row], b);
    FeeShownConcat(a, [row]);
    assert [row][0] == row;
  }

  lemma FeeShownConcat(a: seq<FillRow>, b: seq<FillRow>)
    ensures FeeShown(a + b) <==> FeeShown(a) || FeeShown(b)
  {
    if FeeShown(a) {
      var i :| 0 <= i < |a| && a[i].fee.Some?;
      assert (a + b)[i] == a[i];
    }
    if FeeShown(b) {
      var i :| 0 <= i < |b| && b[i].fee.Some?;
      assert (a + b)[|a| + i] == b[i];
    }
  }

  function Notional(rows: seq<FillRow>): int {
    if rows == [] then 0 else Notional(rows[..|rows| - 1]) + rows[|rows| - 1].count * rows[|rows| - 1].price
  }

  predicate FeeShown(rows: seq<FillRow>) {
    exists i :: 0 <= i < |rows| && rows[i].fee.Some?
  }

  function ShownFees(rows: seq<FillRow>): int {
    if rows == [] then 0 else ShownFees(rows[..|rows| - 1]) + rows[|rows| - 1].fee.GetOr(0)
  }

  /** The average price, to the nearest ten-thousandth, a tie going to the even one. */
  function Vwap(notional: int, count: int): int
    requires count > 0
  {
    var q, r := notional / count, notional % count;
    if 2 * r < count || (2 * r == count && q % 2 == 0) then q else q + 1
  }

  /** It is the whole number of ten-thousandths nearest to the exact average, the even one of two. */
  lemma VwapNearest(notional: int, count: int)
    requires count > 0
    ensures -count <= 2 * (count * Vwap(notional, count) - notional) <= count
    ensures var off := 2 * (count * Vwap(notional, count) - notional);
      off == count || off == -count ==> Vwap(notional, count) % 2 == 0
  {
    var q, r := notional / count, notional % count;
    assert notional == count * q + r;
    assert count * (q + 1) == count * q + count;
  }

  lemma TimesGrows(c: nat, a: int, b: int)
    ensures a <= b ==> c * a <= c * b
  {}

  lemma ExactQuotient(n: int, c: nat, p: int)
    requires c > 0 && n == c * p
    ensures n / c == p && n % c == 0
  {
    var q := n / c;
    assert n == c * q + n % c;
    TimesGrows(c, q + 1, p);
    TimesGrows(c, p + 1, q);
  }

  lemma VwapOfOnePrice(price: int, count: int)
    requires count > 0
    ensures Vwap(price * count, count) == price
  {
    ExactQuotient(price * count, count, price);
  }

  /** The first list that is not empty, of at most `polls`: contracts, average price, fees or the formula fee. */
  function ReadLists(lists: seq<seq<FillRow>>, polls: nat): (nat, int, int) {
    if polls == 0 || lists == [] then (0, 0, 0)
    else if lists[0] == [] then ReadLists(lists[1..], polls - 1)
    else if Total(lists[0]) <= 0 then (0, 0, 0)
    else
      var count := Total(lists[0]);
      var price := Vwap(Notional(lists[0]), count);
      (count, price, if FeeShown(lists[0]) then ShownFees(lists[0]) else Fee(price, count))
  }

  /** These rows are the fills of the order, all of them. */
  predicate SplitOf(o: Order, feesShown: bool, rows: seq<FillRow>) {
    && Total(rows) == o.filled && Notional(rows) == o.price * o.filled
    && FeeShown(rows) == feesShown && (feesShown ==> ShownFees(rows) == o.fee)
  }

  /** The split a view gives, if it is one of this order, and else a single row. */
  function FillsOf(o: Order, feesShown: bool, split: seq<FillRow>): seq<FillRow> {
    if SplitOf(o, feesShown, split) then split
    else [FillRow(o.filled, o.price, if feesShown then Some(o.fee) else None)]
  }

  /** What each poll lists. */
  function Lists(attempts: seq<bool>, fills: seq<FillRow>): (ls: seq<seq<FillRow>>)
    ensures |ls| == |attempts|
    ensures forall i :: 0 <= i < |attempts| ==> ls[i] == if attempts[i] then fills else []
  {
    seq(|attempts|, i requires 0 <= i < |attempts| => if attempts[i] then fills else [])
  }

  /** Fills are read exactly when one of the first four polls lists them. */
  lemma FourPolls(o: Order, attempts: seq<bool>, feesShown: bool, split: seq<FillRow>)
    requires o.filled > 0
    ensures Read(o, Polled(attempts, feesShown, split))
            == if exists i :: 0 <= i < |attempts| && i < 4 && attempts[i]
               then (o.filled, o.price, if feesShown then o.fee else Fee(o.price, o.filled))
               else (0, 0, 0)
    ensures Read(o, Inline) == (o.filled, o.price, o.fee)
  {}

  /** Some of the first four polls of the fills endpoint shows the order's fills. */
  predicate Visible(attempts: seq<bool>) {
    VisibleIn(attempts, FILL_POLL_ATTEMPTS)
  }

  predicate VisibleIn(attempts: seq<bool>, polls: nat) {
    exists i :: 0 <= i < |attempts| && i < polls && attempts[i]
  }

  /** What the client reads of an order: contracts, price, fee (formula fee if fills carry none). */
  function Read(o: Order, v: View): (nat, int, int) {
    match v
    case Inline => (o.filled, o.price, o.fee)
    case Polled(attempts, feesShown, _) =>
      if o.filled > 0 && Visible(attempts) then ReadAll(o, feesShown) else (0, 0, 0)
  }

  function ReadAll(o: Order, feesShown: bool): (nat, int, int) {
    (o.filled, o.price, if feesShown then o.fee else Fee(o.price, o.filled))
  }

  lemma FillsAreSplit(o: Order, feesShown: bool, split: seq<FillRow>)
    ensures SplitOf(o, feesShown, FillsOf(o, feesShown, split))
  {
    var row := FillRow(o.filled, o.price, if feesShown then Some(o.fee) else None);
    assert [row][..0] == [];
    assert Total([row]) == o.filled && (feesShown ==> ShownFees([row]) == o.fee);
    assert [row][0] == row;
  }

  lemma ListsTail(attempts: seq<bool>, fills: seq<FillRow>)
    requires attempts != []
    ensures Lists(attempts, fills)[0] == if attempts[0] then fills else []
    ensures Lists(attempts, fills)[1..] == Lists(attempts[1..], fills)
  {
    var rest := attempts[1..];
    forall i | 0 <= i < |rest| ensures Lists(attempts, fills)[i + 1] == Lists(rest, fills)[i] {
      assert rest[i] == attempts[i + 1];
    }
  }

  /** What a poll that lists the fills of the order reads. */
  lemma ListReads(o: Order, feesShown: bool, fills: seq<FillRow>, later: seq<seq<FillRow>>, polls: nat)
    requires SplitOf(o, feesShown, fills) && fills != [] && polls > 0
    ensures ReadLists([fills] + later, polls) == if o.filled > 0 then ReadAll(o, feesShown) else (0, 0, 0)
  {
    if o.filled > 0 {
      VwapOfOnePrice(o.price, o.filled);
    }
  }

  /**
   However the fills of an order are split into rows, polling reads its contracts, its price
   and its fee, or the formula fee if no row carries one.
   */
  lemma {:induction false} PollingReads(o: Order, attempts: seq<bool>, feesShown: bool, fills: seq<FillRow>, polls: nat)
    requires SplitOf(o, feesShown, fills)
    ensures ReadLists(Lists(attempts, fills), polls)
            == if o.filled > 0 && VisibleIn(attempts, polls) then ReadAll(o, feesShown) else (0, 0, 0)
  {
    if polls == 0 || attempts == [] {
    } else {
      var lists := Lists(attempts, fills);
      ListsTail(attempts, fills);
      VisibleLater(attempts, polls);
      if attempts[0] && fills != [] {
        assert lists == [fills] + lists[1..];
        ListReads(o, feesShown, fills, lists[1..], polls);
      } else {
        PollingReads(o, attempts[1..], feesShown, fills, polls - 1);
      }
    }
  }

  lemma VisibleLater(attempts: seq<bool>, polls: nat)
    requires attempts != [] && polls > 0
    ensures VisibleIn(attempts, polls) <==> attempts[0] || VisibleIn(attempts[1..], polls - 1)
  {
    var rest := attempts[1..];
    if VisibleIn(attempts, polls) && !attempts[0] {
      var i :| 0 <= i < |attempts| && i < polls && attempts[i];
      assert rest[i - 1];
    }
    if VisibleIn(rest, polls - 1) {
      var i :| 0 <= i < |rest| && i < polls - 1 && rest[i];
      assert attempts[i + 1];
    }
  }

  // ---------- what the executor returns ----------

  function Booked(coid: string, ticker: Ticker, count: int, r: (nat, int, int)): FillResult {
    FillResult(coid, ticker, if r.0 >= count then Filled else if r.0 > 0 then Partial else Unfilled,
               r.0, if r.0 > 0 then r.1 else 0, r.2)
  }

  function Failed(coid: string, ticker: Ticker): FillResult {
    FillResult(coid, ticker, Error, 0, 0, 0)
  }

  /** The executor's result; `None` when an exception it does not catch aborts the tick. */
  function Hear(ex: Exchange, coid: string, ticker: Ticker, count: int, limit: int, reply: Reply): Option<FillResult> {
    var after := Submit(ex, coid, ticker, count, limit, reply);
    match reply.answer
    case Accepted(view) =>
      if Takes(ex, coid, ticker, reply) then
        assert after.orders[|ex.orders|].coid == coid;
        Some(Booked(coid, ticker, count, Read(FindOrder(after.orders, coid), view)))
      else Some(Failed(coid, ticker))
    case HttpError => Some(Failed(coid, ticker))
    case RateLimited => None
    case Lost(search) =>
      match search
      case SearchRaises => None
      case SearchMisses => Some(Failed(coid, ticker))
      case SearchFinds(view) =>
        if HasCoid(after.orders, coid)
        then Some(Booked(coid, ticker, count, Read(FindOrder(after.orders, coid), view)))
        else Some(Failed(coid, ticker))
  }

  // ---------- what is heard ----------

  predicate IsBooked(r: FillResult) {
    r.status.Filled? || r.status.Partial?
  }

  /** The client learns of the whole fill, one way or another. */
  predicate HeardInFull(a: Answer) {
    match a
    case Accepted(v) => v.Inline? || Visible(v.attempts)
    case Lost(s) => s.SearchFinds? && (s.view.Inline? || Visible(s.view.attempts))
    case _ => false
  }

  /** How it learns of it. */
  function ViewOf(a: Answer): View
    requires HeardInFull(a)
  {
    match a
    case Accepted(v) => v
    case Lost(s) => s.view
  }

  /** A fill that is heard is booked with its contracts and price, and the fee that was shown or the formula's. */
  lemma FillIsHeard(ex: Exchange, coid: string, ticker: Ticker, count: int, limit: int, reply: Reply)
    requires Takes(ex, coid, ticker, reply) && HeardInFull(reply.answer)
    ensures Hear(ex, coid, ticker, count, limit, reply)
            == Some(Booked(coid, ticker, count,
                           Read(FillOf(coid, ticker, count, limit, reply.fill.value), ViewOf(reply.answer))))
  {
    TakenIsFound(ex, coid, ticker, count, limit, reply);
  }

  /** Where the order found under the id carries no fill, nothing is booked. */
  lemma NoFillIsHeard(ex: Exchange, coid: string, ticker: Ticker, count: int, limit: int, reply: Reply)
    requires count >= 1 && !reply.answer.RateLimited?
    requires !(reply.answer.Lost? && reply.answer.search.SearchRaises?)
    requires !FilledUnder(Submit(ex, coid, ticker, count, limit, reply).orders, coid)
    ensures Hear(ex, coid, ticker, count, limit, reply).Some?
    ensures !IsBooked(Hear(ex, coid, ticker, count, limit, reply).value)
  {
    var after := Submit(ex, coid, ticker, count, limit, reply);
    if Takes(ex, coid, ticker, reply) {
      assert after.orders[|ex.orders|].coid == coid;
    }
  }

  /** What is booked is the earlier order under the id, if there is one, and otherwise this order's fill. */
  ghost predicate BooksOneOf(ex: Exchange, coid: string, ticker: Ticker, count: int, limit: int, reply: Reply,
                             r: FillResult)
  {
    if HasCoid(ex.orders, coid) then Carries(r, FindOrder(ex.orders, coid))
    else Takes(ex, coid, ticker, reply) && Carries(r, FillOf(coid, ticker, count, limit, reply.fill.value))
  }

  predicate Carries(r: FillResult, o: Order) {
    r.filled == o.filled > 0 && r.price == o.price && r.coid == o.coid
  }

  lemma FoundAfter(ex: Exchange, coid: string, ticker: Ticker, count: int, limit: int, reply: Reply)
    ensures var after := Submit(ex, coid, ticker, count, limit, reply);
      && (HasCoid(ex.orders, coid) ==> after.orders == ex.orders)
      && (HasCoid(after.orders, coid) && !HasCoid(ex.orders, coid) ==>
            && Takes(ex, coid, ticker, reply)
            && FindOrder(after.orders, coid) == FillOf(coid, ticker, count, limit, reply.fill.value))
  {
    if Takes(ex, coid, ticker, reply) {
      TakenIsFound(ex, coid, ticker, count, limit, reply);
    }
  }

  lemma ReadCarries(o: Order, view: View, ticker: Ticker, count: int)
    requires count >= 1 && IsBooked(Booked(o.coid, ticker, count, Read(o, view)))
    ensures Carries(Booked(o.coid, ticker, count, Read(o, view)), o)
  {}

  lemma HeardIsOneOf(ex: Exchange, coid: string, ticker: Ticker, count: int, limit: int, reply: Reply)
    requires count >= 1
    ensures var res := Hear(ex, coid, ticker, count, limit, reply);
      res.Some? && IsBooked(res.value) ==> BooksOneOf(ex, coid, ticker, count, limit, reply, res.value)
  {
    var res, after := Hear(ex, coid, ticker, count, limit, reply), Submit(ex, coid, ticker, count, limit, reply);
    if res.Some? && IsBooked(res.value) {
      FoundAfter(ex, coid, ticker, count, limit, reply);
      var view := if reply.answer.Accepted? then reply.answer.view else reply.answer.search.view;
      ReadCarries(FindOrder(after.orders, coid), view, ticker, count);
    }
  }

  /** There is an order of the id for the client to read: the POST was taken, or the search finds one. */
  predicate Reports(ex: Exchange, coid: string, ticker: Ticker, reply: Reply) {
    match reply.answer
    case Accepted(_) => Takes(ex, coid, ticker, reply)
    case Lost(search) => search.SearchFinds? && (HasCoid(ex.orders, coid) || Takes(ex, coid, ticker, reply))
    case _ => false
  }

  /**
   How an order ends: an exception escapes on a 429, or when the search after a lost reply fails;
   with no order to read it is an error carrying nothing; else what was read decides.
   */
  lemma HeardExactly(ex: Exchange, coid: string, ticker: Ticker, count: int, limit: int, reply: Reply)
    requires count >= 1
    ensures var res := Hear(ex, coid, ticker, count, limit, reply);
      && (res.None? <==> reply.answer.RateLimited? || (reply.answer.Lost? && reply.answer.search.SearchRaises?))
      && (res.Some? ==>
            var r := res.value;
            && r.coid == coid && r.ticker == ticker
            && (r.status.Error? <==> !Reports(ex, coid, ticker, reply))
            && (r.status.Error? ==> r.filled == r.fee == 0)
            && (r.status.Filled? <==> r.filled >= count)
            && (r.status.Partial? <==> 0 < r.filled < count)
            && (r.filled == 0 ==> r.price == 0))
  {
    if Takes(ex, coid, ticker, reply) {
      TakenIsFound(ex, coid, ticker, count, limit, reply);
    }
  }

  /** The exchange as an object the executor talks to. */
  class Broker {
    var ex: Exchange

    constructor (ex: Exchange)
      ensures this.ex == ex
    {
      this.ex := ex;
    }

    /** One POST. */
    method CreateOrder(coid: string, ticker: Ticker, count: int, limit: int, reply: Reply)
      modifies this
      ensures ex == Submit(old(ex), coid, ticker, count, limit, reply)
    {
      ex := Submit(ex, coid, ticker, count, limit, reply);
    }
  }

  class Executor {
    const broker: Broker
    const prefix: string
    const dryRun: bool

    constructor (broker: Broker, prefix: string, dryRun: bool)
      ensures this.broker == broker && this.prefix == prefix && this.dryRun == dryRun
    {
      this.broker, this.prefix, this.dryRun := broker, prefix, dryRun;
    }

    /** Poll the fills of an order, a bounded number of times; each poll finds a list. */
    method SettleOrder(lists: seq<seq<FillRow>>) returns (filled: nat, vwap: int, fee: int)
      ensures (filled, vwap, fee) == ReadLists(lists, FILL_POLL_ATTEMPTS)
    {
      var i: nat := 0;
      while i < FILL_POLL_ATTEMPTS
        invariant i <= FILL_POLL_ATTEMPTS
        invariant i <= |lists| ==>
          ReadLists(lists, FILL_POLL_ATTEMPTS) == ReadLists(lists[i..], FILL_POLL_ATTEMPTS - i)
        invariant i > |lists| ==> ReadLists(lists, FILL_POLL_ATTEMPTS) == (0, 0, 0)
      {
        var fills := if i < |lists| then lists[i] else [];
        if fills != [] {
          var count := Total(fills);
          if count <= 0 {
            break;
          }
          vwap := Vwap(Notional(fills), count);
          return count, vwap, if FeeShown(fills) then ShownFees(fills) else Fee(vwap, count);
        }
        i := i + 1;
      }
      return 0, 0, 0;
    }

    /** The fill, inline or by polling. */
    method ReadOrder(o: Order, view: View) returns (filled: nat, vwap: int, fee: int)
      ensures (filled, vwap, fee) == Read(o, view)
    {
      filled, vwap, fee := o.filled, o.price, o.fee;
      if view.Polled? {
        var fills := FillsOf(o, view.feesShown, view.split);
        FillsAreSplit(o, view.feesShown, view.split);
        PollingReads(o, view.attempts, view.feesShown, fills, FILL_POLL_ATTEMPTS);
        filled, vwap, fee := SettleOrder(Lists(view.attempts, fills));
      }
    }

    /**
     Sell `count` contracts at `price`: at most one POST, never repeated; a lost reply is
     confirmed by client order id. `None` is an exception escaping to the tick.
     */
    method PlaceShort(ticker: Ticker, price: int, count: int, epoch: nat, reply: Reply)
      returns (res: Option<FillResult>)
      modifies broker
      ensures dryRun ==> broker.ex == old(broker.ex) && res.Some? && res.value.status.DryRun?
      ensures !dryRun ==>
        && broker.ex == Submit(old(broker.ex), ClientOrderId(prefix, ticker, epoch), ticker, count, price, reply)
        && res == Hear(old(broker.ex), ClientOrderId(prefix, ticker, epoch), ticker, count, price, reply)
    {
      var coid := ClientOrderId(prefix, ticker, epoch);
      var base := Failed(coid, ticker);
      if dryRun {
        return Some(base.(status := DryRun));
      }
      var taken := Takes(broker.ex, coid, ticker, reply);
      broker.CreateOrder(coid, ticker, count, price, reply);
      var view;
      match reply.answer {
        case Accepted(v) =>
          if !taken {
            return Some(base);
          }
          view := v;
        case HttpError => return Some(base);
        case RateLimited => return None;
        case Lost(search) =>
          match search {
            case SearchRaises => return None;
            case SearchMisses => return Some(base);
            case SearchFinds(v) =>
              if !HasCoid(broker.ex.orders, coid) {
                return Some(base);
              }
              view := v;
          }
      }
      assert HasCoid(broker.ex.orders, coid) by {
        if taken {
          assert broker.ex.orders[|broker.ex.orders| - 1].coid == coid;
        }
      }
      var o := FindOrder(broker.ex.orders, coid);
      var filled, vwap, fee := ReadOrder(o, view);
      base := base.(filled := filled, price := if filled > 0 then vwap else 0, fee := fee);
      base := base.(status := if filled >= count then Filled else if filled > 0 then Partial else Unfilled);
      return Some(base);
    }
  }
}
