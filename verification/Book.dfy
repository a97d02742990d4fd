/**
 The local position book: the records the harness keeps in its state file, and the
 figures that are *defined* as folds over it. Every running figure of a tick is later
 proved to equal one of these folds.
 */
module Book {
  import opened Options
  import opened Money

  type Ticker = string

  datatype Outcome = Yes | No
  datatype Status = Open | Settled

  /**
   A short-YES position. `price` and `collateral` are `None` for an adopted orphan.
   `coid` is the client order id of the order that opened it (none for an orphan).
   */
  datatype Position = Position(
    ticker: Ticker,
    status: Status,
    result: Option<Outcome>,
    price: Option<int>,
    filled: nat,
    size: nat,
    fee: int,
    collateral: Option<int>,
    pnl: Option<int>,
    settledDay: Option<int>,
    coid: Option<string>
  )

  /** `p.get("filled_size") or p.get("size") or 0`. */
  function Contracts(p: Position): nat {
    if p.filled != 0 then p.filled else p.size
  }

  // ---------- tickers ----------

  function Tickers(ps: seq<Position>): set<Ticker> {
    set i | 0 <= i < |ps| :: ps[i].ticker
  }

  ghost predicate DistinctTickers(ps: seq<Position>) {
    forall i, j :: 0 <= i < j < |ps| ==> ps[i].ticker != ps[j].ticker
  }

  lemma TickersAppend(ps: seq<Position>, p: Position)
    ensures Tickers(ps + [p]) == Tickers(ps) + {p.ticker}
  {
    var qs := ps + [p];
    forall t | t in Tickers(ps) + {p.ticker}
      ensures t in Tickers(qs)
    {
      if t in Tickers(ps) {
        var i :| 0 <= i < |ps| && ps[i].ticker == t;
        assert qs[i].ticker == t;
      } else {
        assert qs[|ps|].ticker == t;
      }
    }
  }

  // ---------- folds ----------

  function OpenCollateral(p: Position): int {
    if p.status.Open? then p.collateral.GetOr(0) else 0
  }

  /** Collateral of the open positions; an orphan's unknown collateral counts as 0. */
  function Deployed(ps: seq<Position>): int {
    if ps == [] then 0 else Deployed(ps[..|ps| - 1]) + OpenCollateral(ps[|ps| - 1])
  }

  function OpenCount(ps: seq<Position>): nat {
    if ps == [] then 0
    else OpenCount(ps[..|ps| - 1]) + if ps[|ps| - 1].status.Open? then 1 else 0
  }

  lemma FoldsAppend(ps: seq<Position>, p: Position)
    ensures Deployed(ps + [p]) == Deployed(ps) + OpenCollateral(p)
    ensures OpenCount(ps + [p]) == OpenCount(ps) + if p.status.Open? then 1 else 0
  {
    assert (ps + [p])[..|ps|] == ps;
  }

  /** The open records. */
  function OpenAt(ps: seq<Position>): set<int> {
    set i | 0 <= i < |ps| && ps[i].status == Open
  }

  /** The open count is the number of open records. */
  lemma {:induction false} OpenCountIs(ps: seq<Position>)
    ensures OpenCount(ps) == |OpenAt(ps)|
  {
    if ps == [] {
    } else {
      var init, last := ps[..|ps| - 1], |ps| - 1;
      OpenCountIs(init);
      if ps[last].status == Open {
        assert OpenAt(ps) == OpenAt(init) + {last};
      } else {
        assert OpenAt(ps) == OpenAt(init);
      }
    }
  }

  /** Collateral a record still locks. */
  function StillLocked(p: Position): int {
    if p.status == Open && p.collateral.Some? then p.collateral.value else 0
  }

  /**
   Rewriting one record moves the deployed figure by what that record locks, and by nothing
   else.
   */
  lemma {:induction false} DeployedMoves(ps: seq<Position>, i: nat, p: Position)
    requires i < |ps|
    ensures Deployed(ps[i := p]) - Deployed(ps) == StillLocked(p) - StillLocked(ps[i])
  {
    var init, n := ps[..|ps| - 1], |ps| - 1;
    if i == n {
      assert ps[i := p][..n] == init;
    } else {
      DeployedMoves(init, i, p);
      assert ps[i := p][..n] == init[i := p];
    }
  }

  /** Where nothing is locked it is zero. */
  lemma {:induction false} NothingLocked(ps: seq<Position>)
    requires forall j :: 0 <= j < |ps| ==> StillLocked(ps[j]) == 0
    ensures Deployed(ps) == 0
  {
    if ps == [] {
    } else {
      NothingLocked(ps[..|ps| - 1]);
    }
  }

  /** A figure summed record by record. */
  function SumOf(ps: seq<Position>, f: Position -> int): int {
    if ps == [] then 0 else SumOf(ps[..|ps| - 1], f) + f(ps[|ps| - 1])
  }

  lemma {:induction false} SumMoves(ps: seq<Position>, i: nat, p: Position, f: Position -> int)
    requires i < |ps|
    ensures SumOf(ps[i := p], f) - SumOf(ps, f) == f(p) - f(ps[i])
  {
    var init, n := ps[..|ps| - 1], |ps| - 1;
    if i == n {
      assert ps[i := p][..n] == init;
    } else {
      SumMoves(init, i, p, f);
      assert ps[i := p][..n] == init[i := p];
    }
  }

  ghost predicate CollateralWhole(ps: seq<Position>) {
    forall i :: 0 <= i < |ps| ==> WholeCents(ps[i].collateral.GetOr(0))
  }

  lemma {:induction false} DeployedWhole(ps: seq<Position>)
    requires CollateralWhole(ps)
    ensures WholeCents(Deployed(ps))
  {
    if ps == [] {
    } else {
      DeployedWhole(ps[..|ps| - 1]);
    }
  }
}
