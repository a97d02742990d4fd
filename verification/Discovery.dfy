/** Discovery and sizing: the signal shared by the paper and the live harness. */
module Discovery {
  import opened Options
  import opened Money
  import opened Config
  import opened Book

  /** A listed market as the harness reads it; `oraclePasses` is the oracle's verdict on it. */
  datatype Market = Market(
    ticker: Ticker,
    ask: Option<int>,
    bid: Option<int>,
    bidSize: Option<real>,
    close: Option<int>,
    openInterest: real,
    oraclePasses: bool
  )

  /** Oracle gate: off, on, or on but unavailable (then nothing may be placed). */
  datatype Surfaces = Off | On | Unavailable

  predicate Passes(s: Surfaces, m: Market) {
    s.Off? || m.oraclePasses
  }

  datatype Candidate = Candidate(
    ticker: Ticker,
    price: int,
    size: int,
    depth: real,
    openInterest: real,
    collateral: int,
    fee: int,
    close: int,
    trimmedFrom: Option<int>
  )

  /** Everything before sizing: quotes present, ask in the band, a bid, open interest, horizon. */
  predicate Eligible(cfg: Config, m: Market, now: int) {
    && m.ask.Some? && m.bid.Some? && m.bidSize.Some? && m.close.Some?
    && cfg.bandLow <= m.ask.value <= cfg.bandHigh
    && m.bid.value > 0
    && (cfg.oiFilterEnabled ==>
          if cfg.oiKeepHigh then m.openInterest > cfg.oiMax else m.openInterest <= cfg.oiMax)
    && 0 < m.close.value - now <= cfg.maxSecondsToClose
  }

  /** Collateral of one contract. */
  function PerContract(bid: int): real {
    (10000 - bid) as real
  }

  /** Collateral a clip aims at. */
  function Target(cfg: Config, acct: int): real {
    acct as real * cfg.tradeFraction
  }

  /** Contracts the depth at the bid allows. */
  function DepthCap(cfg: Config, bidSize: real): int {
    Trunc(cfg.maxDepthFrac * bidSize)
  }

  /** Contracts a clip would like: the equity fraction, limited by depth, but at least one. */
  function ClipSize(cfg: Config, acct: int, bid: int, bidSize: real): int {
    Max(1, Min(Affordable(Target(cfg, acct), PerContract(bid)), DepthCap(cfg, bidSize)))
  }

  function Priced(m: Market, n: int): Candidate
    requires m.bid.Some? && m.bidSize.Some? && m.close.Some?
  {
    Candidate(m.ticker, m.bid.value, n, m.bidSize.value, m.openInterest,
              RoundCents(Locked(m.bid.value, n)), Fee(m.bid.value, n), m.close.value, None)
  }

  function SizeCandidate(cfg: Config, m: Market, now: int, acct: int, deployed: int): Option<Candidate> {
    if !Eligible(cfg, m, now) then None
    else
      var n := ClipSize(cfg, acct, m.bid.value, m.bidSize.value);
      var collateral := Locked(m.bid.value, n);
      if collateral < CENT || deployed + collateral > acct then None
      else Some(Priced(m, n))
  }

  /** `k` contracts lock at most the fraction of equity, and take at most the fraction of the depth. */
  predicate FitsClip(cfg: Config, acct: int, bid: int, bidSize: real, k: int) {
    && k as real * (10000 - bid) as real <= acct as real * cfg.tradeFraction
    && k as real <= cfg.maxDepthFrac * bidSize
  }

  /**
   The clip is the *largest* number of contracts within both limits, the equity fraction
   and the depth fraction; only when no contract fits does the floor of one override them.
   A bid of a dollar or more locks nothing and is given one contract (and then not sized).
   */
  lemma ClipSizeIsLargest(cfg: Config, acct: int, bid: int, bidSize: real, k: int)
    requires k > 1
    ensures ClipSize(cfg, acct, bid, bidSize) >= 1
    ensures k <= ClipSize(cfg, acct, bid, bidSize) <==> bid < 10000 && FitsClip(cfg, acct, bid, bidSize, k)
  {
    if bid < 10000 {
      AffordableAtLeast(Target(cfg, acct), PerContract(bid), k);
    }
    TruncAtLeast(cfg.maxDepthFrac * bidSize, k);
  }

  /** A market the strategy may trade: what its quotes, its open interest and its horizon must be. */
  predicate Tradeable(cfg: Config, m: Market, now: int) {
    && m.ask.Some? && m.bid.Some? && m.bidSize.Some? && m.close.Some?
    && cfg.bandLow <= m.ask.value && m.ask.value <= cfg.bandHigh
    && 0 < m.bid.value
    && (cfg.oiFilterEnabled && cfg.oiKeepHigh ==> m.openInterest > cfg.oiMax)
    && (cfg.oiFilterEnabled && !cfg.oiKeepHigh ==> m.openInterest <= cfg.oiMax)
    && now < m.close.value && m.close.value <= now + cfg.maxSecondsToClose
  }

  /**
   A market is sized exactly when it is tradeable and its clip locks a cent at least and fits
   in the equity not yet deployed; it is then sold at its bid.
   */
  lemma SizedExactly(cfg: Config, m: Market, now: int, acct: int, deployed: int)
    ensures SizeCandidate(cfg, m, now, acct, deployed).Some?
            <==> Tradeable(cfg, m, now)
                 && 100 <= (10000 - m.bid.value) * ClipSize(cfg, acct, m.bid.value, m.bidSize.value) <= acct - deployed
    ensures SizeCandidate(cfg, m, now, acct, deployed).Some? ==>
      var c := SizeCandidate(cfg, m, now, acct, deployed).value;
      && c.ticker == m.ticker && c.price == m.bid.value
      && c.size == ClipSize(cfg, acct, m.bid.value, m.bidSize.value)
      && c.depth == m.bidSize.value && c.openInterest == m.openInterest && c.close == m.close.value
      && c.collateral % 100 == 0 && -50 <= c.collateral - (10000 - c.price) * c.size <= 50
      && c.fee == Fee(c.price, c.size)
  {}

  /**
   So the clip stays within the depth fraction exactly when the fraction of the depth is at
   least one contract.
   */
  lemma DepthBoundExactly(cfg: Config, acct: int, bid: int, bidSize: real)
    ensures ClipSize(cfg, acct, bid, bidSize) as real <= cfg.maxDepthFrac * bidSize
            <==> cfg.maxDepthFrac * bidSize >= 1.0
  {
    TruncIsFloor(cfg.maxDepthFrac * bidSize);
  }

  /** A quarter of two contracts is no contract; the clip is one. */
  lemma FloorOverridesDepth(cfg: Config, acct: int, bid: int)
    requires cfg.maxDepthFrac == 0.25
    ensures ClipSize(cfg, acct, bid, 2.0) == 1
    ensures ClipSize(cfg, acct, bid, 2.0) as real > cfg.maxDepthFrac * 2.0
  {
    assert cfg.maxDepthFrac * 2.0 == 0.5;
    TruncIsFloor(0.5);
  }

  /** Facts every candidate carries; in particular its price is strictly inside a dollar. */
  lemma CandidateFacts(cfg: Config, m: Market, now: int, acct: int, deployed: int)
    requires SizeCandidate(cfg, m, now, acct, deployed).Some?
    ensures var c := SizeCandidate(cfg, m, now, acct, deployed).value;
      && Tradeable(cfg, m, now) && c.ticker == m.ticker && c.price == m.bid.value
      && 0 < c.price < DOLLAR && c.size >= 1
      && c == Priced(m, c.size)
      && c.size == ClipSize(cfg, acct, m.bid.value, m.bidSize.value)
      && CENT <= Locked(c.price, c.size) <= acct - deployed
      && WholeCents(c.collateral) && c.collateral >= CENT
      && c.trimmedFrom.None?
  {
    var c := SizeCandidate(cfg, m, now, acct, deployed).value;
    NonPositive(DOLLAR - c.price, c.size);
    RoundCentsMonotone(CENT, Locked(c.price, c.size));
  }

  lemma NonPositive(per: int, n: int)
    requires n >= 1
    ensures per <= 0 ==> per * n <= 0
  {}

  // ---------- correlation groups ----------

  function Upper(c: char): char {
    if 'a' <= c <= 'z' then ((c as int) - 32) as char else c
  }

  /** Each small letter becomes its capital; nothing else changes. */
  lemma UpperIs(c: char)
    ensures forall i :: 0 <= i < 26 ==>
      Upper("abcdefghijklmnopqrstuvwxyz"[i]) == "ABCDEFGHIJKLMNOPQRSTUVWXYZ"[i]
    ensures !('a' <= c <= 'z') ==> Upper(c) == c
  {}

  function UpperAll(t: string): (u: string)
    ensures |u| == |t| && forall i :: 0 <= i < |t| ==> u[i] == Upper(t[i])
  {
    seq(|t|, i requires 0 <= i < |t| => Upper(t[i]))
  }

  function BeforeDash(t: string): string {
    if t == "" || t[0] == '-' then "" else [t[0]] + BeforeDash(t[1..])
  }

  /** All BTC tails are one trade, likewise ETH; anything else groups by its series prefix. */
  function UnderlyingKey(t: Ticker): string {
    var u := UpperAll(t);
    if "KXBTC" <= u then "BTC" else if "KXETH" <= u then "ETH" else BeforeDash(u)
  }

  lemma {:induction false} BeforeDashOf(series: string, rest: string)
    requires '-' !in series
    ensures BeforeDash(series + "-" + rest) == series
  {
    if series == "" {
    } else {
      BeforeDashOf(series[1..], rest);
      assert (series + "-" + rest)[1..] == series[1..] + "-" + rest;
    }
  }

  /** The group of a market depends on its series alone: every event and strike shares it. */
  lemma GroupIsSeries(series: string, rest: string)
    requires '-' !in series
    ensures UnderlyingKey(series + "-" + rest)
            == if "KXBTC" <= UpperAll(series) then "BTC"
               else if "KXETH" <= UpperAll(series) then "ETH" else UpperAll(series)
  {
    var t := series + "-" + rest;
    var u := UpperAll(series);
    assert UpperAll(t) == u + "-" + UpperAll(rest);
    forall i | 0 <= i < |u| ensures u[i] != '-' {
      assert series[i] in series;
    }
    BeforeDashOf(u, UpperAll(rest));
    PrefixBeforeDash("KXBTC", u, UpperAll(rest));
    PrefixBeforeDash("KXETH", u, UpperAll(rest));
  }

  /** A ticker without a dash is its own series. */
  lemma GroupOfBare(t: string)
    requires '-' !in t
    ensures UnderlyingKey(t)
            == if "KXBTC" <= UpperAll(t) then "BTC" else if "KXETH" <= UpperAll(t) then "ETH" else UpperAll(t)
  {
    forall i | 0 <= i < |t| ensures UpperAll(t)[i] != '-' {
      assert t[i] in t;
    }
    NothingBeforeDash(UpperAll(t));
  }

  lemma {:induction false} NothingBeforeDash(t: string)
    requires '-' !in t
    ensures BeforeDash(t) == t
  {
    if t == "" {
    } else {
      NothingBeforeDash(t[1..]);
    }
  }

  lemma PrefixBeforeDash(p: string, u: string, rest: string)
    requires '-' !in p
    ensures p <= u + "-" + rest <==> p <= u
  {
    var t := u + "-" + rest;
    if |p| > |u| {
      assert p[|u|] in p && t[|u|] == '-';
    } else {
      assert t[..|p|] == u[..|p|];
    }
  }

  function Get(m: map<string, int>, k: string): int {
    if k in m then m[k] else 0
  }

  /** Open collateral of one correlation group. */
  function GroupDeployed(ps: seq<Position>, k: string): int {
    if ps == [] then 0
    else
      var p := ps[|ps| - 1];
      GroupDeployed(ps[..|ps| - 1], k) + if UnderlyingKey(p.ticker) == k then OpenCollateral(p) else 0
  }

  lemma GroupDeployedAppend(ps: seq<Position>, p: Position, k: string)
    ensures GroupDeployed(ps + [p], k)
            == GroupDeployed(ps, k) + if UnderlyingKey(p.ticker) == k then OpenCollateral(p) else 0
  {
    assert (ps + [p])[..|ps|] == ps;
  }

  /** What a record locks in a group. */
  function LockedIn(p: Position, k: string): int {
    if UnderlyingKey(p.ticker) == k then StillLocked(p) else 0
  }

  lemma {:induction false} GroupIsSum(ps: seq<Position>, k: string)
    ensures GroupDeployed(ps, k) == SumOf(ps, p => LockedIn(p, k))
  {
    if ps == [] {
    } else {
      GroupIsSum(ps[..|ps| - 1], k);
    }
  }

  /** Rewriting one record moves the figure of a group by what that record locks in the group. */
  lemma GroupMoves(ps: seq<Position>, i: nat, p: Position, k: string)
    requires i < |ps|
    ensures GroupDeployed(ps[i := p], k) - GroupDeployed(ps, k) == LockedIn(p, k) - LockedIn(ps[i], k)
  {
    GroupIsSum(ps, k);
    GroupIsSum(ps[i := p], k);
    SumMoves(ps, i, p, q => LockedIn(q, k));
  }

  /** The dictionary the correlation cap reads. */
  function GroupMap(ps: seq<Position>): map<string, int> {
    if ps == [] then map[]
    else
      var p, rest := ps[|ps| - 1], GroupMap(ps[..|ps| - 1]);
      if p.status.Open?
      then rest[UnderlyingKey(p.ticker) := Get(rest, UnderlyingKey(p.ticker)) + p.collateral.GetOr(0)]
      else rest
  }

  /** It holds exactly each group's open collateral. */
  lemma {:induction false} GroupMapIs(ps: seq<Position>, k: string)
    ensures Get(GroupMap(ps), k) == GroupDeployed(ps, k)
  {
    if ps == [] {
    } else {
      GroupMapIs(ps[..|ps| - 1], k);
    }
  }

  method DeployedByUnderlying(ps: seq<Position>) returns (out: map<string, int>)
    ensures out == GroupMap(ps)
    ensures forall k :: Get(out, k) == GroupDeployed(ps, k)
  {
    out := map[];
    for i := 0 to |ps|
      invariant out == GroupMap(ps[..i])
    {
      assert ps[..i + 1][..i] == ps[..i];
      if ps[i].status.Open? {
        var key := UnderlyingKey(ps[i].ticker);
        out := out[key := Get(out, key) + ps[i].collateral.GetOr(0)];
      }
    }
    assert ps[..|ps|] == ps;
    forall k ensures Get(out, k) == GroupDeployed(ps, k) {
      GroupMapIs(ps, k);
    }
  }

  // ---------- paper discovery ----------

  /** The running state of paper discovery. */
  datatype Scan = Scan(cands: seq<Candidate>, have: set<Ticker>, deployed: int, dbu: map<string, int>)

  function ScanOne(cfg: Config, now: int, acct: int, s: Surfaces, sc: Scan, m: Market): Scan {
    if m.ticker in sc.have || !Passes(s, m) then sc
    else
      match SizeCandidate(cfg, m, now, acct, sc.deployed)
      case None => sc
      case Some(c) =>
        var key := UnderlyingKey(c.ticker);
        if cfg.maxUnderlyingCollateral > 0
           && Get(sc.dbu, key) + c.collateral > cfg.maxUnderlyingCollateral then sc
        else Scan(sc.cands + [c], sc.have + {m.ticker}, sc.deployed + c.collateral,
                  if cfg.maxUnderlyingCollateral > 0
                  then sc.dbu[key := Get(sc.dbu, key) + c.collateral] else sc.dbu)
  }

  /** A market becomes a candidate exactly when it is new, passes every test, and its group has room. */
  lemma ScanOneExactly(cfg: Config, now: int, acct: int, s: Surfaces, sc: Scan, m: Market)
    ensures ScanOne(cfg, now, acct, s, sc, m) != sc
            <==> && m.ticker !in sc.have && (s.Off? || m.oraclePasses) && Tradeable(cfg, m, now)
                 && var lock := (10000 - m.bid.value) * ClipSize(cfg, acct, m.bid.value, m.bidSize.value);
                    && 100 <= lock <= acct - sc.deployed
                    && (cfg.maxUnderlyingCollateral > 0 ==>
                          Get(sc.dbu, UnderlyingKey(m.ticker)) + RoundCents(lock) <= cfg.maxUnderlyingCollateral)
    ensures ScanOne(cfg, now, acct, s, sc, m) != sc ==>
      var next, c := ScanOne(cfg, now, acct, s, sc, m), SizeCandidate(cfg, m, now, acct, sc.deployed).value;
      && next.cands == sc.cands + [c] && next.have == sc.have + {m.ticker}
      && next.deployed == sc.deployed + c.collateral
      && forall k :: Get(next.dbu, k)
           == Get(sc.dbu, k)
              + if cfg.maxUnderlyingCollateral > 0 && k == UnderlyingKey(m.ticker) then c.collateral else 0
  {
    SizedExactly(cfg, m, now, acct, sc.deployed);
  }

  function ScanAll(cfg: Config, now: int, acct: int, s: Surfaces, sc: Scan, ms: seq<Market>): Scan {
    if ms == [] then sc
    else ScanOne(cfg, now, acct, s, ScanAll(cfg, now, acct, s, sc, ms[..|ms| - 1]), ms[|ms| - 1])
  }

  /** All markets of the listings that could be read, in series order. */
  function Flatten<T>(ls: seq<Option<seq<T>>>): seq<T> {
    if ls == [] then [] else Flatten(ls[..|ls| - 1]) + ls[|ls| - 1].GetOr([])
  }

  lemma {:induction false} FlattenConcat<T>(a: seq<Option<seq<T>>>, b: seq<Option<seq<T>>>)
    ensures Flatten(a + b) == Flatten(a) + Flatten(b)
  {
    if b == [] {
      assert a + b == a;
    } else {
      FlattenConcat(a, b[..|b| - 1]);
      assert (a + b)[..|a + b| - 1] == a + b[..|b| - 1];
    }
  }

  /** A listing that was read contributes its markets in its place, one that was not nothing. */
  lemma FlattenIs<T>(a: seq<Option<seq<T>>>, l: Option<seq<T>>, b: seq<Option<seq<T>>>)
    ensures Flatten(a + [l] + b) == Flatten(a) + (if l.Some? then l.value else []) + Flatten(b)
  {
    FlattenConcat(a + [l], b);
    assert (a + [l])[..|a|] == a;
  }

  function Discover(cfg: Config, now: int, acct: int, s: Surfaces, listings: seq<Option<seq<Market>>>,
                    exclude: set<Ticker>, deployed: int, dbu: map<string, int>): seq<Candidate>
  {
    if s.Unavailable? then []
    else ScanAll(cfg, now, acct, s, Scan([], exclude, deployed, dbu), Flatten(listings)).cands
  }

  /** A candidate as discovery may report it of a listed market. */
  predicate MayReport(cfg: Config, now: int, s: Surfaces, m: Market, c: Candidate) {
    && Tradeable(cfg, m, now) && (s.Off? || (s.On? && m.oraclePasses))
    && c.ticker == m.ticker && c.price == m.bid.value
  }

  lemma {:induction false} ScanReports(cfg: Config, now: int, acct: int, s: Surfaces, sc: Scan, ms: seq<Market>, i: nat)
    requires !s.Unavailable? && sc.cands == [] && i < |ScanAll(cfg, now, acct, s, sc, ms).cands|
    ensures exists j :: 0 <= j < |ms| && MayReport(cfg, now, s, ms[j], ScanAll(cfg, now, acct, s, sc, ms).cands[i])
  {
    if ms == [] {
    } else {
      var init, m := ms[..|ms| - 1], ms[|ms| - 1];
      var before := ScanAll(cfg, now, acct, s, sc, init);
      if i < |before.cands| {
        ScanReports(cfg, now, acct, s, sc, init, i);
        var j :| 0 <= j < |init| && MayReport(cfg, now, s, init[j], before.cands[i]);
        assert ms[j] == init[j];
      } else {
        SizedExactly(cfg, m, now, acct, before.deployed);
        assert MayReport(cfg, now, s, ms[|ms| - 1], ScanAll(cfg, now, acct, s, sc, ms).cands[i]);
      }
    }
  }

  /**
   Every candidate of discovery is a listed market whose ask lies in the band and which passes
   every other filter, the oracle's included, at its bid; a market already held is not one.
   */
  lemma DiscoverReports(cfg: Config, now: int, acct: int, s: Surfaces, listings: seq<Option<seq<Market>>>,
                        exclude: set<Ticker>, deployed: int, dbu: map<string, int>, i: nat)
    requires i < |Discover(cfg, now, acct, s, listings, exclude, deployed, dbu)|
    ensures var c := Discover(cfg, now, acct, s, listings, exclude, deployed, dbu)[i];
      && (exists j :: 0 <= j < |Flatten(listings)| && MayReport(cfg, now, s, Flatten(listings)[j], c))
      && c.ticker !in exclude
  {
    ScanReports(cfg, now, acct, s, Scan([], exclude, deployed, dbu), Flatten(listings), i);
    ScanExcludes(cfg, now, acct, s, Scan([], exclude, deployed, dbu), Flatten(listings));
  }

  lemma {:induction false} ScanExcludes(cfg: Config, now: int, acct: int, s: Surfaces, sc: Scan, ms: seq<Market>)
    requires sc.cands == []
    ensures var all := ScanAll(cfg, now, acct, s, sc, ms);
      && sc.have <= all.have
      && (forall i :: 0 <= i < |all.cands| ==> all.cands[i].ticker in all.have && all.cands[i].ticker !in sc.have)
      && forall i, j :: 0 <= i < j < |all.cands| ==> all.cands[i].ticker != all.cands[j].ticker
  {
    if ms == [] {
    } else {
      var init, m := ms[..|ms| - 1], ms[|ms| - 1];
      ScanExcludes(cfg, now, acct, s, sc, init);
      SizedExactly(cfg, m, now, acct, ScanAll(cfg, now, acct, s, sc, init).deployed);
    }
  }

  lemma ScanSnoc(cfg: Config, now: int, acct: int, s: Surfaces, sc: Scan, ms: seq<Market>, m: Market)
    ensures ScanAll(cfg, now, acct, s, sc, ms + [m])
            == ScanOne(cfg, now, acct, s, ScanAll(cfg, now, acct, s, sc, ms), m)
  {
    assert (ms + [m])[..|ms|] == ms;
  }

  method DiscoverCandidates(cfg: Config, now: int, acct: int, s: Surfaces,
                            listings: seq<Option<seq<Market>>>, exclude: set<Ticker>,
                            deployed0: int, byUnderlying: map<string, int>)
    returns (cands: seq<Candidate>)
    ensures cands == Discover(cfg, now, acct, s, listings, exclude, deployed0, byUnderlying)
  {
    if s.Unavailable? {
      return [];
    }
    cands := [];
    var have, dbu, deployed := exclude, byUnderlying, deployed0;
    ghost var start := Scan([], exclude, deployed0, byUnderlying);
    for i := 0 to |listings|
      invariant Scan(cands, have, deployed, dbu) == ScanAll(cfg, now, acct, s, start, Flatten(listings[..i]))
    {
      assert listings[..i + 1][..i] == listings[..i];
      ghost var before := Flatten(listings[..i]);
      assert Flatten(listings[..i + 1]) == before + listings[i].GetOr([]);
      if listings[i].Some? {
        cands, have, deployed, dbu :=
          DiscoverSeries(cfg, now, acct, s, cands, have, deployed, dbu, listings[i].value, start, before);
      } else {
        assert before + [] == before;
      }
    }
    assert listings[..|listings|] == listings;
  }

  /** The loop over one series' markets. */
  method DiscoverSeries(cfg: Config, now: int, acct: int, s: Surfaces, cands0: seq<Candidate>,
                        have0: set<Ticker>, deployed0: int, dbu0: map<string, int>, markets: seq<Market>,
                        ghost start: Scan, ghost before: seq<Market>)
    returns (cands: seq<Candidate>, have: set<Ticker>, deployed: int, dbu: map<string, int>)
    requires Scan(cands0, have0, deployed0, dbu0) == ScanAll(cfg, now, acct, s, start, before)
    ensures Scan(cands, have, deployed, dbu) == ScanAll(cfg, now, acct, s, start, before + markets)
  {
    cands, have, deployed, dbu := cands0, have0, deployed0, dbu0;
    assert before + markets[..0] == before;
    for j := 0 to |markets|
      invariant Scan(cands, have, deployed, dbu) == ScanAll(cfg, now, acct, s, start, before + markets[..j])
    {
      assert before + markets[..j + 1] == before + markets[..j] + [markets[j]];
      ScanSnoc(cfg, now, acct, s, start, before + markets[..j], markets[j]);
      cands, have, deployed, dbu := DiscoverOne(cfg, now, acct, s, cands, have, deployed, dbu, markets[j]);
    }
    assert markets[..|markets|] == markets;
  }

  /** The body of the market loop. */
  method DiscoverOne(cfg: Config, now: int, acct: int, s: Surfaces, cands0: seq<Candidate>,
                     have0: set<Ticker>, deployed0: int, dbu0: map<string, int>, m: Market)
    returns (cands: seq<Candidate>, have: set<Ticker>, deployed: int, dbu: map<string, int>)
    ensures Scan(cands, have, deployed, dbu)
            == ScanOne(cfg, now, acct, s, Scan(cands0, have0, deployed0, dbu0), m)
  {
    cands, have, deployed, dbu := cands0, have0, deployed0, dbu0;
    if m.ticker in have || !Passes(s, m) {
      return;
    }
    var c := SizeCandidate(cfg, m, now, acct, deployed);
    if c.None? {
      return;
    }
    if cfg.maxUnderlyingCollateral > 0 {
      var key := UnderlyingKey(c.value.ticker);
      if Get(dbu, key) + c.value.collateral > cfg.maxUnderlyingCollateral {
        return;
      }
      dbu := dbu[key := Get(dbu, key) + c.value.collateral];
    }
    cands := cands + [c.value];
    deployed := deployed + c.value.collateral;
    have := have + {m.ticker};
  }

  // ---------- trimming ----------

  function TrimToCap(c: Candidate, cap: int): Candidate {
    if c.size <= cap then c
    else c.(size := cap, trimmedFrom := Some(c.size), collateral := RoundCents(Locked(c.price, cap)),
            fee := Fee(c.price, cap))
  }

  /**
   A trimmed clip is priced exactly as sizing prices a clip of that size, fits the
   per-trade cap, and costs neither more collateral nor more fee than the original.
   */
  lemma TrimIsNative(m: Market, n: int, cap: int)
    requires m.bid.Some? && m.bidSize.Some? && m.close.Some?
    requires 0 < m.bid.value < DOLLAR && n >= 1
    ensures var t := TrimToCap(Priced(m, n), cap);
      && t.(trimmedFrom := None) == Priced(m, Min(n, cap))
      && (t.trimmedFrom.Some? <==> n > cap)
      && t.size <= cap
      && (cap >= 1 ==>
            t.size >= 1 && 0 <= t.collateral <= Priced(m, n).collateral && 0 <= t.fee <= Priced(m, n).fee)
  {
    if cap >= 1 {
      BookedMonotone(m.bid.value, n, m.bid.value, Min(n, cap));
      FeeMonotone(m.bid.value, Min(n, cap), n);
    }
  }
}
