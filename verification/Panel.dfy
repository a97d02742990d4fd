/**
 The Explorer's metric panel and the rules applied to it. Metric keys and rule keys are
 constructors, one for each distinct constant of the source; a Deribit key carries the
 currency it is about, and a deviation rule the metric it is about.
 */
module Panel {
  import opened Options
  import opened Reals
  import Baseline

  datatype Measure = AtmIv | TermSlope | Skew

  datatype Key =
    | GapSettled | YesRate | BlindSellEv | GatedEv | CalibErrMid | GapOpen
    | PaperHitRate | PaperPnl | LiveHitRate | LivePnl | LiveSlippage | LiveFillRate | LivePnlMonth | Adverse
    | Deribit(currency: string, measure: Measure)
    | BookrecPopulated

  /** `n` and `se` are the context fields the rules read. */
  datatype Metric = Metric(key: Key, value: real, n: nat, se: Option<real>)

  datatype Rule =
    | TailThesisInverted | MidTailUnderpriced | BlindSellNegative | GateNotClearing
    | AdverseSelection | SlippageCreep | LivePnlNegative | BookrecBroken
    | Deviation(key: Key)

  const Z_THRESHOLD := 2.5

  // ---------- rules ----------

  /** The structural rule a metric fires, if any: each is about one key. */
  function Structural(m: Metric): Option<Rule> {
    match m.key
    case GapSettled => if m.value < -0.2 then Some(TailThesisInverted) else None
    case CalibErrMid => if m.value > 2.0 then Some(MidTailUnderpriced) else None
    case BlindSellEv =>
      if m.value < -0.5 && (m.se.None? || m.value + 2.0 * m.se.value < 0.0) then Some(BlindSellNegative) else None
    case GatedEv => if m.value < 0.0 && m.n >= 30 then Some(GateNotClearing) else None
    case Adverse => if m.value > 0.02 then Some(AdverseSelection) else None
    case LiveSlippage => if m.value > 0.5 then Some(SlippageCreep) else None
    case LivePnlMonth => if m.value < 0.0 && m.n >= 100 then Some(LivePnlNegative) else None
    case BookrecPopulated => if m.value < 0.01 then Some(BookrecBroken) else None
    case _ => None
  }

  /** `structural_rules`: the chain of tests, each on its own key. */
  method StructuralRules(m: Metric) returns (out: seq<Rule>)
    ensures out == (match Structural(m) case None => [] case Some(r) => [r])
  {
    out := [];
    if m.key == GapSettled && m.value < -0.2 {
      out := out + [TailThesisInverted];
    }
    if m.key == CalibErrMid && m.value > 2.0 {
      out := out + [MidTailUnderpriced];
    }
    if m.key == BlindSellEv && m.value < -0.5 && (m.se.None? || m.value + 2.0 * m.se.value < 0.0) {
      out := out + [BlindSellNegative];
    }
    if m.key == GatedEv && m.value < 0.0 && m.n >= 30 {
      out := out + [GateNotClearing];
    }
    if m.key == Adverse && m.value > 0.02 {
      out := out + [AdverseSelection];
    }
    if m.key == LiveSlippage && m.value > 0.5 {
      out := out + [SlippageCreep];
    }
    if m.key == LivePnlMonth && m.value < 0.0 && m.n >= 100 {
      out := out + [LivePnlNegative];
    }
    if m.key == BookrecPopulated && m.value < 0.01 {
      out := out + [BookrecBroken];
    }
  }

  /** A rule is about one metric key. */
  lemma StructuralIsAboutKey(a: Metric, b: Metric)
    requires Structural(a).Some? && Structural(a) == Structural(b)
    ensures a.key == b.key && !Structural(a).value.Deviation?
  {}

  function StructuralKeys(ms: seq<Metric>): set<Key> {
    set i | 0 <= i < |ms| && Structural(ms[i]).Some? :: ms[i].key
  }

  /** The deviation rule: |z| at or over the threshold, unless a structural rule spoke for the key. */
  function Deviates(m: Metric, z: Option<real>, spoken: set<Key>): Option<Rule> {
    if m.key in spoken || z.None? || AbsReal(z.value) < Z_THRESHOLD then None else Some(Deviation(m.key))
  }

  function AsSeq(r: Option<Rule>): seq<Rule> {
    match r
    case None => []
    case Some(rule) => [rule]
  }

  function StructuralFired(ms: seq<Metric>): seq<Rule> {
    if ms == [] then [] else StructuralFired(ms[..|ms| - 1]) + AsSeq(Structural(ms[|ms| - 1]))
  }

  function DeviationsFired(ms: seq<Metric>, zs: seq<Option<real>>, spoken: set<Key>): seq<Rule>
    requires |zs| == |ms|
  {
    if ms == [] then []
    else
      DeviationsFired(ms[..|ms| - 1], zs[..|zs| - 1], spoken) + AsSeq(Deviates(ms[|ms| - 1], zs[|zs| - 1], spoken))
  }

  /** All rules a tick fires; `zs` holds each metric's z against its own history. */
  function Fired(ms: seq<Metric>, zs: seq<Option<real>>): seq<Rule>
    requires |zs| == |ms|
  {
    StructuralFired(ms) + DeviationsFired(ms, zs, StructuralKeys(ms))
  }

  /** The first loop: structural rules, and the keys they spoke for. */
  method ApplyStructural(ms: seq<Metric>) returns (fired: seq<Rule>, spoken: set<Key>)
    ensures fired == StructuralFired(ms) && spoken == StructuralKeys(ms)
  {
    fired, spoken := [], {};
    for i := 0 to |ms|
      invariant fired == StructuralFired(ms[..i])
      invariant spoken == StructuralKeys(ms[..i])
    {
      assert ms[..i + 1][..i] == ms[..i];
      var out := StructuralRules(ms[i]);
      StructuralKeysSnoc(ms[..i + 1]);
      fired := fired + out;
      if out != [] {
        spoken := spoken + {ms[i].key};
      }
    }
    assert ms[..|ms|] == ms;
  }

  /** The second loop: deviations of the other metrics. */
  method ApplyDeviations(ms: seq<Metric>, zs: seq<Option<real>>, spoken: set<Key>) returns (fired: seq<Rule>)
    requires |zs| == |ms|
    ensures fired == DeviationsFired(ms, zs, spoken)
  {
    fired := [];
    for i := 0 to |ms|
      invariant fired == DeviationsFired(ms[..i], zs[..i], spoken)
    {
      assert ms[..i + 1][..i] == ms[..i] && zs[..i + 1][..i] == zs[..i];
      fired := fired + AsSeq(Deviates(ms[i], zs[i], spoken));
    }
    assert ms[..|ms|] == ms && zs[..|ms|] == zs;
  }

  /** The two loops. */
  method ApplyRules(ms: seq<Metric>, zs: seq<Option<real>>) returns (fired: seq<Rule>)
    requires |zs| == |ms|
    ensures fired == Fired(ms, zs)
  {
    var structural, spoken := ApplyStructural(ms);
    var deviations := ApplyDeviations(ms, zs, spoken);
    fired := structural + deviations;
  }

  lemma StructuralKeysSnoc(ms: seq<Metric>)
    requires ms != []
    ensures var init, m := ms[..|ms| - 1], ms[|ms| - 1];
      StructuralKeys(ms) == StructuralKeys(init) + if Structural(m).Some? then {m.key} else {}
  {
    var init := ms[..|ms| - 1];
    forall k | k in StructuralKeys(init) ensures k in StructuralKeys(ms) {
      var i :| 0 <= i < |init| && Structural(init[i]).Some? && init[i].key == k;
      assert ms[i] == init[i];
    }
  }

  // ---------- distinctness ----------

  ghost predicate Distinct<T>(s: seq<T>) {
    forall i, j :: 0 <= i < j < |s| ==> s[i] != s[j]
  }

  ghost predicate DistinctKeys(ms: seq<Metric>) {
    forall i, j :: 0 <= i < j < |ms| ==> ms[i].key != ms[j].key
  }

  lemma DistinctSnoc<T>(s: seq<T>, x: T)
    ensures Distinct(s + [x]) <==> Distinct(s) && x !in s
  {
    var all := s + [x];
    assert forall i :: 0 <= i < |s| ==> all[i] == s[i];
    assert all[|s|] == x;
  }

  lemma {:induction false} DistinctConcat<T>(a: seq<T>, b: seq<T>)
    ensures Distinct(a + b) <==> Distinct(a) && Distinct(b) && forall x :: x in a ==> x !in b
  {
    if b == [] {
      assert a + b == a;
    } else {
      var init, x := b[..|b| - 1], b[|b| - 1];
      DistinctConcat(a, init);
      DistinctSnoc(a + init, x);
      DistinctSnoc(init, x);
      assert a + b == (a + init) + [x] && b == init + [x];
    }
  }

  lemma {:induction false} StructuralFiredIs(ms: seq<Metric>, r: Rule)
    ensures r in StructuralFired(ms) <==> exists i :: 0 <= i < |ms| && Structural(ms[i]) == Some(r)
  {
    if ms == [] {
    } else {
      var init := ms[..|ms| - 1];
      StructuralFiredIs(init, r);
      assert forall i :: 0 <= i < |init| ==> init[i] == ms[i];
    }
  }

  /** Some metric deviates with this rule. */
  ghost predicate SomeDeviates(ms: seq<Metric>, zs: seq<Option<real>>, spoken: set<Key>, r: Rule)
    requires |zs| == |ms|
  {
    exists i :: 0 <= i < |ms| && Deviates(ms[i], zs[i], spoken) == Some(r)
  }

  lemma SomeDeviatesSnoc(ms: seq<Metric>, zs: seq<Option<real>>, spoken: set<Key>, r: Rule)
    requires |zs| == |ms| > 0
    ensures SomeDeviates(ms, zs, spoken, r)
            <==> SomeDeviates(ms[..|ms| - 1], zs[..|zs| - 1], spoken, r)
                 || Deviates(ms[|ms| - 1], zs[|zs| - 1], spoken) == Some(r)
  {
    var init, zi := ms[..|ms| - 1], zs[..|zs| - 1];
    if SomeDeviates(init, zi, spoken, r) {
      var i :| 0 <= i < |init| && Deviates(init[i], zi[i], spoken) == Some(r);
      assert ms[i] == init[i] && zs[i] == zi[i];
    }
    if SomeDeviates(ms, zs, spoken, r) {
      var i :| 0 <= i < |ms| && Deviates(ms[i], zs[i], spoken) == Some(r);
      assert i < |init| ==> ms[i] == init[i] && zs[i] == zi[i];
    }
  }

  lemma {:induction false} DeviationsFiredAre(ms: seq<Metric>, zs: seq<Option<real>>, spoken: set<Key>, r: Rule)
    requires |zs| == |ms|
    ensures r in DeviationsFired(ms, zs, spoken) <==> SomeDeviates(ms, zs, spoken, r)
  {
    if ms == [] {
    } else {
      DeviationsFiredAre(ms[..|ms| - 1], zs[..|zs| - 1], spoken, r);
      SomeDeviatesSnoc(ms, zs, spoken, r);
    }
  }

  /** What calls a structural rule, rule by rule. */
  ghost predicate Calls(r: Rule, m: Metric) {
    match r
    case TailThesisInverted => m.key.GapSettled? && m.value < -0.2
    case MidTailUnderpriced => m.key.CalibErrMid? && m.value > 2.0
    case BlindSellNegative =>
      m.key.BlindSellEv? && m.value < -0.5 && (m.se.Some? ==> m.value + 2.0 * m.se.value < 0.0)
    case GateNotClearing => m.key.GatedEv? && m.value < 0.0 && m.n >= 30
    case AdverseSelection => m.key.Adverse? && m.value > 0.02
    case SlippageCreep => m.key.LiveSlippage? && m.value > 0.5
    case LivePnlNegative => m.key.LivePnlMonth? && m.value < 0.0 && m.n >= 100
    case BookrecBroken => m.key.BookrecPopulated? && m.value < 0.01
    case Deviation(_) => false
  }

  /** A metric of the key is 2.5 scales or more from its median, either way. */
  ghost predicate Outlying(ms: seq<Metric>, zs: seq<Option<real>>, k: Key)
    requires |zs| == |ms|
  {
    exists i :: 0 <= i < |ms| && ms[i].key == k && zs[i].Some? && (zs[i].value >= 2.5 || zs[i].value <= -2.5)
  }

  ghost predicate Called(ms: seq<Metric>, r: Rule) {
    exists i :: 0 <= i < |ms| && Calls(r, ms[i])
  }

  /** Some structural rule speaks for the key. */
  ghost predicate Spoken(ms: seq<Metric>, k: Key) {
    exists i, r :: 0 <= i < |ms| && ms[i].key == k && Calls(r, ms[i])
  }

  lemma CallsExactly(m: Metric, r: Rule)
    ensures Structural(m) == Some(r) <==> Calls(r, m)
  {}

  lemma SpokenAre(ms: seq<Metric>, k: Key)
    ensures k in StructuralKeys(ms) <==> Spoken(ms, k)
  {
    if k in StructuralKeys(ms) {
      var i :| 0 <= i < |ms| && Structural(ms[i]).Some? && ms[i].key == k;
      CallsExactly(ms[i], Structural(ms[i]).value);
    }
    if Spoken(ms, k) {
      var i, r :| 0 <= i < |ms| && ms[i].key == k && Calls(r, ms[i]);
      CallsExactly(ms[i], r);
    }
  }

  /**
   A structural rule fires exactly when a metric calls it; a deviation exactly when a metric of
   its key is an outlier and no structural rule speaks for that key.
   */
  lemma FiredExactly(ms: seq<Metric>, zs: seq<Option<real>>, r: Rule)
    requires |zs| == |ms|
    ensures r in Fired(ms, zs)
            <==> if r.Deviation? then Outlying(ms, zs, r.key) && !Spoken(ms, r.key) else Called(ms, r)
  {
    StructuralFiredIs(ms, r);
    DeviationsFiredAre(ms, zs, StructuralKeys(ms), r);
    forall i | 0 <= i < |ms| ensures Structural(ms[i]) == Some(r) <==> Calls(r, ms[i]) {
      CallsExactly(ms[i], r);
    }
    if r.Deviation? {
      SpokenAre(ms, r.key);
      DeviatesExactly(ms, zs, StructuralKeys(ms), r.key);
    }
  }

  lemma DeviatesExactly(ms: seq<Metric>, zs: seq<Option<real>>, spoken: set<Key>, k: Key)
    requires |zs| == |ms|
    ensures SomeDeviates(ms, zs, spoken, Deviation(k)) <==> Outlying(ms, zs, k) && k !in spoken
  {
    if Outlying(ms, zs, k) && k !in spoken {
      var i :| 0 <= i < |ms| && ms[i].key == k && zs[i].Some? && (zs[i].value >= 2.5 || zs[i].value <= -2.5);
      assert Deviates(ms[i], zs[i], spoken) == Some(Deviation(k));
    }
  }

  lemma {:induction false} StructuralDistinct(ms: seq<Metric>)
    requires DistinctKeys(ms)
    ensures Distinct(StructuralFired(ms))
  {
    if ms == [] {
    } else {
      var init, m := ms[..|ms| - 1], ms[|ms| - 1];
      assert forall i :: 0 <= i < |init| ==> init[i] == ms[i];
      StructuralDistinct(init);
      if Structural(m).Some? {
        DistinctSnoc(StructuralFired(init), Structural(m).value);
        StructuralFiredIs(init, Structural(m).value);
        forall i | 0 <= i < |init| && Structural(init[i]) == Structural(m) ensures false {
          StructuralIsAboutKey(init[i], m);
        }
      } else {
        assert StructuralFired(ms) == StructuralFired(init);
      }
    }
  }

  lemma {:induction false} DeviationsDistinct(ms: seq<Metric>, zs: seq<Option<real>>, spoken: set<Key>)
    requires DistinctKeys(ms) && |zs| == |ms|
    ensures Distinct(DeviationsFired(ms, zs, spoken))
  {
    if ms == [] {
    } else {
      var init, zi, m := ms[..|ms| - 1], zs[..|zs| - 1], ms[|ms| - 1];
      assert forall i :: 0 <= i < |init| ==> init[i] == ms[i];
      DeviationsDistinct(init, zi, spoken);
      var d := Deviates(m, zs[|zs| - 1], spoken);
      if d.Some? {
        DistinctSnoc(DeviationsFired(init, zi, spoken), d.value);
        DeviationsFiredAre(init, zi, spoken, d.value);
      } else {
        assert DeviationsFired(ms, zs, spoken) == DeviationsFired(init, zi, spoken);
      }
    }
  }

  /** With distinct metric keys no rule fires twice in a tick. */
  lemma DistinctKeysFireOnce(ms: seq<Metric>, zs: seq<Option<real>>)
    requires DistinctKeys(ms) && |zs| == |ms|
    ensures Distinct(Fired(ms, zs))
  {
    var a, b := StructuralFired(ms), DeviationsFired(ms, zs, StructuralKeys(ms));
    StructuralDistinct(ms);
    DeviationsDistinct(ms, zs, StructuralKeys(ms));
    forall r | r in a ensures r !in b {
      StructuralFiredIs(ms, r);
      DeviationsFiredAre(ms, zs, StructuralKeys(ms), r);
      var i :| 0 <= i < |ms| && Structural(ms[i]) == Some(r);
      StructuralIsAboutKey(ms[i], ms[i]);
    }
    DistinctConcat(a, b);
  }

  // ---------- the panel ----------

  /** What one line of the option-chain capture yields; a line may lack the data for any of it. */
  datatype ChainLine = ChainLine(currency: string, atmIv: Option<real>, termSlope: Option<real>, skew: Option<real>)

  /** The metrics there are data for, in the order of emission. */
  function Present(ks: seq<Key>, vs: seq<Option<Metric>>): seq<Metric>
    requires |vs| == |ks|
  {
    if ks == [] then []
    else
      Present(ks[..|ks| - 1], vs[..|vs| - 1])
      + match vs[|vs| - 1] case None => [] case Some(m) => [m.(key := ks[|ks| - 1])]
  }

  const ORACLE_KEYS: seq<Key> := [GapSettled, YesRate, BlindSellEv, GatedEv, CalibErrMid, GapOpen]
  const LONGSHOT_KEYS: seq<Key> :=
    [PaperHitRate, PaperPnl, LiveHitRate, LivePnl, LiveSlippage, LiveFillRate, LivePnlMonth, Adverse]

  function Reading(currency: string, measure: Measure, value: Option<real>): seq<Metric> {
    match value
    case None => []
    case Some(v) => [Metric(Deribit(currency, measure), v, 0, None)]
  }

  function LineMetrics(l: ChainLine): seq<Metric> {
    Reading(l.currency, AtmIv, l.atmIv) + Reading(l.currency, TermSlope, l.termSlope)
    + Reading(l.currency, Skew, l.skew)
  }

  /** `deribit_metrics`: line by line. */
  function ChainMetrics(chain: seq<ChainLine>): seq<Metric> {
    if chain == [] then [] else ChainMetrics(chain[..|chain| - 1]) + LineMetrics(chain[|chain| - 1])
  }

  /** Everything the sources gave today; a family that fails gives nothing. */
  datatype Readings = Readings(oracle: seq<Option<Metric>>, longshot: seq<Option<Metric>>, chain: seq<ChainLine>,
                               bookrec: Option<Metric>)

  predicate ReadingsOk(r: Readings) {
    |r.oracle| == |ORACLE_KEYS| && |r.longshot| == |LONGSHOT_KEYS|
  }

  /** `all_metrics`. */
  function AllMetrics(r: Readings): seq<Metric>
    requires ReadingsOk(r)
  {
    Present(ORACLE_KEYS, r.oracle) + Present(LONGSHOT_KEYS, r.longshot) + ChainMetrics(r.chain)
    + Present([BookrecPopulated], [r.bookrec])
  }

  function Keys(ms: seq<Metric>): (ks: seq<Key>)
    ensures |ks| == |ms| && forall i :: 0 <= i < |ms| ==> ks[i] == ms[i].key
  {
    seq(|ms|, i requires 0 <= i < |ms| => ms[i].key)
  }

  lemma KeysConcat(a: seq<Metric>, b: seq<Metric>)
    ensures Keys(a + b) == Keys(a) + Keys(b)
  {}

  lemma DistinctKeysIs(ms: seq<Metric>)
    ensures DistinctKeys(ms) <==> Distinct(Keys(ms))
  {
    assert forall i :: 0 <= i < |ms| ==> Keys(ms)[i] == ms[i].key;
  }

  lemma {:induction false} PresentKeys(ks: seq<Key>, vs: seq<Option<Metric>>)
    requires |vs| == |ks| && Distinct(ks)
    ensures Distinct(Keys(Present(ks, vs)))
    ensures forall k :: k in Keys(Present(ks, vs)) ==> k in ks
  {
    if ks == [] {
    } else {
      var ki, vi, k := ks[..|ks| - 1], vs[..|vs| - 1], ks[|ks| - 1];
      assert ks == ki + [k];
      DistinctSnoc(ki, k);
      PresentKeys(ki, vi);
      var before := Present(ki, vi);
      if vs[|vs| - 1].Some? {
        var m := vs[|vs| - 1].value.(key := k);
        assert Keys(before + [m]) == Keys(before) + [k];
        DistinctSnoc(Keys(before), k);
      } else {
        assert Present(ks, vs) == before;
      }
    }
  }

  lemma {:induction false} ChainKeys(chain: seq<ChainLine>)
    ensures forall k :: k in Keys(ChainMetrics(chain)) ==>
      k.Deribit? && exists i :: 0 <= i < |chain| && chain[i].currency == k.currency
  {
    if chain == [] {
    } else {
      var init, l := chain[..|chain| - 1], chain[|chain| - 1];
      ChainKeys(init);
      KeysConcat(ChainMetrics(init), LineMetrics(l));
      forall k | k in Keys(ChainMetrics(chain))
        ensures k.Deribit? && exists i :: 0 <= i < |chain| && chain[i].currency == k.currency
      {
        if k in Keys(ChainMetrics(init)) {
          var i :| 0 <= i < |init| && init[i].currency == k.currency;
          assert chain[i] == init[i];
        } else {
          assert chain[|chain| - 1].currency == k.currency;
        }
      }
    }
  }

  /** One line per currency. */
  ghost predicate OneLineEach(chain: seq<ChainLine>) {
    forall i, j :: 0 <= i < j < |chain| ==> chain[i].currency != chain[j].currency
  }

  lemma LineKeysDistinct(l: ChainLine)
    ensures Distinct(Keys(LineMetrics(l)))
    ensures forall k :: k in Keys(LineMetrics(l)) ==> k.Deribit? && k.currency == l.currency
  {}

  lemma {:induction false} OneLineEachIsDistinct(chain: seq<ChainLine>)
    requires OneLineEach(chain)
    ensures Distinct(Keys(ChainMetrics(chain)))
  {
    if chain == [] {
    } else {
      var init, l := chain[..|chain| - 1], chain[|chain| - 1];
      assert forall i :: 0 <= i < |init| ==> init[i] == chain[i];
      OneLineEachIsDistinct(init);
      LineKeysDistinct(l);
      ChainKeys(init);
      KeysConcat(ChainMetrics(init), LineMetrics(l));
      DistinctConcat(Keys(ChainMetrics(init)), Keys(LineMetrics(l)));
    }
  }

  /** Which family of metrics emits a key. */
  function Family(k: Key): nat {
    match k
    case Deribit(_, _) => 2
    case BookrecPopulated => 3
    case GapSettled | YesRate | BlindSellEv | GatedEv | CalibErrMid | GapOpen => 0
    case _ => 1
  }

  ghost predicate AllOf(ks: seq<Key>, family: nat) {
    forall k :: k in ks ==> Family(k) == family
  }

  lemma ApartFamilies(a: seq<Key>, b: seq<Key>, c: seq<Key>, d: seq<Key>)
    requires AllOf(a, 0) && AllOf(b, 1) && AllOf(c, 2) && AllOf(d, 3)
    requires Distinct(a) && Distinct(b) && Distinct(d)
    ensures Distinct(a + b + c + d) <==> Distinct(c)
  {
    DistinctConcat(a, b);
    DistinctConcat(a + b, c);
    DistinctConcat(a + b + c, d);
  }

  ghost predicate OneFamily(ms: seq<Metric>, family: nat) {
    Distinct(Keys(ms)) && AllOf(Keys(ms), family)
  }

  lemma ConstantKeys(ks: seq<Key>, vs: seq<Option<Metric>>, family: nat)
    requires |vs| == |ks| && Distinct(ks) && AllOf(ks, family)
    ensures OneFamily(Present(ks, vs), family)
  {
    PresentKeys(ks, vs);
  }

  lemma OracleKeys(vs: seq<Option<Metric>>)
    requires |vs| == |ORACLE_KEYS|
    ensures OneFamily(Present(ORACLE_KEYS, vs), 0)
  {
    ConstantKeys(ORACLE_KEYS, vs, 0);
  }

  lemma LongshotKeys(vs: seq<Option<Metric>>)
    requires |vs| == |LONGSHOT_KEYS|
    ensures OneFamily(Present(LONGSHOT_KEYS, vs), 1)
  {
    ConstantKeys(LONGSHOT_KEYS, vs, 1);
  }

  lemma BookrecKeys(v: Option<Metric>)
    ensures OneFamily(Present([BookrecPopulated], [v]), 3)
  {
    ConstantKeys([BookrecPopulated], [v], 3);
  }

  lemma ChainFamily(chain: seq<ChainLine>)
    ensures AllOf(Keys(ChainMetrics(chain)), 2)
  {
    ChainKeys(chain);
  }

  lemma KeysOfFour(a: seq<Metric>, b: seq<Metric>, c: seq<Metric>, d: seq<Metric>)
    ensures Keys(a + b + c + d) == Keys(a) + Keys(b) + Keys(c) + Keys(d)
  {
    KeysConcat(a, b);
    KeysConcat(a + b, c);
    KeysConcat(a + b + c, d);
  }

  lemma FourFamilies(a: seq<Metric>, b: seq<Metric>, c: seq<Metric>, d: seq<Metric>)
    requires OneFamily(a, 0) && OneFamily(b, 1) && AllOf(Keys(c), 2) && OneFamily(d, 3)
    ensures DistinctKeys(a + b + c + d) <==> Distinct(Keys(c))
  {
    ApartFamilies(Keys(a), Keys(b), Keys(c), Keys(d));
    KeysOfFour(a, b, c, d);
    DistinctKeysIs(a + b + c + d);
  }

  /** Only the capture can repeat a key. */
  lemma FamiliesAreApart(r: Readings)
    requires ReadingsOk(r)
    ensures DistinctKeys(AllMetrics(r)) <==> Distinct(Keys(ChainMetrics(r.chain)))
  {
    OracleKeys(r.oracle);
    LongshotKeys(r.longshot);
    ChainFamily(r.chain);
    BookrecKeys(r.bookrec);
    FourFamilies(Present(ORACLE_KEYS, r.oracle), Present(LONGSHOT_KEYS, r.longshot), ChainMetrics(r.chain),
                 Present([BookrecPopulated], [r.bookrec]));
  }

  /** The panel's keys are distinct as long as the capture has one line per currency. */
  lemma PanelKeysDistinct(r: Readings)
    requires ReadingsOk(r) && OneLineEach(r.chain)
    ensures DistinctKeys(AllMetrics(r))
  {
    FamiliesAreApart(r);
    OneLineEachIsDistinct(r.chain);
  }

  /** No rule fires twice on such a day, whatever the values and the histories. */
  lemma OneCaptureFiresOnce(r: Readings, zs: seq<Option<real>>)
    requires ReadingsOk(r) && OneLineEach(r.chain) && |zs| == |AllMetrics(r)|
    ensures Distinct(Fired(AllMetrics(r), zs))
  {
    PanelKeysDistinct(r);
    DistinctKeysFireOnce(AllMetrics(r), zs);
  }

  function Missing(n: nat): (vs: seq<Option<Metric>>)
    ensures |vs| == n && forall i :: 0 <= i < n ==> vs[i] == None
  {
    seq(n, _ => None)
  }

  /**
   The capture appends to the day's file, so a second capture on one day gives a currency a
   second line: the chain is then all the first capture's lines followed by all the second's.
   */
  function TwoCaptures(first: ChainLine, second: ChainLine): Readings {
    Readings(Missing(|ORACLE_KEYS|), Missing(|LONGSHOT_KEYS|), [first, second], None)
  }

  lemma TwoCapturesMetrics(currency: string, a: real, b: real)
    ensures var r := TwoCaptures(ChainLine(currency, None, None, Some(a)), ChainLine(currency, None, None, Some(b)));
      ReadingsOk(r)
      && AllMetrics(r) == [Metric(Deribit(currency, Skew), a, 0, None), Metric(Deribit(currency, Skew), b, 0, None)]
  {
    var la, lb := ChainLine(currency, None, None, Some(a)), ChainLine(currency, None, None, Some(b));
    NonePresent(ORACLE_KEYS);
    NonePresent(LONGSHOT_KEYS);
    NonePresent([BookrecPopulated]);
    assert Missing(1) == [None];
    assert [la, lb][..1] == [la] && [la][..0] == [];
    assert ChainMetrics([la]) == ChainMetrics([]) + LineMetrics(la);
  }

  lemma {:induction false} NonePresent(ks: seq<Key>)
    ensures Present(ks, Missing(|ks|)) == []
  {
    if ks == [] {
    } else {
      NonePresent(ks[..|ks| - 1]);
      assert Missing(|ks|)[..|ks| - 1] == Missing(|ks| - 1);
    }
  }

  lemma TwoOutliersFireTwice(currency: string, a: real, b: real, za: real, zb: real)
    requires AbsReal(za) >= 2.5 && AbsReal(zb) >= 2.5
    ensures var ms := [Metric(Deribit(currency, Skew), a, 0, None), Metric(Deribit(currency, Skew), b, 0, None)];
      Fired(ms, [Some(za), Some(zb)]) == [Deviation(Deribit(currency, Skew)), Deviation(Deribit(currency, Skew))]
  {
    var x, y := Metric(Deribit(currency, Skew), a, 0, None), Metric(Deribit(currency, Skew), b, 0, None);
    assert [x, y][..1] == [x] && [x][..0] == [];
    assert [Some(za), Some(zb)][..1] == [Some(za)] && [Some(za)][..0] == [];
    assert StructuralFired([x]) == [] && StructuralFired([x, y]) == [];
    assert StructuralKeys([x, y]) == {};
    assert DeviationsFired([x], [Some(za)], {}) == [Deviation(Deribit(currency, Skew))];
  }

  function SkewTwice(currency: string, a: real, b: real): Readings {
    TwoCaptures(ChainLine(currency, None, None, Some(a)), ChainLine(currency, None, None, Some(b)))
  }

  ghost predicate FiresTwice(r: Readings, zs: seq<Option<real>>, rule: Rule) {
    ReadingsOk(r) && |zs| == |AllMetrics(r)| && Fired(AllMetrics(r), zs) == [rule, rule]
  }

  /** The z of a value against the earlier days of its key. */
  function ZOf(value: real, prior: seq<real>, sigma: real): Option<real> {
    match Baseline.RobustZ(value, prior, sigma)
    case None => None
    case Some(score) => Some(score.z)
  }

  predicate Outlier(value: real, prior: seq<real>, sigma: real) {
    ZOf(value, prior, sigma).Some? && AbsReal(ZOf(value, prior, sigma).value) >= 2.5
  }

  /**
   Two captures whose skew is an outlier both times, against the one history of that key, fire
   the same deviation rule twice.
   */
  lemma TwoCapturesFireTwice(currency: string, a: real, b: real, prior: seq<real>, sigma: real)
    requires Outlier(a, prior, sigma) && Outlier(b, prior, sigma)
    ensures FiresTwice(SkewTwice(currency, a, b), [ZOf(a, prior, sigma), ZOf(b, prior, sigma)],
                       Deviation(Deribit(currency, Skew)))
  {
    TwoCapturesMetrics(currency, a, b);
    TwoOutliersFireTwice(currency, a, b, ZOf(a, prior, sigma).value, ZOf(b, prior, sigma).value);
  }
}
