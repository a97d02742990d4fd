/** The append-only observation ledger and its streaks. Days are numbered. */
module Streaks {
  import opened Options
  import opened Panel
  import Baseline

  // ---------- streak ----------

  ghost function EarlierDays(dates: set<int>, d: int): set<int> {
    set x | x in dates && x < d
  }

  lemma EarlierShrinks(dates: set<int>, d: int)
    requires d - 1 in dates
    ensures |EarlierDays(dates, d - 1)| < |EarlierDays(dates, d)|
  {
    assert EarlierDays(dates, d) == EarlierDays(dates, d - 1) + {d - 1};
  }

  /** Consecutive days present that end the day before `d`. */
  function RunBefore(dates: set<int>, d: int): nat
    decreases |EarlierDays(dates, d)|
  {
    if d - 1 in dates then
      EarlierShrinks(dates, d);
      1 + RunBefore(dates, d - 1)
    else 0
  }

  /** It is the length of the longest run of days ending yesterday. */
  lemma {:induction false} RunBeforeIs(dates: set<int>, d: int)
    ensures forall x :: d - RunBefore(dates, d) <= x < d ==> x in dates
    ensures d - RunBefore(dates, d) - 1 !in dates
    decreases |EarlierDays(dates, d)|
  {
    if d - 1 in dates {
      EarlierShrinks(dates, d);
      RunBeforeIs(dates, d - 1);
    }
  }

  /** `_streak`: step back a day at a time while the rule fired. */
  method Streak(dates: set<int>, today: int) returns (n: nat)
    ensures n == 1 + RunBefore(dates, today)
    ensures forall x :: today - n < x < today ==> x in dates
    ensures today - n !in dates
  {
    var d := today - 1;
    n := 1;
    while d in dates
      invariant d == today - n
      invariant n + RunBefore(dates, d + 1) == 1 + RunBefore(dates, today)
      decreases |EarlierDays(dates, d + 1)|
    {
      EarlierShrinks(dates, d + 1);
      n := n + 1;
      d := d - 1;
    }
    RunBeforeIs(dates, today);
  }

  /** Only days before `d` matter. */
  lemma {:induction false} RunBeforeLocal(dates: set<int>, more: set<int>, d: int)
    requires forall x :: x < d ==> (x in dates <==> x in more)
    ensures RunBefore(dates, d) == RunBefore(more, d)
    decreases |EarlierDays(dates, d)|
  {
    if d - 1 in dates {
      EarlierShrinks(dates, d);
      RunBeforeLocal(dates, more, d - 1);
    }
  }

  // ---------- ledger ----------

  /** A ledger row; its id is `day:rule`. */
  datatype Row = Row(day: int, rule: Rule, streak: nat)

  predicate HasId(ledger: seq<Row>, day: int, rule: Rule) {
    exists i :: 0 <= i < |ledger| && ledger[i].day == day && ledger[i].rule == rule
  }

  function Dates(ledger: seq<Row>, rule: Rule): set<int> {
    set i | 0 <= i < |ledger| && ledger[i].rule == rule :: ledger[i].day
  }

  /** The rows one tick appends for the rules that fired, read against the ledger as loaded. */
  function NewRows(ledger: seq<Row>, today: int, fired: seq<Rule>, resolved: set<Rule>): seq<Row> {
    if fired == [] then []
    else
      var rule := fired[|fired| - 1];
      NewRows(ledger, today, fired[..|fired| - 1], resolved)
      + if HasId(ledger, today, rule) || rule in resolved then []
        else [Row(today, rule, 1 + RunBefore(Dates(ledger, rule), today))]
  }

  /** The ledger file of a run. */
  class Ledger {
    var rows: seq<Row>

    /** The ledger part of one tick. */
    method AppendObservations(today: int, fired: seq<Rule>, resolved: set<Rule>) returns (n: nat)
      modifies this
      ensures rows == old(rows) + NewRows(old(rows), today, fired, resolved)
      ensures n == |rows| - |old(rows)|
    {
      var records := [];
      for i := 0 to |fired|
        invariant rows == old(rows) && records == NewRows(rows, today, fired[..i], resolved)
      {
        assert fired[..i + 1][..i] == fired[..i];
        var streak := Streak(Dates(rows, fired[i]), today);
        if !HasId(rows, today, fired[i]) && fired[i] !in resolved {
          records := records + [Row(today, fired[i], streak)];
        }
      }
      assert fired[..|fired|] == fired;
      rows := rows + records;
      n := |records|;
    }
  }

  ghost predicate UniqueIds(ledger: seq<Row>) {
    forall i, j :: 0 <= i < j < |ledger| && ledger[i].day == ledger[j].day ==> ledger[i].rule != ledger[j].rule
  }

  /** No day is after `today`. */
  ghost predicate UpTo(ledger: seq<Row>, today: int) {
    forall i :: 0 <= i < |ledger| ==> ledger[i].day <= today
  }

  /** Every stored streak is one more than the run of the rule's days before it. */
  ghost predicate StreaksRight(ledger: seq<Row>) {
    forall i :: 0 <= i < |ledger| ==> ledger[i].streak == 1 + RunBefore(Dates(ledger, ledger[i].rule), ledger[i].day)
  }

  /** A rule that fired, is not resolved, and has no row for today yet. */
  predicate Appends(ledger: seq<Row>, today: int, rule: Rule, resolved: set<Rule>) {
    !HasId(ledger, today, rule) && rule !in resolved
  }

  ghost predicate DistinctAppends(ledger: seq<Row>, today: int, fired: seq<Rule>, resolved: set<Rule>) {
    forall i, j :: 0 <= i < j < |fired| && Appends(ledger, today, fired[j], resolved) ==> fired[i] != fired[j]
  }

  lemma {:induction false} NewRowsAre(ledger: seq<Row>, today: int, fired: seq<Rule>, resolved: set<Rule>)
    ensures forall i :: 0 <= i < |NewRows(ledger, today, fired, resolved)| ==>
      var r := NewRows(ledger, today, fired, resolved)[i];
      && r.day == today && r.rule in fired && Appends(ledger, today, r.rule, resolved)
      && r.streak == 1 + RunBefore(Dates(ledger, r.rule), today)
    ensures forall i :: 0 <= i < |fired| && Appends(ledger, today, fired[i], resolved) ==>
      HasId(NewRows(ledger, today, fired, resolved), today, fired[i])
  {
    if fired == [] {
    } else {
      var init := fired[..|fired| - 1];
      NewRowsAre(ledger, today, init, resolved);
      var before, after := NewRows(ledger, today, init, resolved), NewRows(ledger, today, fired, resolved);
      forall i | 0 <= i < |fired| && Appends(ledger, today, fired[i], resolved)
        ensures HasId(after, today, fired[i])
      {
        if i < |init| {
          assert init[i] == fired[i];
          var k :| 0 <= k < |before| && before[k].day == today && before[k].rule == fired[i];
          assert after[k] == before[k];
        } else {
          assert after[|after| - 1].rule == fired[i];
        }
      }
    }
  }

  lemma UniqueAppend(ledger: seq<Row>, r: Row)
    ensures UniqueIds(ledger + [r]) <==> UniqueIds(ledger) && !HasId(ledger, r.day, r.rule)
  {
    var after := ledger + [r];
    assert forall i :: 0 <= i < |ledger| ==> after[i] == ledger[i];
    assert after[|ledger|] == r;
  }

  lemma DistinctAppendsSnoc(ledger: seq<Row>, today: int, fired: seq<Rule>, rule: Rule, resolved: set<Rule>)
    ensures DistinctAppends(ledger, today, fired + [rule], resolved)
            <==> DistinctAppends(ledger, today, fired, resolved)
                 && (Appends(ledger, today, rule, resolved) ==> rule !in fired)
  {
    var after := fired + [rule];
    assert forall i :: 0 <= i < |fired| ==> after[i] == fired[i];
    assert after[|fired|] == rule;
  }

  lemma {:induction false} NewRowsDistinct(ledger: seq<Row>, today: int, fired: seq<Rule>, resolved: set<Rule>)
    ensures UniqueIds(NewRows(ledger, today, fired, resolved)) <==> DistinctAppends(ledger, today, fired, resolved)
  {
    if fired == [] {
    } else {
      var init, rule := fired[..|fired| - 1], fired[|fired| - 1];
      NewRowsDistinct(ledger, today, init, resolved);
      NewRowsAre(ledger, today, init, resolved);
      assert fired == init + [rule];
      DistinctAppendsSnoc(ledger, today, init, rule, resolved);
      var before := NewRows(ledger, today, init, resolved);
      if Appends(ledger, today, rule, resolved) {
        UniqueAppend(before, Row(today, rule, 1 + RunBefore(Dates(ledger, rule), today)));
        assert HasId(before, today, rule) <==> rule in init;
      } else {
        assert NewRows(ledger, today, fired, resolved) == before + [] == before;
      }
    }
  }

  /**
   Ledger ids stay unique exactly when, among the rules a tick appends, none fired twice
   (the ids already present are not re-read while the tick appends).
   */
  lemma IdsStayUnique(ledger: seq<Row>, today: int, fired: seq<Rule>, resolved: set<Rule>)
    requires UniqueIds(ledger)
    ensures UniqueIds(ledger + NewRows(ledger, today, fired, resolved))
            <==> DistinctAppends(ledger, today, fired, resolved)
  {
    var added := NewRows(ledger, today, fired, resolved);
    NewRowsAre(ledger, today, fired, resolved);
    NewRowsDistinct(ledger, today, fired, resolved);
    var after := ledger + added;
    if UniqueIds(after) {
      forall i, j | 0 <= i < j < |added| ensures added[i].rule != added[j].rule {
        assert after[|ledger| + i] == added[i] && after[|ledger| + j] == added[j];
      }
    }
    if UniqueIds(added) {
      forall i, j | 0 <= i < j < |after| && after[i].day == after[j].day ensures after[i].rule != after[j].rule {
        if i < |ledger| && j >= |ledger| {
          assert Appends(ledger, today, after[j].rule, resolved);
        } else if i >= |ledger| {
          assert added[i - |ledger|] == after[i] && added[j - |ledger|] == after[j];
        }
      }
    }
  }

  /** On a day with one capture the condition holds, whatever fires: ids stay unique. */
  lemma OneCaptureKeepsIds(ledger: seq<Row>, today: int, r: Readings, zs: seq<Option<real>>, resolved: set<Rule>)
    requires ReadingsOk(r) && OneLineEach(r.chain) && |zs| == |AllMetrics(r)| && UniqueIds(ledger)
    ensures UniqueIds(ledger + NewRows(ledger, today, Fired(AllMetrics(r), zs), resolved))
  {
    OneCaptureFiresOnce(r, zs);
    IdsStayUnique(ledger, today, Fired(AllMetrics(r), zs), resolved);
  }

  /**
   The failing case: two captures on one day give a currency two lines, and if its skew is an
   outlier in both - one, after three days at zero - the deviation is written twice under one id.
   */
  lemma TwoCapturesDuplicateId(today: int, currency: string)
    ensures Baseline.IsSigma(0.0, Baseline.FLAT, Baseline.Median(Baseline.FLAT))
    ensures var z := ZOf(1.0, Baseline.FLAT, 0.0);
      DuplicatesId(SkewTwice(currency, 1.0, 1.0), [z, z], today)
  {
    Baseline.OutlierAfterFlat();
    TwoCapturesFireTwice(currency, 1.0, 1.0, Baseline.FLAT, 0.0);
    RepeatedRuleDuplicatesId(Deviation(Deribit(currency, Skew)), today);
  }

  /** On an empty ledger the day's readings append two rows under one id. */
  ghost predicate DuplicatesId(r: Readings, zs: seq<Option<real>>, today: int) {
    && ReadingsOk(r) && |zs| == |AllMetrics(r)|
    && !UniqueIds(NewRows([], today, Fired(AllMetrics(r), zs), {}))
  }

  lemma RepeatedRuleDuplicatesId(rule: Rule, today: int)
    ensures !UniqueIds(NewRows([], today, [rule, rule], {}))
  {
    NewRowsDistinct([], today, [rule, rule], {});
    DistinctAppendsSnoc([], today, [rule], rule, {});
    assert [rule] + [rule] == [rule, rule];
  }

  lemma {:induction false} NothingNew(ledger: seq<Row>, today: int, fired: seq<Rule>, resolved: set<Rule>)
    requires forall i :: 0 <= i < |fired| ==> !Appends(ledger, today, fired[i], resolved)
    ensures NewRows(ledger, today, fired, resolved) == []
  {
    if fired == [] {
    } else {
      NothingNew(ledger, today, fired[..|fired| - 1], resolved);
    }
  }

  /** A same-day re-run with the same observations adds nothing. */
  lemma RerunAddsNothing(ledger: seq<Row>, today: int, fired: seq<Rule>, resolved: set<Rule>)
    ensures NewRows(ledger + NewRows(ledger, today, fired, resolved), today, fired, resolved) == []
  {
    var added := NewRows(ledger, today, fired, resolved);
    var after := ledger + added;
    NewRowsAre(ledger, today, fired, resolved);
    forall i | 0 <= i < |fired| ensures !Appends(after, today, fired[i], resolved) {
      if Appends(ledger, today, fired[i], resolved) {
        var k :| 0 <= k < |added| && added[k].day == today && added[k].rule == fired[i];
        assert after[|ledger| + k] == added[k];
      } else if fired[i] !in resolved {
        var k :| 0 <= k < |ledger| && ledger[k].day == today && ledger[k].rule == fired[i];
        assert after[k] == ledger[k];
      }
    }
    NothingNew(after, today, fired, resolved);
  }

  lemma DatesGrow(ledger: seq<Row>, added: seq<Row>, today: int, rule: Rule, d: int)
    requires forall i :: 0 <= i < |added| ==> added[i].day == today
    requires d <= today
    ensures RunBefore(Dates(ledger + added, rule), d) == RunBefore(Dates(ledger, rule), d)
  {
    var after := ledger + added;
    forall x | x < d ensures x in Dates(ledger, rule) <==> x in Dates(after, rule) {
      if x in Dates(ledger, rule) {
        var i :| 0 <= i < |ledger| && ledger[i].rule == rule && ledger[i].day == x;
        assert after[i] == ledger[i];
      }
      if x in Dates(after, rule) {
        var i :| 0 <= i < |after| && after[i].rule == rule && after[i].day == x;
        assert i < |ledger|;
      }
    }
    RunBeforeLocal(Dates(ledger, rule), Dates(after, rule), d);
  }

  // ---------- whole histories ----------

  datatype Tick = Tick(day: int, readings: Readings, zs: seq<Option<real>>, resolved: set<Rule>)

  predicate TickOk(t: Tick) {
    ReadingsOk(t.readings) && |t.zs| == |AllMetrics(t.readings)|
  }

  function FiredBy(t: Tick): seq<Rule>
    requires TickOk(t)
  {
    Fired(AllMetrics(t.readings), t.zs)
  }

  function Replay(ticks: seq<Tick>): seq<Row>
    requires forall i :: 0 <= i < |ticks| ==> TickOk(ticks[i])
  {
    if ticks == [] then []
    else
      var ledger, t := Replay(ticks[..|ticks| - 1]), ticks[|ticks| - 1];
      ledger + NewRows(ledger, t.day, FiredBy(t), t.resolved)
  }

  /** Days never go back. */
  ghost predicate Chronological(ticks: seq<Tick>) {
    && (forall i :: 0 <= i < |ticks| ==> TickOk(ticks[i]))
    && forall i, j :: 0 <= i < j < |ticks| ==> ticks[i].day <= ticks[j].day
  }

  lemma AppendKeepsStreaks(ledger: seq<Row>, t: Tick)
    requires StreaksRight(ledger) && UpTo(ledger, t.day) && TickOk(t)
    ensures var after := ledger + NewRows(ledger, t.day, FiredBy(t), t.resolved);
      StreaksRight(after) && UpTo(after, t.day)
  {
    var added := NewRows(ledger, t.day, FiredBy(t), t.resolved);
    var after := ledger + added;
    NewRowsAre(ledger, t.day, FiredBy(t), t.resolved);
    forall i | 0 <= i < |after|
      ensures after[i].streak == 1 + RunBefore(Dates(after, after[i].rule), after[i].day)
    {
      DatesGrow(ledger, added, t.day, after[i].rule, after[i].day);
    }
  }

  /** Over any history in which days never go back every stored streak is right. */
  lemma {:induction false} ReplayKeepsStreaks(ticks: seq<Tick>)
    requires Chronological(ticks)
    ensures StreaksRight(Replay(ticks))
    ensures ticks != [] ==> UpTo(Replay(ticks), ticks[|ticks| - 1].day)
  {
    if ticks == [] {
    } else {
      var init, t := ticks[..|ticks| - 1], ticks[|ticks| - 1];
      assert forall i :: 0 <= i < |init| ==> init[i] == ticks[i];
      ReplayKeepsStreaks(init);
      AppendKeepsStreaks(Replay(init), t);
    }
  }

  /** And if each day's capture has one line per currency, ids are unique, whatever the order of the days. */
  lemma {:induction false} ReplayKeepsIds(ticks: seq<Tick>)
    requires forall i :: 0 <= i < |ticks| ==> TickOk(ticks[i]) && OneLineEach(ticks[i].readings.chain)
    ensures UniqueIds(Replay(ticks))
  {
    if ticks == [] {
    } else {
      var init, t := ticks[..|ticks| - 1], ticks[|ticks| - 1];
      assert forall i :: 0 <= i < |init| ==> init[i] == ticks[i];
      ReplayKeepsIds(init);
      OneCaptureKeepsIds(Replay(init), t.day, t.readings, t.zs, t.resolved);
    }
  }

  lemma RowFollows(ledger: seq<Row>, i: nat, j: nat)
    requires StreaksRight(ledger) && i < |ledger| && j < |ledger|
    requires ledger[j].rule == ledger[i].rule && ledger[j].day == ledger[i].day - 1
    ensures ledger[i].streak == ledger[j].streak + 1
  {
    assert ledger[j].day in Dates(ledger, ledger[i].rule);
  }

  /**
   The streak recurrence: over any such history a row's stored streak is yesterday's
   stored streak plus one, or one when the rule has no row for yesterday.
   */
  lemma StreakRecurrence(ticks: seq<Tick>, i: nat, j: nat)
    requires Chronological(ticks) && i < |Replay(ticks)| && j < |Replay(ticks)|
    requires Replay(ticks)[j].rule == Replay(ticks)[i].rule && Replay(ticks)[j].day == Replay(ticks)[i].day - 1
    ensures Replay(ticks)[i].streak == Replay(ticks)[j].streak + 1
  {
    ReplayKeepsStreaks(ticks);
    RowFollows(Replay(ticks), i, j);
  }

  /** The rule of the row has no row for the day before. */
  predicate NoneYesterday(ledger: seq<Row>, i: nat)
    requires i < |ledger|
  {
    !HasId(ledger, ledger[i].day - 1, ledger[i].rule)
  }

  lemma RowStarts(ledger: seq<Row>, i: nat)
    requires StreaksRight(ledger) && i < |ledger| && NoneYesterday(ledger, i)
    ensures ledger[i].streak == 1
  {
    DatesAre(ledger, ledger[i].rule, ledger[i].day - 1);
  }

  lemma StreakStarts(ticks: seq<Tick>, i: nat)
    requires Chronological(ticks) && i < |Replay(ticks)|
    requires NoneYesterday(Replay(ticks), i)
    ensures Replay(ticks)[i].streak == 1
  {
    ReplayKeepsStreaks(ticks);
    RowStarts(Replay(ticks), i);
  }

  lemma DatesAre(ledger: seq<Row>, rule: Rule, day: int)
    ensures day in Dates(ledger, rule) <==> HasId(ledger, day, rule)
  {
    if HasId(ledger, day, rule) {
      var k :| 0 <= k < |ledger| && ledger[k].day == day && ledger[k].rule == rule;
      assert ledger[k].day in Dates(ledger, rule);
    }
  }
}
