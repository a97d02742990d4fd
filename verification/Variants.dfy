/** Expansion of a phrase into the de-duplicated spoken variants a matcher scans for. */
module Variants {
  import opened Options
  import opened Text
  import opened Spelling
  import opened Decimal

  // ---------- numbers to words ----------

  /** The leading run of digits. */
  function Digits(s: string): (d: string)
    ensures |d| <= |s| && d == s[..|d|]
    ensures forall i :: 0 <= i < |d| ==> IsDigit(d[i])
    ensures |d| < |s| ==> !IsDigit(s[|d|])
  {
    if s == "" || !IsDigit(s[0]) then "" else [s[0]] + Digits(s[1..])
  }

  /** The optional cents after a dollar amount: a point and one or two digits. */
  function Cents(s: string): (c: string)
    ensures |c| <= 2 && forall i :: 0 <= i < |c| ==> IsDigit(c[i])
    ensures c != "" ==> |s| > |c| && s[0] == '.' && c == s[1..1 + |c|]
  {
    if |s| < 2 || s[0] != '.' || !IsDigit(s[1]) then ""
    else if |s| >= 3 && IsDigit(s[2]) then s[1..3] else s[1..2]
  }

  /** `int(cents.ljust(2, "0")[:2])`. */
  function CentsValue(c: string): (n: nat)
    requires 1 <= |c| <= 2 && forall i :: 0 <= i < |c| ==> IsDigit(c[i])
    ensures n < 100
  {
    10 * Value(c[0]) + if |c| == 1 then 0 else Value(c[1])
  }

  function DollarWords(whole: nat, ts: seq<Token>): string
    requires TokensOk(ts)
  {
    Spoken(ts) + if whole == 1 then " dollar" else " dollars"
  }

  function CentWords(c: nat): string
    requires c < 100
  {
    " and " + Spoken(SpellNumber(c).value) + if c == 1 then " cent" else " cents"
  }

  /** A currency amount, spoken; `None` where the speller raises. */
  function Money(whole: nat, cents: string): Option<string>
    requires |cents| <= 2 && forall i :: 0 <= i < |cents| ==> IsDigit(cents[i])
  {
    match SpellNumber(whole)
    case None => None
    case Some(ts) =>
      if cents != "" && CentsValue(cents) != 0
      then Some(DollarWords(whole, ts) + CentWords(CentsValue(cents)))
      else Some(DollarWords(whole, ts))
  }

  /** Replace every `$` amount. */
  function MoneyPass(s: string): Option<string>
    decreases |s|
  {
    if s == "" then Some("")
    else if s[0] == '$' && |s| > 1 && IsDigit(s[1]) then
      var run := Digits(s[1..]);
      var rest := s[1 + |run|..];
      var cents := Cents(rest);
      var after := if cents == "" then rest else rest[1 + |cents|..];
      if Money(Parse(run), cents).None? || MoneyPass(after).None? then None
      else Some(Money(Parse(run), cents).value + MoneyPass(after).value)
    else
      match MoneyPass(s[1..])
      case None => None
      case Some(t) => Some([s[0]] + t)
  }

  /** Replace every bare number. */
  function PlainPass(s: string): Option<string>
    decreases |s|
  {
    if s == "" then Some("")
    else if IsDigit(s[0]) then
      var run := Digits(s);
      if SpellPlain(Parse(run)).None? || PlainPass(s[|run|..]).None? then None
      else Some(Spoken(SpellPlain(Parse(run)).value) + PlainPass(s[|run|..]).value)
    else
      match PlainPass(s[1..])
      case None => None
      case Some(t) => Some([s[0]] + t)
  }

  function NumbersToWords(s: string): Option<string> {
    match MoneyPass(s)
    case None => None
    case Some(t) => PlainPass(t)
  }

  ghost predicate NoDigit(s: string) {
    forall i :: 0 <= i < |s| ==> !IsDigit(s[i])
  }

  lemma {:induction false} JoinNoDigit(ws: seq<string>)
    requires forall i :: 0 <= i < |ws| ==> NoDigit(ws[i])
    ensures NoDigit(Join(ws))
  {
    if |ws| > 1 {
      JoinNoDigit(ws[1..]);
    }
  }

  lemma SpokenNoDigit(ts: seq<Token>)
    requires TokensOk(ts)
    ensures NoDigit(Spoken(ts))
  {
    forall i | 0 <= i < |ts| ensures NoDigit(SayAll(ts)[i]) {
      SayLetters(ts[i]);
    }
    JoinNoDigit(SayAll(ts));
  }

  /** Whatever the phrase, a spoken form that is produced contains no digit. */
  lemma {:induction false} PlainPassNoDigit(s: string)
    ensures PlainPass(s).Some? ==> NoDigit(PlainPass(s).value)
    decreases |s|
  {
    if s == "" {
    } else if IsDigit(s[0]) {
      var run := Digits(s);
      PlainPassNoDigit(s[|run|..]);
      if SpellPlain(Parse(run)).Some? {
        SpokenNoDigit(SpellPlain(Parse(run)).value);
      }
    } else {
      PlainPassNoDigit(s[1..]);
    }
  }

  /** Every maximal run of digits is within the speller's range. */
  ghost predicate Spellable(s: string)
    decreases |s|
  {
    if s == "" then true
    else if IsDigit(s[0]) then Parse(Digits(s)) < 2_000_000_000_000 && Spellable(s[|Digits(s)|..])
    else Spellable(s[1..])
  }

  lemma {:induction false} ParseTail(s: string)
    requires s != "" && forall i :: 0 <= i < |s| ==> IsDigit(s[i])
    ensures Parse(s[1..]) <= Parse(s)
  {
    if |s| > 1 {
      ParseTail(s[..|s| - 1]);
      assert s[1..][..|s| - 2] == s[..|s| - 1][1..];
    }
  }

  lemma SpellableTail(s: string)
    requires s != "" && Spellable(s)
    ensures Spellable(s[1..])
  {
    if IsDigit(s[0]) && |Digits(s)| > 1 {
      assert Digits(s)[1..] == Digits(s[1..]);
      ParseTail(Digits(s));
      assert s[1..][|Digits(s[1..])|..] == s[|Digits(s)|..];
    }
  }

  lemma {:induction false} SpellableSuffix(s: string, k: nat)
    requires k <= |s| && Spellable(s)
    ensures Spellable(s[k..])
    decreases k
  {
    if k == 0 {
    } else {
      SpellableTail(s);
      SpellableSuffix(s[1..], k - 1);
      assert s[1..][k - 1..] == s[k..];
    }
  }

  lemma {:induction false} SpellableAfter(w: string, t: string)
    requires NoDigit(w) && Spellable(t)
    ensures Spellable(w + t)
  {
    if w == "" {
      assert w + t == t;
    } else {
      SpellableAfter(w[1..], t);
      assert (w + t)[1..] == w[1..] + t;
    }
  }

  lemma NoDigitConcat(a: string, b: string)
    requires NoDigit(a) && NoDigit(b)
    ensures NoDigit(a + b)
  {}

  lemma DollarWordsNoDigit(whole: nat, ts: seq<Token>)
    requires TokensOk(ts)
    ensures NoDigit(DollarWords(whole, ts)) && DollarWords(whole, ts) != ""
  {
    SpokenNoDigit(ts);
    NoDigitConcat(Spoken(ts), if whole == 1 then " dollar" else " dollars");
  }

  lemma CentsAround(cs: string, one: bool)
    requires NoDigit(cs)
    ensures NoDigit(" and " + cs + if one then " cent" else " cents")
  {
    NoDigitConcat(" and ", cs);
    NoDigitConcat(" and " + cs, if one then " cent" else " cents");
  }

  lemma CentWordsNoDigit(c: nat)
    requires c < 100
    ensures NoDigit(CentWords(c))
  {
    SpokenNoDigit(SpellNumber(c).value);
    CentsAround(Spoken(SpellNumber(c).value), c == 1);
  }

  lemma MoneySpoken(whole: nat, cents: string)
    requires |cents| <= 2 && forall i :: 0 <= i < |cents| ==> IsDigit(cents[i])
    requires whole < 2_000_000_000_000
    ensures Money(whole, cents).Some? && NoDigit(Money(whole, cents).value) && Money(whole, cents).value != ""
  {
    DollarWordsNoDigit(whole, SpellNumber(whole).value);
    if cents != "" {
      CentWordsNoDigit(CentsValue(cents));
      NoDigitConcat(DollarWords(whole, SpellNumber(whole).value), CentWords(CentsValue(cents)));
    }
  }

  /** What follows a currency amount is a suffix of the phrase. */
  function AfterMoney(s: string): (r: string)
    requires |s| > 1 && IsDigit(s[1])
    ensures |r| < |s| && r == s[|s| - |r|..]
  {
    var rest := s[1 + |Digits(s[1..])|..];
    if Cents(rest) == "" then rest else rest[1 + |Cents(rest)|..]
  }

  lemma FirstNotDigit(w: string, t: string)
    requires w != "" && !IsDigit(w[0])
    ensures Digits(w + t) == ""
  {}

  /** The text put in place of the currency amount that starts `s`. */
  function MoneyAt(s: string): Option<string>
    requires |s| > 1 && IsDigit(s[1])
  {
    Money(Parse(Digits(s[1..])), Cents(s[1 + |Digits(s[1..])|..]))
  }

  lemma MoneyPassAmount(s: string)
    requires |s| > 1 && s[0] == '$' && IsDigit(s[1])
    requires MoneyAt(s).Some? && MoneyPass(AfterMoney(s)).Some?
    ensures MoneyPass(s) == Some(MoneyAt(s).value + MoneyPass(AfterMoney(s)).value)
  {}

  lemma MoneyPassChar(s: string)
    requires s != "" && !(s[0] == '$' && |s| > 1 && IsDigit(s[1])) && MoneyPass(s[1..]).Some?
    ensures MoneyPass(s) == Some([s[0]] + MoneyPass(s[1..]).value)
  {}

  lemma AmountSpoken(s: string)
    requires Spellable(s) && |s| > 1 && s[0] == '$' && IsDigit(s[1])
    ensures MoneyAt(s).Some? && NoDigit(MoneyAt(s).value) && MoneyAt(s).value != ""
  {
    SpellableTail(s);
    MoneySpoken(Parse(Digits(s[1..])), Cents(s[1 + |Digits(s[1..])|..]));
  }

  /** `out` is what the currency pass should make of `s`: spellable, same leading digits. */
  ghost predicate KeepsSpellable(s: string, out: Option<string>) {
    out.Some? && Spellable(out.value) && Digits(out.value) == Digits(s)
  }

  lemma MoneyStep(s: string)
    requires Spellable(s) && |s| > 1 && s[0] == '$' && IsDigit(s[1])
    requires MoneyPass(AfterMoney(s)).Some? && Spellable(MoneyPass(AfterMoney(s)).value)
    ensures KeepsSpellable(s, MoneyPass(s))
  {
    AmountSpoken(s);
    MoneyPassAmount(s);
    SpellableAfter(MoneyAt(s).value, MoneyPass(AfterMoney(s)).value);
    FirstNotDigit(MoneyAt(s).value, MoneyPass(AfterMoney(s)).value);
  }

  /** A character in front of an unchanged run of digits. */
  lemma CharStep(s: string, t: string)
    requires s != "" && Spellable(s) && KeepsSpellable(s[1..], Some(t))
    ensures KeepsSpellable(s, Some([s[0]] + t))
  {
    var out := [s[0]] + t;
    assert out[1..] == t;
    if IsDigit(s[0]) {
      var k := |Digits(out)|;
      SpellableSuffix(t, k - 1);
      assert out[k..] == t[k - 1..];
    }
  }

  /** Speaking the currency amounts leaves a spellable phrase spellable. */
  lemma {:induction false} MoneyPassSpellable(s: string)
    requires Spellable(s)
    ensures KeepsSpellable(s, MoneyPass(s))
    decreases |s|
  {
    if s == "" {
    } else if s[0] == '$' && |s| > 1 && IsDigit(s[1]) {
      SpellableSuffix(s, |s| - |AfterMoney(s)|);
      MoneyPassSpellable(AfterMoney(s));
      MoneyStep(s);
    } else {
      SpellableTail(s);
      MoneyPassSpellable(s[1..]);
      MoneyPassChar(s);
      CharStep(s, MoneyPass(s[1..]).value);
    }
  }

  lemma {:induction false} PlainPassTotal(s: string)
    requires Spellable(s)
    ensures PlainPass(s).Some?
    decreases |s|
  {
    if s == "" {
    } else if IsDigit(s[0]) {
      PlainPassTotal(s[|Digits(s)|..]);
    } else {
      PlainPassTotal(s[1..]);
    }
  }

  /** And only where they are. */
  lemma {:induction false} PlainPassOnly(s: string)
    requires PlainPass(s).Some?
    ensures Spellable(s)
    decreases |s|
  {
    if s == "" {
    } else if IsDigit(s[0]) {
      PlainPassOnly(s[|Digits(s)|..]);
    } else {
      PlainPassOnly(s[1..]);
    }
  }

  /** For phrases whose numbers are all in range, the spoken form exists and has no digit. */
  lemma SpokenFormHasNoDigit(s: string)
    requires Spellable(s)
    ensures NumbersToWords(s).Some? && NoDigit(NumbersToWords(s).value)
  {
    MoneyPassSpellable(s);
    PlainPassTotal(MoneyPass(s).value);
    PlainPassNoDigit(MoneyPass(s).value);
  }

  /** A phrase without digits is left alone. */
  lemma {:induction false} NumbersToWordsIdentity(s: string)
    requires NoDigit(s)
    ensures MoneyPass(s) == Some(s) && PlainPass(s) == Some(s) && NumbersToWords(s) == Some(s)
  {
    if s == "" {
    } else {
      NumbersToWordsIdentity(s[1..]);
      assert s == [s[0]] + s[1..];
    }
  }

  // ---------- what is said, piece by piece ----------

  ghost predicate AllDigits(s: string) {
    forall i :: 0 <= i < |s| ==> IsDigit(s[i])
  }

  predicate StartsWithDigit(s: string) {
    s != "" && IsDigit(s[0])
  }

  lemma {:induction false} DigitsOfRun(run: string, rest: string)
    requires AllDigits(run) && !StartsWithDigit(rest)
    ensures Digits(run + rest) == run
  {
    if run == "" {
      assert run + rest == rest;
    } else {
      DigitsOfRun(run[1..], rest);
      assert (run + rest)[1..] == run[1..] + rest;
    }
  }

  /** Text without digits stays as it is, whatever follows. */
  lemma {:induction false} PlainPassText(x: string, t: string)
    requires NoDigit(x) && PlainPass(t).Some?
    ensures PlainPass(x + t) == Some(x + PlainPass(t).value)
  {
    if x == "" {
      assert x + t == t && x + PlainPass(t).value == PlainPass(t).value;
    } else {
      PlainPassText(x[1..], t);
      PlainPassCons(x[0], x[1..] + t);
      Uncons(x, t);
      Uncons(x, PlainPass(t).value);
    }
  }

  lemma PlainPassCons(c: char, t: string)
    requires !IsDigit(c) && PlainPass(t).Some?
    ensures PlainPass([c] + t) == Some([c] + PlainPass(t).value)
  {
    assert ([c] + t)[1..] == t;
  }

  lemma PlainPassRun(run: string, y: string)
    requires run != "" && AllDigits(run) && !StartsWithDigit(y)
    requires Parse(run) < 2_000_000_000_000 && PlainPass(y).Some?
    ensures PlainPass(run + y) == Some(Spoken(SpellPlain(Parse(run)).value) + PlainPass(y).value)
  {
    DigitsOfRun(run, y);
    assert (run + y)[0] == run[0] && (run + y)[|run|..] == y;
  }

  /** Each maximal run of digits is said as the number it is, in place, and the text around it stays. */
  lemma PlainPassSays(x: string, run: string, y: string)
    requires NoDigit(x) && run != "" && AllDigits(run) && !StartsWithDigit(y)
    requires Parse(run) < 2_000_000_000_000 && PlainPass(y).Some?
    ensures PlainPass(x + (run + y)) == Some(x + (Spoken(SpellPlain(Parse(run)).value) + PlainPass(y).value))
  {
    PlainPassRun(run, y);
    PlainPassText(x, run + y);
  }

  /** What may stand for `n` cents after the dollars: nothing, a digit for the tens, or two digits. */
  ghost predicate CentsText(c: string, n: nat) {
    || (c == "" && n == 0)
    || (|c| == 2 && c[0] == '.' && IsDigit(c[1]) && n == 10 * Value(c[1]))
    || (|c| == 3 && c[0] == '.' && IsDigit(c[1]) && IsDigit(c[2]) && n == 10 * Value(c[1]) + Value(c[2]))
  }

  /** `rest` does not carry on an amount written with cents `c`. */
  predicate EndsAmount(c: string, rest: string) {
    match |c|
    case 0 => !StartsWithDigit(rest) && !(rest != "" && rest[0] == '.' && StartsWithDigit(rest[1..]))
    case 2 => !StartsWithDigit(rest)
    case _ => true
  }

  /** Text without a dollar sign stays as it is, whatever follows. */
  lemma {:induction false} MoneyPassText(x: string, t: string)
    requires '$' !in x && MoneyPass(t).Some?
    ensures MoneyPass(x + t) == Some(x + MoneyPass(t).value)
  {
    if x == "" {
      assert x + t == t && x + MoneyPass(t).value == MoneyPass(t).value;
    } else {
      MoneyPassText(x[1..], t);
      assert x[0] in x;
      MoneyPassCons(x[0], x[1..] + t);
      Uncons(x, t);
      Uncons(x, MoneyPass(t).value);
    }
  }

  lemma Uncons(x: string, t: string)
    requires x != ""
    ensures x + t == [x[0]] + (x[1..] + t)
  {}

  lemma MoneyPassCons(c: char, t: string)
    requires c != '$' && MoneyPass(t).Some?
    ensures MoneyPass([c] + t) == Some([c] + MoneyPass(t).value)
  {
    assert ([c] + t)[1..] == t;
  }

  lemma CentsOf(c: string, n: nat, rest: string)
    requires CentsText(c, n) && EndsAmount(c, rest)
    ensures !StartsWithDigit(c + rest)
    ensures c == "" ==> Cents(c + rest) == ""
    ensures c != "" ==> Cents(c + rest) == c[1..] && CentsValue(c[1..]) == n
  {
    var t := c + rest;
    if c == "" {
      assert t == rest;
    } else {
      assert t[0] == '.' && t[1] == c[1];
      if |c| == 3 {
        assert t[2] == c[2] && t[1..3] == c[1..];
      } else {
        assert |t| >= 3 ==> t[2] == rest[0];
        assert t[1..2] == c[1..];
      }
    }
  }

  /** `amount` says so many dollars and cents. */
  predicate SaysAmount(amount: string, dollars: nat, cents: nat)
    requires dollars < 2_000_000_000_000 && cents < 100
  {
    var whole := Voice(dollars) + if dollars == 1 then " dollar" else " dollars";
    amount == if cents == 0 then whole
              else whole + (" and " + Voice(cents) + if cents == 1 then " cent" else " cents")
  }

  lemma MoneySays(dollars: nat, cents: string, n: nat)
    requires dollars < 2_000_000_000_000 && |cents| <= 2 && AllDigits(cents)
    requires n == if cents == "" then 0 else CentsValue(cents)
    ensures Money(dollars, cents).Some? && SaysAmount(Money(dollars, cents).value, dollars, n)
  {}

  /** Where the pieces of an amount are. */
  lemma AmountShape(run: string, t: string)
    requires run != "" && AllDigits(run) && !StartsWithDigit(t)
    ensures var s := "$" + (run + t);
      |s| > |run| && s[0] == '$' && IsDigit(s[1]) && Digits(s[1..]) == run && s[1 + |run|..] == t
  {
    var s := "$" + (run + t);
    DigitsOfRun(run, t);
    assert s[1] == run[0] && s[1..] == run + t;
  }

  lemma AmountAt(s: string, run: string, t: string)
    requires |s| > |run| && |s| > 1 && IsDigit(s[1])
    requires Digits(s[1..]) == run && s[1 + |run|..] == t
    ensures MoneyAt(s) == Money(Parse(run), Cents(t))
  {}

  lemma AfterAmount(s: string, run: string, t: string)
    requires |s| > |run| && |s| > 1 && IsDigit(s[1])
    requires Digits(s[1..]) == run && s[1 + |run|..] == t
    ensures AfterMoney(s) == if Cents(t) == "" then t else t[1 + |Cents(t)|..]
  {}

  lemma AfterCents(c: string, rest: string)
    ensures c == "" ==> c + rest == rest
    ensures c != "" ==> (c + rest)[1 + |c[1..]|..] == rest
  {}

  /**
   A dollar amount is said in place: one digit after the point is tens of cents, two are cents,
   no cents are not said, and one of either is singular.
   */
  lemma MoneyPassSays(run: string, c: string, n: nat, rest: string)
    requires run != "" && AllDigits(run) && Parse(run) < 2_000_000_000_000
    requires CentsText(c, n) && EndsAmount(c, rest) && MoneyPass(rest).Some?
    ensures exists amount :: MoneyPass("$" + (run + (c + rest))) == Some(amount + MoneyPass(rest).value)
              && SaysAmount(amount, Parse(run), n)
  {
    CentsOf(c, n, rest);
    AmountShape(run, c + rest);
    AmountAt("$" + (run + (c + rest)), run, c + rest);
    AfterAmount("$" + (run + (c + rest)), run, c + rest);
    AfterCents(c, rest);
    MoneySays(Parse(run), if c == "" then "" else c[1..], n);
    MoneyPassAmount("$" + (run + (c + rest)));
  }

  /** So does a dollar sign that no digit follows. */
  lemma BareDollar(t: string)
    requires !StartsWithDigit(t) && MoneyPass(t).Some?
    ensures MoneyPass("$" + t) == Some("$" + MoneyPass(t).value)
  {
    assert ("$" + t)[1..] == t;
    MoneyPassChar("$" + t);
  }

  // ---------- homophones ----------

  const HOMOPHONES: seq<seq<string>> := [
    ["buy", "by", "bye"],
    ["to", "too", "two"],
    ["for", "four"],
    ["their", "there", "they're"],
    ["your", "you're"],
    ["no", "know"],
    ["here", "hear"],
    ["won", "one"],
    ["great", "grate"],
    ["peace", "piece"]
  ]

  /** The text after swapping token `i` for alternative `a` of group `g`. */
  function Swap(tokens: seq<string>, i: nat, alt: string): string
    requires i < |tokens|
  {
    Join(tokens[i := alt])
  }

  function AltSwaps(tokens: seq<string>, i: nat, alts: seq<string>): seq<string>
    requires i < |tokens|
  {
    if alts == [] then []
    else
      AltSwaps(tokens, i, alts[..|alts| - 1])
      + if alts[|alts| - 1] != tokens[i] then [Swap(tokens, i, alts[|alts| - 1])] else []
  }

  function GroupSwaps(tokens: seq<string>, i: nat, groups: seq<seq<string>>): seq<string>
    requires i < |tokens|
  {
    if groups == [] then []
    else
      GroupSwaps(tokens, i, groups[..|groups| - 1])
      + if tokens[i] in groups[|groups| - 1] then AltSwaps(tokens, i, groups[|groups| - 1]) else []
  }

  function TokenSwaps(tokens: seq<string>, n: nat, groups: seq<seq<string>>): seq<string>
    requires n <= |tokens|
  {
    if n == 0 then [] else TokenSwaps(tokens, n - 1, groups) + GroupSwaps(tokens, n - 1, groups)
  }

  /** `_homophone_variants`: every single-token swap. */
  function HomophoneVariants(normalized: string): seq<string> {
    TokenSwaps(Split(normalized), |Split(normalized)|, HOMOPHONES)
  }

  lemma {:induction false} AltSwapsHas(tokens: seq<string>, i: nat, alts: seq<string>, alt: string)
    requires i < |tokens| && alt in alts && alt != tokens[i]
    ensures Swap(tokens, i, alt) in AltSwaps(tokens, i, alts)
  {
    if alt != alts[|alts| - 1] {
      AltSwapsHas(tokens, i, alts[..|alts| - 1], alt);
    }
  }

  lemma {:induction false} GroupSwapsHas(tokens: seq<string>, i: nat, groups: seq<seq<string>>, group: seq<string>,
                                         alt: string)
    requires i < |tokens| && group in groups && tokens[i] in group && alt in group && alt != tokens[i]
    ensures Swap(tokens, i, alt) in GroupSwaps(tokens, i, groups)
  {
    if group == groups[|groups| - 1] {
      AltSwapsHas(tokens, i, group, alt);
    } else {
      GroupSwapsHas(tokens, i, groups[..|groups| - 1], group, alt);
    }
  }

  /** Which words sound alike: equal positive classes. */
  function SoundClass(w: string): nat {
    match w
    case "buy" => 1 case "by" => 1 case "bye" => 1
    case "to" => 2 case "too" => 2 case "two" => 2
    case "for" => 3 case "four" => 3
    case "their" => 4 case "there" => 4 case "they're" => 4
    case "your" => 5 case "you're" => 5
    case "no" => 6 case "know" => 6
    case "here" => 7 case "hear" => 7
    case "won" => 8 case "one" => 8
    case "great" => 9 case "grate" => 9
    case "peace" => 10 case "piece" => 10
    case _ => 0
  }

  predicate SoundAlike(a: string, b: string) {
    SoundClass(a) == SoundClass(b) != 0
  }

  lemma GroupClass(g: nat, w: string)
    requires g < |HOMOPHONES|
    ensures w in HOMOPHONES[g] <==> SoundClass(w) == g + 1
  {}

  lemma {:induction false} AltSwapsOnly(tokens: seq<string>, i: nat, alts: seq<string>, text: string)
    requires i < |tokens| && text in AltSwaps(tokens, i, alts)
    ensures exists alt :: alt in alts && alt != tokens[i] && text == Join(tokens[i := alt])
  {
    var init, last := alts[..|alts| - 1], alts[|alts| - 1];
    if text in AltSwaps(tokens, i, init) {
      AltSwapsOnly(tokens, i, init, text);
      var alt :| alt in init && alt != tokens[i] && text == Join(tokens[i := alt]);
      assert alt in alts;
    } else {
      assert last in alts;
    }
  }

  /** The text is `tokens` with a word that sounds like token `i` in its place. */
  ghost predicate SwappedAt(tokens: seq<string>, i: nat, text: string)
    requires i < |tokens|
  {
    exists alt :: SoundAlike(tokens[i], alt) && alt != tokens[i] && text == Join(tokens[i := alt])
  }

  /** Group `g` swaps token `i` into the text. */
  ghost predicate SwappedBy(tokens: seq<string>, i: nat, group: seq<string>, text: string)
    requires i < |tokens|
  {
    tokens[i] in group && text in AltSwaps(tokens, i, group)
  }

  lemma {:induction false} GroupSwapsOnly(tokens: seq<string>, i: nat, groups: seq<seq<string>>, text: string)
    requires i < |tokens| && text in GroupSwaps(tokens, i, groups)
    ensures exists g :: 0 <= g < |groups| && SwappedBy(tokens, i, groups[g], text)
  {
    var init := groups[..|groups| - 1];
    if text in GroupSwaps(tokens, i, init) {
      GroupSwapsOnly(tokens, i, init, text);
      var g :| 0 <= g < |init| && SwappedBy(tokens, i, init[g], text);
      assert groups[g] == init[g];
    } else {
      assert SwappedBy(tokens, i, groups[|groups| - 1], text);
    }
  }

  lemma SwappedByGroup(tokens: seq<string>, i: nat, g: nat, text: string)
    requires i < |tokens| && g < |HOMOPHONES| && SwappedBy(tokens, i, HOMOPHONES[g], text)
    ensures SwappedAt(tokens, i, text)
  {
    AltSwapsOnly(tokens, i, HOMOPHONES[g], text);
    var alt :| alt in HOMOPHONES[g] && alt != tokens[i] && text == Join(tokens[i := alt]);
    GroupAlike(g, tokens[i], alt);
  }

  lemma GroupAlike(g: nat, a: string, b: string)
    requires g < |HOMOPHONES| && a in HOMOPHONES[g] && b in HOMOPHONES[g]
    ensures SoundAlike(a, b)
  {
    GroupClass(g, a);
    GroupClass(g, b);
  }

  lemma ClassGroup(w: string)
    ensures SoundClass(w) <= |HOMOPHONES|
  {}

  lemma GroupSwapsExactly(tokens: seq<string>, i: nat, text: string)
    requires i < |tokens|
    ensures text in GroupSwaps(tokens, i, HOMOPHONES) <==> SwappedAt(tokens, i, text)
  {
    if text in GroupSwaps(tokens, i, HOMOPHONES) {
      GroupSwapsOnly(tokens, i, HOMOPHONES, text);
      var g :| 0 <= g < |HOMOPHONES| && SwappedBy(tokens, i, HOMOPHONES[g], text);
      SwappedByGroup(tokens, i, g, text);
    }
    if SwappedAt(tokens, i, text) {
      var alt :| SoundAlike(tokens[i], alt) && alt != tokens[i] && text == Join(tokens[i := alt]);
      ClassGroup(alt);
      var g := SoundClass(alt) - 1;
      GroupClass(g, tokens[i]);
      GroupClass(g, alt);
      GroupSwapsHas(tokens, i, HOMOPHONES, HOMOPHONES[g], alt);
    }
  }

  ghost predicate SwappedIn(tokens: seq<string>, i: nat, groups: seq<seq<string>>, text: string)
    requires i < |tokens|
  {
    text in GroupSwaps(tokens, i, groups)
  }

  lemma {:induction false} TokenSwapsAre(tokens: seq<string>, n: nat, groups: seq<seq<string>>, text: string)
    requires n <= |tokens|
    ensures text in TokenSwaps(tokens, n, groups) <==> SwappedBelow(tokens, n, groups, text)
  {
    if n == 0 {
    } else {
      TokenSwapsAre(tokens, n - 1, groups, text);
      TokenSwapsNext(tokens, n - 1, groups, text);
      SwappedBelowNext(tokens, n - 1, groups, text);
    }
  }

  lemma TokenSwapsNext(tokens: seq<string>, n: nat, groups: seq<seq<string>>, text: string)
    requires n < |tokens|
    ensures text in TokenSwaps(tokens, n + 1, groups)
            <==> text in TokenSwaps(tokens, n, groups) || SwappedIn(tokens, n, groups, text)
  {
    InConcat(TokenSwaps(tokens, n, groups), GroupSwaps(tokens, n, groups), text);
  }

  lemma InConcat<T>(a: seq<T>, b: seq<T>, x: T)
    ensures x in a + b <==> x in a || x in b
  {}

  ghost predicate SwappedBelow(tokens: seq<string>, n: nat, groups: seq<seq<string>>, text: string)
    requires n <= |tokens|
  {
    exists i :: 0 <= i < n && SwappedIn(tokens, i, groups, text)
  }

  lemma SwappedBelowNext(tokens: seq<string>, n: nat, groups: seq<seq<string>>, text: string)
    requires n < |tokens|
    ensures SwappedBelow(tokens, n + 1, groups, text)
            <==> SwappedBelow(tokens, n, groups, text) || SwappedIn(tokens, n, groups, text)
  {}

  /** Some token is swapped. */
  ghost predicate SwappedSomewhere(tokens: seq<string>, text: string) {
    exists i :: 0 <= i < |tokens| && SwappedAt(tokens, i, text)
  }

  /** Generated are exactly the texts with one token swapped for a word that sounds like it. */
  lemma TokenSwapsExactly(tokens: seq<string>, text: string)
    ensures text in TokenSwaps(tokens, |tokens|, HOMOPHONES) <==> SwappedSomewhere(tokens, text)
  {
    TokenSwapsAre(tokens, |tokens|, HOMOPHONES, text);
    forall i | 0 <= i < |tokens| ensures SwappedIn(tokens, i, HOMOPHONES, text) <==> SwappedAt(tokens, i, text) {
      GroupSwapsExactly(tokens, i, text);
    }
  }

  method SwapAlternatives(tokens: seq<string>, i: nat, alts: seq<string>) returns (out: seq<string>)
    requires i < |tokens|
    ensures out == AltSwaps(tokens, i, alts)
  {
    out := [];
    for a := 0 to |alts|
      invariant out == AltSwaps(tokens, i, alts[..a])
    {
      assert alts[..a + 1][..a] == alts[..a];
      if alts[a] != tokens[i] {
        out := out + [Join(tokens[i := alts[a]])];
      }
    }
    assert alts[..|alts|] == alts;
  }

  method SwapGroups(tokens: seq<string>, i: nat, groups: seq<seq<string>>) returns (out: seq<string>)
    requires i < |tokens|
    ensures out == GroupSwaps(tokens, i, groups)
  {
    out := [];
    for g := 0 to |groups|
      invariant out == GroupSwaps(tokens, i, groups[..g])
    {
      assert groups[..g + 1][..g] == groups[..g];
      if tokens[i] in groups[g] {
        var swaps := SwapAlternatives(tokens, i, groups[g]);
        out := out + swaps;
      }
    }
    assert groups[..|groups|] == groups;
  }

  method ComputeHomophones(normalized: string) returns (out: seq<string>)
    ensures out == HomophoneVariants(normalized)
  {
    var tokens := Split(normalized);
    out := [];
    for i := 0 to |tokens|
      invariant out == TokenSwaps(tokens, i, HOMOPHONES)
    {
      var swaps := SwapGroups(tokens, i, HOMOPHONES);
      out := out + swaps;
    }
  }

  // ---------- expansion ----------

  datatype Kind = Normalized | Numbers | Homophones
  datatype Variant = Variant(text: string, kind: Kind)

  predicate HasText(vs: seq<Variant>, text: string) {
    exists i :: 0 <= i < |vs| && vs[i].text == text
  }

  /** `add`: keep the normal form if it is nonempty and new. */
  function Add(vs: seq<Variant>, raw: Variant): seq<Variant> {
    var norm := Normalize(raw.text);
    if norm != "" && !HasText(vs, norm) then vs + [Variant(norm, raw.kind)] else vs
  }

  function AddAll(vs: seq<Variant>, raws: seq<Variant>): seq<Variant> {
    if raws == [] then vs else Add(AddAll(vs, raws[..|raws| - 1]), raws[|raws| - 1])
  }

  function Swaps(normalized: string): (vs: seq<Variant>)
    ensures |vs| == |HomophoneVariants(normalized)|
    ensures forall i :: 0 <= i < |vs| ==> vs[i] == Variant(HomophoneVariants(normalized)[i], Homophones)
  {
    var hs := HomophoneVariants(normalized);
    seq(|hs|, i requires 0 <= i < |hs| => Variant(hs[i], Homophones))
  }

  /** Everything offered to `add`, in order. */
  function Raw(phrase: string, spoken: string): seq<Variant> {
    [Variant(phrase, Normalized), Variant(spoken, Numbers)] + Swaps(Normalize(phrase)) + Swaps(Normalize(spoken))
  }

  /** `expand_phrase`; `None` where the speller raises. */
  function Expand(phrase: string): Option<seq<Variant>> {
    match NumbersToWords(phrase)
    case None => None
    case Some(spoken) => Some(AddAll([], Raw(phrase, spoken)))
  }

  /** Distinct, nonempty fixpoints of `normalize`. */
  ghost predicate Clean(vs: seq<Variant>) {
    && (forall i :: 0 <= i < |vs| ==> vs[i].text != "" && Normalize(vs[i].text) == vs[i].text)
    && forall i, j :: 0 <= i < j < |vs| ==> vs[i].text != vs[j].text
  }

  /** Everything offered with a nonempty normal form ends up in the list. */
  ghost predicate Covers(vs: seq<Variant>, raws: seq<Variant>) {
    forall i :: 0 <= i < |raws| && Normalize(raws[i].text) != "" ==> HasText(vs, Normalize(raws[i].text))
  }

  /** The normal form of something offered, under its kind. */
  ghost predicate Offered(v: Variant, raws: seq<Variant>) {
    exists i :: 0 <= i < |raws| && v == Variant(Normalize(raws[i].text), raws[i].kind)
  }

  /** Everything in the list from `n` on was offered. */
  ghost predicate ComesFrom(vs: seq<Variant>, n: nat, raws: seq<Variant>) {
    forall j :: n <= j < |vs| ==> Offered(vs[j], raws)
  }

  lemma AddAllSnoc(vs: seq<Variant>, raws: seq<Variant>, raw: Variant)
    ensures AddAll(vs, raws + [raw]) == Add(AddAll(vs, raws), raw)
  {
    assert (raws + [raw])[..|raws|] == raws;
  }

  lemma {:induction false} AddAllClean(vs: seq<Variant>, raws: seq<Variant>)
    requires Clean(vs)
    ensures Clean(AddAll(vs, raws)) && vs <= AddAll(vs, raws)
    ensures Covers(AddAll(vs, raws), raws)
    ensures ComesFrom(AddAll(vs, raws), |vs|, raws)
  {
    if raws == [] {
    } else {
      var init, raw := raws[..|raws| - 1], raws[|raws| - 1];
      AddAllClean(vs, init);
      AddKeeps(AddAll(vs, init), |vs|, init, raw);
      AddAllSnoc(vs, init, raw);
      assert raws == init + [raw];
    }
  }

  lemma AddKeeps(vs: seq<Variant>, n: nat, raws: seq<Variant>, raw: Variant)
    requires Clean(vs) && Covers(vs, raws) && ComesFrom(vs, n, raws)
    ensures Clean(Add(vs, raw)) && vs <= Add(vs, raw)
    ensures Covers(Add(vs, raw), raws + [raw]) && ComesFrom(Add(vs, raw), n, raws + [raw])
  {
    AddClean(vs, raw);
    AddCovers(vs, raws, raw);
    AddComesFrom(vs, n, raws, raw);
  }

  lemma AddCovers(vs: seq<Variant>, raws: seq<Variant>, raw: Variant)
    requires Covers(vs, raws) && vs <= Add(vs, raw)
    requires Normalize(raw.text) != "" ==> HasText(Add(vs, raw), Normalize(raw.text))
    ensures Covers(Add(vs, raw), raws + [raw])
  {
    var all, after := raws + [raw], Add(vs, raw);
    forall i | 0 <= i < |all| && Normalize(all[i].text) != "" ensures HasText(after, Normalize(all[i].text)) {
      if i < |raws| {
        assert all[i] == raws[i];
        var k :| 0 <= k < |vs| && vs[k].text == Normalize(raws[i].text);
        assert after[k] == vs[k];
      }
    }
  }

  lemma AddComesFrom(vs: seq<Variant>, n: nat, raws: seq<Variant>, raw: Variant)
    requires ComesFrom(vs, n, raws)
    ensures ComesFrom(Add(vs, raw), n, raws + [raw])
  {
    var all, after := raws + [raw], Add(vs, raw);
    forall j | n <= j < |after| ensures Offered(after[j], all) {
      if j < |vs| {
        assert Offered(vs[j], raws);
        var i :| 0 <= i < |raws| && vs[j] == Variant(Normalize(raws[i].text), raws[i].kind);
        assert all[i] == raws[i];
      } else {
        assert all[|raws|] == raw;
      }
    }
  }

  lemma AddClean(vs: seq<Variant>, raw: Variant)
    requires Clean(vs)
    ensures Clean(Add(vs, raw)) && vs <= Add(vs, raw)
    ensures Normalize(raw.text) != "" ==> HasText(Add(vs, raw), Normalize(raw.text))
  {
    NormalizeIdempotent(raw.text);
    var after := Add(vs, raw);
    if after != vs {
      assert after[|vs|].text == Normalize(raw.text);
    }
  }

  /** A phrase with nothing to say has no digits, hence no spoken form of its own. */
  lemma EmptyNormalHasNoDigit(s: string)
    requires Normalize(s) == ""
    ensures NoDigit(s)
  {
    NormalizeWords(s);
    NormalizeIsJoin(s);
    if Split(Stripped(s)) != [] {
      var ws := Split(Stripped(s));
      JoinEnds(ws);
    }
    AllSpaces(Stripped(s));
    forall i | 0 <= i < |s| ensures !IsDigit(s[i]) {
      assert Space(Stripped(s)[i]);
    }
  }

  lemma AddAllEmpty(raws: seq<Variant>)
    requires forall i :: 0 <= i < |raws| ==> Normalize(raws[i].text) == ""
    ensures AddAll([], raws) == []
  {
    if raws != [] {
      AddAllEmpty(raws[..|raws| - 1]);
    }
  }

  lemma AddAllOneMore(vs: seq<Variant>, a: seq<Variant>, b: seq<Variant>, raw: Variant)
    requires AddAll(vs, a + b) == AddAll(AddAll(vs, a), b)
    ensures AddAll(vs, a + (b + [raw])) == AddAll(AddAll(vs, a), b + [raw])
  {
    assert a + (b + [raw]) == (a + b) + [raw];
    AddAllSnoc(vs, a + b, raw);
    AddAllSnoc(AddAll(vs, a), b, raw);
  }

  lemma {:induction false} AddAllAppend(vs: seq<Variant>, a: seq<Variant>, b: seq<Variant>)
    ensures AddAll(vs, a + b) == AddAll(AddAll(vs, a), b)
  {
    if b == [] {
      assert a + b == a;
    } else {
      var init, last := b[..|b| - 1], b[|b| - 1];
      AddAllAppend(vs, a, init);
      AddAllOneMore(vs, a, init, last);
      assert b == init + [last];
    }
  }

  lemma AddAllOne(vs: seq<Variant>, raw: Variant)
    ensures AddAll(vs, [raw]) == Add(vs, raw)
  {
    AddAllSnoc(vs, [], raw);
    assert [] + [raw] == [raw];
  }

  lemma ExpandNothing(phrase: string)
    requires Normalize(phrase) == ""
    ensures Expand(phrase) == Some([])
  {
    EmptyNormalHasNoDigit(phrase);
    NumbersToWordsIdentity(phrase);
    assert Split("") == [];
    assert Swaps("") == [];
    AddAllEmpty(Raw(phrase, phrase));
  }

  lemma ExpandFirst(phrase: string)
    requires Expand(phrase).Some? && Normalize(phrase) != ""
    ensures Expand(phrase).value != [] && Expand(phrase).value[0] == Variant(Normalize(phrase), Normalized)
  {
    var raws := Raw(phrase, NumbersToWords(phrase).value);
    var first := Add([], raws[0]);
    assert raws == [raws[0]] + raws[1..];
    AddAllAppend([], [raws[0]], raws[1..]);
    AddAllOne([], raws[0]);
    AddClean([], raws[0]);
    AddAllClean(first, raws[1..]);
    assert first == [Variant(Normalize(phrase), Normalized)];
  }

  /**
   The expansion is empty exactly when the phrase normalizes to nothing; otherwise its
   normal form comes first. All variants are distinct, nonempty fixpoints of `normalize`,
   and each is the normal form of something offered, under that kind.
   */
  lemma ExpandShape(phrase: string)
    requires Expand(phrase).Some?
    ensures var vs, raws := Expand(phrase).value, Raw(phrase, NumbersToWords(phrase).value);
      && Clean(vs)
      && (vs == [] <==> Normalize(phrase) == "")
      && (Normalize(phrase) != "" ==> vs[0] == Variant(Normalize(phrase), Normalized))
      && ComesFrom(vs, 0, raws)
  {
    AddAllClean([], Raw(phrase, NumbersToWords(phrase).value));
    if Normalize(phrase) == "" {
      ExpandNothing(phrase);
    } else {
      ExpandFirst(phrase);
    }
  }

  /** Whatever is offered is present, if it has a normal form. */
  lemma OfferedIsPresent(phrase: string)
    requires Expand(phrase).Some?
    ensures Covers(Expand(phrase).value, Raw(phrase, NumbersToWords(phrase).value))
  {
    AddAllClean([], Raw(phrase, NumbersToWords(phrase).value));
  }

  /** The spoken form of the numbers is present. */
  lemma ExpandHasSpoken(phrase: string)
    requires Expand(phrase).Some?
    ensures var norm := Normalize(NumbersToWords(phrase).value);
      norm != "" ==> HasText(Expand(phrase).value, norm)
  {
    OfferedIsPresent(phrase);
    var spoken := NumbersToWords(phrase).value;
    assert Raw(phrase, spoken)[1] == Variant(spoken, Numbers);
  }

  /** The text is the form with one word swapped for a word that sounds like it. */
  ghost predicate OneSwap(form: string, text: string) {
    SwappedSomewhere(Split(form), text)
  }

  /** Every homophone swap of one token, in the phrase or in its spoken form, is present. */
  lemma ExpandHasSwaps(phrase: string, form: string, text: string)
    requires Expand(phrase).Some?
    requires form == Normalize(phrase) || form == Normalize(NumbersToWords(phrase).value)
    requires OneSwap(form, text)
    ensures Normalize(text) != "" ==> HasText(Expand(phrase).value, Normalize(text))
  {
    OfferedIsPresent(phrase);
    TokenSwapsExactly(Split(form), text);
    SwapIsOffered(phrase, NumbersToWords(phrase).value, form, text);
  }

  /** What a variant of each kind is. */
  ghost predicate Explained(v: Variant, first: string, second: string) {
    match v.kind
    case Normalized => v.text == first
    case Numbers => v.text == second != first
    case Homophones =>
      v.text != first && v.text != second
      && exists text :: (OneSwap(first, text) || OneSwap(second, text)) && v.text == Normalize(text)
  }

  lemma RawKinds(phrase: string, spoken: string, at: nat)
    requires at < |Raw(phrase, spoken)|
    ensures var raw := Raw(phrase, spoken)[at];
      match raw.kind
      case Normalized => raw.text == phrase
      case Numbers => raw.text == spoken
      case Homophones => OneSwap(Normalize(phrase), raw.text) || OneSwap(Normalize(spoken), raw.text)
  {
    var raw := Raw(phrase, spoken)[at];
    if raw.kind.Homophones? {
      var form := if at < 2 + |Swaps(Normalize(phrase))| then Normalize(phrase) else Normalize(spoken);
      assert raw.text in HomophoneVariants(form);
      TokenSwapsExactly(Split(form), raw.text);
    }
  }

  lemma SwapIsOffered(phrase: string, spoken: string, form: string, text: string)
    requires form == Normalize(phrase) || form == Normalize(spoken)
    requires text in HomophoneVariants(form)
    ensures exists at :: 0 <= at < |Raw(phrase, spoken)| && Raw(phrase, spoken)[at].text == text
  {
    var hs := HomophoneVariants(form);
    var k :| 0 <= k < |hs| && hs[k] == text;
    var at := if form == Normalize(phrase) then 2 + k else 2 + |Swaps(Normalize(phrase))| + k;
    assert Raw(phrase, spoken)[at] == Swaps(form)[k];
  }

  lemma SecondIsSpoken(phrase: string)
    requires Expand(phrase).Some? && Normalize(phrase) != ""
    ensures var vs, norm := Expand(phrase).value, Normalize(NumbersToWords(phrase).value);
      norm != "" && norm != Normalize(phrase) ==> |vs| > 1 && vs[1] == Variant(norm, Numbers)
  {
    var spoken := NumbersToWords(phrase).value;
    var raws := Raw(phrase, spoken);
    if Normalize(spoken) != "" && Normalize(spoken) != Normalize(phrase) {
      assert raws == [Variant(phrase, Normalized), Variant(spoken, Numbers)] + raws[2..];
      SecondOffered(Variant(phrase, Normalized), Variant(spoken, Numbers), raws[2..]);
    }
  }

  lemma SecondOffered(a: Variant, b: Variant, rest: seq<Variant>)
    requires Normalize(a.text) != "" && Normalize(b.text) != "" && Normalize(a.text) != Normalize(b.text)
    ensures var vs := AddAll([], [a, b] + rest);
      |vs| > 1 && vs[1] == Variant(Normalize(b.text), b.kind)
  {
    TwoOffered(a, b);
    AddAllClean([], [a, b]);
    AddAllAppend([], [a, b], rest);
    AddAllClean(AddAll([], [a, b]), rest);
  }

  lemma TwoOffered(a: Variant, b: Variant)
    requires Normalize(a.text) != "" && Normalize(b.text) != "" && Normalize(a.text) != Normalize(b.text)
    ensures AddAll([], [a, b]) == [Variant(Normalize(a.text), a.kind), Variant(Normalize(b.text), b.kind)]
  {
    AddAllOne([], a);
    AddAllSnoc([], [a], b);
    assert [a] + [b] == [a, b];
    assert Add([], a) == [Variant(Normalize(a.text), a.kind)];
  }

  /** Each variant is the normal form of the phrase, its spoken form if that differs, or one swap of either. */
  lemma ExpandOnly(phrase: string, v: Variant)
    requires Expand(phrase).Some? && v in Expand(phrase).value
    ensures Explained(v, Normalize(phrase), Normalize(NumbersToWords(phrase).value))
  {
    var vs, spoken := Expand(phrase).value, NumbersToWords(phrase).value;
    ExpandShape(phrase);
    SecondIsSpoken(phrase);
    var j :| 0 <= j < |vs| && vs[j] == v;
    var at :| 0 <= at < |Raw(phrase, spoken)|
              && v == Variant(Normalize(Raw(phrase, spoken)[at].text), Raw(phrase, spoken)[at].kind);
    RawKinds(phrase, spoken, at);
    assert Clean(vs) && vs[0] == Variant(Normalize(phrase), Normalized);
  }

  /** The list and set of one expansion. */
  class Collector {
    var seen: set<string>
    var variants: seq<Variant>

    ghost predicate Valid()
      reads this
    {
      forall t :: t in seen <==> HasText(variants, t)
    }

    constructor ()
      ensures Valid() && variants == []
    {
      seen, variants := {}, [];
    }

    method AddText(text: string, kind: Kind)
      requires Valid()
      modifies this
      ensures Valid() && variants == Add(old(variants), Variant(text, kind))
    {
      var norm := Normalize(text);
      if norm != "" && norm !in seen {
        seen := seen + {norm};
        variants := variants + [Variant(norm, kind)];
        forall t ensures t in seen <==> HasText(variants, t) {
          if t == norm {
            assert variants[|old(variants)|].text == t;
          } else if t in old(seen) {
            var i :| 0 <= i < |old(variants)| && old(variants)[i].text == t;
            assert variants[i].text == t;
          }
        }
      }
    }

    method AddSwaps(normalized: string)
      requires Valid()
      modifies this
      ensures Valid() && variants == AddAll(old(variants), Swaps(normalized))
    {
      var swaps := ComputeHomophones(normalized);
      ghost var raws := Swaps(normalized);
      for i := 0 to |swaps|
        invariant Valid() && variants == AddAll(old(variants), raws[..i])
      {
        assert raws[..i + 1][..i] == raws[..i];
        AddText(swaps[i], Homophones);
      }
      assert raws[..|raws|] == raws;
    }
  }

  /** The four batches offered, one after the other. */
  lemma RawInBatches(phrase: string, spoken: string)
    ensures AddAll([], Raw(phrase, spoken))
            == AddAll(AddAll(Add(Add([], Variant(phrase, Normalized)), Variant(spoken, Numbers)),
                             Swaps(Normalize(phrase))), Swaps(Normalize(spoken)))
  {
    var a, b := Variant(phrase, Normalized), Variant(spoken, Numbers);
    AddAllOne([], a);
    AddAllSnoc([], [a], b);
    assert [a] + [b] == [a, b];
    AddAllAppend([], [a, b], Swaps(Normalize(phrase)));
    AddAllAppend([], [a, b] + Swaps(Normalize(phrase)), Swaps(Normalize(spoken)));
  }

  method ExpandPhrase(phrase: string) returns (r: Option<seq<Variant>>)
    ensures r == Expand(phrase)
  {
    var spoken := NumbersToWords(phrase);
    if spoken.None? {
      return None;
    }
    var c := new Collector();
    c.AddText(phrase, Normalized);
    c.AddText(spoken.value, Numbers);
    c.AddSwaps(Normalize(phrase));
    c.AddSwaps(Normalize(spoken.value));
    RawInBatches(phrase, spoken.value);
    return Some(c.variants);
  }
}
