/**
 The number speller of the phrase expander, and a listener that inverts it: no two numbers
 share a spoken form.
 */
module Spelling {
  import opened Options
  import opened Text

  /** Spoken words: `Num` 0..19, `Ten` 20..90 by its digit, and the rest. */
  datatype Token = Num(k: nat) | Ten(d: nat) | Hundred | Thousand | Million | Billion | Oh

  const ONES: seq<string> := [
    "zero", "one", "two", "three", "four", "five", "six", "seven", "eight", "nine", "ten", "eleven",
    "twelve", "thirteen", "fourteen", "fifteen", "sixteen", "seventeen", "eighteen", "nineteen"
  ]

  const TENS: seq<string> := [
    "", "", "twenty", "thirty", "forty", "fifty", "sixty", "seventy", "eighty", "ninety"
  ]

  predicate TokenOk(t: Token) {
    match t
    case Num(k) => k < 20
    case Ten(d) => 2 <= d <= 9
    case _ => true
  }

  function Say(t: Token): string
    requires TokenOk(t)
  {
    match t
    case Num(k) => ONES[k]
    case Ten(d) => TENS[d]
    case Hundred => "hundred"
    case Thousand => "thousand"
    case Million => "million"
    case Billion => "billion"
    case Oh => "oh"
  }

  ghost predicate TokensOk(ts: seq<Token>) {
    forall i :: 0 <= i < |ts| ==> TokenOk(ts[i])
  }

  function SayAll(ts: seq<Token>): (ws: seq<string>)
    requires TokensOk(ts)
    ensures |ws| == |ts|
    ensures forall i :: 0 <= i < |ts| ==> ws[i] == Say(ts[i])
  {
    if ts == [] then [] else [Say(ts[0])] + SayAll(ts[1..])
  }

  function Spoken(ts: seq<Token>): string
    requires TokensOk(ts)
  {
    Join(SayAll(ts))
  }

  // ---------- the speller ----------

  /** `_spell_under_1000`: indexing the ones fails from 2000 on. */
  function SpellUnder1000(n: nat): (r: Option<seq<Token>>)
    ensures r.Some? <==> n < 2000
    ensures r.Some? ==> TokensOk(r.value) && r.value != []
  {
    if n < 20 then Some([Num(n)])
    else if n < 100 then Some([Ten(n / 10)] + if n % 10 == 0 then [] else [Num(n % 10)])
    else if n / 100 >= 20 then None
    else
      var head := [Num(n / 100), Hundred];
      if n % 100 == 0 then Some(head) else Some(head + SpellUnder1000(n % 100).value)
  }

  /** One scale of the loop: `count` of it, if any. */
  function Part(count: nat, scale: Token): (r: Option<seq<Token>>)
    requires TokenOk(scale)
    ensures r.Some? <==> count < 2000
    ensures r.Some? ==> TokensOk(r.value)
  {
    if count == 0 then Some([])
    else if SpellUnder1000(count).None? then None
    else Some(SpellUnder1000(count).value + [scale])
  }

  /** The scales, largest first, and below them plain numbers. */
  function ScaleOf(i: nat): nat
    requires i < 3
  {
    if i == 0 then 1_000_000_000 else if i == 1 then 1_000_000 else 1000
  }

  function ScaleName(i: nat): (t: Token)
    requires i < 3
    ensures TokenOk(t)
  {
    if i == 0 then Billion else if i == 1 then Million else Thousand
  }

  /** Numbers that get by with the scales from `i` on. */
  function Reach(i: nat): nat
    requires i <= 3
  {
    if i == 0 then 2_000_000_000_000 else ScaleOf(i - 1)
  }

  /** The groups of a number, scale by scale. */
  function Groups(n: nat, i: nat): (ts: seq<Token>)
    requires i <= 3 && n < Reach(i)
    ensures TokensOk(ts)
    ensures ts == [] <==> n == 0
    decreases 3 - i
  {
    if i == 3 then (if n == 0 then [] else SpellUnder1000(n).value)
    else Part(n / ScaleOf(i), ScaleName(i)).value + Groups(n % ScaleOf(i), i + 1)
  }

  /** `spell_number`; `None` where the source's indexing raises. */
  function SpellNumber(n: nat): (r: Option<seq<Token>>)
    ensures r.Some? <==> n < 2_000_000_000_000
    ensures r.Some? ==> TokensOk(r.value) && r.value != []
  {
    if n == 0 then Some([Num(0)])
    else if Part(n / 1_000_000_000, Billion).None? then None
    else Some(Groups(n, 0))
  }

  /** One turn of the loop over the scales: `None` where the indexing raises. */
  method TakeScale(n: nat, scale: nat, name: Token) returns (words: Option<seq<Token>>, rest: nat)
    requires scale > 0 && TokenOk(name)
    ensures words == Part(n / scale, name) && rest == n % scale
  {
    words, rest := Some([]), n;
    if n >= scale {
      var count := SpellUnder1000(n / scale);
      words := if count.None? then None else Some(count.value + [name]);
      rest := n % scale;
    }
  }

  /** The loop, before scale `i`: `n` is left of `number`, and `parts` is said. */
  ghost predicate Progress(number: nat, n: nat, i: nat, parts: seq<Token>) {
    && i <= 3
    && (i == 0 ==> n == number && parts == [])
    && (i > 0 ==> number < Reach(0))
    && (number < Reach(0) ==> n < Reach(i) && parts + Groups(n, i) == Groups(number, 0))
  }

  lemma TakeScaleProgress(number: nat, n: nat, i: nat, parts: seq<Token>)
    requires Progress(number, n, i, parts) && i < 3
    ensures var words := Part(n / ScaleOf(i), ScaleName(i));
      if words.Some? then Progress(number, n % ScaleOf(i), i + 1, parts + words.value) else number >= Reach(0)
  {
    ReachStep(n, i);
    if n < Reach(i) {
      Reassociate(parts, Part(n / ScaleOf(i), ScaleName(i)).value, Groups(n % ScaleOf(i), i + 1));
    }
  }

  lemma ReachStep(n: nat, i: nat)
    requires i < 3
    ensures n < Reach(i) ==> n / ScaleOf(i) < 2000 && n % ScaleOf(i) < Reach(i + 1)
    ensures i == 0 && n >= Reach(i) ==> n / ScaleOf(i) >= 2000
  {}

  lemma Reassociate(a: seq<Token>, b: seq<Token>, c: seq<Token>)
    ensures a + (b + c) == a + b + c
  {}

  /** The same by the source's loop, which divides `n` down scale by scale. */
  method SpellByLoop(number: nat) returns (r: Option<seq<Token>>)
    ensures r == SpellNumber(number)
  {
    if number == 0 {
      return Some([Num(0)]);
    }
    var n: nat, parts := number, [];
    var i: nat := 0;
    ghost var spelled := Groups(if number < Reach(0) then number else 0, 0);
    assert [] + spelled == spelled;
    while i < 3
      invariant Progress(number, n, i, parts)
    {
      TakeScaleProgress(number, n, i, parts);
      var words;
      words, n := TakeScale(n, ScaleOf(i), ScaleName(i));
      if words.None? {
        return None;
      }
      parts := parts + words.value;
      i := i + 1;
    }
    if n > 0 {
      parts := parts + SpellUnder1000(n).value;
    } else {
      assert parts + [] == parts;
    }
    return Some(parts);
  }

  /** `_spell_year` on a four-digit number. */
  function SpellYear(n: nat): (ts: seq<Token>)
    requires 1000 <= n <= 9999
    ensures TokensOk(ts)
  {
    var hi, lo := n / 100, n % 100;
    SpellUnder1000(hi).value
    + if lo == 0 then [Hundred] else if lo < 10 then [Oh, Num(lo)] else SpellUnder1000(lo).value
  }

  /** `plain`: year style on four digits, plainly otherwise. */
  function SpellPlain(n: nat): (r: Option<seq<Token>>)
    ensures r.Some? <==> n < 2_000_000_000_000
    ensures r.Some? ==> TokensOk(r.value)
  {
    if 1000 <= n <= 9999 then Some(SpellYear(n)) else SpellNumber(n)
  }

  // ---------- the listener ----------

  /** A two-digit group after a two-digit group opens the second half of a year. */
  function Group(cur: nat, v: nat): nat {
    if cur % 100 == 0 then cur + v else 100 * cur + v
  }

  /** One token: `total` is finished, `cur` is the group being built. */
  function HearStep(t: Token, total: nat, cur: nat): (nat, nat) {
    match t
    case Num(k) => (total, if k < 10 then cur + k else Group(cur, k))
    case Ten(d) => (total, Group(cur, 10 * d))
    case Hundred => (total, 100 * cur)
    case Oh => (total, 100 * cur)
    case Thousand => (total + 1000 * cur, 0)
    case Million => (total + 1_000_000 * cur, 0)
    case Billion => (total + 1_000_000_000 * cur, 0)
  }

  /** Left-to-right understanding of spoken tokens. */
  function Hear(ts: seq<Token>, total: nat, cur: nat): nat {
    if ts == [] then total + cur
    else
      var (total', cur') := HearStep(ts[0], total, cur);
      Hear(ts[1..], total', cur')
  }

  lemma HearOne(t: Token, rest: seq<Token>, total: nat, cur: nat)
    ensures Hear([t] + rest, total, cur) == Hear(rest, HearStep(t, total, cur).0, HearStep(t, total, cur).1)
  {
    assert ([t] + rest)[1..] == rest;
  }

  lemma HearTens(d: nat, k: nat, rest: seq<Token>, total: nat, cur: nat)
    requires 0 < k < 10
    ensures Hear([Ten(d)] + ([Num(k)] + rest), total, cur) == Hear(rest, total, Group(cur, 10 * d + k))
  {
    HearOne(Ten(d), [Num(k)] + rest, total, cur);
    HearOne(Num(k), rest, total, Group(cur, 10 * d));
  }

  lemma SpelledUnder100(n: nat)
    requires n < 100
    ensures SpellUnder1000(n).value
            == if n < 20 then [Num(n)] else if n % 10 == 0 then [Ten(n / 10)] else [Ten(n / 10)] + [Num(n % 10)]
  {}

  /** Two digits, heard on top of `cur`. */
  lemma HearUnder100(n: nat, rest: seq<Token>, total: nat, cur: nat)
    requires n < 100 && (n >= 10 || cur % 100 == 0)
    ensures Hear(SpellUnder1000(n).value + rest, total, cur) == Hear(rest, total, Group(cur, n))
  {
    var d, k := n / 10, n % 10;
    SpelledUnder100(n);
    if n < 20 {
      HearOne(Num(n), rest, total, cur);
    } else if k == 0 {
      HearOne(Ten(d), rest, total, cur);
    } else {
      assert [Ten(d)] + [Num(k)] + rest == [Ten(d)] + ([Num(k)] + rest);
      HearTens(d, k, rest, total, cur);
    }
  }

  lemma HearHundreds(h: nat, rest: seq<Token>, total: nat)
    ensures Hear([Num(h)] + ([Hundred] + rest), total, 0) == Hear(rest, total, 100 * h)
  {
    HearOne(Num(h), [Hundred] + rest, total, 0);
    HearOne(Hundred, rest, total, h);
  }

  lemma SpelledUnder1000(n: nat)
    requires 100 <= n < 2000
    ensures SpellUnder1000(n).value
            == [Num(n / 100)] + ([Hundred] + if n % 100 == 0 then [] else SpellUnder1000(n % 100).value)
  {}

  lemma HearUnder1000(n: nat, rest: seq<Token>, total: nat)
    requires n < 2000
    ensures Hear(SpellUnder1000(n).value + rest, total, 0) == Hear(rest, total, n)
  {
    if n < 100 {
      HearUnder100(n, rest, total, 0);
    } else {
      var h, k := n / 100, n % 100;
      var tail := if k == 0 then [] else SpellUnder1000(k).value;
      SpelledUnder1000(n);
      assert [Num(h)] + ([Hundred] + tail) + rest == [Num(h)] + ([Hundred] + (tail + rest));
      HearHundreds(h, tail + rest, total);
      if k == 0 {
        assert tail + rest == rest;
      } else {
        HearUnder100(k, rest, total, 100 * h);
      }
    }
  }

  lemma HearPart(count: nat, scale: Token, rest: seq<Token>, total: nat)
    requires count < 2000 && (scale.Billion? || scale.Million? || scale.Thousand?)
    ensures var unit := if scale.Billion? then 1_000_000_000 else if scale.Million? then 1_000_000 else 1000;
      Hear(Part(count, scale).value + rest, total, 0) == Hear(rest, total + unit * count, 0)
  {
    if count == 0 {
      assert Part(count, scale).value + rest == rest;
    } else {
      assert Part(count, scale).value + rest == SpellUnder1000(count).value + ([scale] + rest);
      HearUnder1000(count, [scale] + rest, total);
      HearOne(scale, rest, total, count);
    }
  }

  lemma {:induction false} HearGroups(n: nat, i: nat, total: nat)
    requires i <= 3 && n < Reach(i)
    ensures Hear(Groups(n, i), total, 0) == total + n
    decreases 3 - i
  {
    if i == 3 {
      if n > 0 {
        HearUnder1000(n, [], total);
        assert SpellUnder1000(n).value + [] == SpellUnder1000(n).value;
      }
    } else {
      var count, rest := n / ScaleOf(i), n % ScaleOf(i);
      HearPart(count, ScaleName(i), Groups(rest, i + 1), total);
      HearGroups(rest, i + 1, total + ScaleOf(i) * count);
    }
  }

  lemma HearSpelled(n: nat)
    requires n < 2_000_000_000_000
    ensures Hear(SpellNumber(n).value, 0, 0) == n
  {
    if n == 0 {
      HearOne(Num(0), [], 0, 0);
      assert [Num(0)] + [] == [Num(0)];
    } else {
      HearGroups(n, 0, 0);
    }
  }

  lemma HearYear(n: nat)
    requires 1000 <= n <= 9999
    ensures Hear(SpellYear(n), 0, 0) == n
  {
    var hi, lo := n / 100, n % 100;
    var tail := if lo == 0 then [Hundred] else if lo < 10 then [Oh, Num(lo)] else SpellUnder1000(lo).value;
    HearUnder100(hi, tail, 0, 0);
    assert tail + [] == tail;
    if lo == 0 {
      HearOne(Hundred, [], 0, hi);
    } else if lo < 10 {
      assert tail == [Oh] + [Num(lo)];
      HearOne(Oh, [Num(lo)], 0, hi);
      HearOne(Num(lo), [], 0, 100 * hi);
      assert [Num(lo)] + [] == [Num(lo)];
    } else {
      HearUnder100(lo, [], 0, hi);
    }
  }

  // ---------- down to characters ----------

  /** The listener's own dictionary. */
  function Recognize(w: string): Option<Token> {
    match w
    case "zero" => Some(Num(0))
    case "one" => Some(Num(1))
    case "two" => Some(Num(2))
    case "three" => Some(Num(3))
    case "four" => Some(Num(4))
    case "five" => Some(Num(5))
    case "six" => Some(Num(6))
    case "seven" => Some(Num(7))
    case "eight" => Some(Num(8))
    case "nine" => Some(Num(9))
    case "ten" => Some(Num(10))
    case "eleven" => Some(Num(11))
    case "twelve" => Some(Num(12))
    case "thirteen" => Some(Num(13))
    case "fourteen" => Some(Num(14))
    case "fifteen" => Some(Num(15))
    case "sixteen" => Some(Num(16))
    case "seventeen" => Some(Num(17))
    case "eighteen" => Some(Num(18))
    case "nineteen" => Some(Num(19))
    case "twenty" => Some(Ten(2))
    case "thirty" => Some(Ten(3))
    case "forty" => Some(Ten(4))
    case "fifty" => Some(Ten(5))
    case "sixty" => Some(Ten(6))
    case "seventy" => Some(Ten(7))
    case "eighty" => Some(Ten(8))
    case "ninety" => Some(Ten(9))
    case "hundred" => Some(Hundred)
    case "thousand" => Some(Thousand)
    case "million" => Some(Million)
    case "billion" => Some(Billion)
    case "oh" => Some(Oh)
    case _ => None
  }

  /** The speller says every token with the word the dictionary has for it. */
  lemma RecognizeSay(t: Token)
    requires TokenOk(t)
    ensures Recognize(Say(t)) == Some(t)
  {}

  lemma SayLetters(t: Token)
    requires TokenOk(t)
    ensures |Say(t)| >= 2
    ensures forall k :: 0 <= k < |Say(t)| ==> 'a' <= Say(t)[k] <= 'z'
  {}

  /** All of them, if there are all. */
  function Collect(ts: seq<Option<Token>>): Option<seq<Token>> {
    if ts == [] then Some([])
    else if ts[0].None? || Collect(ts[1..]).None? then None
    else Some([ts[0].value] + Collect(ts[1..]).value)
  }

  function RecognizeAll(ws: seq<string>): Option<seq<Token>> {
    Collect(seq(|ws|, i requires 0 <= i < |ws| => Recognize(ws[i])))
  }

  /** What a listener makes of a spoken phrase. */
  function Understand(s: string): Option<nat> {
    match RecognizeAll(Split(s))
    case None => None
    case Some(ts) => Some(Hear(ts, 0, 0))
  }

  /** The words are recognized as just these tokens. */
  ghost predicate HeardAs(ws: seq<string>, ts: seq<Token>) {
    RecognizeAll(ws) == Some(ts)
  }

  lemma {:induction false} CollectEach(rs: seq<Option<Token>>, ts: seq<Token>)
    requires |rs| == |ts| && forall i :: 0 <= i < |ts| ==> rs[i] == Some(ts[i])
    ensures Collect(rs) == Some(ts)
  {
    if rs == [] {
    } else {
      CollectEach(rs[1..], ts[1..]);
      assert ts == [ts[0]] + ts[1..];
    }
  }

  lemma RecognizeSaid(ts: seq<Token>)
    requires TokensOk(ts)
    ensures HeardAs(SayAll(ts), ts)
  {
    var ws := SayAll(ts);
    forall i | 0 <= i < |ts| ensures Recognize(ws[i]) == Some(ts[i]) {
      RecognizeSay(ts[i]);
    }
    CollectEach(seq(|ws|, i requires 0 <= i < |ws| => Recognize(ws[i])), ts);
  }

  lemma LettersAreWord(w: string)
    requires w != "" && forall k :: 0 <= k < |w| ==> 'a' <= w[k] <= 'z'
    ensures Word(w) && NormalWord(w)
  {}

  lemma SaidAreWords(ts: seq<Token>)
    requires TokensOk(ts)
    ensures forall i :: 0 <= i < |ts| ==> Word(SayAll(ts)[i]) && NormalWord(SayAll(ts)[i])
  {
    forall i | 0 <= i < |ts| ensures Word(SayAll(ts)[i]) && NormalWord(SayAll(ts)[i]) {
      SayLetters(ts[i]);
      LettersAreWord(Say(ts[i]));
    }
  }

  lemma UnderstandSpoken(ts: seq<Token>)
    requires TokensOk(ts)
    ensures Understand(Spoken(ts)) == Some(Hear(ts, 0, 0))
  {
    SaidAreWords(ts);
    SplitJoin(SayAll(ts));
    RecognizeSaid(ts);
  }

  /** Round trip: the listener recovers every spellable number from its spoken form. */
  lemma SpellingRoundTrip(n: nat)
    requires n < 2_000_000_000_000
    ensures Understand(Spoken(SpellNumber(n).value)) == Some(n)
  {
    UnderstandSpoken(SpellNumber(n).value);
    HearSpelled(n);
  }

  /** The same for the rule applied to bare numbers, year style included. */
  lemma PlainRoundTrip(n: nat)
    requires n < 2_000_000_000_000
    ensures Understand(Spoken(SpellPlain(n).value)) == Some(n)
  {
    UnderstandSpoken(SpellPlain(n).value);
    if 1000 <= n <= 9999 {
      HearYear(n);
    } else {
      HearSpelled(n);
    }
  }

  /** Hence no two numbers share a spoken form. */
  lemma PlainInjective(m: nat, n: nat)
    requires m < 2_000_000_000_000 && n < 2_000_000_000_000
    ensures Spoken(SpellPlain(m).value) == Spoken(SpellPlain(n).value) <==> m == n
  {
    PlainRoundTrip(m);
    PlainRoundTrip(n);
  }

  // ---------- how numbers are said ----------

  lemma SayConcat(a: seq<Token>, b: seq<Token>)
    requires TokensOk(a) && TokensOk(b)
    ensures SayAll(a + b) == SayAll(a) + SayAll(b)
  {
    forall i | 0 <= i < |a + b| ensures SayAll(a + b)[i] == (SayAll(a) + SayAll(b))[i] {
      assert (a + b)[i] == if i < |a| then a[i] else b[i - |a|];
    }
  }

  lemma SpokenConcat(a: seq<Token>, b: seq<Token>)
    requires TokensOk(a) && TokensOk(b) && a != [] && b != []
    ensures Spoken(a + b) == Spoken(a) + " " + Spoken(b)
  {
    SayConcat(a, b);
    JoinConcat(SayAll(a), SayAll(b));
  }

  /** A number said aloud. */
  function Voice(n: nat): string
    requires n < 2_000_000_000_000
  {
    Spoken(SpellNumber(n).value)
  }

  /** `n` is said as `head`, and then as `rest` is, unless that is zero. */
  predicate Says(n: nat, head: string, rest: nat)
    requires n < 2_000_000_000_000 && rest < 2_000_000_000_000
  {
    Voice(n) == if rest == 0 then head else head + " " + Voice(rest)
  }

  lemma SaysTokens(n: nat, head: seq<Token>, rest: nat)
    requires n < 2_000_000_000_000 && rest < 2_000_000_000_000 && TokensOk(head) && head != []
    requires SpellNumber(n).value == head + if rest == 0 then [] else SpellNumber(rest).value
    ensures Says(n, Spoken(head), rest)
  {
    if rest == 0 {
      assert head + [] == head;
    } else {
      SpokenConcat(head, SpellNumber(rest).value);
    }
  }

  /** Scales that are not reached say nothing. */
  lemma {:induction false} GroupsSkip(n: nat, i: nat)
    requires i <= 3 && n < Reach(i)
    ensures Groups(n, 0) == Groups(n, i)
  {
    if i == 0 {
    } else {
      GroupsSkip(n, i - 1);
      assert n / ScaleOf(i - 1) == 0 && n % ScaleOf(i - 1) == n;
      assert [] + Groups(n, i) == Groups(n, i);
    }
  }

  lemma SmallIs(n: nat)
    requires n < 1000
    ensures SpellNumber(n).value == SpellUnder1000(n).value
  {
    if n > 0 {
      GroupsSkip(n, 3);
    }
  }

  lemma ScaleTokens(i: nat, n: nat)
    requires i < 3 && ScaleOf(i) <= n < 1000 * ScaleOf(i)
    ensures SpellNumber(n).value
            == Part(n / ScaleOf(i), ScaleName(i)).value
               + if n % ScaleOf(i) == 0 then [] else SpellNumber(n % ScaleOf(i)).value
  {
    GroupsSkip(n, i);
    if n % ScaleOf(i) > 0 {
      GroupsSkip(n % ScaleOf(i), i + 1);
    }
  }

  lemma SpokenPart(count: nat, scale: Token)
    requires 0 < count < 1000 && TokenOk(scale)
    ensures Spoken(Part(count, scale).value) == Voice(count) + " " + Say(scale)
  {
    SmallIs(count);
    SpokenConcat(SpellUnder1000(count).value, [scale]);
    assert SayAll([scale]) == [Say(scale)];
  }

  /** A count of a scale is said, and then what is left. */
  lemma SaysScale(i: nat, n: nat)
    requires i < 3 && ScaleOf(i) <= n < 1000 * ScaleOf(i)
    ensures Says(n, Voice(n / ScaleOf(i)) + " " + Say(ScaleName(i)), n % ScaleOf(i))
  {
    ScaleTokens(i, n);
    SpokenPart(n / ScaleOf(i), ScaleName(i));
    SaysTokens(n, Part(n / ScaleOf(i), ScaleName(i)).value, n % ScaleOf(i));
  }

  lemma SaysTens(n: nat)
    requires 20 <= n < 100
    ensures Says(n, Voice(n - n % 10), n % 10)
  {
    var d, k := n / 10, n % 10;
    SmallIs(n);
    SmallIs(n - k);
    SmallIs(k);
    SpelledUnder100(n);
    SpelledUnder100(n - k);
    assert (n - k) / 10 == d && (n - k) % 10 == 0;
    SaysTokens(n, [Ten(d)], k);
  }

  lemma OneWord(n: nat)
    requires n < 20
    ensures Voice(n) == Spoken([Num(n)])
  {
    SmallIs(n);
  }

  lemma HundredHead(h: nat)
    requires h < 20
    ensures Spoken([Num(h)] + [Hundred]) == Voice(h) + " hundred"
  {
    OneWord(h);
    SpokenConcat([Num(h)], [Hundred]);
    assert SayAll([Hundred]) == ["hundred"];
  }

  lemma HundredTokens(n: nat)
    requires 100 <= n < 1000
    ensures SpellNumber(n).value
            == [Num(n / 100)] + [Hundred] + if n % 100 == 0 then [] else SpellNumber(n % 100).value
  {
    SmallIs(n);
    SmallIs(n % 100);
    SpelledUnder1000(n);
    var rest := if n % 100 == 0 then [] else SpellUnder1000(n % 100).value;
    assert [Num(n / 100)] + ([Hundred] + rest) == [Num(n / 100)] + [Hundred] + rest;
  }

  lemma SaysHundreds(n: nat)
    requires 100 <= n < 1000
    ensures Says(n, Voice(n / 100) + " hundred", n % 100)
  {
    HundredTokens(n);
    HundredHead(n / 100);
    SaysTokens(n, [Num(n / 100)] + [Hundred], n % 100);
  }

  /**
   How a number is said: the tens, then the ones; the hundreds, then the rest; a count of the
   largest scale reached, then the rest.
   */
  lemma NumberGrammar(n: nat)
    requires 20 <= n < 1_000_000_000_000
    ensures n < 100 ==> Says(n, Voice(n - n % 10), n % 10)
    ensures 100 <= n < 1000 ==> Says(n, Voice(n / 100) + " hundred", n % 100)
    ensures 1000 <= n < 1_000_000 ==> Says(n, Voice(n / 1000) + " " + "thousand", n % 1000)
    ensures 1_000_000 <= n < 1_000_000_000 ==> Says(n, Voice(n / 1_000_000) + " " + "million", n % 1_000_000)
    ensures 1_000_000_000 <= n ==> Says(n, Voice(n / 1_000_000_000) + " " + "billion", n % 1_000_000_000)
  {
    if n < 100 {
      SaysTens(n);
    } else if n < 1000 {
      SaysHundreds(n);
    } else if n < 1_000_000 {
      SaysScale(2, n);
    } else if n < 1_000_000_000 {
      SaysScale(1, n);
    } else {
      SaysScale(0, n);
    }
  }

  /** The words themselves: a number below twenty, and a multiple of ten, is one word of the dictionary. */
  lemma NumberWords(n: nat)
    requires n < 20 || (n < 100 && n % 10 == 0)
    ensures Recognize(Voice(n)) == Some(if n < 20 then Num(n) else Ten(n / 10))
  {
    SmallIs(n);
    SpelledUnder100(n);
    var t := if n < 20 then Num(n) else Ten(n / 10);
    assert SayAll([t]) == [Say(t)];
    RecognizeSay(t);
  }

  /** The second half of a year. */
  function YearTail(lo: nat): (ts: seq<Token>)
    requires lo < 100
    ensures TokensOk(ts) && ts != []
  {
    if lo == 0 then [Hundred] else if lo < 10 then [Oh, Num(lo)] else SpellUnder1000(lo).value
  }

  lemma SaysYearTail(lo: nat)
    requires lo < 100
    ensures Spoken(YearTail(lo)) == if lo == 0 then "hundred" else if lo < 10 then "oh " + Voice(lo) else Voice(lo)
  {
    if lo == 0 {
      assert SayAll([Hundred]) == ["hundred"];
    } else if lo < 10 {
      OneWord(lo);
      assert SayAll([Oh]) == ["oh"];
      SpokenConcat([Oh], [Num(lo)]);
      assert [Oh] + [Num(lo)] == [Oh, Num(lo)];
    } else {
      SmallIs(lo);
    }
  }

  lemma SaysYear(hi: nat, lo: nat)
    requires 10 <= hi < 100 && lo < 100
    ensures Spoken(SpellUnder1000(hi).value + YearTail(lo)) == Voice(hi) + " " + Spoken(YearTail(lo))
  {
    SmallIs(hi);
    SpokenConcat(SpellUnder1000(hi).value, YearTail(lo));
  }

  /**
   A bare number of four digits is said as a year: its first two digits, then "hundred", or
   "oh" and a digit, or its last two; any other number is said plainly.
   */
  lemma YearGrammar(n: nat)
    requires n < 2_000_000_000_000
    ensures Spoken(SpellPlain(n).value)
            == if !(1000 <= n <= 9999) then Voice(n)
               else if n % 100 == 0 then Voice(n / 100) + " " + "hundred"
               else if n % 100 < 10 then Voice(n / 100) + " " + ("oh " + Voice(n % 100))
               else Voice(n / 100) + " " + Voice(n % 100)
  {
    if 1000 <= n <= 9999 {
      SaysYear(n / 100, n % 100);
      SaysYearTail(n % 100);
    }
  }
}
