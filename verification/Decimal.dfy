/** Decimal digits: `str(n)` and `int(s)` for natural numbers. */
module Decimal {

  predicate IsDigit(c: char) {
    '0' <= c <= '9'
  }

  function Digit(d: nat): (c: char)
    requires d < 10
    ensures IsDigit(c) && c == "0123456789"[d]
  {
    ('0' as int + d) as char
  }

  function Value(c: char): nat
    requires IsDigit(c)
  {
    c as int - '0' as int
  }

  function Print(n: nat): (s: string)
    ensures s != "" && forall i :: 0 <= i < |s| ==> IsDigit(s[i])
  {
    if n < 10 then [Digit(n)] else Print(n / 10) + [Digit(n % 10)]
  }

  function Parse(s: string): nat
    requires forall i :: 0 <= i < |s| ==> IsDigit(s[i])
  {
    if s == "" then 0 else 10 * Parse(s[..|s| - 1]) + Value(s[|s| - 1])
  }

  /** Leading zeros say nothing. */
  lemma {:induction false} ParseZero(s: string)
    requires forall i :: 0 <= i < |s| ==> IsDigit(s[i])
    ensures Parse("0" + s) == Parse(s)
  {
    if s == "" {
      assert "0"[..0] == "";
    } else {
      ParseZero(s[..|s| - 1]);
      assert ("0" + s)[..|s|] == "0" + s[..|s| - 1];
    }
  }

  lemma {:induction false} ParsePrint(n: nat)
    ensures Parse(Print(n)) == n
  {
    if n >= 10 {
      ParsePrint(n / 10);
      assert Print(n)[..|Print(n)| - 1] == Print(n / 10);
    } else {
      assert Print(n)[..0] == "";
    }
  }
}
