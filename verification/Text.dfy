/** Strings as the phrase expander treats them (ASCII): normalization, words, joining. */
module Text {

  predicate Space(c: char) {
    c == ' ' || '\t' <= c <= '\r' || 28 <= c as int <= 31
  }

  predicate WordChar(c: char) {
    'a' <= c <= 'z' || 'A' <= c <= 'Z' || '0' <= c <= '9' || c == '_'
  }

  function Lower(c: char): char {
    if 'A' <= c <= 'Z' then ((c as int) + 32) as char else c
  }

  /** `text.lower()` then punctuation to spaces. */
  function Stripped(s: string): (r: string)
    ensures |r| == |s|
    ensures forall i :: 0 <= i < |s| ==> r[i] == if WordChar(s[i]) || Space(s[i]) then Lower(s[i]) else ' '
  {
    seq(|s|, i requires 0 <= i < |s| => if WordChar(s[i]) || Space(s[i]) then Lower(s[i]) else ' ')
  }

  // ---------- words ----------

  /** Characters up to the first space. */
  function Head(s: string): (h: string)
    ensures |h| <= |s| && h == s[..|h|]
    ensures forall i :: 0 <= i < |h| ==> !Space(h[i])
    ensures |h| < |s| ==> Space(s[|h|])
  {
    if s == "" || Space(s[0]) then "" else [s[0]] + Head(s[1..])
  }

  /** `s.split()`. */
  function Split(s: string): (ws: seq<string>)
    ensures forall i :: 0 <= i < |ws| ==> Word(ws[i])
    decreases |s|
  {
    if s == "" then []
    else if Space(s[0]) then Split(s[1..])
    else [Head(s)] + Split(s[|Head(s)|..])
  }

  /** A nonempty run of non-space characters. */
  predicate Word(w: string) {
    w != "" && forall i :: 0 <= i < |w| ==> !Space(w[i])
  }

  /** `" ".join(ws)`. */
  function Join(ws: seq<string>): string {
    if ws == [] then "" else if |ws| == 1 then ws[0] else ws[0] + " " + Join(ws[1..])
  }

  lemma {:induction false} HeadOfWord(w: string, rest: string)
    requires Word(w) && (rest == "" || Space(rest[0]))
    ensures Head(w + rest) == w
  {
    assert (w + rest)[0] == w[0];
    assert (w + rest)[1..] == w[1..] + rest;
    if |w| == 1 {
      assert w[1..] + rest == rest;
      assert w == [w[0]];
    } else {
      HeadOfWord(w[1..], rest);
      assert w == [w[0]] + w[1..];
    }
  }

  lemma SplitWord(w: string, rest: string)
    requires Word(w) && (rest == "" || Space(rest[0]))
    ensures Split(w + rest) == [w] + Split(rest)
  {
    HeadOfWord(w, rest);
    assert (w + rest)[|w|..] == rest;
    assert (w + rest)[0] == w[0];
  }

  /** Splitting undoes joining. */
  lemma {:induction false} SplitJoin(ws: seq<string>)
    requires forall i :: 0 <= i < |ws| ==> Word(ws[i])
    ensures Split(Join(ws)) == ws
  {
    if ws == [] {
    } else if |ws| == 1 {
      assert ws[0] + "" == ws[0];
      SplitWord(ws[0], "");
    } else {
      SplitJoin(ws[1..]);
      var rest := " " + Join(ws[1..]);
      assert Join(ws) == ws[0] + rest;
      SplitWord(ws[0], rest);
      assert rest[1..] == Join(ws[1..]);
    }
  }

  // ---------- normalize ----------

  /** `re.sub(r"\s+", " ", s)`: each maximal run of spaces becomes one. */
  function Collapse(s: string): string
    decreases |s|
  {
    if s == "" then ""
    else if Space(s[0]) then
      if |s| > 1 && Space(s[1]) then Collapse(s[1..]) else " " + Collapse(s[1..])
    else [s[0]] + Collapse(s[1..])
  }

  function DropLeading(s: string): string {
    if s != "" && Space(s[0]) then DropLeading(s[1..]) else s
  }

  function DropTrailing(s: string): string {
    if s != "" && Space(s[|s| - 1]) then DropTrailing(s[..|s| - 1]) else s
  }

  /** Lower-case, punctuation to spaces, collapse, strip. */
  function Normalize(s: string): string {
    DropTrailing(DropLeading(Collapse(Stripped(s))))
  }

  function Blank(b: bool): string {
    if b then " " else ""
  }

  /** Words separated by single blanks, with a blank at either end where asked. */
  function Framed(lead: bool, ws: seq<string>, trail: bool): string {
    Blank(lead) + Join(ws) + Blank(ws != [] && trail)
  }

  function Spaced(s: string): string {
    Framed(s != "" && Space(s[0]), Split(s), s != "" && Space(s[|s| - 1]))
  }

  lemma {:induction false} CollapseIs(s: string)
    ensures Collapse(s) == Spaced(s)
    decreases |s|
  {
    if s == "" {
    } else if Space(s[0]) {
      CollapseIs(s[1..]);
      if |s| > 1 {
        assert s[1..][|s| - 2] == s[|s| - 1];
      }
      assert Split(s[1..]) == Split(s);
      if |s| == 1 || !Space(s[1]) {
        FrameLead(Split(s), Space(s[|s| - 1]));
      }
    } else {
      CollapseWord(s);
      CollapseIs(s[|Head(s)|..]);
      SpacedWord(s);
    }
  }

  lemma FrameLead(ws: seq<string>, trail: bool)
    ensures Framed(true, ws, trail) == " " + Framed(false, ws, trail)
  {
    assert Blank(false) + Join(ws) == Join(ws);
  }

  lemma FrameWord(w: string, more: seq<string>, trail: bool)
    requires more != []
    ensures Framed(false, [w] + more, trail) == w + Framed(true, more, trail)
  {
    assert ([w] + more)[1..] == more;
    assert Join([w] + more) == w + " " + Join(more);
  }

  lemma FrameLast(w: string, b: bool, trail: bool)
    ensures Framed(false, [w], b) == w + Framed(b, [], trail)
  {
    assert Join([w]) == w;
    assert Join([]) == "";
  }

  lemma SpacedWord(s: string)
    requires s != "" && !Space(s[0])
    ensures Spaced(s) == Head(s) + Spaced(s[|Head(s)|..])
  {
    var h := Head(s);
    var rest := s[|h|..];
    var more, last := Split(rest), Space(s[|s| - 1]);
    assert Split(s) == [h] + more;
    if rest == "" {
      assert s[|s| - 1] == h[|h| - 1];
      FrameLast(h, false, false);
    } else {
      assert Space(rest[0]) && rest[|rest| - 1] == s[|s| - 1];
      if more == [] {
        AllSpaces(rest);
        FrameLast(h, true, last);
      } else {
        FrameWord(h, more, last);
      }
    }
  }

  lemma Regroup(a: string, b: string, c: string)
    ensures (a + b) + c == a + (b + c)
  {}

  lemma {:induction false} CollapseWord(s: string)
    requires s != "" && !Space(s[0])
    ensures Collapse(s) == Head(s) + Collapse(s[|Head(s)|..])
    decreases |s|
  {
    var t := s[1..];
    if t == "" || Space(t[0]) {
      assert Head(t) == "" && Head(s) == [s[0]] + "" == [s[0]];
      assert s[|Head(s)|..] == t;
    } else {
      CollapseWord(t);
      var h := Head(t);
      assert Head(s) == [s[0]] + h;
      assert s[|Head(s)|..] == t[|h|..];
      Regroup([s[0]], h, Collapse(t[|h|..]));
    }
  }

  lemma {:induction false} AllSpaces(s: string)
    requires Split(s) == []
    ensures forall i :: 0 <= i < |s| ==> Space(s[i])
    decreases |s|
  {
    if s == "" {
    } else {
      AllSpaces(s[1..]);
    }
  }

  lemma JoinEnds(ws: seq<string>)
    requires ws != [] && forall i :: 0 <= i < |ws| ==> Word(ws[i])
    ensures Join(ws) != "" && !Space(Join(ws)[0]) && !Space(Join(ws)[|Join(ws)| - 1])
  {
    if |ws| > 1 {
      JoinEnds(ws[1..]);
    }
  }

  lemma StripLead(pre: bool, t: string)
    requires t != "" && !Space(t[0])
    ensures DropLeading(Blank(pre) + t) == t
  {
    assert DropLeading(t) == t;
    if pre {
      assert (" " + t)[1..] == t;
    } else {
      assert "" + t == t;
    }
  }

  lemma StripTrail(j: string, post: bool)
    requires j != "" && !Space(j[|j| - 1])
    ensures DropTrailing(j + Blank(post)) == j
  {
    assert DropTrailing(j) == j;
    if post {
      assert (j + " ")[..|j|] == j;
    } else {
      assert j + "" == j;
    }
  }

  lemma StripEnds(pre: bool, j: string, post: bool)
    requires j != "" && !Space(j[0]) && !Space(j[|j| - 1])
    ensures DropTrailing(DropLeading(Blank(pre) + j + Blank(post))) == j
  {
    assert Blank(pre) + j + Blank(post) == Blank(pre) + (j + Blank(post));
    assert (j + Blank(post))[0] == j[0];
    StripLead(pre, j + Blank(post));
    StripTrail(j, post);
  }

  /** Normalization is: strip punctuation, split into words, join with single blanks. */
  lemma NormalizeIsJoin(s: string)
    ensures Normalize(s) == Join(Split(Stripped(s)))
  {
    var t := Stripped(s);
    var ws := Split(t);
    CollapseIs(t);
    if ws == [] {
      assert Collapse(t) == Blank(t != "" && Space(t[0]));
      assert " "[1..] == "";
    } else {
      JoinEnds(ws);
      StripEnds(t != "" && Space(t[0]), Join(ws), Space(t[|t| - 1]));
    }
  }

  // ---------- normal form ----------

  predicate NormalChar(c: char) {
    'a' <= c <= 'z' || '0' <= c <= '9' || c == '_'
  }

  predicate NormalWord(w: string) {
    w != "" && forall i :: 0 <= i < |w| ==> NormalChar(w[i])
  }

  lemma {:induction false} SplitStripped(t: string)
    requires forall i :: 0 <= i < |t| ==> NormalChar(t[i]) || Space(t[i])
    ensures forall i :: 0 <= i < |Split(t)| ==> NormalWord(Split(t)[i])
    decreases |t|
  {
    if t == "" {
    } else if Space(t[0]) {
      SplitStripped(t[1..]);
    } else {
      var h := Head(t);
      assert forall i :: 0 <= i < |h| ==> h[i] == t[i];
      SplitStripped(t[|h|..]);
    }
  }

  lemma {:induction false} JoinChars(ws: seq<string>)
    requires forall i :: 0 <= i < |ws| ==> NormalWord(ws[i])
    ensures forall i :: 0 <= i < |Join(ws)| ==> NormalChar(Join(ws)[i]) || Join(ws)[i] == ' '
  {
    if |ws| > 1 {
      JoinChars(ws[1..]);
    }
  }

  /** Joined normal words are untouched by normalization. */
  lemma JoinIsNormal(ws: seq<string>)
    requires forall i :: 0 <= i < |ws| ==> NormalWord(ws[i])
    ensures Normalize(Join(ws)) == Join(ws)
  {
    JoinChars(ws);
    assert Stripped(Join(ws)) == Join(ws);
    forall i | 0 <= i < |ws| ensures Word(ws[i]) {
      assert forall k :: 0 <= k < |ws[i]| ==> NormalChar(ws[i][k]);
    }
    SplitJoin(ws);
    NormalizeIsJoin(Join(ws));
  }

  lemma NormalizeWords(s: string)
    ensures forall i :: 0 <= i < |Split(Stripped(s))| ==> NormalWord(Split(Stripped(s))[i])
    ensures Split(Normalize(s)) == Split(Stripped(s))
  {
    var t := Stripped(s);
    SplitStripped(t);
    NormalizeIsJoin(s);
    SplitJoin(Split(t));
  }

  /** Normalizing twice is normalizing once. */
  lemma NormalizeIdempotent(s: string)
    ensures Normalize(Normalize(s)) == Normalize(s)
  {
    NormalizeWords(s);
    NormalizeIsJoin(s);
    JoinIsNormal(Split(Stripped(s)));
  }

  // ---------- the same by its characters ----------

  const CAPITALS := "ABCDEFGHIJKLMNOPQRSTUVWXYZ"
  const SMALL := "abcdefghijklmnopqrstuvwxyz"

  /** Each capital becomes its small letter; nothing else changes. */
  lemma LowerIs(c: char)
    ensures forall i :: 0 <= i < 26 ==> Lower(CAPITALS[i]) == SMALL[i]
    ensures !('A' <= c <= 'Z') ==> Lower(c) == c
  {}

  lemma {:induction false} JoinConcat(a: seq<string>, b: seq<string>)
    requires a != [] && b != []
    ensures Join(a + b) == Join(a) + " " + Join(b)
  {
    if |a| == 1 {
      assert (a + b)[1..] == b;
    } else {
      JoinConcat(a[1..], b);
      assert (a + b)[1..] == a[1..] + b;
    }
  }

  lemma WordThenSpace(h: string, rest: string, tail: string, more: seq<string>)
    requires Word(h) && (rest == "" || Space(rest[0])) && (tail == "" || Space(tail[0]))
    requires Split(tail) == Split(rest) + more
    ensures Split(h + tail) == Split(h + rest) + more
  {
    SplitWord(h, tail);
    SplitWord(h, rest);
    Regrouped([h], Split(rest), more);
  }

  lemma Regrouped(a: seq<string>, b: seq<string>, c: seq<string>)
    ensures a + (b + c) == a + b + c
  {}

  lemma SplitBlank(b: char, t: string)
    requires Space(b)
    ensures Split([b] + t) == Split(t)
  {
    assert ([b] + t)[1..] == t;
  }

  lemma HeadIsWord(x: string)
    requires x != "" && !Space(x[0])
    ensures Word(Head(x)) && x == Head(x) + x[|Head(x)|..]
  {
    HeadNonempty(x);
    Cut(x, Head(x));
  }

  lemma HeadNonempty(x: string)
    requires x != "" && !Space(x[0])
    ensures Head(x) != ""
  {}

  lemma Cut(x: string, h: string)
    requires |h| <= |x| && h == x[..|h|]
    ensures x == h + x[|h|..]
  {}

  lemma BlankSplits(b: char, t: string, tail: string)
    requires Space(b) && tail != "" && Split(t + tail) == Split(t) + Split(tail)
    ensures Split(([b] + t) + tail) == Split([b] + t) + Split(tail)
  {
    Regroup([b], t, tail);
    SplitBlank(b, t + tail);
    SplitBlank(b, t);
  }

  lemma FirstOf(a: string, b: string)
    requires b != ""
    ensures (a + b)[0] == if a == "" then b[0] else a[0]
  {}

  lemma WordSplits(h: string, rest: string, tail: string)
    requires Word(h) && (rest == "" || Space(rest[0])) && tail != "" && Space(tail[0])
    requires Split(rest + tail) == Split(rest) + Split(tail)
    ensures Split((h + rest) + tail) == Split(h + rest) + Split(tail)
  {
    Regroup(h, rest, tail);
    FirstOf(rest, tail);
    WordThenSpace(h, rest, rest + tail, Split(tail));
  }

  /** Words before a space are split off before what follows it. */
  lemma {:induction false} SplitAtSpace(x: string, tail: string)
    requires tail != "" && Space(tail[0])
    ensures Split(x + tail) == Split(x) + Split(tail)
    decreases |x|
  {
    if x == "" {
      assert x + tail == tail;
    } else if Space(x[0]) {
      SplitAtSpace(x[1..], tail);
      BlankSplits(x[0], x[1..], tail);
      assert x == [x[0]] + x[1..];
    } else {
      HeadIsWord(x);
      SplitAtSpace(x[|Head(x)|..], tail);
      WordSplits(Head(x), x[|Head(x)|..], tail);
    }
  }

  lemma StrippedConcat(x: string, y: string)
    ensures Stripped(x + y) == Stripped(x) + Stripped(y)
  {}

  /** A word made of letters, digits and underscores is only put in lower case. */
  lemma NormalizeOneWord(w: string)
    requires w != ""
    requires forall i :: 0 <= i < |w| ==>
      'a' <= w[i] <= 'z' || 'A' <= w[i] <= 'Z' || '0' <= w[i] <= '9' || w[i] == '_'
    ensures |Normalize(w)| == |w| && forall i :: 0 <= i < |w| ==> Normalize(w)[i] == Lower(w[i])
  {
    var t := Stripped(w);
    NormalizeIsJoin(w);
    assert t + "" == t;
    SplitWord(t, "");
    assert Split("") == [];
  }

  /** Two phrases side by side. */
  function Beside(x: string, y: string): string {
    if x == "" then y else if y == "" then x else x + " " + y
  }

  lemma JoinBeside(a: seq<string>, b: seq<string>)
    requires forall i :: 0 <= i < |a| ==> Word(a[i])
    requires forall i :: 0 <= i < |b| ==> Word(b[i])
    ensures Join(a + b) == Beside(Join(a), Join(b))
  {
    if a == [] {
      assert a + b == b;
    } else if b == [] {
      assert a + b == a;
    } else {
      JoinConcat(a, b);
      JoinEnds(a);
      JoinEnds(b);
    }
  }

  lemma StrippedBreak(x: string, c: char, y: string)
    requires !WordChar(c)
    ensures Stripped(x + [c] + y) == Stripped(x) + ([Stripped([c])[0]] + Stripped(y)) && Space(Stripped([c])[0])
  {
    StrippedConcat(x + [c], y);
    StrippedConcat(x, [c]);
  }

  lemma SplitAtBlank(x: string, b: char, y: string)
    requires Space(b)
    ensures Split(x + ([b] + y)) == Split(x) + Split(y)
  {
    SplitAtSpace(x, [b] + y);
    SplitBlank(b, y);
  }

  /** Any other character is a break: what is before it and what is after it stand side by side. */
  lemma NormalizeAtBreak(x: string, c: char, y: string)
    requires !('a' <= c <= 'z' || 'A' <= c <= 'Z' || '0' <= c <= '9' || c == '_')
    ensures Normalize(x + [c] + y) == Beside(Normalize(x), Normalize(y))
  {
    NormalizeIsJoin(x + [c] + y);
    NormalizeIsJoin(x);
    NormalizeIsJoin(y);
    StrippedBreak(x, c, y);
    SplitAtBlank(Stripped(x), Stripped([c])[0], Stripped(y));
    JoinBeside(Split(Stripped(x)), Split(Stripped(y)));
  }
}
