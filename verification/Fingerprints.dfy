/** The duplicate-detection fingerprint: date, amount and normalised description. */
module Fingerprints {
  import opened Text
  import Amounts

  // ---- Normalised descriptions -----------------------------------------------------------

  /** `toLowerCase` on the Latin-1 letters. */
  function Lower(c: char): char {
    if 'A' <= c <= 'Z' || ('\U{C0}' <= c <= '\U{DE}' && c != '\U{D7}') then c + 32 as char else c
  }

  predicate IsSpace(c: char) {
    c in Amounts.SPACES
  }

  function LowerAll(s: string): (out: string)
    ensures |out| == |s|
  {
    seq(|s|, i requires 0 <= i < |s| => Lower(s[i]))
  }

  /** `replace(/\s+/g, ' ')`; `gap` says that the previous character was a space. */
  function Collapsed(s: string, gap: bool): string {
    if s == "" then ""
    else if IsSpace(s[0]) then (if gap then "" else " ") + Collapsed(s[1..], true)
    else [s[0]] + Collapsed(s[1..], false)
  }

  function TrimLeft(s: string): string {
    if s != "" && IsSpace(s[0]) then TrimLeft(s[1..]) else s
  }

  function TrimRight(s: string): string {
    if s != "" && IsSpace(s[|s| - 1]) then TrimRight(s[..|s| - 1]) else s
  }

  /** Lower case, single blanks, no blanks at the ends. */
  function Normalize(s: string): string {
    TrimRight(TrimLeft(Collapsed(LowerAll(s), false)))
  }

  // ---- Idempotence -----------------------------------------------------------------------

  /** Lower case, and every blank is a single ' '. */
  predicate Shaped(s: string) {
    && (forall c | c in s :: Lower(c) == c)
    && (forall i | 0 <= i < |s| && IsSpace(s[i]) :: s[i] == ' ' && (i + 1 < |s| ==> !IsSpace(s[i + 1])))
  }

  /** Already normalised. */
  predicate Clean(s: string) {
    Shaped(s) && (s != "" ==> !IsSpace(s[0]) && !IsSpace(s[|s| - 1]))
  }

  lemma LowerTwice(c: char)
    ensures Lower(Lower(c)) == Lower(c)
  {
  }

  lemma {:induction false} CollapsedShape(s: string, gap: bool)
    requires forall c | c in s :: Lower(c) == c
    ensures Shaped(Collapsed(s, gap))
    ensures gap && Collapsed(s, gap) != "" ==> !IsSpace(Collapsed(s, gap)[0])
  {
    if s != "" {
      assert s[0] in s && forall c | c in s[1..] :: c in s;
      CollapsedShape(s[1..], IsSpace(s[0]));
    }
  }

  lemma {:induction false} CollapsedClean(s: string, gap: bool)
    requires Shaped(s) && (gap && s != "" ==> !IsSpace(s[0]))
    ensures Collapsed(s, gap) == s
  {
    if s != "" {
      ShapedSlice(s, 1, |s|);
      CollapsedClean(s[1..], IsSpace(s[0]));
    }
  }

  lemma ShapedSlice(s: string, i: nat, j: nat)
    requires Shaped(s) && i <= j <= |s|
    ensures Shaped(s[i..j])
  {
    var t := s[i..j];
    assert forall n | 0 <= n < |t| :: t[n] == s[n + i];
    assert forall c | c in t :: c in s;
    forall n | 0 <= n < |t| && IsSpace(t[n]) ensures t[n] == ' ' && (n + 1 < |t| ==> !IsSpace(t[n + 1])) {
      assert s[n + i] == ' ' && (n + i + 1 < |s| ==> !IsSpace(s[n + i + 1]));
    }
  }

  lemma {:induction false} TrimLeftIs(s: string)
    ensures var out := TrimLeft(s);
            |out| <= |s| && out == s[|s| - |out|..] && (out != "" ==> !IsSpace(out[0]))
  {
    if s != "" && IsSpace(s[0]) {
      TrimLeftIs(s[1..]);
    }
  }

  lemma {:induction false} TrimRightIs(s: string)
    ensures var out := TrimRight(s);
            |out| <= |s| && out == s[..|out|] && (out != "" ==> !IsSpace(out[|out| - 1]))
  {
    if s != "" && IsSpace(s[|s| - 1]) {
      TrimRightIs(s[..|s| - 1]);
    }
  }

  lemma NormalizedIsClean(s: string)
    ensures Clean(Normalize(s))
  {
    forall c | c in LowerAll(s) ensures Lower(c) == c {
      var i :| 0 <= i < |s| && LowerAll(s)[i] == c;
      LowerTwice(s[i]);
    }
    var c := Collapsed(LowerAll(s), false);
    CollapsedShape(LowerAll(s), false);
    TrimLeftIs(c);
    var l := TrimLeft(c);
    ShapedSlice(c, |c| - |l|, |c|);
    TrimRightIs(l);
    ShapedSlice(l, 0, |TrimRight(l)|);
  }

  lemma CleanIsNormalized(s: string)
    requires Clean(s)
    ensures Normalize(s) == s
  {
    assert LowerAll(s) == s by {
      assert forall i | 0 <= i < |s| :: s[i] in s;
    }
    CollapsedClean(s, false);
  }

  /** Normalising twice changes nothing: the rule learnt for a description is found by its normal form. */
  lemma NormalizeIdempotent(s: string)
    ensures Normalize(Normalize(s)) == Normalize(s)
  {
    NormalizedIsClean(s);
    CleanIsNormalized(Normalize(s));
  }

  // ---- What is normalised ------------------------------------------------------------------

  /** Lower case by code point: the Latin letters and the accented ones, the multiplication sign aside. */
  lemma LowerIs(c: char)
    ensures var n := c as int;
      Lower(c) as int == if 65 <= n <= 90 || 192 <= n <= 214 || 216 <= n <= 222 then n + 32 else n
  {
  }

  /** The length of the first word. */
  function WordEnd(s: string): (k: nat)
    ensures k <= |s|
  {
    if s == "" || s[0] in Amounts.SPACES then 0 else 1 + WordEnd(s[1..])
  }

  /** The words of a text. */
  function WordsOf(s: string): seq<string> {
    if s == "" then []
    else if s[0] in Amounts.SPACES then WordsOf(s[1..])
    else [s[..WordEnd(s)]] + WordsOf(s[WordEnd(s)..])
  }

  /** Words with one blank between them. */
  function Spaced(ws: seq<string>): string {
    if ws == [] then "" else if |ws| == 1 then ws[0] else ws[0] + " " + Spaced(ws[1..])
  }

  /** A word is kept as it is, whatever follows. */
  lemma {:induction false} CollapsedWord(s: string)
    ensures var k := WordEnd(s); Collapsed(s, false) == s[..k] + Collapsed(s[k..], false)
  {
    var k := WordEnd(s);
    if k > 0 {
      CollapsedWord(s[1..]);
      assert s[1..][..k - 1] == s[1..k] && s[1..][k - 1..] == s[k..];
      assert s[..k] == [s[0]] + s[1..k];
    } else {
      assert s[..0] == "" && s[0..] == s;
    }
  }

  /** The blank at the end of a text that ends in one. */
  predicate EndsBlank(s: string) {
    s != "" && s[|s| - 1] in Amounts.SPACES
  }

  lemma WordStands(s: string)
    requires s != "" && s[0] !in Amounts.SPACES
    ensures WordEnd(s) > 0 && (WordEnd(s) < |s| ==> s[WordEnd(s)] in Amounts.SPACES)
    ensures forall c | c in s[..WordEnd(s)] :: c !in Amounts.SPACES
  {
    WordIsSolid(s);
  }

  lemma {:induction false} WordIsSolid(s: string)
    ensures forall c | c in s[..WordEnd(s)] :: c !in Amounts.SPACES
    ensures WordEnd(s) < |s| ==> s[WordEnd(s)] in Amounts.SPACES
  {
    var k := WordEnd(s);
    if k > 0 {
      WordIsSolid(s[1..]);
      assert s[..k] == [s[0]] + s[1..][..k - 1];
    }
  }

  /** Collapsing leaves the words with single blanks, and one more where blanks end the text. */
  lemma {:induction false} CollapsedIs(s: string)
    ensures s == "" || s[0] in Amounts.SPACES ==> Collapsed(s, true) == Tail(s)
    ensures Collapsed(s, false) ==
              if s != "" && s[0] in Amounts.SPACES then " " + Tail(s) else Spaced(WordsOf(s)) + Close(s)
    decreases |s|
  {
    if s == "" {
    } else if s[0] in Amounts.SPACES {
      CollapsedIs(s[1..]);
      CollapsedBlank(s);
    } else {
      WordStands(s);
      CollapsedIs(s[WordEnd(s)..]);
      CollapsedSolid(s);
    }
  }

  /** One blank more. */
  lemma CollapsedBlank(s: string)
    requires s != "" && s[0] in Amounts.SPACES
    requires var t := s[1..];
      if t == "" || t[0] in Amounts.SPACES then Collapsed(t, true) == Tail(t)
      else Collapsed(t, false) == Spaced(WordsOf(t)) + Close(t)
    ensures Collapsed(s, true) == Tail(s) && Collapsed(s, false) == " " + Tail(s)
  {
    hide Spaced;
    var t := s[1..];
    CloseSkips(s);
    if t != "" && t[0] !in Amounts.SPACES {
      assert WordsOf(t) != [];
      assert Collapsed(t, true) == Collapsed(t, false);
    }
  }

  /** One word more. */
  lemma CollapsedSolid(s: string)
    requires s != "" && s[0] !in Amounts.SPACES
    requires var t := s[WordEnd(s)..];
      Collapsed(t, false) == if t != "" && t[0] in Amounts.SPACES then " " + Tail(t) else Spaced(WordsOf(t)) + Close(t)
    ensures Collapsed(s, false) == Spaced(WordsOf(s)) + Close(s)
  {
    var k := WordEnd(s);
    var t := s[k..];
    WordStands(s);
    CollapsedWord(s);
    CloseKeeps(s, k);
    SpacedWord(s);
    hide Collapsed, Spaced, WordsOf, WordEnd, Close;
    if t != "" {
      JoinWord(s[..k], Spaced(WordsOf(t)), Close(t));
      if WordsOf(t) == [] {
        BlankTail(t);
      }
    } else {
      Nothing();
    }
  }

  lemma Nothing()
    ensures WordsOf("") == [] && Spaced([]) == "" && Close("") == ""
  {
  }

  lemma {:induction false} BlankTail(s: string)
    requires s != "" && WordsOf(s) == []
    ensures Close(s) == " "
  {
    if |s| > 1 {
      BlankTail(s[1..]);
    }
  }

  /** What follows leading blanks. */
  function Tail(s: string): string {
    if WordsOf(s) == [] then "" else Spaced(WordsOf(s)) + Close(s)
  }

  function Close(s: string): string {
    if EndsBlank(s) then " " else ""
  }

  lemma CloseSkips(s: string)
    requires s != "" && s[0] in Amounts.SPACES
    ensures WordsOf(s) == WordsOf(s[1..])
    ensures WordsOf(s) != [] ==> Close(s) == Close(s[1..])
  {
  }

  lemma CloseKeeps(s: string, k: nat)
    requires 0 < k <= |s| && k == WordEnd(s) && s[0] !in Amounts.SPACES
    ensures Close(s) == if k == |s| then "" else Close(s[k..])
  {
    WordStands(s);
    if k == |s| {
      assert s[|s| - 1] in s[..k];
    } else {
      assert s[k..][|s| - k - 1] == s[|s| - 1];
    }
  }

  lemma SpacedWord(s: string)
    requires s != "" && s[0] !in Amounts.SPACES
    ensures var k, rest := WordEnd(s), WordsOf(s[WordEnd(s)..]);
      Spaced(WordsOf(s)) == if rest == [] then s[..k] else s[..k] + " " + Spaced(rest)
  {
    var k := WordEnd(s);
    assert WordsOf(s) == [s[..k]] + WordsOf(s[k..]);
    assert WordsOf(s)[1..] == WordsOf(s[k..]);
  }

  lemma JoinWord(a: string, b: string, c: string)
    ensures a + (" " + (b + c)) == a + " " + b + c
  {
  }

  /** Every word is a run of characters that are no blanks. */
  predicate Solid(ws: seq<string>) {
    forall w | w in ws :: w != "" && forall c | c in w :: c !in Amounts.SPACES
  }

  lemma {:induction false} WordsAreSolid(s: string)
    ensures Solid(WordsOf(s))
    decreases |s|
  {
    if s != "" {
      if s[0] in Amounts.SPACES {
        WordsAreSolid(s[1..]);
      } else {
        WordStands(s);
        WordsAreSolid(s[WordEnd(s)..]);
      }
    }
  }

  lemma {:induction false} SpacedEnds(ws: seq<string>)
    requires Solid(ws) && ws != []
    ensures var t := Spaced(ws); t != "" && t[0] !in Amounts.SPACES && t[|t| - 1] !in Amounts.SPACES
  {
    assert ws[0] in ws && ws[0][0] in ws[0] && ws[0][|ws[0]| - 1] in ws[0];
    if |ws| > 1 {
      assert forall w | w in ws[1..] :: w in ws;
      SpacedEnds(ws[1..]);
      var t, rest := Spaced(ws), Spaced(ws[1..]);
      assert t[|t| - 1] == rest[|rest| - 1];
    }
  }

  lemma TrimmedIs(a: string, t: string, b: string)
    requires a in {"", " "} && b in {"", " "}
    requires t != "" ==> t[0] !in Amounts.SPACES && t[|t| - 1] !in Amounts.SPACES
    requires t == "" ==> b == ""
    ensures TrimRight(TrimLeft(a + t + b)) == t
  {
    var s := a + t + b;
    if a == " " {
      assert s[0] == ' ' && s[1..] == t + b;
    } else {
      assert s == t + b;
    }
    if t != "" {
      assert (t + b)[0] == t[0] && TrimLeft(t + b) == t + b;
      if b == " " {
        assert (t + b)[..|t|] == t;
      } else {
        assert t + b == t;
      }
    } else {
      assert t + b == "";
    }
  }

  /** Collapsed and trimmed, a text is its words with one blank between them. */
  lemma CollapsedIsWords(l: string)
    ensures TrimRight(TrimLeft(Collapsed(l, false))) == Spaced(WordsOf(l))
  {
    var ws := WordsOf(l);
    CollapsedIs(l);
    WordsAreSolid(l);
    if ws != [] {
      SpacedEnds(ws);
    }
    hide Collapsed, Spaced, Solid;
    if l != "" && l[0] in Amounts.SPACES {
      if ws == [] {
        NoWords();
        TrimmedIs(" ", "", "");
        assert " " + "" + "" == " " + "";
      } else {
        TrimmedIs(" ", Spaced(ws), Close(l));
        assert " " + Spaced(ws) + Close(l) == " " + (Spaced(ws) + Close(l));
      }
    } else {
      if ws == [] {
        NoWords();
        AllBlank(l);
        assert "" + "" + "" == "" + "";
        TrimmedIs("", "", "");
      } else {
        TrimmedIs("", Spaced(ws), Close(l));
        assert "" + Spaced(ws) + Close(l) == Spaced(ws) + Close(l);
      }
    }
  }

  /** A normalised description is its words in lower case with one blank between them. */
  lemma NormalizeIsWords(s: string)
    ensures Normalize(s) == Spaced(WordsOf(LowerAll(s)))
  {
    CollapsedIsWords(LowerAll(s));
  }

  lemma NoWords()
    ensures Spaced([]) == ""
  {
  }

  lemma AllBlank(s: string)
    requires WordsOf(s) == [] && !(s != "" && s[0] in Amounts.SPACES)
    ensures s == ""
  {
  }

  /** The words of two texts with a blank between them. */
  lemma {:induction false} WordsAppend(a: string, b: string)
    ensures WordsOf(a + " " + b) == WordsOf(a) + WordsOf(b)
    decreases |a|
  {
    var s := a + " " + b;
    if a == "" {
      assert s == " " + b && s[1..] == b;
    } else if a[0] in Amounts.SPACES {
      assert s[1..] == a[1..] + " " + b;
      WordsAppend(a[1..], b);
    } else {
      var k := WordEnd(a);
      WordStands(a);
      WordEndAppend(a, " " + b);
      assert s == a + (" " + b) && s[..k] == a[..k] && s[k..] == a[k..] + " " + b;
      WordsAppend(a[k..], b);
    }
  }

  lemma {:induction false} WordEndAppend(a: string, t: string)
    requires t != "" && t[0] in Amounts.SPACES
    ensures WordEnd(a + t) == WordEnd(a)
  {
    if a == "" {
      assert a + t == t;
    } else {
      assert (a + t)[1..] == a[1..] + t;
      WordEndAppend(a[1..], t);
    }
  }

  // ---- The fingerprint -------------------------------------------------------------------

  /** `Number(amount)` in a template string, for an amount in cents. */
  function AmountText(cents: nat): string {
    Amounts.Digits(cents / 100) +
    if cents % 100 == 0 then ""
    else if cents % 10 == 0 then "." + [Amounts.Figure(cents % 100 / 10)]
    else "." + Amounts.Two(cents % 100)
  }

  /** `fingerprint`. */
  function Fingerprint(date: string, cents: nat, description: string): string {
    date + "|" + (AmountText(cents) + "|" + Normalize(description))
  }

  lemma AmountTextCharacters(cents: nat)
    ensures forall c | c in AmountText(cents) :: Amounts.IsDigit(c) || c == '.'
    ensures forall c | c in Amounts.Digits(cents / 100) :: Amounts.IsDigit(c)
  {
    Amounts.ValueDigits(cents / 100);
  }

  /** The figures after the point, when there are any. */
  function Fraction(cents: nat): string
    requires cents % 100 != 0
  {
    if cents % 10 == 0 then [Amounts.Figure(cents % 100 / 10)] else Amounts.Two(cents % 100)
  }

  lemma FractionInjective(a: nat, b: nat)
    requires a % 100 != 0 && b % 100 != 0 && Fraction(a) == Fraction(b)
    ensures a % 100 == b % 100
  {
    assert |Fraction(a)| == |Fraction(b)| && Fraction(a)[0] == Fraction(b)[0];
    FractionTail(a);
    FractionTail(b);
  }

  lemma FractionTail(a: nat)
    requires a % 100 != 0
    ensures Fraction(a)[0] == Amounts.Figure(a % 100 / 10)
    ensures |Fraction(a)| == 2 ==> Fraction(a)[1] == Amounts.Figure(a % 10)
    ensures |Fraction(a)| == 1 <==> a % 10 == 0
    ensures a % 100 == a % 100 / 10 * 10 + a % 10
  {
    assert a % 100 % 10 == a % 10;
  }

  lemma AmountTextInjective(a: nat, b: nat)
    requires AmountText(a) == AmountText(b)
    ensures a == b
  {
    PointIff(a);
    PointIff(b);
    var da, db := Amounts.Digits(a / 100), Amounts.Digits(b / 100);
    if a % 100 != 0 {
      SplitAt(da, Fraction(a), db, Fraction(b), '.');
      FractionInjective(a, b);
    }
    Amounts.ValueDigits(a / 100);
    Amounts.ValueDigits(b / 100);
  }

  /** A point is printed exactly for a fractional amount. */
  lemma PointIff(a: nat)
    ensures '.' in AmountText(a) <==> a % 100 != 0
    ensures '.' !in Amounts.Digits(a / 100)
    ensures AmountText(a) == if a % 100 == 0 then Amounts.Digits(a / 100)
                             else Amounts.Digits(a / 100) + ['.'] + Fraction(a)
  {
    Amounts.ValueDigits(a / 100);
    var d := Amounts.Digits(a / 100);
    if a % 100 != 0 {
      assert AmountText(a) == d + ['.'] + Fraction(a);
      assert AmountText(a)[|d|] == '.';
    } else {
      assert AmountText(a) == d;
    }
  }

  /** Equal fingerprints mean the same date, the same amount and the same normalised description. */
  lemma FingerprintInjective(d1: string, a1: nat, s1: string, d2: string, a2: nat, s2: string)
    requires '|' !in d1 && '|' !in d2
    ensures Fingerprint(d1, a1, s1) == Fingerprint(d2, a2, s2) <==>
            d1 == d2 && a1 == a2 && Normalize(s1) == Normalize(s2)
  {
    if Fingerprint(d1, a1, s1) == Fingerprint(d2, a2, s2) {
      AmountTextCharacters(a1);
      AmountTextCharacters(a2);
      SplitAt(d1, AmountText(a1) + "|" + Normalize(s1), d2, AmountText(a2) + "|" + Normalize(s2), '|');
      SplitAt(AmountText(a1), Normalize(s1), AmountText(a2), Normalize(s2), '|');
      AmountTextInjective(a1, a2);
    }
  }
}
