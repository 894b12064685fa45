/** Printed amounts with a credit or debit mark behind them: what is read of them, and for which side. */
module CreditMarks {
  import opened Options
  import opened Amounts
  import opened DateTokens
  import opened StatementLines
  import T = TextLines
  import C = CurrencyCodes
  import P = PrintedAmounts
  import L = LedgerModel
  import Fingerprints

  // ---- The amount ------------------------------------------------------------------------

  lemma FlagIsLetters(flag: string)
    requires IsFlag(flag)
    ensures C.Letters(flag) && |flag| <= 2
  {
    assert flag != "";
    C.UpperAt(flag, 0);
    if |flag| > 1 {
      C.UpperAt(flag, 1);
    }
    C.UpperAt(flag, |flag| - 1);
    forall c | c in flag
      ensures C.IsLatin(c)
    {
      var i :| 0 <= i < |flag| && flag[i] == c;
      C.UpperAt(flag, i);
    }
  }

  predicate Either(c: char, lower: char, upper: char) {
    c == lower || c == upper
  }

  /** The marks are CR, DB, C and D, letter case aside. */
  lemma IsFlagIff(s: string)
    ensures IsFlag(s) <==>
            (|s| == 1 && (Either(s[0], 'c', 'C') || Either(s[0], 'd', 'D'))) ||
            (|s| == 2 && ((Either(s[0], 'c', 'C') && Either(s[1], 'r', 'R')) ||
                          (Either(s[0], 'd', 'D') && Either(s[1], 'b', 'B'))))
  {
    if s != "" {
      C.UpperAt(s, 0);
      UpperIs(s[0]);
      if |s| > 1 {
        C.UpperAt(s, 1);
        UpperIs(s[1]);
      }
    }
  }

  lemma {:induction false} NoCodeAnywhere(s: string, i: nat)
    requires i <= |s| && forall j: nat | i <= j < |s| :: !CodeAt(s, j)
    ensures WithoutCodes(s, i) == s[i..]
    decreases |s| - i
  {
    if i < |s| {
      NoCodeAnywhere(s, i + 1);
    }
  }

  /** Two letters are too few for a currency code. */
  lemma TwoLettersHideNoCode(front: string, w: string, back: string, j: nat)
    requires C.NoLatin(front) && |w| <= 2 && C.NoLatin(back) && j < |front + w + back|
    ensures !CodeAt(front + w + back, j)
  {
    var s := front + w + back;
    if j + 3 <= |s| {
      var k := if j < |front| then j else j + 2;
      assert s[k] == if k < |front| then front[k] else back[k - |front| - |w|];
      C.NoCodeOver(s, j, k);
    }
  }

  /** What a sign mark puts in front of a text and behind it. */
  lemma AroundEnds(text: string, mark: SignMark) returns (front: string, back: string)
    requires mark.Valid()
    ensures mark.Around(text) == front + text + back && C.NoLatin(front) && C.NoLatin(back)
  {
    match mark
    case Bare => front, back := "", "";
    case Plus => front, back := "+", "";
    case Leading(c) => front, back := [c], "";
    case Trailing(c) => front, back := "", [c];
    case Parentheses => front, back := "(", ")";
  }

  lemma LettersStay(text: string, w: string, mark: SignMark)
    requires mark.Valid() && Bald(text) && |w| <= 2
    ensures WithoutCodes(mark.Around(text + w), 0) == mark.Around(text + w)
  {
    var front, back := AroundEnds(text + w, mark);
    var s := mark.Around(text + w);
    assert s == (front + text) + w + back;
    forall j: nat | j < |s|
      ensures !CodeAt(s, j)
    {
      TwoLettersHideNoCode(front + text, w, back, j);
    }
    NoCodeAnywhere(s, 0);
    assert s[0..] == s;
  }

  /** A figure with a mark behind it is measured together with the mark. */
  lemma MarkedStage(raw: string, text: string, flag: string, mark: SignMark)
    requires mark.Valid() && Bald(text) && IsFlag(flag) && Cleaned(raw) == mark.Around(text + flag)
    ensures ParseAmount(raw) ==
            match Magnitude(text + flag) { case None => None case Some(v) => Some(mark.Signed(v)) }
  {
    hide Magnitude, WithoutCodes, ParseCleaned, ParsePeeled, Cleaned, IsFlag, Bald;
    FlagIsLetters(flag);
    LettersStay(text, flag, mark);
    C.LetteredStage(text, flag, mark);
    C.MeasuredStage(Peeled(mark.Negative(), text + flag));
  }

  lemma {:induction false} DigitsLong(n: nat)
    requires n >= 1000
    ensures |Digits(n)| > 3
  {
    ValueDigits(n / 1000);
    assert Digits(n) == Digits(n / 10) + [Figure(n % 10)];
    assert Digits(n / 10) == Digits(n / 100) + [Figure(n / 10 % 10)];
    assert Digits(n / 100) == Digits(n / 1000) + [Figure(n / 100 % 10)];
  }

  /** Two decimals and one letter look like a group of three. */
  lemma OneLetterBreaks(cents: nat, style: Style, w: string)
    requires C.Letters(w) && |w| == 1 && cents >= 100_000
    ensures Magnitude(Money(cents, style, false) + w) == None
  {
    var whole, tail := Digits(cents / 100), Two(cents % 100) + w;
    var text := Money(cents, style, false) + w;
    assert text == whole + [style.Decimal()] + tail;
    DigitsLong(cents / 100);
    ValueDigits(cents / 100);
    C.TwoWithCode(cents % 100, w);
    hide Digits, LastIndexOf, Without, Two;
    MoneySeparators(whole, style, tail);
    assert text[..|whole|] == whole && text[|whole| + 1..] == tail;
    LetterStays(Money(cents, style, false), w, {style.Decimal()});
    assert Split(text) == Parts(Without(text, {style.Decimal()}), "");
  }

  lemma LetterStays(text: string, w: string, drop: set<char>)
    requires C.Letters(w) && drop <= SEPARATORS
    ensures !AllDigits(Without(text + w, drop))
  {
    C.CodeHasNoSeparator(w);
    WithoutAppend(text, w, drop);
    WithoutNothing(w, drop);
    assert w[0] in w && w[0] in Without(text, drop) + w;
  }

  /**
   * An amount with two decimals and a mark behind it is read with its exact value, except
   * when a mark of one letter follows an amount of a thousand or more that is not grouped:
   * decimals and letter are then three characters and pass for a group.
   */
  lemma MarkedAmountIff(raw: string, cents: nat, style: Style, grouped: bool, mark: SignMark, flag: string)
    requires mark.Valid() && IsFlag(flag) && Cleaned(raw) == mark.Around(Money(cents, style, grouped) + flag)
    ensures ParseAmount(raw) ==
            if |flag| == 1 && !grouped && cents >= 100_000 then None else Some(mark.Signed(cents))
  {
    hide Magnitude, ParseAmount, Cleaned, IsFlag, Money;
    FlagIsLetters(flag);
    MoneyBald(cents, style, grouped);
    MarkedStage(raw, Money(cents, style, grouped), flag, mark);
    if |flag| == 1 && !grouped && cents >= 100_000 {
      OneLetterBreaks(cents, style, flag);
    } else {
      C.MoneyWithCode(cents, style, grouped, flag);
    }
  }

  /** A whole amount with a mark behind it is never read right: the mark turns its last group into decimals. */
  lemma MarkedWholeAmount(raw: string, n: nat, style: Style, mark: SignMark, flag: string)
    requires mark.Valid() && IsFlag(flag) && Cleaned(raw) == mark.Around(Grouped(n, style.Group()) + flag)
    ensures ParseAmount(raw) == if n < 1000 then None else Some(mark.Signed(n / 10))
    ensures ParseAmount(raw) != Some(mark.Signed(100 * n))
  {
    hide Magnitude, ParseAmount, Cleaned, IsFlag, Grouped;
    FlagIsLetters(flag);
    C.GroupedIsBald(n, style.Group());
    MarkedStage(raw, Grouped(n, style.Group()), flag, mark);
    C.WholeWithCode(n, style.Group(), flag);
  }

  // ---- The word --------------------------------------------------------------------------

  /** An amount and its mark as one word of the statement, with or without blanks between them. */
  function Marked(text: string, mark: SignMark, gap: string, flag: string): string {
    mark.Around(text) + gap + flag
  }

  lemma {:induction false} TrimGap(gap: string, flag: string)
    requires P.Blank(gap) && C.Letters(flag)
    ensures Fingerprints.TrimLeft(gap + flag) == flag
  {
    if gap == "" {
      C.LetterCharacters(flag, flag[0]);
      LatinIsNoSpace(flag[0]);
      assert gap + flag == flag;
    } else {
      assert gap[0] in gap && forall c | c in gap[1..] :: c in gap;
      assert (gap + flag)[1..] == gap[1..] + flag;
      TrimGap(gap[1..], flag);
    }
  }

  lemma LatinIsNoSpace(c: char)
    requires C.IsLatin(c)
    ensures c !in SPACES && !IsFigure(c) && !Fingerprints.IsSpace(c)
  {
  }

  lemma SpaceIsNoWord(c: char)
    requires c in SPACES
    ensures !IsWord(c) && !IsFigure(c) && !C.IsLatin(c)
  {
  }

  lemma FiguresGapFlag(text: string, gap: string, flag: string)
    requires Bald(text) && P.Blank(gap) && C.Letters(flag) && IsFlag(flag)
    ensures var s := text + gap + flag;
      && Fingerprints.TrimLeft(s) == s && Run(s, IsFigure, |s|) == |text|
      && Fingerprints.TrimLeft(s[|text|..]) == flag
  {
    var s, t := text + gap + flag, gap + flag;
    assert s == text + t && s[|text|..] == t;
    DigitIsNoSpace(text[0]);
    assert s[0] == text[0];
    LatinIsNoSpace(flag[0]);
    if gap != "" {
      assert t[0] == gap[0] && gap[0] in gap;
      SpaceIsNoWord(gap[0]);
    } else {
      assert t[0] == flag[0];
    }
    RunIs(text, t, IsFigure, |s|);
    TrimGap(gap, flag);
  }

  lemma MarkedIsNumeric(text: string, mark: SignMark, gap: string, flag: string)
    requires mark.Valid() && mark.InFront() && Bald(text) && P.Blank(gap) && IsFlag(flag)
    ensures IsNumericText(Marked(text, mark, gap, flag))
  {
    hide IsFlag, Run;
    FlagIsLetters(flag);
    var s := Marked(text, mark, gap, flag);
    BaldEnds(text);
    FiguresGapFlag(text, gap, flag);
    if mark.Bare? {
      assert s == text + gap + flag;
    } else {
      assert s[1..] == text + gap + flag;
    }
  }

  /** It has no blank at its ends, and without its blanks it is the amount with the mark glued to it. */
  lemma MarkedIsClean(text: string, mark: SignMark, gap: string, flag: string)
    requires mark.Valid() && mark.InFront() && Bald(text) && P.Blank(gap) && C.Letters(flag)
    ensures Trim(Marked(text, mark, gap, flag)) == Marked(text, mark, gap, flag)
    ensures Cleaned(Marked(text, mark, gap, flag)) == mark.Around(text + flag)
  {
    var a := mark.Around(text);
    P.AroundEnds(text, mark);
    forall c | c in flag
      ensures c !in SPACES && c !in CURRENCY_SIGNS
    {
      LatinIsNoSpace(c);
    }
    assert a + flag == mark.Around(text + flag);
    BlanksGo(a, gap, flag);
  }

  lemma BlanksGo(a: string, gap: string, b: string)
    requires a != "" && b != "" && P.Blank(gap)
    requires forall c | c in a || c in b :: c !in SPACES && c !in CURRENCY_SIGNS
    ensures Trim(a + gap + b) == a + gap + b && Cleaned(a + gap + b) == a + b
  {
    var s := a + gap + b;
    hide Trim, Without;
    assert s[0] == a[0] && a[0] in a;
    assert s[|s| - 1] == b[|b| - 1] && b[|b| - 1] in b;
    P.TrimNothing(s);
    WithoutAppend(a + gap, b, SPACES);
    WithoutAppend(a, gap, SPACES);
    WithoutNothing(a, SPACES);
    P.WithoutAll(gap, SPACES);
    WithoutNothing(b, SPACES);
    WithoutNothing(a + b, CURRENCY_SIGNS);
    assert a + "" + b == a + b;
  }

  /** The mark is kept out of the amount, but for the one exception. */
  predicate Readable(cents: nat, grouped: bool, flag: string) {
    |flag| > 1 || grouped || cents < 100_000
  }

  lemma MarkedIsNumber(t: T.Token, cents: nat, style: Style, grouped: bool, mark: SignMark, gap: string, flag: string)
    requires mark.Valid() && mark.InFront() && P.Blank(gap) && IsFlag(flag)
    requires t.text == Marked(Money(cents, style, grouped), mark, gap, flag)
    ensures NumberIn(t) ==
            if Readable(cents, grouped, flag) then Some(Numeric(t.x, mark.Signed(cents), t.text)) else None
  {
    hide IsNumericText, ParseAmount, Cleaned, Trim, IsFlag, Money, Marked;
    var text := Money(cents, style, grouped);
    FlagIsLetters(flag);
    MoneyBald(cents, style, grouped);
    MarkedIsNumeric(text, mark, gap, flag);
    MarkedIsClean(text, mark, gap, flag);
    MarkedAmountIff(t.text, cents, style, grouped, mark, flag);
  }

  // ---- The side --------------------------------------------------------------------------

  lemma {:induction false} UpperAppend(a: string, b: string)
    ensures UpperAll(a + b) == UpperAll(a) + UpperAll(b)
  {
    if a == "" {
      assert a + b == b;
    } else {
      assert (a + b)[1..] == a[1..] + b;
      UpperAppend(a[1..], b);
    }
  }

  lemma {:induction false} UpperNothing(s: string)
    requires forall c | c in s :: !('a' <= c <= 'z')
    ensures UpperAll(s) == s
  {
    if s != "" {
      assert s[0] in s && forall c | c in s[1..] :: c in s;
      UpperNothing(s[1..]);
    }
  }

  /** A two-letter mark is found behind a text without letters exactly when it is what follows and a blank comes before. */
  lemma MarkBehindIff(front: string, w: string, mark: string)
    requires C.NoLatin(front) && front != "" && 0 < |w| <= 2 && mark in {"CR", "DB"}
    ensures MarkIn(front + w, mark) <==> w == mark && !IsWord(front[|front| - 1])
  {
    var s := front + w;
    forall i | 0 <= i < |s|
      ensures MarkAt(s, mark, i) <==> i == |front| && w == mark && !IsWord(front[|front| - 1])
    {
      if i < |front| {
        assert s[i] in front;
        assert i + 2 <= |s| ==> s[i..i + 2][0] == s[i];
      } else if i > |front| {
        assert i + 2 > |s|;
      } else {
        assert i + 2 <= |s| ==> s[i..i + 2] == w;
      }
    }
    assert w == mark && !IsWord(front[|front| - 1]) ==> MarkAt(s, mark, |front|);
  }

  lemma MarkedUpper(text: string, mark: SignMark, gap: string, flag: string) returns (front: string)
    requires mark.Valid() && mark.InFront() && Bald(text) && IsDigit(text[|text| - 1]) && P.Blank(gap)
    ensures front == mark.Around(text) + gap && C.NoLatin(front) && front != ""
    ensures UpperAll(Marked(text, mark, gap, flag)) == front + UpperAll(flag)
    ensures IsWord(front[|front| - 1]) <==> gap == ""
    ensures front[0] !in SPACES
  {
    var a := mark.Around(text);
    front := a + gap;
    P.AroundEnds(text, mark);
    C.AroundNoLatin(text, mark);
    C.AroundEnds(text, mark);
    hide UpperAll, Bald;
    assert front[0] == a[0] && a[0] in a;
    GapEnds(a, gap);
    UpperAppend(front, flag);
    UpperNothing(front);
  }

  lemma GapEnds(a: string, gap: string)
    requires a != "" && IsDigit(a[|a| - 1]) && C.NoLatin(a) && P.Blank(gap)
    ensures C.NoLatin(a + gap) && (IsWord((a + gap)[|a + gap| - 1]) <==> gap == "")
  {
    forall c | c in gap
      ensures !C.IsLatin(c)
    {
      SpaceIsNoWord(c);
    }
    if gap != "" {
      assert (a + gap)[|a + gap| - 1] == gap[|gap| - 1] && gap[|gap| - 1] in gap;
      SpaceIsNoWord(gap[|gap| - 1]);
    }
  }

  /**
   * A mark is seen on a printed amount exactly when it has two letters and a blank parts it
   * from the figures; one letter behind an amount is never seen.
   */
  lemma MarkIsSeenIff(text: string, mark: SignMark, gap: string, flag: string, which: string, letter: string)
    requires mark.Valid() && mark.InFront() && Bald(text) && IsDigit(text[|text| - 1]) && P.Blank(gap) && IsFlag(flag)
    requires which in {"CR", "DB"} && |letter| == 1
    ensures Flagged(Marked(text, mark, gap, flag), which, letter) <==> UpperAll(flag) == which && gap != ""
  {
    FlagIsLetters(flag);
    var u := UpperAll(flag);
    var front := MarkedUpper(text, mark, gap, flag);
    C.UpperAt(flag, |flag| - 1);
    MarkBehindIff(front, u, which);
    var s := front + u;
    assert s[0] == front[0] && s[|s| - 1] == u[|u| - 1];
    assert flag[|flag| - 1] in flag;
    LatinIsNoSpace(u[|u| - 1]);
    P.TrimNothing(s);
  }

  /** The side of a movement whose last number is a marked amount. */
  function MarkedKind(mark: SignMark, gap: string, flag: string, description: string, ctx: Context): L.TxType {
    if mark.Negative() || (UpperAll(flag) == "DB" && gap != "") then L.Expense
    else if UpperAll(flag) == "CR" && gap != "" then L.Income
    else if ctx.patterns.expense(description) then L.Expense
    else if ctx.patterns.income(description) then L.Income
    else ctx.Side()
  }

  /**
   * A row without headed columns whose only number is a marked amount is a movement of that
   * amount. Its mark decides the side only if it is CR or DB with a blank before it; otherwise
   * the words of the description and the default do.
   */
  lemma MarkedMovement(t: T.Token, cents: nat, style: Style, grouped: bool, mark: SignMark, gap: string, flag: string,
                       description: string, ctx: Context)
    requires mark.Valid() && mark.InFront() && P.Blank(gap) && IsFlag(flag)
    requires t.text == Marked(Money(cents, style, grouped), mark, gap, flag)
    requires cents > 0 && Readable(cents, grouped, flag) && ctx.layout.debitX.None? && ctx.layout.creditX.None?
    ensures NumberIn(t).Some?
    ensures Classified([NumberIn(t).value], description, ctx) ==
            Some(Movement(cents, MarkedKind(mark, gap, flag, description, ctx), None))
  {
    hide NumberIn, IsFlag, Flagged, Money, Marked;
    var text := Money(cents, style, grouped);
    MarkedIsNumber(t, cents, style, grouped, mark, gap, flag);
    MoneyBald(cents, style, grouped);
    MoneyEnds(cents, style, grouped);
    MarkIsSeenIff(text, mark, gap, flag, "CR", "C");
    MarkIsSeenIff(text, mark, gap, flag, "DB", "D");
  }

  lemma MoneyEnds(cents: nat, style: Style, grouped: bool)
    ensures var text := Money(cents, style, grouped); text != "" && IsDigit(text[|text| - 1])
  {
    C.MoneyEnds(cents, style, grouped);
  }

  /** With nothing else to go by, a credit is taken for income exactly when a blank parts CR from the figures. */
  lemma CreditIsIncomeIff(t: T.Token, cents: nat, style: Style, grouped: bool, mark: SignMark, gap: string, flag: string,
                          description: string, ctx: Context)
    requires mark.Bare? || mark.Plus?
    requires P.Blank(gap) && UpperAll(flag) in {"CR", "C"} && t.text == Marked(Money(cents, style, grouped), mark, gap, flag)
    requires cents > 0 && Readable(cents, grouped, flag) && ctx.layout.debitX.None? && ctx.layout.creditX.None?
    requires !ctx.patterns.expense(description) && !ctx.patterns.income(description) && ctx.default != Some(L.Income)
    ensures NumberIn(t).Some? && Classified([NumberIn(t).value], description, ctx).Some?
    ensures Classified([NumberIn(t).value], description, ctx).value.kind == L.Income <==>
            UpperAll(flag) == "CR" && gap != ""
  {
    hide NumberIn, Flagged, Money, Marked, Classified;
    MarkedMovement(t, cents, style, grouped, mark, gap, flag, description, ctx);
  }
}
