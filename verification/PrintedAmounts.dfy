/** Which printed amounts the statement loop takes for numbers, against what the amount reader can read. */
module PrintedAmounts {
  import opened Options
  import opened Amounts
  import opened Calendar
  import opened DateTokens
  import opened StatementLines
  import opened TextLines
  import Fingerprints

  predicate Blank(s: string) {
    forall c | c in s :: c in SPACES
  }

  lemma TrimNothing(s: string)
    requires s != "" && s[0] !in SPACES && s[|s| - 1] !in SPACES
    ensures Trim(s) == s
  {
  }

  // ---- Blanks ----------------------------------------------------------------------------

  lemma {:induction false} LeftGap(s: string) returns (gap: string)
    ensures Blank(gap) && s == gap + Fingerprints.TrimLeft(s)
    ensures var out := Fingerprints.TrimLeft(s); out != "" ==> out[0] !in SPACES
  {
    if s != "" && s[0] in SPACES {
      var rest := LeftGap(s[1..]);
      gap := [s[0]] + rest;
    } else {
      gap := "";
    }
  }

  lemma {:induction false} RightGap(s: string) returns (gap: string)
    ensures Blank(gap) && s == Fingerprints.TrimRight(s) + gap
    ensures var out := Fingerprints.TrimRight(s); out != "" ==> out[|out| - 1] !in SPACES
  {
    if s != "" && s[|s| - 1] in SPACES {
      var rest := RightGap(s[..|s| - 1]);
      gap := rest + [s[|s| - 1]];
    } else {
      gap := "";
    }
  }

  lemma {:induction false} WithoutAll(s: string, drop: set<char>)
    requires forall c | c in s :: c in drop
    ensures Without(s, drop) == ""
  {
    if s != "" {
      assert s[|s| - 1] in s && forall c | c in s[..|s| - 1] :: c in s;
      WithoutAll(s[..|s| - 1], drop);
    }
  }

  /** Blanks around a text do not count. */
  lemma GapsGo(a: string, s: string, b: string)
    requires Blank(a) && Blank(b)
    ensures Without(a + s + b, SPACES) == Without(s, SPACES)
  {
    WithoutAppend(a + s, b, SPACES);
    WithoutAppend(a, s, SPACES);
    WithoutAll(a, SPACES);
    WithoutAll(b, SPACES);
  }

  lemma TrimKeeps(s: string)
    ensures Cleaned(Trim(s)) == Cleaned(s)
    ensures Trim(s) != "" ==> Trim(s)[0] !in SPACES && Trim(s)[|Trim(s)| - 1] !in SPACES
  {
    hide Fingerprints.TrimLeft, Fingerprints.TrimRight, Without;
    var left := Fingerprints.TrimLeft(s);
    var a := LeftGap(s);
    var b := RightGap(left);
    var t := Fingerprints.TrimRight(left);
    assert s == a + t + b;
    GapsGo(a, t, b);
    if t != "" {
      assert left[0] == t[0];
    }
  }

  lemma {:induction false} WithoutKeeps(s: string, drop: set<char>, c: char)
    requires c in s && c !in drop
    ensures c in Without(s, drop)
  {
    if s[|s| - 1] != c {
      WithoutKeeps(s[..|s| - 1], drop, c);
    }
  }

  lemma CleanedKeeps(s: string, c: char)
    requires c in s && c !in SPACES && c !in CURRENCY_SIGNS
    ensures c in Cleaned(s)
  {
    WithoutKeeps(s, SPACES, c);
    WithoutKeeps(Without(s, SPACES), CURRENCY_SIGNS, c);
  }

  // ---- The number test -------------------------------------------------------------------

  lemma {:induction false} RunAmong(s: string, among: char -> bool, n: nat)
    ensures forall c | c in s[..Run(s, among, n)] :: among(c)
  {
    if n > 0 && s != "" && among(s[0]) {
      RunAmong(s[1..], among, n - 1);
      assert s[..Run(s, among, n)] == [s[0]] + s[1..][..Run(s[1..], among, n - 1)];
    }
  }

  predicate IsFront(front: string) {
    front == "" || (|front| == 1 && (front[0] == '+' || front[0] in MINUS_SIGNS))
  }

  lemma SignIsNoSpace(c: char)
    requires c in MINUS_SIGNS || c in {'+', '(', ')'}
    ensures c !in SPACES && c !in CURRENCY_SIGNS && !IsFigure(c)
  {
  }

  lemma FigureIsNoSpace(c: char)
    requires IsFigure(c)
    ensures c !in SPACES && c !in CURRENCY_SIGNS
  {
  }

  lemma LetterIsNoSpace(c: char)
    requires 'a' <= c <= 'z' || 'A' <= c <= 'Z'
    ensures c !in SPACES && c !in CURRENCY_SIGNS && !IsFigure(c)
  {
  }

  lemma FlagHasLetter(front: string, flag: string)
    requires IsFlag(flag)
    ensures exists c :: c in front + flag && ('a' <= c <= 'z' || 'A' <= c <= 'Z')
  {
    assert UpperAll(flag)[0] == Upper(flag[0]);
    assert flag[0] in front + flag;
  }

  lemma LastIsBehind(front: string, behind: string)
    requires behind != ""
    ensures (front + behind)[|front + behind| - 1] in behind
  {
  }

  /** What the test reads behind the sign: blanks, figures, blanks and a mark or nothing. */
  lemma FigurePieces(rest: string) returns (gap: string, figures: string, behind: string, flag: string)
    ensures rest == gap + figures + behind + flag && Blank(gap) && Blank(behind)
    ensures forall c | c in figures :: IsFigure(c)
    ensures var body := Fingerprints.TrimLeft(rest);
      var k := Run(body, IsFigure, |body|);
      |figures| == k && flag == Fingerprints.TrimLeft(body[k..])
  {
    hide Run, Fingerprints.TrimLeft;
    gap := LeftGap(rest);
    var body := Fingerprints.TrimLeft(rest);
    var k := Run(body, IsFigure, |body|);
    figures := body[..k];
    RunAmong(body, IsFigure, |body|);
    behind := LeftGap(body[k..]);
    flag := Fingerprints.TrimLeft(body[k..]);
    assert body == body[..k] + body[k..];
  }

  lemma SplitSign(s: string) returns (front: string, rest: string)
    requires s != "" && IsNumericText(s)
    ensures s == front + rest && IsFront(front)
    ensures var body := Fingerprints.TrimLeft(rest);
      var k := Run(body, IsFigure, |body|);
      k > 0 && var flag := Fingerprints.TrimLeft(body[k..]); flag == "" || IsFlag(flag)
  {
    hide IsFlag, Run, Fingerprints.TrimLeft, IsFigure;
    var signed := s[0] == '+' || s[0] in MINUS_SIGNS;
    front := if signed then s[..1] else "";
    rest := if signed then s[1..] else s;
  }

  /** Neither a mark nor blanks follow the figures. */
  lemma NothingBehind(front: string, behind: string, flag: string)
    requires Blank(behind) && (flag == "" || IsFlag(flag))
    requires var s := front + behind + flag;
      s != "" && s[|s| - 1] !in SPACES && forall c | c in s :: !('a' <= c <= 'z' || 'A' <= c <= 'Z')
    ensures behind == "" && flag == ""
  {
    hide IsFlag, Blank;
    if flag != "" {
      FlagHasLetter(front + behind, flag);
    } else if behind != "" {
      assert front + behind + flag == front + behind;
      LastBlank(front, behind);
    }
  }

  /** A word without letters or outer blanks that passes the test is a sign or none, blanks, and figures. */
  lemma NumericShape(s: string) returns (front: string, gap: string, figures: string)
    requires s != "" && IsNumericText(s) && s[|s| - 1] !in SPACES
    requires forall c | c in s :: !('a' <= c <= 'z' || 'A' <= c <= 'Z')
    ensures s == front + gap + figures && IsFront(front) && Blank(gap)
    ensures figures != "" && forall c | c in figures :: IsFigure(c)
  {
    hide IsFlag, Run, Fingerprints.TrimLeft, IsFigure, IsNumericText, Blank, IsFront;
    var rest, behind, flag;
    front, rest := SplitSign(s);
    gap, figures, behind, flag := FigurePieces(rest);
    assert front + (gap + figures + behind + flag) == (front + gap + figures) + behind + flag;
    NothingBehind(front + gap + figures, behind, flag);
    assert (front + gap + figures) + "" + "" == front + gap + figures;
  }

  lemma LastBlank(front: string, behind: string)
    requires behind != "" && Blank(behind)
    ensures (front + behind)[|front + behind| - 1] in SPACES
  {
    LastIsBehind(front, behind);
  }

  lemma ShapeIsNumeric(front: string, gap: string, figures: string)
    requires IsFront(front) && Blank(gap) && Bald(figures) && (front == "" ==> gap == "")
    ensures IsNumericText(front + gap + figures)
  {
    var s, rest := front + gap + figures, gap + figures;
    FigureIsNoSpace(figures[0]);
    TrimLeftSpaces(gap, figures);
    assert figures + "" == figures;
    RunIs(figures, "", IsFigure, |figures|);
    if front != "" {
      assert s[1..] == rest;
    } else {
      assert s == figures && s[0] == figures[0];
    }
  }

  // ---- Printed amounts -------------------------------------------------------------------

  lemma AroundEnds(text: string, mark: SignMark)
    requires mark.Valid() && Bald(text)
    ensures forall c | c in mark.Around(text) :: c !in SPACES && c !in CURRENCY_SIGNS
    ensures mark.Around(text) != ""
  {
    forall c | c in mark.Around(text)
      ensures c !in SPACES && c !in CURRENCY_SIGNS
    {
      assert c in text || c in MINUS_SIGNS || c in {'+', '(', ')'};
      if c in text && IsDigit(c) {
        DigitIsNoSpace(c);
      } else if c !in text {
        SignIsNoSpace(c);
      }
    }
  }

  lemma NothingToClean(s: string)
    requires s != "" && forall c | c in s :: c !in SPACES && c !in CURRENCY_SIGNS
    ensures Cleaned(s) == s && Trim(s) == s
  {
    WithoutNothing(s, SPACES);
    WithoutNothing(s, CURRENCY_SIGNS);
    assert s[0] in s && s[|s| - 1] in s;
    TrimNothing(s);
  }

  /** No currency sign, and no blank behind a figure. */
  predicate Unbroken(s: string) {
    && (forall c | c in s :: c !in CURRENCY_SIGNS)
    && (forall i, j | 0 <= i < j < |s| && IsFigure(s[i]) :: s[j] !in SPACES)
  }

  lemma ShapeIsUnbroken(front: string, gap: string, figures: string)
    requires IsFront(front) && Blank(gap) && forall c | c in figures :: IsFigure(c)
    ensures Unbroken(front + gap + figures)
  {
    var s := front + gap + figures;
    forall i | 0 <= i < |s|
      ensures s[i] !in CURRENCY_SIGNS
      ensures if i < |front + gap| then !IsFigure(s[i]) else s[i] !in SPACES
    {
      if i < |front| {
        SignIsNoSpace(s[i]);
      } else if i < |front + gap| {
        assert s[i] == gap[i - |front|] && gap[i - |front|] in gap;
        BlankIsNoSign(s[i]);
      } else {
        assert s[i] == figures[i - |front + gap|] && figures[i - |front + gap|] in figures;
        FigureIsNoSpace(s[i]);
      }
    }
  }

  lemma BlankIsNoSign(c: char)
    requires c in SPACES
    ensures c !in CURRENCY_SIGNS && !IsFigure(c)
  {
  }

  /** What blanks are left out of: a first character that is none stays first. */
  lemma HeadStays(s: string)
    requires s != "" && s[0] !in SPACES
    ensures Without(s, SPACES) == [s[0]] + Without(s[1..], SPACES)
  {
    assert s == [s[0]] + s[1..];
    WithoutAppend([s[0]], s[1..], SPACES);
    assert [s[0]][..0] == "";
  }

  /** An unbroken print of a bald text is the text itself. */
  lemma UnbrokenFigures(s: string, text: string)
    requires s != "" && s[0] !in SPACES && Bald(text) && Without(s, SPACES) == text && Unbroken(s)
    ensures s == text
  {
    HeadStays(s);
    assert s[0] == text[0] && IsFigure(s[0]);
    forall c | c in s
      ensures c !in SPACES
    {
      var j :| 0 <= j < |s| && s[j] == c;
    }
    WithoutNothing(s, SPACES);
  }

  lemma UnbrokenIsNumeric(s: string, text: string, mark: SignMark)
    requires mark.Valid() && mark.InFront() && Bald(text) && Cleaned(s) == mark.Around(text)
    requires s != "" && s[0] !in SPACES && Unbroken(s)
    ensures IsNumericText(s)
  {
    hide IsNumericText, Without, Unbroken;
    WithoutSigns(s);
    if mark.Bare? {
      UnbrokenFigures(s, text);
      ShapeIsNumeric("", "", s);
      assert "" + "" + s == s;
    } else {
      HeadStays(s);
      var gap := LeftGap(s[1..]);
      var body := Fingerprints.TrimLeft(s[1..]);
      assert mark.Around(text)[0] == s[0] && mark.Around(text)[1..] == text;
      GapsGo(gap, body, "");
      assert gap + body + "" == s[1..];
      assert Without(body, SPACES) == text;
      if body == "" {
        WithoutAll(body, SPACES);
      }
      UnbrokenTail(s, |s| - |body|);
      assert s[|s| - |body|..] == body;
      UnbrokenFigures(body, text);
      ShapeIsNumeric(s[..1], gap, body);
      assert s[..1] + gap + body == s;
    }
  }

  lemma WithoutSigns(s: string)
    requires Unbroken(s)
    ensures Cleaned(s) == Without(s, SPACES)
  {
    WithoutFewer(s);
    WithoutNothing(Without(s, SPACES), CURRENCY_SIGNS);
  }

  lemma {:induction false} WithoutFewer(s: string)
    ensures forall c | c in Without(s, SPACES) :: c in s
  {
    if s != "" {
      WithoutFewer(s[..|s| - 1]);
    }
  }

  lemma UnbrokenTail(s: string, n: nat)
    requires n <= |s| && Unbroken(s)
    ensures Unbroken(s[n..])
  {
    var t := s[n..];
    forall i, j | 0 <= i < j < |t| && IsFigure(t[i])
      ensures t[j] !in SPACES
    {
      assert t[i] == s[n + i] && t[j] == s[n + j];
    }
  }

  lemma NumericIsUnbroken(s: string, text: string, mark: SignMark)
    requires mark.Valid() && Bald(text) && Cleaned(s) == mark.Around(text)
    requires IsNumericText(s) && s != "" && s[|s| - 1] !in SPACES
    ensures mark.InFront() && Unbroken(s)
  {
    hide IsNumericText, Without, Unbroken, Cleaned;
    AroundCharacters(text, mark);
    forall c | c in s
      ensures !('a' <= c <= 'z' || 'A' <= c <= 'Z')
    {
      if 'a' <= c <= 'z' || 'A' <= c <= 'Z' {
        LetterIsNoSpace(c);
        CleanedKeeps(s, c);
      }
    }
    var front, gap, figures := NumericShape(s);
    ShapeIsUnbroken(front, gap, figures);
    ShapeCleaned(front, gap, figures);
    var a := mark.Around(text);
    assert a == front + figures && a[|a| - 1] == figures[|figures| - 1] && figures[|figures| - 1] in figures;
    if !mark.InFront() {
      SignIsNoSpace(a[|a| - 1]);
    }
  }

  lemma ShapeCleaned(front: string, gap: string, figures: string)
    requires IsFront(front) && Blank(gap) && forall c | c in figures :: IsFigure(c)
    ensures Cleaned(front + gap + figures) == front + figures
  {
    if front != "" {
      SignIsNoSpace(front[0]);
    }
    forall c | c in figures
      ensures c !in SPACES && c !in CURRENCY_SIGNS
    {
      FigureIsNoSpace(c);
    }
    WithoutAppend(front + gap, figures, SPACES);
    WithoutAppend(front, gap, SPACES);
    WithoutNothing(front, SPACES);
    WithoutAll(gap, SPACES);
    WithoutNothing(figures, SPACES);
    WithoutNothing(front + figures, CURRENCY_SIGNS);
    assert front + "" + figures == front + figures;
  }

  /**
   * However an amount is printed, with any blanks and currency signs strewn in, it becomes a
   * number of the statement exactly when its sign, if any, stands in front, there is no
   * currency sign, and outer blanks aside no blank follows a figure; and then with its exact
   * value. Amounts with a currency sign, inner blanks, a trailing minus or parentheses, all of
   * which the amount reader can read, are taken for words.
   */
  lemma PrintedAmountIsNumberIff(t: Token, cents: nat, style: Style, grouped: bool, mark: SignMark)
    requires mark.Valid() && Cleaned(t.text) == mark.Around(Money(cents, style, grouped))
    ensures NumberIn(t).Some? <==> mark.InFront() && Unbroken(Trim(t.text))
    ensures NumberIn(t).Some? ==> NumberIn(t) == Some(Numeric(t.x, mark.Signed(cents), t.text))
  {
    hide IsNumericText, Unbroken, Cleaned, Trim, Money;
    var text, s := Money(cents, style, grouped), Trim(t.text);
    MoneyBald(cents, style, grouped);
    AmountRoundTrip(t.text, cents, style, grouped, mark);
    TrimKeeps(t.text);
    AroundEnds(text, mark);
    if s == "" {
      NothingLeft();
    } else if IsNumericText(s) {
      NumericIsUnbroken(s, text, mark);
    } else if mark.InFront() && Unbroken(s) {
      UnbrokenIsNumeric(s, text, mark);
    }
  }

  lemma NothingLeft()
    ensures Cleaned("") == ""
  {
  }

  // ---- A printed statement that loses a movement -----------------------------------------

  /** DD/MM/YYYY. */
  function DayMonthYear(d: Date): Written
    requires InRange(d)
  {
    Written(Two(d.day), Two(d.month + 1), Two(d.year / 100) + Two(d.year % 100))
  }

  lemma DayMonthYearWrites(d: Date)
    requires InRange(d)
    ensures DayMonthYear(d).Writes(d) && |DayMonthYear(d).year| == 4
  {
    TwoValue(d.day);
    TwoValue(d.month + 1);
    TwoValue(d.year / 100);
    ValueTwo(Two(d.year / 100), d.year % 100);
  }

  /** A date printed on the left of a line. */
  function DateToken(d: Date, y: real): Token
    requires InRange(d)
  {
    Token(0.1, y, DayFirst('/', '/').Text(DayMonthYear(d)), 50.0, 1)
  }

  lemma DateTokenIsDated(d: Date, y: real)
    requires InRange(d)
    ensures DatedToken(DateToken(d, y), d)
  {
    var w, t := DayMonthYear(d), DateToken(d, y);
    DayMonthYearWrites(d);
    assert IsDigit(w.day[0]) && IsDigit(w.year[3]) by {
      assert w.day[0] in w.day && w.year[3] in w.year;
    }
    assert t.text[0] == w.day[0] && t.text[|t.text| - 1] == w.year[3];
    DigitIsNoSpace(w.day[0]);
    DigitIsNoSpace(w.year[3]);
    TrimNothing(t.text);
    assert t.text == t.text + "";
    hide ParseDate, Trim;
    DateRoundTripIff(t.text, d, w, DayFirst('/', '/'), "");
    NothingTrimmed();
  }

  lemma NothingTrimmed()
    ensures Trim("") == ""
  {
  }

  function MoneyToken(cents: nat, y: real): Token {
    Token(0.9, y, Money(cents, CO, true), 450.0, 1)
  }

  lemma MoneyTokenIsAmount(cents: nat, y: real)
    ensures AmountToken(MoneyToken(cents, y), cents)
  {
    hide NumberIn, Trim, Cleaned, Unbroken;
    var text := Money(cents, CO, true);
    MoneyBald(cents, CO, true);
    AroundEnds(text, Bare);
    NothingToClean(text);
    FiguresAreUnbroken(text);
    PrintedAmountIsNumberIff(MoneyToken(cents, y), cents, CO, true, Bare);
  }

  lemma FiguresAreUnbroken(text: string)
    requires Bald(text)
    ensures Unbroken(text)
  {
    ShapeIsUnbroken("", "", text);
    assert "" + "" + text == text;
  }

  lemma WordIsPlain(y: real)
    ensures PlainToken(Token(0.9, y, "B", 450.0, 1))
  {
    assert 'B' !in SPACES && !IsFigure('B');
    TrimNothing("B");
    assert "" + "B" == "B";
    RunIs("", "B", IsFigure, 1);
  }

  /** "05/01/2024 100,00", "06/01/2024 B" and "250,00" below each other, with other dates and amounts in their place. */
  function ThreeLines(first: Date, second: Date, a: nat, b: nat): (lines: seq<Line>)
    requires InRange(first) && InRange(second)
    ensures |lines| == 3
    ensures lines[0].tokens == [DateToken(first, 30.0), MoneyToken(a, 30.0)]
    ensures lines[1].tokens == [DateToken(second, 20.0), Token(0.9, 20.0, "B", 450.0, 1)]
    ensures lines[2].tokens == [MoneyToken(b, 10.0)]
  {
    [Line(30.0, 1, [DateToken(first, 30.0), MoneyToken(a, 30.0)]),
     Line(20.0, 1, [DateToken(second, 20.0), Token(0.9, 20.0, "B", 450.0, 1)]),
     Line(10.0, 1, [MoneyToken(b, 10.0)])]
  }

  /** No line is taken for a summary. */
  predicate NoSummary(lines: seq<Line>, p: Patterns) {
    forall l | 0 <= l < |lines| :: !p.noise(Joined(Texts(lines[l].tokens)))
  }

  /** Such a statement becomes one movement, with the first date and the second amount. */
  lemma PrintedMovementIsLost(first: Date, second: Date, a: nat, b: nat, ctx: Context)
    requires InRange(first) && InRange(second) && b > 0
    requires NoSummary(ThreeLines(first, second, a, b), ctx.patterns)
    requires ctx.layout.debitX.None? && ctx.layout.creditX.None?
    ensures var all := Statement(StatementLines.Parts(ThreeLines(first, second, a, b), ctx.patterns), 0, Finalizer(ctx));
      |all| == 1 && all[0].date == first && all[0].amount == b
  {
    hide DatedToken, AmountToken, PlainToken, PartOf, Statement, Joined, Texts, MoneyToken, DateToken, ThreeLines, InRange;
    DateTokenIsDated(first, 30.0);
    DateTokenIsDated(second, 20.0);
    MoneyTokenIsAmount(a, 30.0);
    MoneyTokenIsAmount(b, 10.0);
    WordIsPlain(20.0);
    AmountJoinsEarlierMovement(ThreeLines(first, second, a, b), first, second, a, b, ctx);
  }
}
