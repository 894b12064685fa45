/** Printed amounts with a currency code beside them: which of them the amount reader reads. */
module CurrencyCodes {
  import opened Options
  import opened Amounts

  predicate IsCode(code: string) {
    |code| == 3 && UpperAll(code) in {"COP", "USD", "EUR"}
  }

  predicate IsLatin(c: char) {
    'a' <= c <= 'z' || 'A' <= c <= 'Z'
  }

  /** One to three letters, as a code or a mark behind an amount has. */
  predicate Letters(w: string) {
    0 < |w| <= 3 && forall c | c in w :: IsLatin(c)
  }

  predicate NoLatin(s: string) {
    forall c | c in s :: !IsLatin(c)
  }

  // ---- Stripping codes -------------------------------------------------------------------

  lemma {:induction false} UpperAt(s: string, i: nat)
    requires i < |s|
    ensures |UpperAll(s)| == |s| && UpperAll(s)[i] == Upper(s[i])
    decreases |s|
  {
    if |s| > 1 {
      UpperAt(s[1..], if i == 0 then 0 else i - 1);
    }
  }

  lemma CodeIsLatin(code: string)
    requires IsCode(code)
    ensures forall i | 0 <= i < 3 :: IsLatin(code[i])
  {
    UpperAt(code, 0);
    UpperAt(code, 1);
    UpperAt(code, 2);
  }

  lemma CodeIsLetters(code: string)
    requires IsCode(code)
    ensures Letters(code)
  {
    CodeIsLatin(code);
  }

  lemma LetterCharacters(w: string, c: char)
    requires Letters(w) && c in w
    ensures IsLatin(c) && Unsigned(c) && !IsDigit(c) && c !in SEPARATORS && IsWord(c)
  {
  }

  /** A code cannot stand over a character that is no letter. */
  lemma NoCodeOver(s: string, i: nat, k: nat)
    requires i <= k < i + 3 <= |s| && !IsLatin(s[k])
    ensures !CodeAt(s, i)
  {
    var t := s[i..i + 3];
    UpperAt(t, k - i);
    if UpperAll(t) in {"COP", "USD", "EUR"} {
      CodeIsLatin(t);
      assert false;
    }
  }

  lemma {:induction false} NoneFrom(s: string, i: nat)
    requires i <= |s| && NoLatin(s[i..])
    ensures WithoutCodes(s, i) == s[i..]
    decreases |s| - i
  {
    if i < |s| {
      assert s[i] in s[i..];
      if i + 3 <= |s| {
        NoCodeOver(s, i, i);
      }
      assert forall c | c in s[i + 1..] :: c in s[i..];
      NoneFrom(s, i + 1);
    }
  }

  lemma {:induction false} TooShort(s: string, i: nat)
    requires i <= |s| < i + 3
    ensures WithoutCodes(s, i) == s[i..]
    decreases |s| - i
  {
    if i < |s| {
      TooShort(s, i + 1);
    }
  }

  lemma Copies(s: string, i: nat)
    requires i < |s| && !CodeAt(s, i)
    ensures WithoutCodes(s, i) == [s[i]] + WithoutCodes(s, i + 1)
  {
  }

  lemma NoCodeAtNonLatin(s: string, i: nat)
    requires i < |s| && !IsLatin(s[i])
    ensures !CodeAt(s, i)
  {
    if i + 3 <= |s| {
      NoCodeOver(s, i, i);
    }
  }

  lemma CodeStandsBehind(text: string, code: string)
    requires text != "" && IsCode(code)
    ensures CodeAt(text + code, |text|) <==> !IsWord(text[|text| - 1])
  {
    assert (text + code)[|text|..|text| + 3] == code;
  }

  lemma LastCode(text: string, code: string)
    requires text != "" && IsCode(code)
    ensures WithoutCodes(text + code, |text|) == if IsWord(text[|text| - 1]) then code else ""
  {
    var s := text + code;
    CodeStandsBehind(text, code);
    TooShort(s, |text| + 1);
    TooShort(s, |text| + 3);
    assert s[|text|] == code[0] && s[|text| + 1..] == code[1..] && s[|text| + 3..] == "";
    if IsWord(text[|text| - 1]) {
      Copies(s, |text|);
    }
  }

  /** A code behind a text is stripped exactly when the text ends outside a word. */
  lemma {:induction false} CodeBehind(text: string, code: string, i: nat)
    requires text != "" && NoLatin(text) && IsCode(code) && i <= |text|
    ensures WithoutCodes(text + code, i) == if IsWord(text[|text| - 1]) then text[i..] + code else text[i..]
    decreases |text| - i
  {
    hide IsCode, CodeAt, WithoutCodes;
    var s := text + code;
    if i < |text| {
      assert text[i] in text && s[i] == text[i];
      NoCodeAtNonLatin(s, i);
      Copies(s, i);
      CodeBehind(text, code, i + 1);
      assert text[i..] == [text[i]] + text[i + 1..];
    } else {
      LastCode(text, code);
      assert text[i..] == "";
    }
  }

  lemma CodeStandsInFront(code: string, text: string)
    requires text != "" && IsCode(code)
    ensures CodeAt(code + text, 0) <==> !IsWord(text[0])
  {
    assert (code + text)[0..3] == code;
  }

  /** A code in front of a text is stripped exactly when the text starts outside a word. */
  lemma CodeInFront(code: string, text: string)
    requires text != "" && NoLatin(text) && IsCode(code)
    ensures WithoutCodes(code + text, 0) == if IsWord(text[0]) then code + text else text
  {
    hide IsCode, CodeAt, WithoutCodes, IsLatin;
    var s := code + text;
    CodeLength(code);
    CodeStandsInFront(code, text);
    assert s[3] == text[0] && s[3..] == text && text[0] in text;
    NoneFrom(s, 3);
    if IsWord(text[0]) {
      NoCodeInside(s);
      Copies(s, 2);
      Copies(s, 1);
      Copies(s, 0);
      assert s == [s[0]] + ([s[1]] + ([s[2]] + s[3..]));
    } else {
      Skips(s);
    }
  }

  lemma NoCodeInside(s: string)
    requires |s| > 3 && !IsLatin(s[3])
    ensures !CodeAt(s, 1) && !CodeAt(s, 2)
  {
    NoCodeOver(s, 1, 3);
    if |s| >= 5 {
      NoCodeOver(s, 2, 3);
    }
  }

  lemma Skips(s: string)
    requires |s| >= 3 && CodeAt(s, 0)
    ensures WithoutCodes(s, 0) == WithoutCodes(s, 3)
  {
  }

  lemma CodeLength(code: string)
    requires IsCode(code)
    ensures |code| == 3
  {
  }

  // ---- Marks -----------------------------------------------------------------------------

  lemma AroundNoLatin(text: string, mark: SignMark)
    requires mark.Valid() && Bald(text)
    ensures NoLatin(mark.Around(text)) && mark.Around(text) != ""
    ensures IsWord(mark.Around(text)[|mark.Around(text)| - 1]) ==> mark.InFront()
    ensures mark.Trailing? || mark.Parentheses? ==> !IsWord(mark.Around(text)[|mark.Around(text)| - 1])
    ensures IsWord(mark.Around(text)[0]) <==> mark.Bare? || mark.Trailing?
  {
    AroundCharacters(text, mark);
    assert text[|text| - 1] in text && text[0] in text;
  }

  /** A figure with letters glued to it: they stay in the text that is measured. */
  lemma LetteredStage(text: string, w: string, mark: SignMark)
    requires mark.Valid() && Bald(text) && Letters(w)
    ensures ParseCleaned(mark.Around(text + w)) == ParsePeeled(Peeled(mark.Negative(), text + w))
    ensures !IsFlag(text + w)
  {
    var body := text + w;
    BaldEnds(text);
    assert body[|body| - 1] == w[|w| - 1] && w[|w| - 1] in w && body[0] == text[0];
    LetterCharacters(w, body[|body| - 1]);
    PeelUnsigned(body, mark);
    var k := if mark.Bare? || mark.Trailing? then 0 else 1;
    assert mark.Around(body)[k] == body[0];
    PeeledStage(mark.Around(body), body, mark.Negative());
    UpperAt(body, 0);
  }

  lemma GluedStage(text: string, code: string, mark: SignMark)
    requires mark.Valid() && mark.InFront() && Bald(text) && Letters(code)
    ensures ParseCleaned(mark.Around(text) + code) == ParsePeeled(Peeled(mark.Negative(), text + code))
    ensures !IsFlag(text + code)
  {
    assert mark.Around(text) + code == mark.Around(text + code);
    LetteredStage(text, code, mark);
  }

  // ---- Amounts with two decimals ---------------------------------------------------------

  lemma CodeHasNoSeparator(code: string)
    requires Letters(code)
    ensures forall c | c in code :: c !in SEPARATORS && !IsDigit(c)
  {
    forall c | c in code
      ensures c !in SEPARATORS && !IsDigit(c)
    {
      LetterCharacters(code, c);
    }
  }

  lemma TwoWithCode(d: nat, code: string)
    requires d < 100 && Letters(code)
    ensures |Two(d) + code| > 2 && (Two(d) + code)[..2] == Two(d)
    ensures forall c | c in Two(d) + code :: c !in SEPARATORS
  {
    TwoValue(d);
    CodeHasNoSeparator(code);
  }

  /** A grouped print has a separator or at most three digits. */
  lemma EnoughSeparators(n: nat, style: Style, grouped: bool)
    requires grouped || n < 1000
    ensures var whole := if grouped then Grouped(n, style.Group()) else Digits(n);
      style.Group() in whole || |whole| <= 3
  {
    if n < 1000 {
      DigitsShort(n);
    }
  }

  lemma MoneyWithCode(cents: nat, style: Style, grouped: bool, code: string)
    requires Letters(code) && (|code| > 1 || grouped || cents < 100_000)
    ensures Magnitude(Money(cents, style, grouped) + code) == Some(cents)
  {
    hide Grouped, Digits, Magnitude, Split, Without, Letters;
    var n, d := cents / 100, cents % 100;
    var whole := if grouped then Grouped(n, style.Group()) else Digits(n);
    WholePart(n, style, grouped);
    TwoWithCode(d, code);
    if |code| == 1 {
      EnoughSeparators(n, style, grouped);
    }
    MoneySplit(whole, style, Two(d) + code);
    assert Money(cents, style, grouped) + code == whole + [style.Decimal()] + (Two(d) + code);
    var bare := Without(whole, if style.Group() in whole then SEPARATORS else {style.Decimal()});
    MagnitudeFrom(Money(cents, style, grouped) + code, bare, Two(d) + code, d);
  }

  /** With two decimals a code behind the amount never does harm: it is stripped or cut off with the decimals. */
  lemma AmountWithCodeBehind(raw: string, cents: nat, style: Style, grouped: bool, mark: SignMark, code: string)
    requires mark.Valid() && IsCode(code) && Cleaned(raw) == mark.Around(Money(cents, style, grouped)) + code
    ensures ParseAmount(raw) == Some(mark.Signed(cents))
  {
    var text := Money(cents, style, grouped);
    MoneyBald(cents, style, grouped);
    if mark.InFront() {
      MoneyEnds(cents, style, grouped);
      CodeIsLetters(code);
      MoneyWithCode(cents, style, grouped, code);
      GluedAmount(raw, text, code, mark, Some(cents));
    } else {
      AroundNoLatin(text, mark);
      CodeBehind(mark.Around(text), code, 0);
      assert mark.Around(text)[0..] == mark.Around(text);
      MoneyMagnitude(cents, style, grouped);
      CleanedStage(text, mark, cents);
    }
  }

  lemma MoneyEnds(cents: nat, style: Style, grouped: bool)
    ensures var text := Money(cents, style, grouped); IsDigit(text[|text| - 1])
  {
    var d := Two(cents % 100);
    TwoValue(cents % 100);
    assert d[1] in d;
  }

  lemma MoneyBehindCode(cents: nat, style: Style, grouped: bool, code: string)
    requires Letters(code)
    ensures Magnitude(code + Money(cents, style, grouped)) == None
  {
    hide Grouped, Digits, Split, Without, Letters;
    var n, d := cents / 100, cents % 100;
    var whole := if grouped then Grouped(n, style.Group()) else Digits(n);
    var all := code + whole;
    var drop := if style.Group() in all then SEPARATORS else {style.Decimal()};
    WholePart(n, style, grouped);
    TwoWithCode(d, code);
    CodeHasNoSeparator(code);
    MoneySplit(all, style, Two(d));
    assert code + Money(cents, style, grouped) == all + [style.Decimal()] + Two(d);
    WithoutAppend(code, whole, drop);
    WithoutNothing(code, drop);
    NotANumber(code, Without(whole, drop), Two(d));
  }

  lemma NotANumber(code: string, rest: string, decimals: string)
    requires Letters(code)
    ensures MagnitudeOf(Parts(code + rest, decimals)) == None
  {
    LetterCharacters(code, code[0]);
    assert (code + rest)[0] in (code + rest);
  }

  /** A code in front is read past exactly when a sign or a parenthesis parts it from the figures. */
  lemma AmountWithCodeInFrontIff(raw: string, cents: nat, style: Style, grouped: bool, mark: SignMark, code: string)
    requires mark.Valid() && IsCode(code) && Cleaned(raw) == code + mark.Around(Money(cents, style, grouped))
    ensures ParseAmount(raw) == if mark.Bare? || mark.Trailing? then None else Some(mark.Signed(cents))
  {
    var text := Money(cents, style, grouped);
    MoneyBald(cents, style, grouped);
    AroundNoLatin(text, mark);
    CodeInFront(code, mark.Around(text));
    if mark.Bare? || mark.Trailing? {
      CodeIsLetters(code);
      MoneyBehindCode(cents, style, grouped, code);
      FrontStage(text, code, mark);
    } else {
      MoneyMagnitude(cents, style, grouped);
      CleanedStage(text, mark, cents);
    }
  }

  lemma FrontStage(text: string, code: string, mark: SignMark)
    requires mark.Valid() && (mark.Bare? || mark.Trailing?) && Bald(text) && IsCode(code)
    requires Magnitude(code + text) == None
    ensures ParseCleaned(code + mark.Around(text)) == None
  {
    var body := code + text;
    assert code + mark.Around(text) == mark.Around(body);
    BaldEnds(text);
    CodeIsLetters(code);
    LetterCharacters(code, code[0]);
    assert body[0] == code[0] && body[|body| - 1] == text[|text| - 1];
    PeelUnsigned(body, mark);
    UpperAt(body, 0);
    assert mark.Around(body)[3] == text[0];
    assert !NoAmount(mark.Around(body));
  }

  // ---- Whole amounts ---------------------------------------------------------------------

  lemma SmallWithCode(n: nat, code: string)
    requires n < 1000 && Letters(code)
    ensures Magnitude(Digits(n) + code) == None
  {
    var text := Digits(n) + code;
    ValueDigits(n);
    CodeHasNoSeparator(code);
    hide Digits;
    assert text[|text| - 1] == code[|code| - 1] && code[|code| - 1] in code && text[|text| - 1] in text;
    LastIndexAbsent(text, '.');
    LastIndexAbsent(text, ',');
    assert !AllDigits(text);
  }

  /** The last group and the code behind it are more than three characters, so they are decimals. */
  lemma GroupWithCode(head: string, sep: char, tail: string, code: string)
    requires sep in SEPARATORS && Letters(code) && AllDigits(tail) && |tail| == 3
    requires forall c | c in head :: IsDigit(c) || c == sep
    ensures Split(head + [sep] + (tail + code)) == Parts(Without(head, {sep}), tail + code)
  {
    CodeHasNoSeparator(code);
    hide Without, LastIndexOf, Letters;
    var other := if sep == '.' then ',' else '.';
    var text := head + [sep] + (tail + code);
    forall c | c in tail + code
      ensures c !in SEPARATORS
    {
    }
    LastIndexAt(head, sep, tail + code);
    LastIndexAbsent(text, other);
    assert text[..|head|] == head && text[|head| + 1..] == tail + code;
  }

  lemma DecimalsMeasured(text: string, bare: string, decimals: string, e: nat)
    requires Split(text) == Parts(bare, decimals) && AllDigits(bare) && bare != ""
    requires e < 100 && |decimals| > 2 && decimals[..2] == Two(e)
    ensures Magnitude(text) == Some(100 * Value(bare) + e)
  {
    hide Two, Split, Value;
    MagnitudeFrom(text, bare, decimals, e);
  }

  /** The figures in front of the last group denote the thousands. */
  lemma HeadValue(n: nat, sep: char) returns (bare: string)
    requires sep in SEPARATORS
    ensures bare == Without(Grouped(n, sep), {sep}) && AllDigits(bare) && bare != "" && Value(bare) == n
    ensures forall c | c in Grouped(n, sep) :: IsDigit(c) || c == sep
  {
    GroupedCharacters(n, sep);
    UngroupedValue(n, sep, {sep});
    bare := Without(Grouped(n, sep), {sep});
  }

  lemma LargeWithCode(n: nat, sep: char, code: string)
    requires sep in SEPARATORS && Letters(code) && n >= 1000
    ensures Magnitude(Grouped(n, sep) + code) == Some(n / 10)
  {
    hide Split, Without, Three, Letters, Magnitude, Value, Two, AllDigits;
    var head, tail := Grouped(n / 1000, sep), Three(n % 1000);
    assert Grouped(n, sep) + code == head + [sep] + (tail + code) by {
      GroupedUnfolds(n, sep);
      Join(head + [sep], tail, code);
    }
    hide Grouped;
    var bare := HeadValue(n / 1000, sep);
    LastGroup(n % 1000, code);
    GroupWithCode(head, sep, tail, code);
    DecimalsMeasured(head + [sep] + (tail + code), bare, tail + code, n % 1000 / 10);
    TenthOf(n);
  }

  lemma Join(a: string, b: string, c: string)
    ensures a + b + c == a + (b + c)
  {
  }

  lemma GroupedUnfolds(n: nat, sep: char)
    requires n >= 1000
    ensures Grouped(n, sep) == Grouped(n / 1000, sep) + [sep] + Three(n % 1000)
  {
  }

  lemma LastGroup(d: nat, code: string)
    requires d < 1000 && Letters(code)
    ensures AllDigits(Three(d)) && |Three(d)| == 3 && |Three(d) + code| > 3 && (Three(d) + code)[..2] == Two(d / 10)
  {
    ValueThree("", d);
    assert "" + Three(d) == Three(d);
    FirstTwo(d);
    assert (Three(d) + code)[..2] == Three(d)[..2];
  }

  lemma WholeWithCode(n: nat, sep: char, code: string)
    requires sep in SEPARATORS && Letters(code)
    ensures Magnitude(Grouped(n, sep) + code) == if n < 1000 then None else Some(n / 10)
  {
    if n < 1000 {
      SmallWithCode(n, code);
    } else {
      LargeWithCode(n, sep, code);
    }
  }

  lemma WholeEnds(n: nat, sep: char)
    ensures var text := Grouped(n, sep); text != "" && IsDigit(text[|text| - 1])
  {
    if n < 1000 {
      ValueDigits(n);
      assert Digits(n)[|Digits(n)| - 1] in Digits(n);
    } else {
      ValueThree("", n % 1000);
      assert "" + Three(n % 1000) == Three(n % 1000);
      assert Three(n % 1000)[2] in Three(n % 1000);
    }
  }

  /**
   * A whole amount with a code behind it is read right exactly when a trailing minus or a
   * closing parenthesis parts the two and the amount alone would be. Otherwise the last
   * group is taken for decimals, or nothing is read at all.
   */
  lemma WholeAmountWithCodeIff(raw: string, n: nat, style: Style, mark: SignMark, code: string)
    requires mark.Valid() && IsCode(code) && Cleaned(raw) == mark.Around(Grouped(n, style.Group())) + code
    ensures ParseAmount(raw) == Some(mark.Signed(100 * n)) <==>
            !mark.InFront() && (n < 1000 || n >= 1_000_000)
    ensures mark.InFront() ==> ParseAmount(raw) == if n < 1000 then None else Some(mark.Signed(n / 10))
  {
    var text := Grouped(n, style.Group());
    GroupedCharacters(n, style.Group());
    if mark.InFront() {
      WholeGlued(raw, n, style, mark, code);
    } else {
      AroundNoLatin(text, mark);
      CodeBehind(mark.Around(text), code, 0);
      assert mark.Around(text)[0..] == mark.Around(text);
      hide Grouped, Magnitude, IsCode, WithoutCodes;
      WholeMagnitude(n, style.Group());
      CleanedStage(text, mark, if 1000 <= n < 1_000_000 then n / 10 else 100 * n);
    }
  }

  lemma GroupedIsBald(n: nat, sep: char)
    requires sep in SEPARATORS
    ensures Bald(Grouped(n, sep))
  {
    GroupedCharacters(n, sep);
  }

  lemma WholeGlued(raw: string, n: nat, style: Style, mark: SignMark, code: string)
    requires mark.Valid() && mark.InFront() && IsCode(code)
    requires Cleaned(raw) == mark.Around(Grouped(n, style.Group())) + code
    ensures ParseAmount(raw) == if n < 1000 then None else Some(mark.Signed(n / 10))
  {
    hide Grouped, Magnitude, IsCode, ParseAmount, Cleaned, Bald;
    GroupedIsBald(n, style.Group());
    WholeEnds(n, style.Group());
    CodeIsLetters(code);
    WholeWithCode(n, style.Group(), code);
    GluedAmount(raw, Grouped(n, style.Group()), code, mark, if n < 1000 then None else Some(n / 10));
  }

  /** A figure with a code glued to it is measured together with the code. */
  lemma GluedAmount(raw: string, text: string, code: string, mark: SignMark, v: Option<nat>)
    requires mark.Valid() && mark.InFront() && Bald(text) && IsDigit(text[|text| - 1]) && IsCode(code)
    requires Cleaned(raw) == mark.Around(text) + code && Magnitude(text + code) == v
    ensures ParseAmount(raw) == match v { case None => None case Some(x) => Some(mark.Signed(x)) }
  {
    hide Magnitude, IsCode, WithoutCodes, ParseCleaned, ParsePeeled, IsFlag, Cleaned;
    AroundNoLatin(text, mark);
    AroundEnds(text, mark);
    CodeBehind(mark.Around(text), code, 0);
    assert mark.Around(text)[0..] == mark.Around(text);
    CodeIsLetters(code);
    GluedStage(text, code, mark);
    MeasuredStage(Peeled(mark.Negative(), text + code));
  }

  lemma MeasuredStage(p: Peeled)
    requires !IsFlag(p.text)
    ensures ParsePeeled(p) == match Magnitude(p.text) { case None => None case Some(v) => Some(if p.negative then 0 - v else v) }
  {
  }

  lemma AroundEnds(text: string, mark: SignMark)
    requires mark.Valid() && mark.InFront() && text != ""
    ensures mark.Around(text) != "" && mark.Around(text)[|mark.Around(text)| - 1] == text[|text| - 1]
  {
  }

  lemma WholeMagnitude(n: nat, sep: char)
    requires sep in SEPARATORS
    ensures Magnitude(Grouped(n, sep)) == Some(if 1000 <= n < 1_000_000 then n / 10 else 100 * n)
  {
    if n < 1000 {
      SmallMagnitude(n);
    } else if n < 1_000_000 {
      MediumMagnitude(n, sep);
    } else {
      LargeMagnitude(n, sep);
    }
  }
}
