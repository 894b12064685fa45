/** `parseAmount`, the CO/US number reader of the statement parser, and its round trip. */
module Amounts {
  import opened Options

  // ---- Character classes -----------------------------------------------------------------

  /** The regular expression class `\s`. */
  const SPACES: set<char> := {' ', '\t', '\n', '\r', '\U{0B}', '\U{0C}', '\U{A0}', '\U{1680}', '\U{2000}', '\U{2001}',
    '\U{2002}', '\U{2003}', '\U{2004}', '\U{2005}', '\U{2006}', '\U{2007}', '\U{2008}', '\U{2009}', '\U{200A}',
    '\U{2028}', '\U{2029}', '\U{202F}', '\U{205F}', '\U{3000}', '\U{FEFF}'}
  const CURRENCY_SIGNS: set<char> := {'$', '\U{20AC}', '\U{A3}'}
  /** Hyphen, minus sign, en dash. */
  const MINUS_SIGNS: set<char> := {'-', '\U{2212}', '\U{2013}'}
  const SEPARATORS: set<char> := {'.', ','}

  predicate IsDigit(c: char) {
    '0' <= c <= '9'
  }

  predicate IsWord(c: char) {
    IsDigit(c) || 'a' <= c <= 'z' || 'A' <= c <= 'Z' || c == '_'
  }

  function Upper(c: char): char {
    if 'a' <= c <= 'z' then c - 'a' + 'A' else c
  }

  predicate AllDigits(s: string) {
    forall c | c in s :: IsDigit(c)
  }

  /** The character classes by code point: blanks, currency signs, minus signs and separators. */
  lemma ClassesAre(c: char)
    ensures var n := c as int;
      && (c in SPACES <==>
            9 <= n <= 13 || n == 32 || n == 160 || n == 5760 || 8192 <= n <= 8202 || n == 8232 || n == 8233 ||
            n == 8239 || n == 8287 || n == 12288 || n == 65279)
      && (c in CURRENCY_SIGNS <==> n == 36 || n == 163 || n == 8364)
      && (c in MINUS_SIGNS <==> n == 45 || n == 8211 || n == 8722)
      && (c in SEPARATORS <==> n == 44 || n == 46)
      && (IsDigit(c) <==> 48 <= n <= 57)
      && (IsWord(c) <==> 48 <= n <= 57 || 65 <= n <= 90 || 97 <= n <= 122 || n == 95)
  {
  }

  // ---- The reader ------------------------------------------------------------------------

  /** `s.replace(/[...]/g, '')`. */
  function Without(s: string, drop: set<char>): string {
    if s == "" then ""
    else Without(s[..|s| - 1], drop) + if s[|s| - 1] in drop then "" else [s[|s| - 1]]
  }

  function UpperAll(s: string): string {
    if s == "" then "" else [Upper(s[0])] + UpperAll(s[1..])
  }

  /** A currency code standing alone between word boundaries. */
  predicate CodeAt(s: string, i: nat) {
    && i + 3 <= |s|
    && UpperAll(s[i..i + 3]) in {"COP", "USD", "EUR"}
    && (i == 0 || !IsWord(s[i - 1]))
    && (i + 3 == |s| || !IsWord(s[i + 3]))
  }

  function WithoutCodes(s: string, i: nat): string
    requires i <= |s|
    decreases |s| - i
  {
    if i == |s| then ""
    else if CodeAt(s, i) then WithoutCodes(s, i + 3)
    else [s[i]] + WithoutCodes(s, i + 1)
  }

  function LastIndexOf(s: string, c: char): int {
    if s == "" then -1 else if s[|s| - 1] == c then |s| - 1 else LastIndexOf(s[..|s| - 1], c)
  }

  lemma {:induction false} LastIndexBounds(s: string, c: char)
    ensures -1 <= LastIndexOf(s, c) < |s|
  {
    if s != "" {
      LastIndexBounds(s[..|s| - 1], c);
    }
  }

  datatype Parts = Parts(whole: string, decimals: string)

  /** One separator kind only: three digits after the last one can mean grouping. */
  function SplitSingle(s: string, at: nat, sep: char, other: char): Parts
    requires at < |s|
  {
    var before, after := s[..at], s[at + 1..];
    if |after| == 3 && (other in before || |before| > 3) then Parts(Without(s, {sep}), "")
    else Parts(Without(before, {sep}), after)
  }

  /** Which separator is the decimal one, and the two parts it separates. */
  function Split(s: string): Parts {
    var comma, dot := LastIndexOf(s, ','), LastIndexOf(s, '.');
    LastIndexBounds(s, ',');
    LastIndexBounds(s, '.');
    if comma != -1 && dot != -1 then
      var at := if comma > dot then comma else dot;
      Parts(Without(s[..at], SEPARATORS), s[at + 1..])
    else if comma != -1 then SplitSingle(s, comma, ',', '.')
    else if dot != -1 then SplitSingle(s, dot, '.', ',')
    else Parts(s, "")
  }

  function Digit(c: char): nat
    requires IsDigit(c)
  {
    (c - '0') as int
  }

  /** The number a digit string denotes. */
  function Value(s: string): nat
    requires AllDigits(s)
  {
    if s == "" then 0
    else
      assert forall c | c in s[..|s| - 1] :: c in s;
      10 * Value(s[..|s| - 1]) + Digit(s[|s| - 1])
  }

  /**
   * `Number("0." + decimals)` in cents for at most two characters, `None` for NaN. An
   * exponent without digits before it, as in "0.e5", reads as zero.
   */
  function Cents(decimals: string): Option<nat>
    requires |decimals| <= 2
  {
    if decimals == "" then Some(0)
    else if AllDigits(decimals) then
      assert decimals[0] in decimals;
      Some(if |decimals| == 1 then 10 * Digit(decimals[0]) else Value(decimals))
    else if |decimals| == 2 && decimals[0] in {'e', 'E'} && IsDigit(decimals[1]) then Some(0)
    else None
  }

  function MagnitudeOf(parts: Parts): Option<nat> {
    var decimals := if |parts.decimals| > 2 then parts.decimals[..2] else parts.decimals;
    if parts.whole == "" || !AllDigits(parts.whole) then None
    else
      match Cents(decimals)
      case None => None
      case Some(cents) => Some(100 * Value(parts.whole) + cents)
  }

  /** The unsigned part, in cents. */
  function Magnitude(s: string): Option<nat> {
    MagnitudeOf(Split(s))
  }

  /** No character that could belong to an amount: no digit, sign or parenthesis. */
  predicate NoAmount(s: string) {
    forall c | c in s :: !IsDigit(c) && c !in {'+', '-', '(', ')'}
  }

  function Cleaned(raw: string): string {
    Without(Without(raw, SPACES), CURRENCY_SIGNS)
  }

  /** A credit or debit mark on its own. */
  predicate IsFlag(s: string) {
    var u := UpperAll(s);
    u == "CR" || u == "DB" || u == "C" || u == "D"
  }

  datatype Peeled = Peeled(negative: bool, text: string)

  /** The sign marks taken off: parentheses, then a leading and a trailing minus, then a plus. */
  function Peel(s: string): Peeled {
    var paren := |s| >= 2 && s[0] == '(' && s[|s| - 1] == ')';
    var inner := if paren then s[1..|s| - 1] else s;
    var leading := inner != "" && inner[0] in MINUS_SIGNS;
    var tail := if leading then inner[1..] else inner;
    var trailing := tail != "" && tail[|tail| - 1] in MINUS_SIGNS;
    var body := if trailing then tail[..|tail| - 1] else tail;
    Peeled(paren || leading || trailing, if body != "" && body[0] == '+' then body[1..] else body)
  }

  /** `parseAmount`, in cents. */
  function ParseAmount(raw: string): Option<int> {
    ParseCleaned(WithoutCodes(Cleaned(raw), 0))
  }

  function ParseCleaned(s: string): Option<int> {
    if s == "" || NoAmount(s) then None else ParsePeeled(Peel(s))
  }

  function ParsePeeled(p: Peeled): Option<int> {
    match Magnitude(if IsFlag(p.text) then "" else p.text)
    case None => None
    case Some(v) => Some(if p.negative then 0 - v else v)
  }

  // ---- The printer -----------------------------------------------------------------------

  /** Colombian style writes 1.234,56 and US style 1,234.56. */
  datatype Style = CO | US
  {
    function Group(): char {
      if CO? then '.' else ','
    }

    function Decimal(): char {
      if CO? then ',' else '.'
    }
  }

  datatype SignMark = Bare | Plus | Leading(minus: char) | Trailing(minus: char) | Parentheses
  {
    predicate Valid() {
      (Leading? || Trailing?) ==> minus in MINUS_SIGNS
    }

    function Around(text: string): string {
      match this
      case Bare => text
      case Plus => "+" + text
      case Leading(c) => [c] + text
      case Trailing(c) => text + [c]
      case Parentheses => "(" + text + ")"
    }

    predicate Negative() {
      !Bare? && !Plus?
    }

    /** The sign stands in front, if there is one. */
    predicate InFront() {
      Bare? || Plus? || Leading?
    }

    function Signed(n: nat): int {
      if Negative() then 0 - n else n
    }
  }

  function Figure(d: nat): char
    requires d < 10
  {
    '0' + d as char
  }

  function Digits(n: nat): string {
    if n < 10 then [Figure(n)] else Digits(n / 10) + [Figure(n % 10)]
  }

  function Two(n: nat): string
    requires n < 100
  {
    [Figure(n / 10), Figure(n % 10)]
  }

  function Three(n: nat): string
    requires n < 1000
  {
    [Figure(n / 100)] + Two(n % 100)
  }

  /** Thousands separated. */
  function Grouped(n: nat, sep: char): string {
    if n < 1000 then Digits(n) else Grouped(n / 1000, sep) + [sep] + Three(n % 1000)
  }

  /** An amount with two decimals, with or without thousands separators. */
  function Money(cents: nat, style: Style, grouped: bool): string {
    (if grouped then Grouped(cents / 100, style.Group()) else Digits(cents / 100)) +
    [style.Decimal()] + Two(cents % 100)
  }

  // ---- Strings ---------------------------------------------------------------------------

  lemma {:induction false} WithoutAppend(a: string, b: string, drop: set<char>)
    ensures Without(a + b, drop) == Without(a, drop) + Without(b, drop)
  {
    if b == "" {
      assert a + b == a;
    } else {
      var init := b[..|b| - 1];
      assert (a + b)[..|a + b| - 1] == a + init;
      WithoutAppend(a, init, drop);
    }
  }

  lemma {:induction false} WithoutNothing(s: string, drop: set<char>)
    requires forall c | c in s :: c !in drop
    ensures Without(s, drop) == s
  {
    if s != "" {
      var init, last := s[..|s| - 1], s[|s| - 1];
      assert s == init + [last];
      assert last in s && forall c | c in init :: c in s;
      WithoutNothing(init, drop);
    }
  }

  lemma {:induction false} LastIndexAbsent(s: string, c: char)
    requires c !in s
    ensures LastIndexOf(s, c) == -1
  {
    if s != "" {
      assert s[|s| - 1] in s;
      LastIndexAbsent(s[..|s| - 1], c);
    }
  }

  lemma {:induction false} LastIndexAt(a: string, c: char, b: string)
    requires c !in b
    ensures LastIndexOf(a + [c] + b, c) == |a|
  {
    var s := a + [c] + b;
    if b != "" {
      assert b[|b| - 1] in b;
      assert s[..|s| - 1] == a + [c] + b[..|b| - 1];
      LastIndexAt(a, c, b[..|b| - 1]);
    }
  }

  /** Characters after the last occurrence do not move it. */
  lemma {:induction false} LastIndexBefore(a: string, b: string, c: char)
    requires c !in b
    ensures LastIndexOf(a + b, c) == LastIndexOf(a, c)
  {
    if b == "" {
      assert a + b == a;
    } else {
      assert b[|b| - 1] in b;
      assert (a + b)[..|a + b| - 1] == a + b[..|b| - 1];
      LastIndexBefore(a, b[..|b| - 1], c);
    }
  }

  lemma ValueSnoc(a: string, d: nat)
    requires AllDigits(a) && d < 10
    ensures AllDigits(a + [Figure(d)]) && Value(a + [Figure(d)]) == 10 * Value(a) + d
  {
    assert (a + [Figure(d)])[..|a|] == a;
  }

  lemma ValueTwo(a: string, n: nat)
    requires AllDigits(a) && n < 100
    ensures AllDigits(a + Two(n)) && Value(a + Two(n)) == 100 * Value(a) + n
  {
    ValueSnoc(a, n / 10);
    ValueSnoc(a + [Figure(n / 10)], n % 10);
    assert a + [Figure(n / 10)] + [Figure(n % 10)] == a + Two(n);
  }

  lemma ValueThree(a: string, n: nat)
    requires AllDigits(a) && n < 1000
    ensures AllDigits(a + Three(n)) && Value(a + Three(n)) == 1000 * Value(a) + n
  {
    ValueSnoc(a, n / 100);
    ValueTwo(a + [Figure(n / 100)], n % 100);
    assert a + [Figure(n / 100)] + Two(n % 100) == a + Three(n);
  }

  lemma {:induction false} ValueDigits(n: nat)
    ensures AllDigits(Digits(n)) && Value(Digits(n)) == n && |Digits(n)| > 0
  {
    if n < 10 {
      ValueSnoc("", n);
      assert "" + [Figure(n)] == [Figure(n)];
    } else {
      ValueDigits(n / 10);
      ValueSnoc(Digits(n / 10), n % 10);
    }
  }

  lemma DigitsShort(n: nat)
    requires n < 1000
    ensures |Digits(n)| <= 3
  {
    if n >= 100 {
      assert Digits(n) == Digits(n / 10) + [Figure(n % 10)];
      assert Digits(n / 10) == Digits(n / 100) + [Figure(n / 10 % 10)];
    } else if n >= 10 {
      assert Digits(n) == Digits(n / 10) + [Figure(n % 10)];
    }
  }

  /** Removing the separators of a grouped number leaves the digits of the number. */
  lemma {:induction false} UngroupedValue(n: nat, sep: char, drop: set<char>)
    requires sep in drop && drop <= SEPARATORS
    ensures AllDigits(Without(Grouped(n, sep), drop)) && Without(Grouped(n, sep), drop) != ""
    ensures Value(Without(Grouped(n, sep), drop)) == n
  {
    if n < 1000 {
      ValueDigits(n);
      WithoutNothing(Digits(n), drop);
    } else {
      var head, tail := Grouped(n / 1000, sep), Three(n % 1000);
      UngroupedValue(n / 1000, sep, drop);
      ValueThree(Without(head, drop), n % 1000);
      WithoutNothing(tail, drop);
      DropOne(head, sep, drop);
      WithoutAppend(head + [sep], tail, drop);
      assert Without(Grouped(n, sep), drop) == Without(head, drop) + tail;
    }
  }

  lemma DropOne(head: string, sep: char, drop: set<char>)
    requires sep in drop
    ensures Without(head + [sep], drop) == Without(head, drop)
  {
    assert (head + [sep])[..|head|] == head;
  }

  /** Digits and one kind of separator, nothing else. */
  lemma {:induction false} GroupedCharacters(n: nat, sep: char)
    ensures forall c | c in Grouped(n, sep) :: IsDigit(c) || c == sep
    ensures |Grouped(n, sep)| > 0 && IsDigit(Grouped(n, sep)[0])
    ensures n >= 1000 ==> |Grouped(n, sep)| > 4
  {
    if n < 1000 {
      ValueDigits(n);
      assert Digits(n)[0] in Digits(n);
    } else {
      GroupedCharacters(n / 1000, sep);
    }
  }

  // ---- Signs and marks -------------------------------------------------------------------

  /** Text made of digits and separators only, with at least one digit in front. */
  predicate Bald(text: string) {
    text != "" && IsDigit(text[0]) && forall c | c in text :: IsDigit(c) || c in SEPARATORS
  }

  lemma {:induction false} NoCodes(s: string, i: nat)
    requires i <= |s| && forall c | c in s :: !('a' <= c <= 'z' || 'A' <= c <= 'Z')
    ensures WithoutCodes(s, i) == s[i..]
    decreases |s| - i
  {
    if i < |s| {
      assert s[i] in s;
      if i + 3 <= |s| {
        assert UpperAll(s[i..i + 3])[0] == Upper(s[i]);
      }
      NoCodes(s, i + 1);
    }
  }

  /** A character of a bald text is no sign mark. */
  predicate Unsigned(c: char) {
    c !in MINUS_SIGNS && c != '(' && c != ')' && c != '+'
  }

  lemma BaldEnds(text: string)
    requires Bald(text)
    ensures Unsigned(text[0]) && Unsigned(text[|text| - 1])
  {
    assert text[|text| - 1] in text;
  }

  lemma PeelAround(text: string, mark: SignMark)
    requires mark.Valid() && Bald(text)
    ensures Peel(mark.Around(text)) == Peeled(mark.Negative(), text)
  {
    BaldEnds(text);
    PeelUnsigned(text, mark);
  }

  lemma PeelUnsigned(text: string, mark: SignMark)
    requires mark.Valid() && text != "" && Unsigned(text[0]) && Unsigned(text[|text| - 1])
    ensures Peel(mark.Around(text)) == Peeled(mark.Negative(), text)
  {
    var s := mark.Around(text);
    match mark
    case Bare =>
    case Plus => assert s[1..] == text;
    case Leading(c) => assert s[1..] == text;
    case Trailing(c) => assert s[..|s| - 1] == text;
    case Parentheses => assert s[1..|s| - 1] == text;
  }

  /** The sign stage hands a bald text to the magnitude stage and applies the sign. */
  lemma SignStage(raw: string, text: string, mark: SignMark, v: nat)
    requires mark.Valid() && Bald(text) && Cleaned(raw) == mark.Around(text)
    requires Magnitude(text) == Some(v)
    ensures ParseAmount(raw) == Some(mark.Signed(v))
  {
    var s := mark.Around(text);
    AroundCharacters(text, mark);
    NoCodes(s, 0);
    assert s[0..] == s;
    CleanedStage(text, mark, v);
  }

  /** The same once blanks, currency signs and codes are gone. */
  lemma CleanedStage(text: string, mark: SignMark, v: nat)
    requires mark.Valid() && Bald(text) && Magnitude(text) == Some(v)
    ensures ParseCleaned(mark.Around(text)) == Some(mark.Signed(v))
  {
    AroundCharacters(text, mark);
    PeelAround(text, mark);
    PeeledStage(mark.Around(text), text, mark.Negative());
    NotFlag(text);
    PeeledValue(Peeled(mark.Negative(), text), v);
  }

  lemma PeeledValue(p: Peeled, v: nat)
    requires !IsFlag(p.text) && Magnitude(p.text) == Some(v)
    ensures ParsePeeled(p) == Some(if p.negative then 0 - v else v)
  {
  }

  lemma PeeledStage(s: string, text: string, negative: bool)
    requires Peel(s) == Peeled(negative, text)
    requires text != "" && IsDigit(text[0]) && text[0] in s
    ensures ParseCleaned(s) == ParsePeeled(Peeled(negative, text))
  {
    assert !NoAmount(s);
  }

  lemma NotFlag(text: string)
    requires Bald(text)
    ensures !IsFlag(text)
  {
    assert UpperAll(text)[0] == text[0];
  }

  lemma AroundCharacters(text: string, mark: SignMark)
    requires mark.Valid() && Bald(text)
    ensures forall c | c in mark.Around(text) :: !('a' <= c <= 'z' || 'A' <= c <= 'Z')
    ensures text[0] in mark.Around(text) && mark.Around(text) != ""
  {
    forall c | c in mark.Around(text) ensures c in text || c in MINUS_SIGNS || c in {'+', '(', ')'} {
    }
    var i := if mark.Plus? || mark.Leading? || mark.Parentheses? then 1 else 0;
    assert mark.Around(text)[i] == text[0];
  }

  // ---- Main results ----------------------------------------------------------------------

  lemma MoneyBald(cents: nat, style: Style, grouped: bool)
    ensures Bald(Money(cents, style, grouped))
  {
    GroupedCharacters(cents / 100, style.Group());
    ValueDigits(cents / 100);
    assert Digits(cents / 100)[0] in Digits(cents / 100);
  }

  lemma TwoValue(n: nat)
    requires n < 100
    ensures AllDigits(Two(n)) && Value(Two(n)) == n
  {
    ValueTwo("", n);
    assert "" + Two(n) == Two(n);
  }

  /** The last separators of a printed amount. */
  lemma MoneySeparators(whole: string, style: Style, decimals: string)
    requires style.Decimal() !in whole && forall c | c in decimals :: c !in SEPARATORS
    ensures var text := whole + [style.Decimal()] + decimals;
      && LastIndexOf(text, style.Decimal()) == |whole|
      && LastIndexOf(text, style.Group()) < |whole|
      && (LastIndexOf(text, style.Group()) >= 0 <==> style.Group() in whole)
      && LastIndexOf(text, style.Group()) >= -1
  {
    var group, point := style.Group(), style.Decimal();
    LastIndexAt(whole, point, decimals);
    assert whole + [point] + decimals == whole + ([point] + decimals);
    LastIndexBefore(whole, [point] + decimals, group);
    LastIndexBounds(whole, group);
    if group in whole {
      LastIndexPresent(whole, group);
    } else {
      LastIndexAbsent(whole, group);
    }
  }

  /** Where a printed amount splits. */
  lemma MoneySplit(whole: string, style: Style, decimals: string)
    requires style.Decimal() !in whole && forall c | c in decimals :: c !in SEPARATORS
    requires |decimals| != 3 || style.Group() in whole || |whole| <= 3
    ensures Split(whole + [style.Decimal()] + decimals) ==
            Parts(Without(whole, if style.Group() in whole then SEPARATORS else {style.Decimal()}), decimals)
  {
    hide LastIndexOf, Without;
    var text := whole + [style.Decimal()] + decimals;
    MoneySeparators(whole, style, decimals);
    assert text[..|whole|] == whole && text[|whole| + 1..] == decimals;
  }

  lemma {:induction false} LastIndexPresent(s: string, c: char)
    requires c in s
    ensures LastIndexOf(s, c) >= 0
  {
    if s[|s| - 1] != c {
      LastIndexPresent(s[..|s| - 1], c);
    }
  }

  /** A digit string with two decimal figures, or cut down to two, or with none. */
  lemma MagnitudeCents(whole: string, d: nat, decimals: string)
    requires AllDigits(whole) && whole != "" && d < 100
    requires decimals == Two(d) || (|decimals| > 2 && decimals[..2] == Two(d)) || (decimals == "" && d == 0)
    ensures MagnitudeOf(Parts(whole, decimals)) == Some(100 * Value(whole) + d)
  {
    TwoValue(d);
  }

  /** From the split of a text to its magnitude. */
  lemma MagnitudeFrom(text: string, whole: string, decimals: string, d: nat)
    requires Split(text) == Parts(whole, decimals)
    requires AllDigits(whole) && whole != "" && d < 100
    requires decimals == Two(d) || (|decimals| > 2 && decimals[..2] == Two(d)) || (decimals == "" && d == 0)
    ensures Magnitude(text) == Some(100 * Value(whole) + d)
  {
    MagnitudeCents(whole, d, decimals);
    assert Magnitude(text) == MagnitudeOf(Parts(whole, decimals));
  }

  /** The integer part of a printed amount, its separators removed. */
  lemma WholePart(n: nat, style: Style, grouped: bool)
    ensures var whole := if grouped then Grouped(n, style.Group()) else Digits(n);
            var bare := Without(whole, if style.Group() in whole then SEPARATORS else {style.Decimal()});
            && (forall c | c in whole :: IsDigit(c) || c == style.Group()) && style.Decimal() !in whole
            && AllDigits(bare) && bare != "" && Value(bare) == n
  {
    var whole := if grouped then Grouped(n, style.Group()) else Digits(n);
    GroupedCharacters(n, style.Group());
    ValueDigits(n);
    if style.Group() in whole {
      UngroupedValue(n, style.Group(), SEPARATORS);
    } else {
      assert whole == Digits(n);
      WithoutNothing(whole, {style.Decimal()});
    }
  }

  lemma TwoIsPlain(d: nat)
    requires d < 100
    ensures forall c | c in Two(d) :: c !in SEPARATORS
  {
  }

  lemma MoneyParts(cents: nat, style: Style, grouped: bool) returns (bare: string)
    ensures AllDigits(bare) && bare != "" && Value(bare) == cents / 100
    ensures Split(Money(cents, style, grouped)) == Parts(bare, Two(cents % 100))
  {
    hide Grouped, Digits, Split, Without, Value;
    var n := cents / 100;
    var whole := if grouped then Grouped(n, style.Group()) else Digits(n);
    WholePart(n, style, grouped);
    TwoValue(cents % 100);
    TwoIsPlain(cents % 100);
    MoneySplit(whole, style, Two(cents % 100));
    bare := Without(whole, if style.Group() in whole then SEPARATORS else {style.Decimal()});
  }

  lemma MoneyMagnitude(cents: nat, style: Style, grouped: bool)
    ensures Magnitude(Money(cents, style, grouped)) == Some(cents)
  {
    var bare := MoneyParts(cents, style, grouped);
    MagnitudeFrom(Money(cents, style, grouped), bare, Two(cents % 100), cents % 100);
  }

  /**
   * Round trip of amounts with two decimals: any number of digits, either style, grouped
   * or not, any sign mark, and any spaces and currency signs strewn in.
   */
  lemma AmountRoundTrip(raw: string, cents: nat, style: Style, grouped: bool, mark: SignMark)
    requires mark.Valid() && Cleaned(raw) == mark.Around(Money(cents, style, grouped))
    ensures ParseAmount(raw) == Some(mark.Signed(cents))
  {
    MoneyBald(cents, style, grouped);
    MoneyMagnitude(cents, style, grouped);
    SignStage(raw, Money(cents, style, grouped), mark, cents);
  }

  /** Where a whole amount with at least one separator splits. */
  lemma WholeSplit(text: string, head: string, sep: char, tail: string)
    requires sep in SEPARATORS && AllDigits(tail) && |tail| == 3 && text == head + [sep] + tail
    requires forall c | c in head :: IsDigit(c) || c == sep
    ensures Split(text) ==
            if |head| > 3 then Parts(Without(text, {sep}), "") else Parts(Without(head, {sep}), tail)
  {
    var other := if sep == '.' then ',' else '.';
    assert forall c | c in text :: c in head || c == sep || c in tail;
    LastIndexAbsent(text, other);
    LastIndexAt(head, sep, tail);
    assert text[..|head|] == head && text[|head| + 1..] == tail;
    assert other !in head;
  }

  /** Below a thousand there is no separator. */
  lemma SmallMagnitude(n: nat)
    requires n < 1000
    ensures Magnitude(Digits(n)) == Some(100 * n)
  {
    ValueDigits(n);
    LastIndexAbsent(Digits(n), '.');
    LastIndexAbsent(Digits(n), ',');
    MagnitudeFrom(Digits(n), Digits(n), "", 0);
  }

  lemma MediumParts(n: nat, sep: char) returns (whole: string, tail: string)
    requires sep in SEPARATORS && 1000 <= n < 1_000_000
    ensures AllDigits(whole) && whole != "" && Value(whole) == n / 1000
    ensures |tail| == 3 && tail[..2] == Two(n % 1000 / 10)
    ensures Split(Grouped(n, sep)) == Parts(whole, tail)
  {
    whole, tail := Digits(n / 1000), Three(n % 1000);
    DigitsShort(n / 1000);
    ValueDigits(n / 1000);
    ValueThree("", n % 1000);
    assert "" + tail == tail;
    FirstTwo(n % 1000);
    assert Grouped(n / 1000, sep) == whole;
    WholeSplit(Grouped(n, sep), whole, sep, tail);
    WithoutNothing(whole, {sep});
  }

  /** Exactly one separator: the last group is read as decimals. */
  lemma MediumMagnitude(n: nat, sep: char)
    requires sep in SEPARATORS && 1000 <= n < 1_000_000
    ensures Magnitude(Grouped(n, sep)) == Some(n / 10)
  {
    var whole, tail := MediumParts(n, sep);
    MagnitudeFrom(Grouped(n, sep), whole, tail, n % 1000 / 10);
    TenthOf(n);
  }

  lemma TenthOf(n: nat)
    ensures n / 10 == 100 * (n / 1000) + n % 1000 / 10
  {
  }

  lemma LargeParts(n: nat, sep: char) returns (bare: string)
    requires sep in SEPARATORS && n >= 1_000_000
    ensures AllDigits(bare) && bare != "" && Value(bare) == n
    ensures Split(Grouped(n, sep)) == Parts(bare, "")
  {
    var head, d := Grouped(n / 1000, sep), n % 1000;
    GroupedCharacters(n / 1000, sep);
    ValueThree("", d);
    assert "" + Three(d) == Three(d);
    WholeSplit(Grouped(n, sep), head, sep, Three(d));
    UngroupedValue(n, sep, {sep});
    bare := Without(Grouped(n, sep), {sep});
  }

  /** At least two separators: all of them are grouping. */
  lemma LargeMagnitude(n: nat, sep: char)
    requires sep in SEPARATORS && n >= 1_000_000
    ensures Magnitude(Grouped(n, sep)) == Some(100 * n)
  {
    var bare := LargeParts(n, sep);
    MagnitudeFrom(Grouped(n, sep), bare, "", 0);
  }

  /** Cutting a three-digit group to two characters divides it by ten. */
  lemma FirstTwo(d: nat)
    requires d < 1000
    ensures Three(d)[..2] == Two(d / 10)
  {
    assert d / 10 / 10 == d / 100 && d / 10 % 10 == d % 100 / 10;
  }

  /**
   * Whole amounts printed with thousands separators: read back exactly when the print
   * has no separator or at least two. With exactly one separator the last group is
   * taken for decimals and its third digit is dropped.
   */
  lemma WholeAmountRoundTripIff(raw: string, n: nat, style: Style, mark: SignMark)
    requires mark.Valid() && Cleaned(raw) == mark.Around(Grouped(n, style.Group()))
    ensures ParseAmount(raw) == Some(mark.Signed(100 * n)) <==> n < 1000 || n >= 1_000_000
    ensures 1000 <= n < 1_000_000 ==> ParseAmount(raw) == Some(mark.Signed(n / 10))
  {
    GroupedCharacters(n, style.Group());
    if n < 1000 {
      SmallMagnitude(n);
    } else if n < 1_000_000 {
      MediumMagnitude(n, style.Group());
    } else {
      LargeMagnitude(n, style.Group());
    }
    SignStage(raw, Grouped(n, style.Group()), mark, if 1000 <= n < 1_000_000 then n / 10 else 100 * n);
  }

  // ---- Other figures ---------------------------------------------------------------------

  /** Upper case by code point, on the Latin letters. */
  lemma UpperIs(c: char)
    ensures var n := c as int; Upper(c) as int == if 97 <= n <= 122 then n - 32 else n
  {
  }

  /** Round trip of amounts with one decimal: the figure counts tens of cents. */
  lemma OneDecimalRoundTrip(raw: string, n: nat, d: nat, style: Style, grouped: bool, mark: SignMark)
    requires mark.Valid() && d < 10
    requires Cleaned(raw) ==
             mark.Around((if grouped then Grouped(n, style.Group()) else Digits(n)) + [style.Decimal()] + [Figure(d)])
    ensures ParseAmount(raw) == Some(mark.Signed(100 * n + 10 * d))
  {
    hide Grouped, Digits, Split, Without, Value, ParseAmount, Cleaned;
    var whole := if grouped then Grouped(n, style.Group()) else Digits(n);
    var text := whole + [style.Decimal()] + [Figure(d)];
    WholePart(n, style, grouped);
    WholeStarts(n, style, grouped);
    FigureIs(d);
    assert text[0] == whole[0];
    MoneySplit(whole, style, [Figure(d)]);
    OneFigure(Without(whole, if style.Group() in whole then SEPARATORS else {style.Decimal()}), d);
    SignStage(raw, text, mark, 100 * n + 10 * d);
  }

  lemma FigureIs(d: nat)
    requires d < 10
    ensures IsDigit(Figure(d)) && Digit(Figure(d)) == d && Figure(d) !in SEPARATORS
  {
  }

  lemma WholeStarts(n: nat, style: Style, grouped: bool)
    ensures var whole := if grouped then Grouped(n, style.Group()) else Digits(n); whole != "" && IsDigit(whole[0])
  {
    GroupedCharacters(n, style.Group());
    ValueDigits(n);
    assert Digits(n)[0] in Digits(n);
  }

  lemma OneFigure(whole: string, d: nat)
    requires AllDigits(whole) && whole != "" && d < 10
    ensures MagnitudeOf(Parts(whole, [Figure(d)])) == Some(100 * Value(whole) + 10 * d)
  {
    FigureIs(d);
  }

  // ---- What is no amount -----------------------------------------------------------------

  lemma {:induction false} WithoutFewer(s: string, drop: set<char>)
    ensures forall c | c in Without(s, drop) :: c in s && c !in drop
  {
    if s != "" {
      WithoutFewer(s[..|s| - 1], drop);
    }
  }

  lemma {:induction false} WithoutCodesFewer(s: string, i: nat)
    requires i <= |s|
    ensures forall c | c in WithoutCodes(s, i) :: c in s
    decreases |s| - i
  {
    if i < |s| {
      if CodeAt(s, i) {
        WithoutCodesFewer(s, i + 3);
      } else {
        WithoutCodesFewer(s, i + 1);
      }
    }
  }

  lemma PeelFewer(s: string)
    ensures forall c | c in Peel(s).text :: c in s
  {
    var paren := |s| >= 2 && s[0] == '(' && s[|s| - 1] == ')';
    var inner := if paren then s[1..|s| - 1] else s;
    var tail := if inner != "" && inner[0] in MINUS_SIGNS then inner[1..] else inner;
    var body := if tail != "" && tail[|tail| - 1] in MINUS_SIGNS then tail[..|tail| - 1] else tail;
    assert forall c | c in inner :: c in s;
    assert forall c | c in tail :: c in inner;
    assert forall c | c in body :: c in tail;
  }

  lemma SplitFewer(s: string)
    ensures forall c | c in Split(s).whole :: c in s
  {
    LastIndexBounds(s, ',');
    LastIndexBounds(s, '.');
    var comma, dot := LastIndexOf(s, ','), LastIndexOf(s, '.');
    if comma != -1 || dot != -1 {
      var at := if comma > dot then comma else dot;
      WithoutFewer(s[..at], SEPARATORS);
      WithoutFewer(s[..at], {','});
      WithoutFewer(s[..at], {'.'});
      WithoutFewer(s, {','});
      WithoutFewer(s, {'.'});
    }
  }

  lemma NoDigitsNoMagnitude(s: string)
    requires forall c | c in s :: !IsDigit(c)
    ensures Magnitude(s) == None
  {
    SplitFewer(s);
    var w := Split(s).whole;
    if w != "" {
      assert w[0] in w;
    }
  }

  /** A text without figures is no amount. */
  lemma NoFiguresNoAmount(raw: string)
    requires forall c | c in raw :: !IsDigit(c)
    ensures ParseAmount(raw) == None
  {
    WithoutFewer(raw, SPACES);
    WithoutFewer(Without(raw, SPACES), CURRENCY_SIGNS);
    var s := WithoutCodes(Cleaned(raw), 0);
    WithoutCodesFewer(Cleaned(raw), 0);
    PeelFewer(s);
    hide Peel, Without, WithoutCodes, Magnitude;
    NoDigitsNoMagnitude(Peel(s).text);
    NoDigitsNoMagnitude("");
  }

  /**
   * What stands before the decimals must be figures, at least one, and what counts of the
   * decimals, their first two characters, must be figures too or an exponent, which is
   * worth nothing; the rest of the decimals is ignored.
   */
  lemma MeasuredIff(whole: string, decimals: string)
    ensures var two := if |decimals| > 2 then decimals[..2] else decimals;
      var exponent := |two| == 2 && (two[0] == 'e' || two[0] == 'E') && IsDigit(two[1]);
      var m := MagnitudeOf(Parts(whole, decimals));
      && (m.Some? <==> whole != "" && AllDigits(whole) && (AllDigits(two) || exponent))
      && (m.Some? ==> m.value / 100 == Value(whole))
      && (m.Some? && exponent ==> m.value % 100 == 0)
      && (m.Some? && !exponent && |two| == 2 ==> m.value % 100 == Value(two))
      && (m.Some? && |two| == 1 ==> m.value % 100 == 10 * Value(two))
      && (m.Some? && two == "" ==> m.value % 100 == 0)
  {
    var two := if |decimals| > 2 then decimals[..2] else decimals;
    if |two| == 2 && AllDigits(two) {
      TwoFigures(two);
    } else if |two| == 1 && AllDigits(two) {
      OneFigureValue(two);
    }
    if |two| == 2 && (two[0] == 'e' || two[0] == 'E') {
      assert two[0] in two && !IsDigit(two[0]);
    }
  }

  lemma TwoFigures(s: string)
    requires |s| == 2 && AllDigits(s)
    ensures Value(s) < 100
  {
    assert s[0] in s && s[1] in s;
    assert s[..1][..0] == "" && s[..1][0] == s[0];
    assert Value(s[..1]) == 10 * Value("") + Digit(s[0]);
    assert Value(s) == 10 * Value(s[..1]) + Digit(s[1]);
  }

  lemma OneFigureValue(s: string)
    requires |s| == 1 && AllDigits(s)
    ensures s[0] in s && Value(s) == Digit(s[0]) && Digit(s[0]) < 10
  {
    assert s[0] in s && s[..0] == "";
  }
}
