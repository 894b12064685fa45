/** `parseDateFromToken`: dates at the start of a word, and the printed forms it reads back. */
module DateTokens {
  import opened Options
  import opened Amounts
  import opened Calendar
  import Fingerprints

  const DATE_SEPARATORS: set<char> := {'-', '/', '.'}
  const LINE_ENDS: set<char> := {'\n', '\r', '\U{2028}', '\U{2029}'}

  function Trim(s: string): string {
    Fingerprints.TrimRight(Fingerprints.TrimLeft(s))
  }

  // ---- Matching --------------------------------------------------------------------------

  /** A matched piece and what follows it. */
  datatype Piece = Piece(text: string, after: string)

  /** Leading characters of a class, at most `n`. */
  function Run(s: string, among: char -> bool, n: nat): (k: nat)
    ensures k <= |s| && k <= n
  {
    if n == 0 || s == "" || !among(s[0]) then 0 else 1 + Run(s[1..], among, n - 1)
  }

  lemma {:induction false} RunIs(a: string, t: string, among: char -> bool, n: nat)
    requires (forall c | c in a :: among(c)) && |a| <= n
    requires |a| == n || t == "" || !among(t[0])
    ensures Run(a + t, among, n) == |a|
  {
    if a == "" {
      assert a + t == t;
    } else {
      assert a[0] in a && forall c | c in a[1..] :: c in a;
      assert (a + t)[1..] == a[1..] + t;
      RunIs(a[1..], t, among, n - 1);
    }
  }

  lemma {:induction false} RunDigits(s: string, n: nat)
    ensures AllDigits(s[..Run(s, IsDigit, n)])
  {
    if n > 0 && s != "" && IsDigit(s[0]) {
      RunDigits(s[1..], n - 1);
      assert s[..Run(s, IsDigit, n)] == [s[0]] + s[1..][..Run(s[1..], IsDigit, n - 1)];
    }
  }

  /** `(\d{lo,hi})`. */
  function Number(s: string, lo: nat, hi: nat): (p: Option<Piece>)
    ensures p.Some? ==> AllDigits(p.value.text)
  {
    var k := Run(s, IsDigit, hi);
    RunDigits(s, hi);
    if k < lo then None else Some(Piece(s[..k], s[k..]))
  }

  lemma NumberIs(a: string, t: string, lo: nat, hi: nat)
    requires AllDigits(a) && lo <= |a| <= hi && (|a| == hi || t == "" || !IsDigit(t[0]))
    ensures Number(a + t, lo, hi) == Some(Piece(a, t))
  {
    RunIs(a, t, IsDigit, hi);
    assert (a + t)[..|a|] == a && (a + t)[|a|..] == t;
  }

  predicate Separated(s: string) {
    s != "" && s[0] in DATE_SEPARATORS
  }

  /** The three groups of a date form, in reading order, and what follows them. */
  datatype Fields = Fields(first: string, second: string, third: string, rest: string)

  /** What `.*$` accepts. */
  predicate OneLine(s: string) {
    forall c | c in s :: c !in LINE_ENDS
  }

  /** `[-/.](\d{lo,hi})`. */
  function NextNumber(s: string, lo: nat, hi: nat): (p: Option<Piece>)
    ensures p.Some? ==> AllDigits(p.value.text)
  {
    if Separated(s) then Number(s[1..], lo, hi) else None
  }

  lemma NextNumberIs(p: char, a: string, t: string, lo: nat, hi: nat)
    requires p in DATE_SEPARATORS
    requires AllDigits(a) && lo <= |a| <= hi && (|a| == hi || t == "" || !IsDigit(t[0]))
    ensures NextNumber([p] + a + t, lo, hi) == Some(Piece(a, t))
  {
    NumberIs(a, t, lo, hi);
    assert ([p] + a + t)[1..] == a + t;
  }

  /** `^(\d{a,b})[-/.](\d{1,2})[-/.](\d{c,d})(.*)$`. */
  function ThreeNumbers(s: string, a: nat, b: nat, c: nat, d: nat): (f: Option<Fields>)
    ensures f.Some? ==> AllDigits(f.value.first) && AllDigits(f.value.second) && AllDigits(f.value.third)
  {
    match Number(s, a, b)
    case None => None
    case Some(first) =>
      match NextNumber(first.after, 1, 2)
      case None => None
      case Some(second) =>
        match NextNumber(second.after, c, d)
        case None => None
        case Some(third) =>
          if OneLine(third.after) then Some(Fields(first.text, second.text, third.text, third.after)) else None
  }

  /** `[a-záéíóúñ]` without regard to case. */
  predicate IsLetter(c: char) {
    var l := Fingerprints.Lower(c);
    'a' <= l <= 'z' || l in {'\U{E1}', '\U{E9}', '\U{ED}', '\U{F3}', '\U{FA}', '\U{F1}'}
  }

  /** `[-/.]?\s*`. */
  function SkipGap(s: string): string {
    Fingerprints.TrimLeft(if Separated(s) then s[1..] else s)
  }

  /** `[-/.]?\s*([a-z...]{3,9})`. */
  function Word(s: string): (p: Option<Piece>)
    ensures p.Some? ==> |p.value.text| >= 3
  {
    var t := SkipGap(s);
    var k := Run(t, IsLetter, 9);
    if k < 3 then None else Some(Piece(t[..k], t[k..]))
  }

  /** `^(\d{1,2})[-/.]?\s*([a-z...]{3,9})[-/.]?\s*(\d{2,4})(.*)$`. */
  function SpelledOut(s: string): (f: Option<Fields>)
    ensures f.Some? ==> AllDigits(f.value.first) && |f.value.second| >= 3 && AllDigits(f.value.third)
  {
    match Number(s, 1, 2)
    case None => None
    case Some(day) =>
      match Word(day.after)
      case None => None
      case Some(word) =>
        match Number(SkipGap(word.after), 2, 4)
        case None => None
        case Some(year) =>
          if OneLine(year.after) then Some(Fields(day.text, word.text, year.text, year.after)) else None
  }

  /** `MONTH_MAP` on the first three letters: Spanish and English abbreviations. */
  function MonthNamed(word: string): Option<int>
    requires |word| >= 3
  {
    var m := Fingerprints.LowerAll(word)[..3];
    if m == "ene" || m == "jan" then Some(1)
    else if m == "feb" then Some(2)
    else if m == "mar" then Some(3)
    else if m == "abr" || m == "apr" then Some(4)
    else if m == "may" then Some(5)
    else if m == "jun" then Some(6)
    else if m == "jul" then Some(7)
    else if m == "ago" || m == "aug" then Some(8)
    else if m == "sep" || m == "set" then Some(9)
    else if m == "oct" then Some(10)
    else if m == "nov" then Some(11)
    else if m == "dic" || m == "dec" then Some(12)
    else None
  }

  // ---- The reader ------------------------------------------------------------------------

  /** A date and the text behind it, empty when there is none. */
  datatype Dated = Dated(date: Date, rest: string)

  predicate InRange(d: Date) {
    d.Valid() && 1900 <= d.year <= 2100
  }

  function BuildDate(y: int, m: int, d: int): (r: Option<Date>)
    ensures r.Some? ==> InRange(r.value)
  {
    if y < 1900 || y > 2100 || m < 1 || m > 12 || d < 1 || d > 31 then None
    else if d > DaysIn(12 * y + m - 1) then None
    else Some(Date(y, m - 1, d))
  }

  function TwoDigitYear(yy: int): int {
    if yy < 70 then 2000 + yy else 1900 + yy
  }

  function YearOf(digits: string): int
    requires AllDigits(digits)
  {
    if |digits| == 4 then Value(digits) else TwoDigitYear(Value(digits))
  }

  function Found(date: Option<Date>, rest: string): (r: Option<Dated>)
    ensures r.Some? <==> date.Some?
    ensures r.Some? ==> r.value.date == date.value
  {
    match date
    case None => None
    case Some(d) => Some(Dated(d, Trim(rest)))
  }

  function FromIso(s: string): (r: Option<Dated>)
    ensures r.Some? ==> InRange(r.value.date)
  {
    match ThreeNumbers(s, 4, 4, 1, 2)
    case None => None
    case Some(f) => Found(BuildDate(Value(f.first), Value(f.second), Value(f.third)), f.rest)
  }

  function FromDayFirst(s: string): (r: Option<Dated>)
    ensures r.Some? ==> InRange(r.value.date)
  {
    match ThreeNumbers(s, 1, 2, 2, 4)
    case None => None
    case Some(f) => Found(BuildDate(YearOf(f.third), Value(f.second), Value(f.first)), f.rest)
  }

  function FromSpelledOut(s: string): (r: Option<Dated>)
    ensures r.Some? ==> InRange(r.value.date)
  {
    match SpelledOut(s)
    case None => None
    case Some(f) =>
      match MonthNamed(f.second)
      case None => None
      case Some(m) => Found(BuildDate(YearOf(f.third), m, Value(f.first)), f.rest)
  }

  /** `parseDateFromToken`: the three forms in turn. */
  function ParseDate(raw: string): (r: Option<Dated>)
    ensures r.Some? ==> InRange(r.value.date)
  {
    var token := Trim(raw);
    var iso := FromIso(token);
    if iso.Some? then iso
    else
      var dayFirst := FromDayFirst(token);
      if dayFirst.Some? then dayFirst else FromSpelledOut(token)
  }

  // ---- Months ----------------------------------------------------------------------------

  predicate Spells(w: string, a: char, b: char, c: char) {
    |w| == 3 && w[0] == a && w[1] == b && w[2] == c
  }

  /** The beginnings of month words, in Spanish and in English, from January on. */
  predicate BeginsMonth(w: string, m: int) {
    match m
    case 0 => Spells(w, 'e', 'n', 'e') || Spells(w, 'j', 'a', 'n')
    case 1 => Spells(w, 'f', 'e', 'b')
    case 2 => Spells(w, 'm', 'a', 'r')
    case 3 => Spells(w, 'a', 'b', 'r') || Spells(w, 'a', 'p', 'r')
    case 4 => Spells(w, 'm', 'a', 'y')
    case 5 => Spells(w, 'j', 'u', 'n')
    case 6 => Spells(w, 'j', 'u', 'l')
    case 7 => Spells(w, 'a', 'g', 'o') || Spells(w, 'a', 'u', 'g')
    case 8 => Spells(w, 's', 'e', 'p') || Spells(w, 's', 'e', 't')
    case 9 => Spells(w, 'o', 'c', 't')
    case 10 => Spells(w, 'n', 'o', 'v')
    case 11 => Spells(w, 'd', 'i', 'c') || Spells(w, 'd', 'e', 'c')
    case _ => false
  }

  /** The letters of a month word, by code point. */
  predicate MonthLetter(c: char) {
    var n := c as int;
    65 <= n <= 90 || 97 <= n <= 122 || n in {193, 201, 205, 209, 211, 218, 225, 233, 237, 241, 243, 250}
  }

  lemma IsLetterIff(c: char)
    ensures IsLetter(c) <==> MonthLetter(c)
  {
    Fingerprints.LowerIs(c);
  }

  lemma SpellsIs(w: string, a: char, b: char, c: char)
    ensures Spells(w, a, b, c) <==> w == [a, b, c]
  {
  }

  /** A word names the month whose beginning it has, and none if it has none of them. */
  lemma MonthNamedIff(word: string, m: int)
    requires |word| >= 3
    ensures MonthNamed(word) == Some(m + 1) <==> BeginsMonth(Fingerprints.LowerAll(word)[..3], m)
  {
    var w := Fingerprints.LowerAll(word)[..3];
    SpellsIs(w, 'e', 'n', 'e');
    SpellsIs(w, 'j', 'a', 'n');
    SpellsIs(w, 'f', 'e', 'b');
    SpellsIs(w, 'm', 'a', 'r');
    SpellsIs(w, 'a', 'b', 'r');
    SpellsIs(w, 'a', 'p', 'r');
    SpellsIs(w, 'm', 'a', 'y');
    SpellsIs(w, 'j', 'u', 'n');
    SpellsIs(w, 'j', 'u', 'l');
    SpellsIs(w, 'a', 'g', 'o');
    SpellsIs(w, 'a', 'u', 'g');
    SpellsIs(w, 's', 'e', 'p');
    SpellsIs(w, 's', 'e', 't');
    SpellsIs(w, 'o', 'c', 't');
    SpellsIs(w, 'n', 'o', 'v');
    SpellsIs(w, 'd', 'i', 'c');
    SpellsIs(w, 'd', 'e', 'c');
    hide Fingerprints.LowerAll;
  }

  // ---- Printed dates ---------------------------------------------------------------------

  /** `[-/.]?\s*` matches all of it. */
  predicate IsGap(g: string) {
    g == "" || ((g[0] in DATE_SEPARATORS || g[0] in SPACES) && forall c | c in g[1..] :: c in SPACES)
  }

  /** One or two digits. */
  predicate Numeral(s: string, n: nat) {
    AllDigits(s) && 1 <= |s| <= 2 && Value(s) == n
  }

  /** The digits of a date: the day and the month with or without a leading zero, the year in full or cut to two. */
  datatype Written = Written(day: string, month: string, year: string)
  {
    predicate Writes(date: Date) {
      && InRange(date) && Numeral(day, date.day) && Numeral(month, date.month + 1)
      && AllDigits(year)
      && ((|year| == 4 && Value(year) == date.year) || (|year| == 2 && Value(year) == date.year % 100))
    }
  }

  /** The written forms of a date; `p`, `q` or the gaps stand between its parts. */
  datatype Form = YearFirst(p: char, q: char) | DayFirst(p: char, q: char)
    | Spelled(before: string, word: string, after: string)
  {
    /** The form fits the date, and the text behind it does not prolong its last number. */
    predicate Valid(date: Date, w: Written, rest: string) {
      && (rest != "" && IsDigit(rest[0]) ==> if YearFirst? then |w.day| == 2 else |w.year| == 4)
      && match this
         case YearFirst(p, q) => p in DATE_SEPARATORS && q in DATE_SEPARATORS && |w.year| == 4
         case DayFirst(p, q) => p in DATE_SEPARATORS && q in DATE_SEPARATORS
         case Spelled(before, word, after) =>
           && IsGap(before) && IsGap(after)
           && 3 <= |word| <= 9 && (forall c | c in word :: MonthLetter(c))
           && BeginsMonth(Fingerprints.LowerAll(word)[..3], date.month)
    }

    function Text(w: Written): string {
      match this
      case YearFirst(p, q) => w.year + [p] + w.month + [q] + w.day
      case DayFirst(p, q) => w.day + [p] + w.month + [q] + w.year
      case Spelled(before, word, after) => w.day + before + word + after + w.year
    }
  }

  lemma ThreeNumbersIs(x: string, p: char, y: string, q: char, z: string, t: string, a: nat, b: nat, c: nat, d: nat)
    requires AllDigits(x) && AllDigits(y) && AllDigits(z)
    requires p in DATE_SEPARATORS && q in DATE_SEPARATORS && OneLine(t)
    requires a <= |x| <= b && 1 <= |y| <= 2 && c <= |z| <= d && (|z| == d || t == "" || !IsDigit(t[0]))
    ensures ThreeNumbers(x + [p] + y + [q] + z + t, a, b, c, d) == Some(Fields(x, y, z, t))
  {
    var third := [q] + z + t;
    var second := [p] + y + third;
    assert x + [p] + y + [q] + z + t == x + second;
    NumberIs(x, second, a, b);
    NextNumberIs(p, y, third, 1, 2);
    NextNumberIs(q, z, t, c, d);
  }

  lemma DigitIsNoSpace(c: char)
    requires IsDigit(c)
    ensures c !in SPACES && !IsLetter(c) && c !in DATE_SEPARATORS
  {
  }

  lemma BuildIs(date: Date)
    requires InRange(date)
    ensures BuildDate(date.year, date.month + 1, date.day) == Some(date)
  {
  }

  lemma YearFirstIsRead(date: Date, w: Written, p: char, q: char, t: string)
    requires w.Writes(date) && YearFirst(p, q).Valid(date, w, t) && OneLine(t)
    ensures FromIso(YearFirst(p, q).Text(w) + t) == Some(Dated(date, Trim(t)))
  {
    ThreeNumbersIs(w.year, p, w.month, q, w.day, t, 4, 4, 1, 2);
    BuildIs(date);
    hide ThreeNumbers, BuildDate;
  }

  /** One or two digits and something else cannot be a year. */
  lemma NotYearFirst(day: string, t: string)
    requires AllDigits(day) && 1 <= |day| <= 2 && t != "" && !IsDigit(t[0])
    ensures FromIso(day + t).None?
  {
    RunIs(day, t, IsDigit, 4);
  }

  /** A number after the separator is no month word. */
  lemma NotSpelledOut(day: string, p: char, t: string)
    requires AllDigits(day) && 1 <= |day| <= 2 && p in DATE_SEPARATORS && t != "" && IsDigit(t[0])
    ensures FromSpelledOut(day + [p] + t).None?
  {
    NumberIs(day, [p] + t, 1, 2);
    assert day + [p] + t == day + ([p] + t) && ([p] + t)[1..] == t;
    DigitIsNoSpace(t[0]);
    assert Fingerprints.TrimLeft(t) == t;
  }

  lemma DayFirstIsRead(date: Date, w: Written, p: char, q: char, t: string)
    requires w.Writes(date) && DayFirst(p, q).Valid(date, w, t) && OneLine(t)
    ensures FromDayFirst(DayFirst(p, q).Text(w) + t) == Found(BuildDate(YearOf(w.year), date.month + 1, date.day), t)
  {
    ThreeNumbersIs(w.day, p, w.month, q, w.year, t, 1, 2, 2, 4);
  }

  /** A numeric date is read by no other form. */
  lemma DayFirstOnly(day: string, p: char, month: string, t: string)
    requires AllDigits(day) && 1 <= |day| <= 2 && p in DATE_SEPARATORS && AllDigits(month) && 1 <= |month| <= 2
    ensures FromIso(day + [p] + month + t).None? && FromSpelledOut(day + [p] + month + t).None?
  {
    assert day + [p] + month + t == day + [p] + (month + t);
    assert day + [p] + month + t == day + ([p] + month + t);
    assert month[0] in month;
    SeparatorIsNoSpace(p);
    NotYearFirst(day, [p] + month + t);
    NotSpelledOut(day, p, month + t);
  }

  lemma {:induction false} TrimLeftSpaces(g: string, t: string)
    requires (forall c | c in g :: c in SPACES) && t != "" && t[0] !in SPACES
    ensures Fingerprints.TrimLeft(g + t) == t
  {
    if g == "" {
      assert g + t == t;
    } else {
      assert g[0] in g && forall c | c in g[1..] :: c in g;
      assert (g + t)[1..] == g[1..] + t;
      TrimLeftSpaces(g[1..], t);
    }
  }

  lemma SeparatorIsNoSpace(c: char)
    requires c in DATE_SEPARATORS
    ensures c !in SPACES && !IsLetter(c) && !IsDigit(c)
  {
  }

  lemma SpaceIsNoLetter(c: char)
    requires c in SPACES
    ensures !IsLetter(c) && !IsDigit(c)
  {
  }

  lemma LetterIsNoGap(c: char)
    requires IsLetter(c)
    ensures c !in SPACES && c !in DATE_SEPARATORS && !IsDigit(c)
  {
    if c in SPACES {
      SpaceIsNoLetter(c);
    }
  }

  lemma SkipGapIs(g: string, t: string)
    requires IsGap(g) && t != "" && t[0] !in SPACES && t[0] !in DATE_SEPARATORS
    ensures SkipGap(g + t) == t
  {
    if g == "" {
      assert g + t == t;
    } else if g[0] in DATE_SEPARATORS {
      assert (g + t)[1..] == g[1..] + t;
      TrimLeftSpaces(g[1..], t);
    } else {
      TrimLeftSpaces(g, t);
    }
  }

  /** What stands between the parts of a spelled-out date is neither a digit nor a letter. */
  lemma GapStarts(g: string, t: string)
    requires IsGap(g) && g != ""
    ensures !IsDigit((g + t)[0]) && !IsLetter((g + t)[0])
  {
    if g[0] in DATE_SEPARATORS {
      SeparatorIsNoSpace(g[0]);
    } else {
      SpaceIsNoLetter(g[0]);
    }
  }

  lemma WordIs(before: string, word: string, tail: string)
    requires IsGap(before) && 3 <= |word| <= 9 && (forall c | c in word :: IsLetter(c))
    requires tail != "" && !IsLetter(tail[0])
    ensures Word(before + word + tail) == Some(Piece(word, tail))
  {
    var t := word + tail;
    assert word[0] in word;
    LetterIsNoGap(word[0]);
    assert before + word + tail == before + t;
    SkipGapIs(before, t);
    RunIs(word, tail, IsLetter, 9);
    assert t[..|word|] == word && t[|word|..] == tail;
  }

  lemma SpelledIsRead(day: string, before: string, word: string, after: string, year: string, t: string)
    requires AllDigits(day) && 1 <= |day| <= 2 && OneLine(t)
    requires AllDigits(year) && 2 <= |year| <= 4 && (|year| == 4 || t == "" || !IsDigit(t[0]))
    requires IsGap(before) && IsGap(after) && 3 <= |word| <= 9 && forall c | c in word :: IsLetter(c)
    ensures SpelledOut(day + before + word + after + year + t) == Some(Fields(day, word, year, t))
  {
    var last := year + t;
    var tail := after + last;
    var middle := before + word + tail;
    Regroup(day, before, word, after, year, t);
    assert word[0] in word;
    LetterIsNoGap(word[0]);
    YearStarts(after, year, t);
    MiddleStarts(before, word, tail);
    hide Number, Word, SkipGap, IsGap, IsLetter, OneLine, SpelledOut, MonthNamed;
    NumberIs(day, middle, 1, 2);
    WordIs(before, word, tail);
    SkipGapIs(after, last);
    NumberIs(year, t, 2, 4);
    SpelledOutBy(day + middle, day, middle, word, tail, year, t);
  }

  lemma SpelledOutBy(s: string, day: string, middle: string, word: string, tail: string, year: string, t: string)
    requires Number(s, 1, 2) == Some(Piece(day, middle)) && Word(middle) == Some(Piece(word, tail))
    requires Number(SkipGap(tail), 2, 4) == Some(Piece(year, t)) && OneLine(t)
    ensures SpelledOut(s) == Some(Fields(day, word, year, t))
  {
  }

  lemma Join(a: string, b: string, c: string)
    ensures a + b + c == a + (b + c)
  {
  }

  lemma Regroup(a: string, b: string, c: string, d: string, e: string, f: string)
    ensures a + b + c + d + e + f == a + (b + c + (d + (e + f)))
  {
    Join(a + b + c + d, e, f);
    Join(a + b + c, d, e + f);
    Join(a, b, c);
    Join(a, b + c, d + (e + f));
  }

  lemma YearStarts(after: string, year: string, t: string)
    requires IsGap(after) && AllDigits(year) && year != ""
    ensures var last := year + t;
      && after + last != "" && !IsLetter((after + last)[0])
      && last[0] !in SPACES && last[0] !in DATE_SEPARATORS
  {
    assert year[0] in year;
    DigitIsNoSpace(year[0]);
    if after == "" {
      assert after + (year + t) == year + t;
    } else {
      GapStarts(after, year + t);
    }
  }

  lemma MiddleStarts(before: string, word: string, tail: string)
    requires IsGap(before) && word != "" && !IsDigit(word[0])
    ensures !IsDigit((before + word + tail)[0])
  {
    assert before + word + tail == before + (word + tail);
    if before != "" {
      GapStarts(before, word + tail);
    }
  }

  /** A word after the day is no numeric month. */
  lemma NotDayFirst(day: string, before: string, t: string)
    requires AllDigits(day) && 1 <= |day| <= 2 && IsGap(before) && t != "" && IsLetter(t[0])
    ensures FromDayFirst(day + (before + t)).None? && FromIso(day + (before + t)).None?
  {
    var tail := before + t;
    LetterIsNoGap(t[0]);
    if before == "" {
      assert tail == t;
    } else {
      GapStarts(before, t);
    }
    GapIsNoNumber(before, t);
    NotYearFirst(day, tail);
    hide NextNumber, Number, IsGap, IsLetter;
    NumberIs(day, tail, 1, 2);
  }

  lemma GapIsNoNumber(before: string, t: string)
    requires IsGap(before) && t != "" && IsLetter(t[0])
    ensures NextNumber(before + t, 1, 2).None?
  {
    LetterIsNoGap(t[0]);
    if before == "" {
      assert before + t == t;
    } else if before[0] in DATE_SEPARATORS {
      assert (before + t)[1..] == before[1..] + t;
      if |before| > 1 {
        assert before[1] in before[1..];
        SpaceIsNoLetter(before[1]);
      } else {
        assert before[1..] + t == t;
      }
    } else {
      SpaceIsNoSeparator(before[0]);
    }
  }

  lemma SpaceIsNoSeparator(c: char)
    requires c in SPACES
    ensures c !in DATE_SEPARATORS
  {
  }

  lemma SpelledOnly(day: string, before: string, word: string, t: string)
    requires AllDigits(day) && 1 <= |day| <= 2 && IsGap(before) && word != "" && IsLetter(word[0])
    ensures FromDayFirst(day + before + word + t).None? && FromIso(day + before + word + t).None?
  {
    assert day + before + word + t == day + (before + (word + t));
    NotDayFirst(day, before, word + t);
  }

  lemma SpelledDateIsRead(date: Date, w: Written, before: string, word: string, after: string, t: string)
    requires w.Writes(date) && Spelled(before, word, after).Valid(date, w, t) && OneLine(t)
    ensures FromSpelledOut(Spelled(before, word, after).Text(w) + t)
         == Found(BuildDate(YearOf(w.year), date.month + 1, date.day), t)
  {
    forall c | c in word
      ensures IsLetter(c)
    {
      IsLetterIff(c);
    }
    MonthNamedIff(word, date.month);
    hide MonthNamed, BeginsMonth;
    SpelledIsRead(w.day, before, word, after, w.year, t);
  }

  /** Which reader a form reaches, and what it makes of it. */
  lemma FormIsRead(date: Date, w: Written, form: Form, t: string)
    requires w.Writes(date) && form.Valid(date, w, t) && OneLine(t) && !form.YearFirst?
    ensures var s := form.Text(w) + t;
      && FromIso(s).None?
      && (form.DayFirst? ==>
            && FromDayFirst(s) == Found(BuildDate(YearOf(w.year), date.month + 1, date.day), t)
            && FromSpelledOut(s).None?)
      && (form.Spelled? ==>
            && FromDayFirst(s).None?
            && FromSpelledOut(s) == Found(BuildDate(YearOf(w.year), date.month + 1, date.day), t))
  {
    hide FromIso, FromDayFirst, FromSpelledOut, BuildDate, MonthNamed, IsGap;
    match form
    case DayFirst(p, q) =>
      DayFirstIsRead(date, w, p, q, t);
      assert w.day + [p] + w.month + [q] + w.year + t == w.day + [p] + w.month + ([q] + w.year + t);
      DayFirstOnly(w.day, p, w.month, [q] + w.year + t);
    case Spelled(before, word, after) =>
      SpelledDateIsRead(date, w, before, word, after, t);
      assert word[0] in word;
      IsLetterIff(word[0]);
      assert w.day + before + word + after + w.year + t == w.day + before + word + (after + w.year + t);
      SpelledOnly(w.day, before, word, after + w.year + t);
  }

  /**
   * Every date from 1900 to 2100, in every form, with one or two digits for the day and the
   * month, is read back together with the text behind it exactly when its year is written
   * in full or lies between 1970 and 2069.
   */
  lemma DateRoundTripIff(raw: string, date: Date, w: Written, form: Form, rest: string)
    requires w.Writes(date) && form.Valid(date, w, rest) && Trim(raw) == form.Text(w) + rest
    requires forall c | c in rest :: c !in {'\n', '\r', '\U{2028}', '\U{2029}'}
    ensures ParseDate(raw) == Some(Dated(date, Trim(rest))) <==> |w.year| == 4 || 1970 <= date.year < 2070
  {
    hide FromIso, FromDayFirst, FromSpelledOut;
    BuildIs(date);
    CenturyIff(date.year);
    if form.YearFirst? {
      YearFirstIsRead(date, w, form.p, form.q, rest);
    } else {
      FormIsRead(date, w, form, rest);
    }
  }

  // ---- What is no date -------------------------------------------------------------------

  lemma ThreeNumbersBroken(x: string, p: char, y: string, q: char, z: string, t: string, a: nat, b: nat, c: nat, d: nat)
    requires AllDigits(x) && AllDigits(y) && AllDigits(z)
    requires p in DATE_SEPARATORS && q in DATE_SEPARATORS && !OneLine(t)
    requires a <= |x| <= b && 1 <= |y| <= 2 && c <= |z| <= d && (|z| == d || t == "" || !IsDigit(t[0]))
    ensures ThreeNumbers(x + [p] + y + [q] + z + t, a, b, c, d).None?
  {
    SeparatorIsNoSpace(p);
    SeparatorIsNoSpace(q);
    var third := [q] + z + t;
    var second := [p] + y + third;
    assert x + [p] + y + [q] + z + t == x + second;
    NumberIs(x, second, a, b);
    NextNumberIs(p, y, third, 1, 2);
    NextNumberIs(q, z, t, c, d);
  }

  /** A year in full is no day: what follows its first two figures is a figure. */
  lemma FourDigitsNoDay(year: string, t: string)
    requires AllDigits(year) && |year| == 4
    ensures FromDayFirst(year + t).None? && FromSpelledOut(year + t).None?
  {
    var s := year + t;
    assert year[2] in year && forall c | c in year[..2] :: c in year;
    assert s == year[..2] + (year[2..] + t) && (year[2..] + t)[0] == year[2];
    NumberIs(year[..2], year[2..] + t, 1, 2);
    DigitIsNoSpace(year[2]);
    assert Fingerprints.TrimLeft(year[2..] + t) == year[2..] + t;
  }

  /** A date with a line end in the text behind it is not read at all. */
  lemma LineEndNoDate(raw: string, date: Date, w: Written, form: Form, rest: string)
    requires w.Writes(date) && form.Valid(date, w, rest) && Trim(raw) == form.Text(w) + rest
    requires exists c :: c in rest && c in {'\n', '\r', '\U{2028}', '\U{2029}'}
    ensures ParseDate(raw).None?
  {
    assert !OneLine(rest);
    hide OneLine, FromIso, FromDayFirst, FromSpelledOut, IsGap, BeginsMonth, MonthLetter;
    match form
    case YearFirst(p, q) => YearFirstBroken(w, p, q, rest);
    case DayFirst(p, q) => DayFirstBroken(w, p, q, rest);
    case Spelled(before, word, after) => SpelledBroken(date, w, before, word, after, rest);
  }

  lemma DayFirstBroken(w: Written, p: char, q: char, rest: string)
    requires AllDigits(w.day) && 1 <= |w.day| <= 2 && AllDigits(w.month) && 1 <= |w.month| <= 2
    requires AllDigits(w.year) && 2 <= |w.year| <= 4 && (|w.year| == 4 || rest == "" || !IsDigit(rest[0]))
    requires p in DATE_SEPARATORS && q in DATE_SEPARATORS && !OneLine(rest)
    ensures var s := DayFirst(p, q).Text(w) + rest;
      FromIso(s).None? && FromDayFirst(s).None? && FromSpelledOut(s).None?
  {
    hide OneLine, FromIso, FromSpelledOut, FromDayFirst, ThreeNumbers, AllDigits;
    var head, tail := w.day + [p] + w.month, [q] + w.year + rest;
    ThreeNumbersBroken(w.day, p, w.month, q, w.year, rest, 1, 2, 2, 4);
    NoNumbersNoDay(w.day + [p] + w.month + [q] + w.year + rest);
    ThreeJoin(head, [q], w.year, rest);
    DayFirstOnly(w.day, p, w.month, tail);
  }

  lemma ThreeJoin(a: string, b: string, c: string, d: string)
    ensures a + b + c + d == a + (b + c + d)
  {
  }

  lemma NoNumbersNoDay(s: string)
    requires ThreeNumbers(s, 1, 2, 2, 4).None?
    ensures FromDayFirst(s).None?
  {
  }

  lemma YearFirstBroken(w: Written, p: char, q: char, rest: string)
    requires AllDigits(w.year) && |w.year| == 4 && AllDigits(w.month) && 1 <= |w.month| <= 2
    requires AllDigits(w.day) && 1 <= |w.day| <= 2 && (|w.day| == 2 || rest == "" || !IsDigit(rest[0]))
    requires p in DATE_SEPARATORS && q in DATE_SEPARATORS && !OneLine(rest)
    ensures var s := YearFirst(p, q).Text(w) + rest;
      FromIso(s).None? && FromDayFirst(s).None? && FromSpelledOut(s).None?
  {
    ThreeNumbersBroken(w.year, p, w.month, q, w.day, rest, 4, 4, 1, 2);
    hide OneLine;
    var tail := [p] + w.month + [q] + w.day + rest;
    assert w.year + [p] + w.month + [q] + w.day + rest == w.year + tail;
    FourDigitsNoDay(w.year, tail);
  }

  lemma SpelledBroken(date: Date, w: Written, before: string, word: string, after: string, rest: string)
    requires w.Writes(date) && Spelled(before, word, after).Valid(date, w, rest) && !OneLine(rest)
    ensures var s := Spelled(before, word, after).Text(w) + rest;
      FromIso(s).None? && FromDayFirst(s).None? && FromSpelledOut(s).None?
  {
    forall c | c in word
      ensures IsLetter(c)
    {
      IsLetterIff(c);
    }
    hide MonthNamed, BeginsMonth;
    var last := w.year + rest;
    var tail := after + last;
    var middle := before + word + tail;
    Regroup(w.day, before, word, after, w.year, rest);
    assert word[0] in word;
    LetterIsNoGap(word[0]);
    YearStarts(after, w.year, rest);
    MiddleStarts(before, word, tail);
    assert w.day + before + word + after + w.year + rest == w.day + before + word + (after + w.year + rest);
    SpelledOnly(w.day, before, word, after + w.year + rest);
    hide FromIso, FromDayFirst, Word, SkipGap, IsGap, IsLetter, OneLine, Number;
    NumberIs(w.day, middle, 1, 2);
    WordIs(before, word, tail);
    SkipGapIs(after, last);
    NumberIs(w.year, rest, 2, 4);
    BrokenBy(w.day + middle, w.day, middle, word, tail, w.year, rest);
  }

  lemma BrokenBy(s: string, day: string, middle: string, word: string, tail: string, year: string, t: string)
    requires Number(s, 1, 2) == Some(Piece(day, middle)) && Word(middle) == Some(Piece(word, tail))
    requires Number(SkipGap(tail), 2, 4) == Some(Piece(year, t)) && !OneLine(t)
    ensures FromSpelledOut(s).None?
  {
  }

  /** A word that starts with no digit is no date. */
  lemma NoDigitNoDate(raw: string)
    requires Trim(raw) == "" || !IsDigit(Trim(raw)[0])
    ensures ParseDate(raw).None?
  {
  }

  /** Neither is a day with a word of fewer than three or more than nine letters behind it. */
  lemma WordLengthMatters(raw: string, day: string, word: string, rest: string)
    requires Trim(raw) == day + word + rest && AllDigits(day) && 1 <= |day| <= 2
    requires word != "" && (|word| < 3 || |word| > 9) && (forall c | c in word :: MonthLetter(c))
    requires rest == "" || !MonthLetter(rest[0])
    ensures ParseDate(raw).None?
  {
    forall c | c in word
      ensures IsLetter(c)
    {
      IsLetterIff(c);
    }
    assert word[0] in word;
    assert day + "" + word + rest == day + word + rest;
    SpelledOnly(day, "", word, rest);
    LongOrShort(word, rest);
    hide FromIso, FromDayFirst, Word, IsLetter;
    LetterIsNoGap(word[0]);
    assert day + word + rest == day + (word + rest);
    NumberIs(day, word + rest, 1, 2);
  }

  lemma LongOrShort(word: string, rest: string)
    requires word != "" && (|word| < 3 || |word| > 9) && (forall c | c in word :: IsLetter(c))
    requires rest == "" || !MonthLetter(rest[0])
    ensures var w := Word(word + rest); w.Some? ==> Number(SkipGap(w.value.after), 2, 4).None?
  {
    var s := word + rest;
    assert word[0] in word;
    LetterIsNoGap(word[0]);
    assert SkipGap(s) == s;
    if rest != "" {
      IsLetterIff(rest[0]);
    }
    if |word| < 3 {
      RunIs(word, rest, IsLetter, 9);
    } else {
      assert s == word[..9] + (word[9..] + rest);
      assert forall c | c in word[..9] :: c in word;
      RunIs(word[..9], word[9..] + rest, IsLetter, 9);
      var after := s[9..];
      assert after[0] == word[9] && word[9] in word;
      LetterIsNoGap(after[0]);
      assert SkipGap(after) == after;
    }
  }

  /** A year of four digits is meant in full; of a shorter one 0 to 69 means 2000 on and the rest 1900 on. */
  lemma YearIs(digits: string)
    requires AllDigits(digits)
    ensures |digits| == 4 ==> YearOf(digits) == Value(digits)
    ensures |digits| != 4 ==> YearOf(digits) == Value(digits) + if Value(digits) <= 69 then 2000 else 1900
  {
  }

  lemma CenturyIff(y: int)
    requires 1900 <= y <= 2100
    ensures TwoDigitYear(y % 100) == y <==> 1970 <= y < 2070
  {
  }
}
