/** From the lines of a bank statement to its movements: the generic reader. */
module StatementLines {
  import opened Options
  import opened Amounts
  import opened Calendar
  import opened DateTokens
  import opened TextLines
  import L = LedgerModel
  import Fingerprints

  const MAX_TRANSACTIONS_PER_FILE := 5000

  // ---- Words and numbers -----------------------------------------------------------------

  datatype Numeric = Numeric(x: real, value: int, raw: string)

  predicate IsFigure(c: char) {
    IsDigit(c) || c in SEPARATORS
  }

  /** `/^[+\-−–]?\s*[\d.,]+\s*(CR|DB|C|D)?$/i`. */
  predicate IsNumericText(s: string) {
    var figures := Fingerprints.TrimLeft(if s != "" && (s[0] == '+' || s[0] in MINUS_SIGNS) then s[1..] else s);
    var k := Run(figures, IsFigure, |figures|);
    var flag := Fingerprints.TrimLeft(figures[k..]);
    k > 0 && (flag == "" || IsFlag(flag))
  }

  /** `isNumericToken` and `parseAmount` of one word. */
  function NumberIn(t: Token): Option<Numeric> {
    if !IsNumericText(Trim(t.text)) then None
    else
      match ParseAmount(t.text)
      case None => None
      case Some(v) => Some(Numeric(t.x, v, t.text))
  }

  predicate Visible(s: string) {
    exists c :: c in s && c !in SPACES
  }

  predicate IsWording(t: Token, blanks: bool) {
    !IsNumericText(Trim(t.text)) && (blanks || Visible(t.text))
  }

  function Numbers(ts: seq<Token>): seq<Numeric> {
    if ts == [] then []
    else
      var rest := Numbers(ts[..|ts| - 1]);
      match NumberIn(ts[|ts| - 1])
      case None => rest
      case Some(n) => rest + [n]
  }

  function Wordings(ts: seq<Token>, blanks: bool): seq<Token> {
    if ts == [] then []
    else
      var rest := Wordings(ts[..|ts| - 1], blanks);
      if IsWording(ts[|ts| - 1], blanks) then rest + [ts[|ts| - 1]] else rest
  }

  method SplitTokens(ts: seq<Token>, blanks: bool) returns (numeric: seq<Numeric>, words: seq<Token>)
    ensures numeric == Numbers(ts) && words == Wordings(ts, blanks)
  {
    numeric, words := [], [];
    for i := 0 to |ts|
      invariant numeric == Numbers(ts[..i]) && words == Wordings(ts[..i], blanks)
    {
      var tok := ts[i];
      assert ts[..i + 1][..i] == ts[..i];
      if IsNumericText(Trim(tok.text)) {
        var value := ParseAmount(tok.text);
        if value.Some? {
          numeric := numeric + [Numeric(tok.x, value.value, tok.text)];
        }
      } else if blanks || Visible(tok.text) {
        words := words + [tok];
      }
    }
    assert ts[..|ts|] == ts;
  }

  /** `join(' ')`. */
  function Joined(texts: seq<string>): string {
    if texts == [] then ""
    else if |texts| == 1 then texts[0]
    else Joined(texts[..|texts| - 1]) + " " + texts[|texts| - 1]
  }

  function Texts(ts: seq<Token>): seq<string> {
    seq(|ts|, i requires 0 <= i < |ts| => ts[i].text)
  }

  /** `normalizeDescription`. */
  function Described(text: string): string {
    var d := Trim(Fingerprints.Collapsed(text, false));
    if |d| <= 300 then d else d[..300]
  }

  // ---- Classifying one movement ----------------------------------------------------------

  /** The keyword expressions of the reader, on any text. */
  datatype Patterns = Patterns(
    noise: string -> bool, date: string -> bool, debit: string -> bool, credit: string -> bool, balance: string -> bool,
    expense: string -> bool, income: string -> bool, reference: string -> Option<string>)

  /** Where the headed columns stand. */
  datatype Layout = Layout(debitX: Option<real>, creditX: Option<real>, balanceX: Option<real>)

  datatype Context = Context(layout: Layout, default: Option<L.TxType>, patterns: Patterns)
  {
    /** The side of an unmarked movement. */
    function Side(): L.TxType {
      if default == Some(L.Income) then L.Income else L.Expense
    }
  }

  datatype Movement = Movement(amount: nat, kind: L.TxType, balance: Option<nat>)

  function Abs(v: int): nat {
    if v < 0 then 0 - v else v
  }

  function Distance(a: real, b: real): real {
    if a < b then b - a else a - b
  }

  /** How far two positions are apart, whichever stands on the left. */
  lemma DistanceIs(a: real, b: real)
    ensures Distance(a, b) >= 0.0 && (Distance(a, b) == a - b || Distance(a, b) == b - a)
  {
  }

  /** The number closest to a column, the leftmost of several. */
  function Nearest(ns: seq<Numeric>, col: real): (k: nat)
    requires ns != []
    ensures k < |ns|
  {
    if |ns| == 1 then 0
    else
      var last := |ns| - 1;
      var k := Nearest(ns[..last], col);
      if Distance(ns[last].x, col) < Distance(ns[k].x, col) then last else k
  }

  datatype Choice = Choice(best: Option<Numeric>, candidates: seq<Numeric>)
  {
    function Amount(): nat {
      match best
      case None => 0
      case Some(n) => Abs(n.value)
    }
  }

  function Picked(ns: seq<Numeric>, col: Option<real>): Choice {
    if col.None? || ns == [] then Choice(None, ns)
    else
      var k := Nearest(ns, col.value);
      Choice(Some(ns[k]), ns[..k] + ns[k + 1..])
  }

  /** The amount of the debit and of the credit column, when either is there. */
  function FromColumns(ns: seq<Numeric>, ctx: Context): Option<Movement> {
    var debit := Picked(ns, ctx.layout.debitX);
    var credit := Picked(debit.candidates, ctx.layout.creditX);
    var balance := Picked(credit.candidates, ctx.layout.balanceX);
    var shown := if balance.best.Some? then Some(balance.Amount()) else None;
    if debit.Amount() > 0 && credit.Amount() > 0 then Some(Movement(debit.Amount(), ctx.Side(), shown))
    else if debit.Amount() > 0 then Some(Movement(debit.Amount(), L.Expense, shown))
    else if credit.Amount() > 0 then Some(Movement(credit.Amount(), L.Income, shown))
    else None
  }

  /** Without columns: debit, credit and balance from left to right. */
  function FromThree(ns: seq<Numeric>, ctx: Context): Option<Movement>
    requires |ns| >= 3
  {
    var debit, credit, balance := Abs(ns[0].value), Abs(ns[1].value), Abs(ns[2].value);
    if debit > 0 && credit > 0 then Some(Movement(debit, ctx.Side(), Some(balance)))
    else if debit > 0 then Some(Movement(debit, L.Expense, Some(balance)))
    else if credit > 0 then Some(Movement(credit, L.Income, Some(balance)))
    else None
  }

  /** A two-letter mark between word boundaries. */
  predicate MarkAt(s: string, mark: string, i: nat) {
    i + 2 <= |s| && s[i..i + 2] == mark && (i == 0 || !IsWord(s[i - 1])) && (i + 2 == |s| || !IsWord(s[i + 2]))
  }

  predicate MarkIn(s: string, mark: string) {
    exists i | 0 <= i < |s| :: MarkAt(s, mark, i)
  }

  /** What stands before a mark and behind it is no part of a word. */
  predicate Around(a: string, b: string) {
    (a != "" ==> !IsWord(a[|a| - 1])) && (b != "" ==> !IsWord(b[0]))
  }

  lemma MarkAtIff(a: string, mark: string, b: string)
    requires |mark| == 2
    ensures MarkAt(a + mark + b, mark, |a|) <==> Around(a, b)
  {
    var s := a + mark + b;
    assert s[|a|..|a| + 2] == mark;
    assert (a != "" ==> s[|a| - 1] == a[|a| - 1]) && (b != "" ==> s[|a| + 2] == b[0]);
    hide IsWord;
  }

  /** The mark stands somewhere in the text as a word of its own. */
  lemma MarkInIff(s: string, mark: string)
    requires |mark| == 2
    ensures MarkIn(s, mark) <==> exists a, b :: s == a + mark + b && Around(a, b)
  {
    hide Around, IsWord;
    if i :| 0 <= i < |s| && MarkAt(s, mark, i) {
      var a, b := s[..i], s[i + 2..];
      assert s == a + mark + b;
      MarkAtIff(a, mark, b);
    }
    if a, b :| s == a + mark + b && Around(a, b) {
      MarkAtIff(a, mark, b);
      assert MarkAt(s, mark, |a|);
    }
  }

  predicate Flagged(raw: string, mark: string, letter: string) {
    var upper := UpperAll(raw);
    MarkIn(upper, mark) || Trim(upper) == letter
  }

  /** A letter that is the whole word counts like its mark. */
  lemma LetterAlone(raw: string, mark: string, letter: string)
    requires Trim(UpperAll(raw)) == letter
    ensures Flagged(raw, mark, letter)
  {
  }

  /** The last number, by its sign, its mark or the words of the description. */
  function FromLast(last: Numeric, description: string, ctx: Context): Option<Movement> {
    if last.value == 0 then None
    else
      var kind :=
        if last.value < 0 || Flagged(last.raw, "DB", "D") then L.Expense
        else if Flagged(last.raw, "CR", "C") then L.Income
        else if ctx.patterns.expense(description) then L.Expense
        else if ctx.patterns.income(description) then L.Income
        else ctx.Side();
      Some(Movement(Abs(last.value), kind, None))
  }

  function Classified(ns: seq<Numeric>, description: string, ctx: Context): Option<Movement> {
    if ns == [] then None
    else
      var columns := if ctx.layout.debitX.Some? || ctx.layout.creditX.Some? then FromColumns(ns, ctx) else None;
      if columns.Some? then columns
      else
        var three := if |ns| >= 3 then FromThree(ns, ctx) else None;
        if three.Some? then three else FromLast(ns[|ns| - 1], description, ctx)
  }

  method Pick(candidates: seq<Numeric>, col: Option<real>) returns (best: Option<Numeric>, left: seq<Numeric>)
    ensures Choice(best, left) == Picked(candidates, col)
  {
    if col.None? || candidates == [] {
      return None, candidates;
    }
    var at, bestDist := 0, Distance(candidates[0].x, col.value);
    for i := 1 to |candidates|
      invariant at == Nearest(candidates[..i], col.value) && bestDist == Distance(candidates[at].x, col.value)
    {
      var d := Distance(candidates[i].x, col.value);
      assert candidates[..i + 1][..i] == candidates[..i];
      if d < bestDist {
        at, bestDist := i, d;
      }
    }
    assert candidates[..|candidates|] == candidates;
    best := Some(candidates[at]);
    left := candidates[..at] + candidates[at + 1..];
  }

  /** The column branch of `classifyMovement`: each pick is spliced out of the candidates. */
  method ByColumns(ns: seq<Numeric>, ctx: Context) returns (m: Option<Movement>)
    ensures m == FromColumns(ns, ctx)
  {
    var candidates := ns;
    var debitTok, creditTok, balanceTok: Option<Numeric>;
    debitTok, candidates := Pick(candidates, ctx.layout.debitX);
    creditTok, candidates := Pick(candidates, ctx.layout.creditX);
    balanceTok, candidates := Pick(candidates, ctx.layout.balanceX);
    var debitVal := if debitTok.Some? then Abs(debitTok.value.value) else 0;
    var creditVal := if creditTok.Some? then Abs(creditTok.value.value) else 0;
    if debitVal == 0 && creditVal == 0 {
      return None;
    }
    var amount, kind;
    if debitVal > 0 && creditVal > 0 {
      amount, kind := debitVal, ctx.Side();
    } else if debitVal > 0 {
      amount, kind := debitVal, L.Expense;
    } else {
      amount, kind := creditVal, L.Income;
    }
    m := Some(Movement(amount, kind, if balanceTok.Some? then Some(Abs(balanceTok.value.value)) else None));
  }

  /** `classifyMovement`. */
  method ClassifyMovement(ns: seq<Numeric>, description: string, ctx: Context) returns (m: Option<Movement>)
    ensures m == Classified(ns, description, ctx)
  {
    if ns == [] {
      return None;
    }
    if ctx.layout.debitX.Some? || ctx.layout.creditX.Some? {
      m := ByColumns(ns, ctx);
      if m.Some? {
        return;
      }
    }
    if |ns| >= 3 {
      m := FromThree(ns, ctx);
      if m.Some? {
        return;
      }
    }
    m := FromLast(ns[|ns| - 1], description, ctx);
  }

  // ---- What a classification rests on ----------------------------------------------------

  lemma {:induction false} NearestIsFirstClosest(ns: seq<Numeric>, col: real)
    requires ns != []
    ensures forall j | 0 <= j < |ns| :: Distance(ns[Nearest(ns, col)].x, col) <= Distance(ns[j].x, col)
    ensures forall j | 0 <= j < Nearest(ns, col) :: Distance(ns[Nearest(ns, col)].x, col) < Distance(ns[j].x, col)
  {
    if |ns| > 1 {
      NearestIsFirstClosest(ns[..|ns| - 1], col);
    }
  }

  /** Position `i` of the remaining numbers, in the original ones. */
  function Before(k: nat, i: nat): nat {
    if i < k then i else i + 1
  }

  lemma PickedFrom(ns: seq<Numeric>, col: Option<real>) returns (k: nat)
    ensures Picked(ns, col).best.Some? ==> (
      && k < |ns| && Picked(ns, col).best == Some(ns[k])
      && |Picked(ns, col).candidates| == |ns| - 1
      && forall i | 0 <= i < |ns| - 1 :: Picked(ns, col).candidates[i] == ns[Before(k, i)])
    ensures Picked(ns, col).best.None? ==> Picked(ns, col).candidates == ns
  {
    k := if col.None? || ns == [] then 0 else Nearest(ns, col.value);
  }

  /** The amount and the balance are the magnitudes of two different numbers of the row. */
  predicate Grounded(m: Movement, ns: seq<Numeric>) {
    exists i :: 0 <= i < |ns| && Abs(ns[i].value) == m.amount
      && (m.balance.Some? ==> exists j :: 0 <= j < |ns| && j != i && Abs(ns[j].value) == m.balance.value)
  }

  lemma ColumnsAreGrounded(ns: seq<Numeric>, ctx: Context)
    requires FromColumns(ns, ctx).Some?
    ensures Grounded(FromColumns(ns, ctx).value, ns)
  {
    hide Picked;
    var debit := Picked(ns, ctx.layout.debitX);
    var credit := Picked(debit.candidates, ctx.layout.creditX);
    var balance := Picked(credit.candidates, ctx.layout.balanceX);
    var d := PickedFrom(ns, ctx.layout.debitX);
    var c := PickedFrom(debit.candidates, ctx.layout.creditX);
    var b := PickedFrom(credit.candidates, ctx.layout.balanceX);
    var inCredit := if credit.best.Some? then Before(c, b) else b;
    var i := if debit.Amount() > 0 then d else if debit.best.Some? then Before(d, c) else c;
    var j := if debit.best.Some? then Before(d, inCredit) else inCredit;
    assert Abs(ns[i].value) == FromColumns(ns, ctx).value.amount;
    if balance.best.Some? {
      assert j != i && Abs(ns[j].value) == balance.Amount();
    }
  }

  lemma ThreeIsGrounded(ns: seq<Numeric>, ctx: Context)
    requires |ns| >= 3 && FromThree(ns, ctx).Some?
    ensures FromThree(ns, ctx).value.amount > 0 && Grounded(FromThree(ns, ctx).value, ns)
  {
    var m := FromThree(ns, ctx).value;
    assert m.balance == Some(Abs(ns[2].value));
    if Abs(ns[0].value) > 0 {
      assert m.amount == Abs(ns[0].value);
    } else {
      assert m.amount == Abs(ns[1].value);
    }
  }

  /** A classified amount is positive and was printed; the balance is another printed number. */
  lemma ClassifiedIsGrounded(ns: seq<Numeric>, description: string, ctx: Context)
    requires Classified(ns, description, ctx).Some?
    ensures Classified(ns, description, ctx).value.amount > 0
    ensures Grounded(Classified(ns, description, ctx).value, ns)
  {
    hide Picked, FromThree, Flagged, Grounded;
    var m := Classified(ns, description, ctx).value;
    if (ctx.layout.debitX.Some? || ctx.layout.creditX.Some?) && FromColumns(ns, ctx).Some? {
      ColumnsAreGrounded(ns, ctx);
    } else if |ns| >= 3 && FromThree(ns, ctx).Some? {
      ThreeIsGrounded(ns, ctx);
    } else {
      LastIsGrounded(m, ns);
    }
  }

  lemma LastIsGrounded(m: Movement, ns: seq<Numeric>)
    requires ns != [] && m.amount == Abs(ns[|ns| - 1].value) && m.balance.None?
    ensures Grounded(m, ns)
  {
    assert Abs(ns[|ns| - 1].value) == m.amount;
  }

  /**
   * Without debit and credit headings a row of three or more numbers is debit, credit and
   * balance from left to right: one of the first two gives the amount and the side, and of
   * two the debit does, on the default side.
   */
  lemma ThreeWithoutHeadings(ns: seq<Numeric>, description: string, ctx: Context)
    requires |ns| >= 3 && ctx.layout.debitX.None? && ctx.layout.creditX.None?
    ensures var a, b, c := ns[0].value, ns[1].value, Abs(ns[2].value);
      && (a != 0 && b == 0 ==> Classified(ns, description, ctx) == Some(Movement(Abs(a), L.Expense, Some(c))))
      && (a == 0 && b != 0 ==> Classified(ns, description, ctx) == Some(Movement(Abs(b), L.Income, Some(c))))
      && (a != 0 && b != 0 ==>
            Classified(ns, description, ctx) ==
              Some(Movement(Abs(a), if ctx.default == Some(L.Income) then L.Income else L.Expense, Some(c))))
  {
  }

  /**
   * A row of one or two numbers without headings, or of more whose first two are zero, is its
   * last number: an expense when negative or marked DB, an income when marked CR, else what
   * the words of the description say, expenses first, and the default at last.
   */
  lemma LastWithoutHeadings(ns: seq<Numeric>, description: string, ctx: Context)
    requires ns != [] && ctx.layout.debitX.None? && ctx.layout.creditX.None?
    requires |ns| >= 3 ==> ns[0].value == 0 && ns[1].value == 0
    requires ns[|ns| - 1].value != 0
    ensures var v, raw, m := ns[|ns| - 1].value, ns[|ns| - 1].raw, Classified(ns, description, ctx);
      && m.Some? && m.value.amount == (if v < 0 then 0 - v else v) && m.value.balance.None?
      && (v < 0 || Flagged(raw, "DB", "D") ==> m.value.kind == L.Expense)
      && (v > 0 && !Flagged(raw, "DB", "D") ==>
            if Flagged(raw, "CR", "C") then m.value.kind == L.Income
            else if ctx.patterns.expense(description) then m.value.kind == L.Expense
            else if ctx.patterns.income(description) then m.value.kind == L.Income
            else m.value.kind == if ctx.default == Some(L.Income) then L.Income else L.Expense)
  {
  }

  /** Under a single heading the number nearest to it, if not zero, is a movement of that side. */
  lemma OneHeading(ns: seq<Numeric>, description: string, ctx: Context)
    requires ns != []
    ensures var debit, credit := ctx.layout.debitX, ctx.layout.creditX;
      && (debit.Some? && credit.None? && ns[Nearest(ns, debit.value)].value != 0 ==>
            Classified(ns, description, ctx).Some?
            && Classified(ns, description, ctx).value.amount == Abs(ns[Nearest(ns, debit.value)].value)
            && Classified(ns, description, ctx).value.kind == L.Expense)
      && (debit.None? && credit.Some? && ns[Nearest(ns, credit.value)].value != 0 ==>
            Classified(ns, description, ctx).Some?
            && Classified(ns, description, ctx).value.amount == Abs(ns[Nearest(ns, credit.value)].value)
            && Classified(ns, description, ctx).value.kind == L.Income)
  {
  }

  /** The number a heading takes is zero, or there is none to take. */
  predicate TakesNothing(ns: seq<Numeric>, col: Option<real>) {
    col.Some? && ns != [] ==> ns[Nearest(ns, col.value)].value == 0
  }

  /**
   * Nothing to read in a row: no number at all, or a last number of zero that no other makes
   * up for, neither the ones under the debit and credit headings nor the first two of three.
   */
  predicate NothingToRead(ns: seq<Numeric>, layout: Layout) {
    ns == [] ||
    (&& ns[|ns| - 1].value == 0
     && TakesNothing(ns, layout.debitX) && TakesNothing(Picked(ns, layout.debitX).candidates, layout.creditX)
     && (|ns| >= 3 ==> ns[0].value == 0 && ns[1].value == 0))
  }

  /** A row is a movement exactly when there is something to read. */
  lemma ClassifiedIff(ns: seq<Numeric>, description: string, ctx: Context)
    ensures Classified(ns, description, ctx).None? <==> NothingToRead(ns, ctx.layout)
  {
    hide Nearest, Flagged;
    var debit := Picked(ns, ctx.layout.debitX);
    var credit := Picked(debit.candidates, ctx.layout.creditX);
    assert TakesNothing(ns, ctx.layout.debitX) <==> debit.Amount() == 0;
    assert TakesNothing(debit.candidates, ctx.layout.creditX) <==> credit.Amount() == 0;
  }

  lemma PickAt(ns: seq<Numeric>, col: real, k: nat)
    requires k < |ns|
    requires forall i | 0 <= i < |ns| :: Distance(ns[k].x, col) <= Distance(ns[i].x, col)
    requires forall i | 0 <= i < k :: Distance(ns[k].x, col) < Distance(ns[i].x, col)
    ensures Picked(ns, Some(col)) == Choice(Some(ns[k]), ns[..k] + ns[k + 1..])
  {
    NearestIsFirstClosest(ns, col);
  }

  lemma FullRowPicks(ns: seq<Numeric>, layout: Layout)
    requires |ns| == 3 && layout.debitX.Some? && layout.creditX.Some?
    requires Distance(ns[0].x, layout.debitX.value) <= Distance(ns[1].x, layout.debitX.value)
    requires Distance(ns[0].x, layout.debitX.value) <= Distance(ns[2].x, layout.debitX.value)
    requires Distance(ns[1].x, layout.creditX.value) <= Distance(ns[2].x, layout.creditX.value)
    ensures var debit := Picked(ns, layout.debitX);
      var credit := Picked(debit.candidates, layout.creditX);
      var balance := Picked(credit.candidates, layout.balanceX);
      && debit.best == Some(ns[0]) && credit.best == Some(ns[1])
      && balance.best == if layout.balanceX.Some? then Some(ns[2]) else None
  {
    hide Picked, Distance;
    FirstIsPicked(ns, layout.debitX.value);
    assert ns[1..][0] == ns[1] && ns[1..][1] == ns[2];
    FirstIsPicked(ns[1..], layout.creditX.value);
    assert ns[1..][1..] == [ns[2]];
    OnlyIsPicked(ns[2], layout.balanceX);
  }

  lemma FirstIsPicked(ns: seq<Numeric>, col: real)
    requires ns != [] && forall i | 0 <= i < |ns| :: Distance(ns[0].x, col) <= Distance(ns[i].x, col)
    ensures Picked(ns, Some(col)) == Choice(Some(ns[0]), ns[1..])
  {
    PickAt(ns, col, 0);
    assert ns[..0] + ns[1..] == ns[1..];
  }

  lemma OnlyIsPicked(n: Numeric, col: Option<real>)
    ensures Picked([n], col).best == if col.Some? then Some(n) else None
  {
    if col.Some? {
      FirstIsPicked([n], col.value);
    }
  }

  /**
   * A row with a debit, a credit and a balance, one of the first two zero, is read as headed
   * as long as no other number is closer to the debit heading than the first, and the
   * balance is not closer to the credit heading than the second.
   */
  lemma FullRowIsReadAsHeaded(ns: seq<Numeric>, description: string, ctx: Context)
    requires |ns| == 3 && ctx.layout.debitX.Some? && ctx.layout.creditX.Some?
    requires Distance(ns[0].x, ctx.layout.debitX.value) <= Distance(ns[1].x, ctx.layout.debitX.value)
    requires Distance(ns[0].x, ctx.layout.debitX.value) <= Distance(ns[2].x, ctx.layout.debitX.value)
    requires Distance(ns[1].x, ctx.layout.creditX.value) <= Distance(ns[2].x, ctx.layout.creditX.value)
    requires (ns[0].value == 0) != (ns[1].value == 0)
    ensures var shown := if ctx.layout.balanceX.Some? then Some(Abs(ns[2].value)) else None;
      Classified(ns, description, ctx) == Some(
        if ns[0].value != 0 then Movement(Abs(ns[0].value), L.Expense, shown)
        else Movement(Abs(ns[1].value), L.Income, shown))
  {
    hide Picked, FromLast, FromThree;
    FullRowPicks(ns, ctx.layout);
  }

  /** The number of a two-number row that the debit column takes. */
  function DebitTakes(ns: seq<Numeric>, d: real): (k: nat)
    requires |ns| == 2
    ensures k < 2
  {
    if Distance(ns[1].x, d) < Distance(ns[0].x, d) then 1 else 0
  }

  /**
   * Under a debit and a credit column every row of two non-zero numbers, wherever they
   * stand, is read as the number closer to the debit column, on the default side and
   * without a balance: the credit column takes the other number, whatever it is.
   */
  lemma TwoNumbersTakeDefault(ns: seq<Numeric>, d: real, c: real, description: string, ctx: Context)
    requires |ns| == 2 && ns[0].value != 0 && ns[1].value != 0
    requires ctx.layout.debitX == Some(d) && ctx.layout.creditX == Some(c)
    ensures Classified(ns, description, ctx) == Some(Movement(Abs(ns[DebitTakes(ns, d)].value), ctx.Side(), None))
  {
    hide FromLast;
    var k := DebitTakes(ns, d);
    PickAt(ns, d, k);
    var rest := ns[..k] + ns[k + 1..];
    assert |rest| == 1 && rest[0] == ns[1 - k];
    PickAt(rest, c, 0);
    assert rest[..0] + rest[1..] == [];
  }

  /** The side of the column a number stands closer to. */
  function HeadedSide(x: real, d: real, c: real): L.TxType {
    if Distance(x, d) <= Distance(x, c) then L.Expense else L.Income
  }

  /**
   * Such a row, with its movement at position `i` and its balance at the other one, is read
   * with the amount of its movement on the side of the closer column exactly when the debit
   * column takes an amount of that size and the default type is the side of that column.
   */
  lemma ColumnSideIff(ns: seq<Numeric>, i: nat, d: real, c: real, description: string, ctx: Context)
    requires |ns| == 2 && i < 2 && ns[0].value != 0 && ns[1].value != 0
    requires ctx.layout.debitX == Some(d) && ctx.layout.creditX == Some(c)
    ensures Classified(ns, description, ctx).Some?
    ensures var m := Classified(ns, description, ctx).value;
      m.amount == Abs(ns[i].value) && m.kind == HeadedSide(ns[i].x, d, c) <==>
        && Abs(ns[DebitTakes(ns, d)].value) == Abs(ns[i].value)
        && (HeadedSide(ns[i].x, d, c) == L.Income <==> ctx.default == Some(L.Income))
  {
    TwoNumbersTakeDefault(ns, d, c, description, ctx);
  }

  /** A credit with its balance, each right under its heading, becomes an expense. */
  lemma CreditBecomesExpense(credit: Numeric, balance: Numeric, description: string, ctx: Context)
    requires credit.value > 0 && balance.value > 0 && credit.x < balance.x
    requires ctx.layout.debitX.Some? && ctx.layout.debitX.value < credit.x
    requires ctx.layout.creditX == Some(credit.x) && ctx.layout.balanceX == Some(balance.x)
    requires ctx.default != Some(L.Income)
    ensures Classified([credit, balance], description, ctx) == Some(Movement(credit.value, L.Expense, None))
  {
    TwoNumbersTakeDefault([credit, balance], ctx.layout.debitX.value, credit.x, description, ctx);
  }

  // ---- The headed columns ----------------------------------------------------------------

  /** The words of some lines in reading order. */
  function AllTokens(lines: seq<Line>): seq<Token> {
    if lines == [] then [] else AllTokens(lines[..|lines| - 1]) + lines[|lines| - 1].tokens
  }

  /** The position of the first word that heads a column; a date heading heads none. */
  function FirstHeaded(ts: seq<Token>, heads: string -> bool, date: string -> bool): Option<real> {
    if ts == [] then None
    else
      var earlier := FirstHeaded(ts[..|ts| - 1], heads, date);
      var last := ts[|ts| - 1];
      if earlier.Some? then earlier
      else if !date(Trim(last.text)) && heads(Trim(last.text)) then Some(last.x)
      else None
  }

  function LayoutOf(ts: seq<Token>, p: Patterns): Layout {
    Layout(FirstHeaded(ts, p.debit, p.date), FirstHeaded(ts, p.credit, p.date), FirstHeaded(ts, p.balance, p.date))
  }

  lemma LayoutSnoc(ts: seq<Token>, t: Token, p: Patterns)
    ensures var was, text := LayoutOf(ts, p), Trim(t.text);
      LayoutOf(ts + [t], p) ==
        if p.date(text) then was
        else Layout(
          if p.debit(text) && was.debitX.None? then Some(t.x) else was.debitX,
          if p.credit(text) && was.creditX.None? then Some(t.x) else was.creditX,
          if p.balance(text) && was.balanceX.None? then Some(t.x) else was.balanceX)
  {
    assert (ts + [t])[..|ts|] == ts;
  }

  /** The inner loop of `detectColumnLayout`, over one line. */
  method LookForColumns(ts: seq<Token>, p: Patterns, ghost read: seq<Token>, layout: Layout) returns (out: Layout)
    requires layout == LayoutOf(read, p)
    ensures out == LayoutOf(read + ts, p)
  {
    out := layout;
    assert read + ts[..0] == read;
    for j := 0 to |ts|
      invariant out == LayoutOf(read + ts[..j], p)
    {
      var t := Trim(ts[j].text);
      assert read + ts[..j + 1] == read + ts[..j] + [ts[j]];
      LayoutSnoc(read + ts[..j], ts[j], p);
      if p.date(t) {
        continue;
      }
      if p.balance(t) && out.balanceX.None? {
        out := out.(balanceX := Some(ts[j].x));
      }
      if p.credit(t) && out.creditX.None? {
        out := out.(creditX := Some(ts[j].x));
      }
      if p.debit(t) && out.debitX.None? {
        out := out.(debitX := Some(ts[j].x));
      }
    }
    assert ts[..|ts|] == ts;
  }

  /** `detectColumnLayout`. */
  method DetectColumnLayout(lines: seq<Line>, p: Patterns) returns (layout: Layout)
    ensures layout == LayoutOf(AllTokens(lines), p)
  {
    layout := Layout(None, None, None);
    for i := 0 to |lines|
      invariant layout == LayoutOf(AllTokens(lines[..i]), p)
    {
      assert lines[..i + 1][..i] == lines[..i];
      layout := LookForColumns(lines[i].tokens, p, AllTokens(lines[..i]), layout);
    }
    assert lines[..|lines|] == lines;
  }

  // ---- What each line is for -------------------------------------------------------------

  /** The part a line plays in the movement list. */
  datatype Part =
    | Summary
    | Opening(date: Date, words: seq<Token>, numbers: seq<Numeric>)
    | Heading
    | Amounts(words: seq<Token>, numbers: seq<Numeric>)
    | Wording(text: string)
    | Nothing

  predicate StartsDate(t: Token) {
    t.x < 0.6 && ParseDate(t.text).Some?
  }

  /** `findIndex`, or the length. */
  function FindIndex<T>(ts: seq<T>, p: T -> bool, i: nat): (k: nat)
    requires i <= |ts|
    ensures i <= k <= |ts| && (k < |ts| ==> p(ts[k]))
    ensures forall j | i <= j < k :: !p(ts[j])
    decreases |ts| - i
  {
    if i == |ts| || p(ts[i]) then i else FindIndex(ts, p, i + 1)
  }

  /** The first word in the left part of the line that starts with a date. */
  function DateIndex(ts: seq<Token>): (k: nat)
    ensures k <= |ts| && (k < |ts| ==> StartsDate(ts[k]))
  {
    FindIndex(ts, StartsDate, 0)
  }

  /** The words a line contributes: behind the date, what the date word itself left over first. */
  function Material(line: Line): seq<Token> {
    var i := DateIndex(line.tokens);
    if i == |line.tokens| then line.tokens
    else
      var dated := ParseDate(line.tokens[i].text).value;
      var rest := line.tokens[i + 1..];
      if dated.rest == "" then rest else [line.tokens[i].(text := dated.rest)] + rest
  }

  /** `Math.min` over the numbers. */
  function LeftmostX(ns: seq<Numeric>): real
    requires ns != []
  {
    if |ns| == 1 then ns[0].x
    else
      var m := LeftmostX(ns[..|ns| - 1]);
      if ns[|ns| - 1].x < m then ns[|ns| - 1].x else m
  }

  function LeftOf(ts: seq<Token>, x: real): seq<Token> {
    if ts == [] then []
    else if ts[0].x < x then [ts[0]] + LeftOf(ts[1..], x)
    else LeftOf(ts[1..], x)
  }

  predicate Legible(text: string) {
    exists c :: c in text && (IsLetter(c) || IsDigit(c))
  }

  function DatedPart(line: Line): Part
    requires DateIndex(line.tokens) < |line.tokens|
  {
    var i := DateIndex(line.tokens);
    var numbers := Numbers(Material(line));
    if numbers == [] then Heading
    else
      Opening(ParseDate(line.tokens[i].text).value.date,
        line.tokens[..i] + LeftOf(Wordings(Material(line), true), LeftmostX(numbers)), numbers)
  }

  function UndatedPart(line: Line): Part {
    var numbers, words := Numbers(line.tokens), Wordings(line.tokens, false);
    if numbers != [] then Amounts(words, numbers)
    else if words != [] && Legible(Joined(Texts(words))) then Wording(Joined(Texts(words)))
    else Nothing
  }

  function PartOf(line: Line, p: Patterns): Part {
    if line.tokens == [] then Nothing
    else if p.noise(Joined(Texts(line.tokens))) then Summary
    else if DateIndex(line.tokens) < |line.tokens| then DatedPart(line)
    else UndatedPart(line)
  }

  function Parts(lines: seq<Line>, p: Patterns): (parts: seq<Part>)
    ensures |parts| == |lines| && forall i | 0 <= i < |lines| :: parts[i] == PartOf(lines[i], p)
  {
    seq(|lines|, i requires 0 <= i < |lines| => PartOf(lines[i], p))
  }

  // ---- What the words of a line become ---------------------------------------------------

  /** The date of a line stands in its left six tenths, and no earlier word there is a date. */
  lemma DateIndexIs(ts: seq<Token>)
    ensures var k := DateIndex(ts);
      && (forall j | 0 <= j < k :: ts[j].x < 0.6 ==> ParseDate(ts[j].text).None?)
      && (k < |ts| ==> ts[k].x < 0.6 && ParseDate(ts[k].text).Some?)
  {
  }

  /** The leftmost number is one of them, and none stands further left. */
  lemma {:induction false} LeftmostXIs(ns: seq<Numeric>)
    requires ns != []
    ensures (exists n :: n in ns && n.x == LeftmostX(ns)) && forall n | n in ns :: LeftmostX(ns) <= n.x
  {
    var init, last := ns[..|ns| - 1], ns[|ns| - 1];
    assert ns == init + [last] && last in ns;
    if init != [] {
      LeftmostXIs(init);
      var m :| m in init && m.x == LeftmostX(init);
      assert m in ns;
    }
  }

  /** The words that count for the description stand left of a position, in their order. */
  lemma {:induction false} LeftOfIs(a: seq<Token>, t: Token, x: real)
    ensures LeftOf(a + [t], x) == if t.x < x then LeftOf(a, x) + [t] else LeftOf(a, x)
    ensures LeftOf([], x) == []
  {
    if a == [] {
      assert a + [t] == [t] && [t][1..] == [];
      assert [t] + [] == [t];
    } else {
      assert (a + [t])[1..] == a[1..] + [t];
      LeftOfIs(a[1..], t, x);
    }
  }

  /** A word counts for a continuation when it is not all blanks. */
  lemma VisibleIff(s: string)
    ensures !Visible(s) <==> Fingerprints.WordsOf(s) == []
  {
    if !Visible(s) {
      BlankHasNoWords(s);
    } else {
      VisibleHasWords(s);
    }
  }

  lemma {:induction false} BlankHasNoWords(s: string)
    requires !Visible(s)
    ensures Fingerprints.WordsOf(s) == []
  {
    if s != "" {
      assert s[0] in s && forall c | c in s[1..] :: c in s;
      BlankHasNoWords(s[1..]);
    }
  }

  lemma {:induction false} VisibleHasWords(s: string)
    requires Visible(s)
    ensures Fingerprints.WordsOf(s) != []
  {
    if s[0] in SPACES {
      var c :| c in s && c !in SPACES;
      assert c in s[1..];
      VisibleHasWords(s[1..]);
    }
  }

  /** A continuation line counts when it has a letter or a figure. */
  lemma LegibleIff(text: string)
    ensures Legible(text) <==> exists c :: c in text && (MonthLetter(c) || 48 <= c as int <= 57)
  {
    forall c | c in text
      ensures IsLetter(c) <==> MonthLetter(c)
    {
      IsLetterIff(c);
    }
  }

  /** Texts are joined by single blanks. */
  lemma JoinedIs(ts: seq<string>, t: string)
    ensures Joined([]) == "" && Joined([t]) == t
    ensures ts != [] ==> Joined(ts + [t]) == Joined(ts) + " " + t
  {
    assert ts != [] ==> (ts + [t])[..|ts|] == ts;
  }

  /** A description is the words of its texts with one blank between them, cut at 300 characters. */
  lemma DescribedIs(text: string)
    ensures var words := Fingerprints.Spaced(Fingerprints.WordsOf(text));
      Described(text) == if |words| <= 300 then words else words[..300]
  {
    Fingerprints.CollapsedIsWords(text);
  }

  // ---- The movement list, block by block -------------------------------------------------

  datatype Current = Current(date: Date, words: seq<Token>, numbers: seq<Numeric>)

  datatype Transaction = Transaction(
    date: Date, description: string, amount: nat, kind: L.TxType, balance: Option<nat>, reference: Option<string>)

  function NextOpening(parts: seq<Part>, i: nat): (k: nat)
    requires i <= |parts|
    ensures i <= k <= |parts| && (k < |parts| ==> parts[k].Opening?)
    ensures forall j | i <= j < k :: !parts[j].Opening?
    decreases |parts| - i
  {
    if i == |parts| || parts[i].Opening? then i else NextOpening(parts, i + 1)
  }

  lemma NextOpeningIs(parts: seq<Part>, i: nat, k: nat)
    requires i <= k <= |parts| && (k < |parts| ==> parts[k].Opening?)
    requires forall j | i <= j < k :: !parts[j].Opening?
    ensures NextOpening(parts, i) == k
  {
  }

  /** The movement opened at `s`, with the amounts printed before line `e`. */
  function Gather(parts: seq<Part>, s: nat, e: nat): Current
    requires s < e <= |parts| && parts[s].Opening?
  {
    if e == s + 1 then Current(parts[s].date, parts[s].words, parts[s].numbers)
    else
      var c := Gather(parts, s, e - 1);
      if parts[e - 1].Amounts? then Current(c.date, c.words + parts[e - 1].words, c.numbers + parts[e - 1].numbers) else c
  }

  /** The wording lines since the last line that carried anything else. */
  function Pending(parts: seq<Part>, s: nat, e: nat): seq<string>
    requires s < e <= |parts|
  {
    if e == s + 1 then []
    else
      match parts[e - 1]
      case Wording(text) => Pending(parts, s, e - 1) + [text]
      case Nothing => Pending(parts, s, e - 1)
      case _ => []
  }

  function DescriptionOf(c: Current, continuation: string): string {
    Described(Joined(Texts(c.words)) + " " + continuation)
  }

  /** The words of some texts. */
  function AllWords(texts: seq<string>): seq<string> {
    if texts == [] then [] else AllWords(texts[..|texts| - 1]) + Fingerprints.WordsOf(texts[|texts| - 1])
  }

  lemma {:induction false} JoinedWords(texts: seq<string>)
    ensures Fingerprints.WordsOf(Joined(texts)) == AllWords(texts)
  {
    if |texts| == 1 {
      assert texts[..0] == [] && [] + Fingerprints.WordsOf(texts[0]) == Fingerprints.WordsOf(texts[0]);
    } else if |texts| > 1 {
      JoinedWords(texts[..|texts| - 1]);
      Fingerprints.WordsAppend(Joined(texts[..|texts| - 1]), texts[|texts| - 1]);
    }
  }

  /**
   * The description of a movement: the words of its lines and then those of the continuation,
   * with one blank between them, cut at 300 characters.
   */
  lemma DescriptionIs(c: Current, continuation: string)
    ensures var text := Fingerprints.Spaced(AllWords(Texts(c.words)) + Fingerprints.WordsOf(continuation));
      DescriptionOf(c, continuation) == if |text| <= 300 then text else text[..300]
  {
    DescribedIs(Joined(Texts(c.words)) + " " + continuation);
    Fingerprints.WordsAppend(Joined(Texts(c.words)), continuation);
    JoinedWords(Texts(c.words));
    hide Described;
  }

  /** `finalizeTransaction`. */
  function Emitted(c: Current, continuation: string, ctx: Context): seq<Transaction> {
    var description := DescriptionOf(c, continuation);
    match Classified(c.numbers, description, ctx)
    case None => []
    case Some(m) =>
      if m.amount == 0 then []
      else
        [Transaction(c.date, if description == "" then "Movimiento bancario" else description, m.amount, m.kind, m.balance,
          ctx.patterns.reference(description))]
  }

  type Emitter = (Current, string) -> seq<Transaction>

  /** What a finished movement adds to the list. */
  function Finalizer(ctx: Context): Emitter {
    (c, continuation) => Emitted(c, continuation, ctx)
  }

  function Block(parts: seq<Part>, s: nat, e: nat, emit: Emitter): seq<Transaction>
    requires s < e <= |parts| && parts[s].Opening?
  {
    emit(Gather(parts, s, e), Joined(Pending(parts, s, e)))
  }

  /** Each dated line with an amount opens a block that runs to the next one. */
  function Statement(parts: seq<Part>, i: nat, emit: Emitter): seq<Transaction>
    requires i <= |parts|
    decreases |parts| - i
  {
    var s := NextOpening(parts, i);
    if s == |parts| then []
    else
      var e := NextOpening(parts, s + 1);
      Block(parts, s, e, emit) + Statement(parts, e, emit)
  }

  // ---- The loop --------------------------------------------------------------------------

  method FinalizeTransaction(c: Current, txs: seq<Transaction>, continuation: string, ctx: Context)
    returns (out: seq<Transaction>)
    ensures out == txs + Finalizer(ctx)(c, continuation)
  {
    var description := DescriptionOf(c, continuation);
    var movement := ClassifyMovement(c.numbers, description, ctx);
    if movement.None? || movement.value.amount == 0 {
      return txs;
    }
    var m := movement.value;
    out := txs + [Transaction(c.date, if description == "" then "Movimiento bancario" else description,
      m.amount, m.kind, m.balance, ctx.patterns.reference(description))];
  }

  /** What the loop holds after the first `k` lines; `open` is the line that opened the current movement. */
  ghost predicate Reading(parts: seq<Part>, k: nat, open: nat, current: Option<Current>, pending: seq<string>,
                          txs: seq<Transaction>, emit: Emitter)
  {
    && k <= |parts|
    && (current.None? ==> pending == [] && txs == [] && forall j | 0 <= j < k :: !parts[j].Opening?)
    && (current.Some? ==>
         && open < k && parts[open].Opening? && (forall j | open < j < k :: !parts[j].Opening?)
         && current.value == Gather(parts, open, k) && pending == Pending(parts, open, k)
         && Statement(parts, 0, emit) == txs + Statement(parts, open, emit))
  }

  lemma StatementOpens(parts: seq<Part>, s: nat, e: nat, emit: Emitter)
    requires s < e <= |parts| && parts[s].Opening? && (e < |parts| ==> parts[e].Opening?)
    requires forall j | s < j < e :: !parts[j].Opening?
    ensures Statement(parts, s, emit) == Block(parts, s, e, emit) + Statement(parts, e, emit)
  {
    NextOpeningIs(parts, s, s);
    NextOpeningIs(parts, s + 1, e);
  }

  lemma StatementSkips(parts: seq<Part>, i: nat, k: nat, emit: Emitter)
    requires i <= k <= |parts| && (k < |parts| ==> parts[k].Opening?)
    requires forall j | i <= j < k :: !parts[j].Opening?
    ensures Statement(parts, i, emit) == Statement(parts, k, emit)
  {
    NextOpeningIs(parts, i, k);
    NextOpeningIs(parts, k, k);
  }

  lemma OpeningClosesBlock(parts: seq<Part>, k: nat, open: nat, current: Option<Current>, pending: seq<string>,
                           txs: seq<Transaction>, emit: Emitter)
    requires k < |parts| && parts[k].Opening? && Reading(parts, k, open, current, pending, txs, emit)
    ensures Reading(parts, k + 1, k, Some(Current(parts[k].date, parts[k].words, parts[k].numbers)), [],
      if current.Some? then txs + emit(current.value, Joined(pending)) else txs, emit)
  {
    var rest := Statement(parts, k, emit);
    if current.Some? {
      var block := emit(current.value, Joined(pending));
      StatementOpens(parts, open, k, emit);
      assert txs + (block + rest) == (txs + block) + rest;
    } else {
      StatementSkips(parts, 0, k, emit);
      assert [] + rest == rest;
    }
  }

  /** The current movement after an undated line: its amounts and their words join it. */
  function Continued(current: Option<Current>, part: Part): Option<Current> {
    if current.Some? && part.Amounts? then
      Some(Current(current.value.date, current.value.words + part.words, current.value.numbers + part.numbers))
    else current
  }

  /** The wording held back for the description; any line but a wording or an empty one drops it. */
  function Held(current: Option<Current>, pending: seq<string>, part: Part): seq<string> {
    if current.None? then []
    else if part.Wording? then pending + [part.text]
    else if part.Nothing? then pending
    else []
  }

  lemma ContinuationIsRead(parts: seq<Part>, k: nat, open: nat, current: Option<Current>, pending: seq<string>,
                           txs: seq<Transaction>, emit: Emitter)
    requires k < |parts| && !parts[k].Opening? && Reading(parts, k, open, current, pending, txs, emit)
    ensures Reading(parts, k + 1, open, Continued(current, parts[k]), Held(current, pending, parts[k]), txs, emit)
  {
  }

  lemma NothingIsRead(parts: seq<Part>, emit: Emitter)
    ensures Reading(parts, 0, 0, None, [], [], emit)
  {
  }

  lemma EndClosesBlock(parts: seq<Part>, open: nat, current: Option<Current>, pending: seq<string>,
                       txs: seq<Transaction>, emit: Emitter)
    requires Reading(parts, |parts|, open, current, pending, txs, emit)
    ensures Statement(parts, 0, emit) == if current.Some? then txs + emit(current.value, Joined(pending)) else txs
  {
    assert Statement(parts, |parts|, emit) == [];
    if current.Some? {
      StatementOpens(parts, open, |parts|, emit);
      var block := emit(current.value, Joined(pending));
      assert txs + (block + []) == txs + block;
    } else {
      StatementSkips(parts, 0, |parts|, emit);
    }
  }

  /** Reads the numbers and the words of a dated line. */
  method ReadDated(line: Line, i: nat) returns (part: Part)
    requires i < |line.tokens| && i == DateIndex(line.tokens)
    ensures part == DatedPart(line)
  {
    var dateToken := line.tokens[i];
    var dated := ParseDate(dateToken.text).value;
    var rest := line.tokens[i + 1..];
    if dated.rest != "" {
      rest := [dateToken.(text := dated.rest)] + rest;
    }
    var numeric, words := SplitTokens(rest, true);
    part := if numeric == [] then Heading
      else Opening(dated.date, line.tokens[..i] + LeftOf(words, LeftmostX(numeric)), numeric);
  }

  /** What a line is for: a summary, a dated line, or a continuation with or without amounts. */
  method ReadLine(line: Line, p: Patterns) returns (part: Part)
    ensures part == PartOf(line, p)
  {
    if line.tokens == [] {
      return Nothing;
    }
    if p.noise(Joined(Texts(line.tokens))) {
      return Summary;
    }
    var dateIdx := DateIndex(line.tokens);
    if dateIdx < |line.tokens| {
      part := ReadDated(line, dateIdx);
      return;
    }
    var numeric, words := SplitTokens(line.tokens, false);
    if numeric != [] {
      return Amounts(words, numeric);
    }
    if words != [] {
      var text := Joined(Texts(words));
      if Legible(text) {
        return Wording(text);
      }
    }
    part := Nothing;
  }

  /** The effect of an undated or amountless line on the current movement. */
  method Continue(part: Part, current: Option<Current>, pending: seq<string>)
    returns (next: Option<Current>, held: seq<string>)
    requires !part.Opening? && (current.None? ==> pending == [])
    ensures next == Continued(current, part) && held == Held(current, pending, part)
  {
    next, held := current, pending;
    match part
    case Summary =>
      held := [];
    case Heading =>
      held := [];
    case Amounts(words, numbers) =>
      if current.Some? {
        var c := current.value;
        next := Some(c.(words := c.words + words, numbers := c.numbers + numbers));
        held := [];
      }
    case Wording(text) =>
      if current.Some? {
        held := pending + [text];
      }
    case Nothing =>
  }

  /** The generic branch of `parseStatementLines`, before its cut. */
  method ReadMovements(lines: seq<Line>, ctx: Context) returns (txs: seq<Transaction>)
    ensures txs == Statement(Parts(lines, ctx.patterns), 0, Finalizer(ctx))
  {
    hide PartOf, Emitted;
    ghost var parts := Parts(lines, ctx.patterns);
    ghost var emit := Finalizer(ctx);
    var pending: seq<string> := [];
    var current: Option<Current> := None;
    ghost var open := 0;
    txs := [];
    NothingIsRead(parts, emit);
    for k := 0 to |lines|
      invariant Reading(parts, k, open, current, pending, txs, emit)
    {
      var part := ReadLine(lines[k], ctx.patterns);
      if part.Opening? {
        OpeningClosesBlock(parts, k, open, current, pending, txs, emit);
        if current.Some? {
          txs := FinalizeTransaction(current.value, txs, Joined(pending), ctx);
        }
        current, pending, open := Some(Current(part.date, part.words, part.numbers)), [], k;
      } else {
        ContinuationIsRead(parts, k, open, current, pending, txs, emit);
        current, pending := Continue(part, current, pending);
      }
    }
    EndClosesBlock(parts, open, current, pending, txs, emit);
    if current.Some? {
      txs := FinalizeTransaction(current.value, txs, Joined(pending), ctx);
    }
  }

  /** `parseStatementLines` for a statement of no known bank. */
  method ParseStatementLines(lines: seq<Line>, default: Option<L.TxType>, patterns: Patterns)
    returns (txs: seq<Transaction>)
    ensures var ctx := Context(LayoutOf(AllTokens(lines), patterns), default, patterns);
      var all := Statement(Parts(lines, patterns), 0, Finalizer(ctx));
      txs == if |all| <= 5000 then all else all[..5000]
  {
    var layout := DetectColumnLayout(lines, patterns);
    txs := ReadMovements(lines, Context(layout, default, patterns));
    if |txs| > MAX_TRANSACTIONS_PER_FILE {
      txs := txs[..MAX_TRANSACTIONS_PER_FILE];
    }
  }

  // ---- Where movements come from ---------------------------------------------------------

  /** The dated line a movement starts from, and the word that shows its amount. */
  datatype Origin = Origin(opening: nat, line: nat, token: nat)

  function NumbersOf(part: Part): seq<Numeric> {
    match part
    case Opening(_, _, numbers) => numbers
    case Amounts(_, numbers) => numbers
    case _ => []
  }

  /** A word of the line reads as this amount. */
  predicate Printed(line: Line, token: nat, amount: nat) {
    && token < |Material(line)|
    && NumberIn(Material(line)[token]).Some?
    && amount == Abs(NumberIn(Material(line)[token]).value.value)
  }

  /** The amount is shown by a word of the dated line or of a line before the next dated one with an amount. */
  ghost predicate Shows(lines: seq<Line>, parts: seq<Part>, o: Origin, tx: Transaction)
    requires |lines| == |parts|
  {
    && o.opening <= o.line < |parts| && parts[o.opening].Opening?
    && o.line < NextOpening(parts, o.opening + 1)
    && tx.date == parts[o.opening].date && InRange(tx.date)
    && tx.amount > 0 && Printed(lines[o.line], o.token, tx.amount)
  }

  /** Movements follow the dated lines; each has its own, and no line shows the amounts of two. */
  ghost predicate Traced(lines: seq<Line>, parts: seq<Part>, i: nat, os: seq<Origin>, txs: seq<Transaction>)
    requires |lines| == |parts|
  {
    && |os| == |txs|
    && (forall j | 0 <= j < |txs| :: Shows(lines, parts, os[j], txs[j]) && i <= os[j].opening)
    && (forall j, k | 0 <= j < k < |txs| :: os[j].line < os[k].opening)
  }

  /** Line by line, the parts hold the numbers printed there and valid dates. */
  ghost predicate PartsShown(lines: seq<Line>, parts: seq<Part>) {
    && |parts| == |lines|
    && (forall l | 0 <= l < |lines| && NumbersOf(parts[l]) != [] :: NumbersOf(parts[l]) == Numbers(Material(lines[l])))
    && (forall l | 0 <= l < |lines| && parts[l].Opening? :: InRange(parts[l].date))
  }

  lemma {:induction false} NumberIsPrinted(ts: seq<Token>, a: nat) returns (k: nat)
    requires a < |Numbers(ts)|
    ensures k < |ts| && NumberIn(ts[k]) == Some(Numbers(ts)[a])
  {
    var init := ts[..|ts| - 1];
    if a < |Numbers(init)| {
      k := NumberIsPrinted(init, a);
      assert init[k] == ts[k];
    } else {
      k := |ts| - 1;
    }
  }

  lemma {:induction false} GatheredFrom(parts: seq<Part>, s: nat, e: nat, a: nat) returns (line: nat, index: nat)
    requires s < e <= |parts| && parts[s].Opening? && a < |Gather(parts, s, e).numbers|
    ensures s <= line < e && index < |NumbersOf(parts[line])|
    ensures Gather(parts, s, e).numbers[a] == NumbersOf(parts[line])[index]
    ensures Gather(parts, s, e).date == parts[s].date
  {
    if e == s + 1 {
      line, index := s, a;
    } else {
      var earlier := Gather(parts, s, e - 1).numbers;
      GatherDate(parts, s, e);
      if a < |earlier| {
        line, index := GatheredFrom(parts, s, e - 1, a);
      } else {
        line, index := e - 1, a - |earlier|;
      }
    }
  }

  lemma {:induction false} GatherDate(parts: seq<Part>, s: nat, e: nat)
    requires s < e <= |parts| && parts[s].Opening?
    ensures Gather(parts, s, e).date == parts[s].date
  {
    if e > s + 1 {
      GatherDate(parts, s, e - 1);
    }
  }

  /** A block adds one movement at most, dated as its movement and showing one of its numbers. */
  ghost predicate Sober(emit: Emitter) {
    forall c: Current, text: string :: SoberAt(c, emit(c, text))
  }

  predicate SoberAt(c: Current, out: seq<Transaction>) {
    |out| == 0 || (|out| == 1 && out[0].date == c.date && out[0].amount > 0
      && exists a :: 0 <= a < |c.numbers| && Abs(c.numbers[a].value) == out[0].amount)
  }

  lemma FinalizerIsSober(ctx: Context)
    ensures Sober(Finalizer(ctx))
  {
    forall c: Current, text: string
      ensures SoberAt(c, Finalizer(ctx)(c, text))
    {
      EmittedIsSober(c, text, ctx);
    }
  }

  lemma EmittedIsSober(c: Current, text: string, ctx: Context)
    ensures SoberAt(c, Emitted(c, text, ctx))
  {
    hide DescriptionOf, Classified;
    var description := DescriptionOf(c, text);
    if Classified(c.numbers, description, ctx).Some? {
      ClassifiedIsGrounded(c.numbers, description, ctx);
      var m := Classified(c.numbers, description, ctx).value;
      assert Grounded(m, c.numbers);
      var a :| 0 <= a < |c.numbers| && Abs(c.numbers[a].value) == m.amount;
    }
  }

  lemma PartIsPrinted(lines: seq<Line>, parts: seq<Part>, l: nat, index: nat) returns (token: nat)
    requires |lines| == |parts| && PartsShown(lines, parts) && l < |lines| && index < |NumbersOf(parts[l])|
    ensures Printed(lines[l], token, Abs(NumbersOf(parts[l])[index].value))
  {
    token := NumberIsPrinted(Material(lines[l]), index);
  }

  lemma OpeningIsDated(lines: seq<Line>, parts: seq<Part>, s: nat)
    requires |lines| == |parts| && PartsShown(lines, parts) && s < |parts| && parts[s].Opening?
    ensures InRange(parts[s].date)
  {
  }

  lemma BlockIsTraced(lines: seq<Line>, parts: seq<Part>, s: nat, e: nat, out: seq<Transaction>) returns (os: seq<Origin>)
    requires |lines| == |parts| && PartsShown(lines, parts)
    requires s < e <= |parts| && parts[s].Opening? && e == NextOpening(parts, s + 1)
    requires SoberAt(Gather(parts, s, e), out)
    ensures Traced(lines, parts, s, os, out)
    ensures forall j | 0 <= j < |os| :: os[j].line < e
  {
    hide Printed, PartsShown, Gather, NextOpening, InRange;
    GatherDate(parts, s, e);
    OpeningIsDated(lines, parts, s);
    if out == [] {
      os := [];
    } else {
      var ns := Gather(parts, s, e).numbers;
      var a :| 0 <= a < |ns| && Abs(ns[a].value) == out[0].amount;
      var line, index := GatheredFrom(parts, s, e, a);
      var token := PartIsPrinted(lines, parts, line, index);
      os := [Origin(s, line, token)];
      assert Shows(lines, parts, os[0], out[0]);
    }
  }

  lemma {:induction false} StatementIsTraced(lines: seq<Line>, parts: seq<Part>, i: nat, emit: Emitter)
    returns (os: seq<Origin>)
    requires |lines| == |parts| && PartsShown(lines, parts) && Sober(emit) && i <= |parts|
    ensures Traced(lines, parts, i, os, Statement(parts, i, emit))
    decreases |parts| - i
  {
    hide Shows, PartsShown, SoberAt, Gather;
    var s := NextOpening(parts, i);
    if s == |parts| {
      os := [];
    } else {
      var e := NextOpening(parts, s + 1);
      var block := Block(parts, s, e, emit);
      assert SoberAt(Gather(parts, s, e), block);
      var first := BlockIsTraced(lines, parts, s, e, block);
      var rest := StatementIsTraced(lines, parts, e, emit);
      os := first + rest;
      JoinTraced(lines, parts, s, e, first, rest, block, Statement(parts, e, emit));
    }
  }

  lemma JoinTraced(lines: seq<Line>, parts: seq<Part>, s: nat, e: nat, first: seq<Origin>, rest: seq<Origin>,
                   block: seq<Transaction>, tail: seq<Transaction>)
    requires |lines| == |parts| && s <= e
    requires Traced(lines, parts, s, first, block) && Traced(lines, parts, e, rest, tail)
    requires forall j | 0 <= j < |first| :: first[j].line < e
    ensures Traced(lines, parts, s, first + rest, block + tail)
  {
    hide Shows;
  }

  lemma PartIsShown(line: Line, p: Patterns)
    ensures NumbersOf(PartOf(line, p)) != [] ==> NumbersOf(PartOf(line, p)) == Numbers(Material(line))
    ensures PartOf(line, p).Opening? ==> InRange(PartOf(line, p).date)
  {
    hide Material, Numbers, ParseDate, Joined;
    if DateIndex(line.tokens) < |line.tokens| {
      DatedPartIsShown(line);
    } else {
      UndatedPartIsShown(line);
    }
  }

  lemma DatedPartIsShown(line: Line)
    requires DateIndex(line.tokens) < |line.tokens|
    ensures NumbersOf(DatedPart(line)) != [] ==> NumbersOf(DatedPart(line)) == Numbers(Material(line))
    ensures DatedPart(line).Opening? ==> InRange(DatedPart(line).date)
  {
  }

  lemma UndatedPartIsShown(line: Line)
    requires DateIndex(line.tokens) == |line.tokens|
    ensures NumbersOf(UndatedPart(line)) != [] ==> NumbersOf(UndatedPart(line)) == Numbers(Material(line))
    ensures !UndatedPart(line).Opening?
  {
  }

  /**
   * Every movement of the list has a valid date and a positive amount that its own dated line,
   * or a line before the next dated line with an amount, shows; movements follow the dated
   * lines, one at most for each, and no two of them rest on the same printed number.
   */
  lemma MovementsAreTraced(lines: seq<Line>, ctx: Context)
    ensures exists os :: Traced(lines, Parts(lines, ctx.patterns), 0, os,
      Statement(Parts(lines, ctx.patterns), 0, Finalizer(ctx)))
  {
    var parts := Parts(lines, ctx.patterns);
    forall l | 0 <= l < |lines|
      ensures NumbersOf(parts[l]) != [] ==> NumbersOf(parts[l]) == Numbers(Material(lines[l]))
      ensures parts[l].Opening? ==> InRange(parts[l].date)
    {
      PartIsShown(lines[l], ctx.patterns);
    }
    FinalizerIsSober(ctx);
    var os := StatementIsTraced(lines, parts, 0, Finalizer(ctx));
  }

  lemma {:induction false} BlocksAreKept(parts: seq<Part>, i: nat, s: nat, emit: Emitter, tx: Transaction)
    requires i <= s < |parts| && parts[s].Opening? && tx in Block(parts, s, NextOpening(parts, s + 1), emit)
    ensures tx in Statement(parts, i, emit)
    decreases |parts| - i
  {
    var first := NextOpening(parts, i);
    if first < s {
      BlocksAreKept(parts, NextOpening(parts, first + 1), s, emit, tx);
    }
  }

  /**
   * A block yields a movement of the statement, exactly one, unless there is nothing to read
   * in it; in particular whenever its last printed amount is not zero.
   */
  lemma NoMovementIsLost(parts: seq<Part>, s: nat, ctx: Context)
    requires s < |parts| && parts[s].Opening?
    ensures var e := NextOpening(parts, s + 1);
      var block, ns := Block(parts, s, e, Finalizer(ctx)), Gather(parts, s, e).numbers;
      && |block| == (if NothingToRead(ns, ctx.layout) then 0 else 1)
      && (ns != [] && ns[|ns| - 1].value != 0 ==> |block| == 1)
      && forall tx | tx in block :: tx in Statement(parts, 0, Finalizer(ctx))
  {
    var e := NextOpening(parts, s + 1);
    var c := Gather(parts, s, e);
    var description := DescriptionOf(c, Joined(Pending(parts, s, e)));
    ClassifiedIff(c.numbers, description, ctx);
    if Classified(c.numbers, description, ctx).Some? {
      ClassifiedIsGrounded(c.numbers, description, ctx);
    }
    var block := Block(parts, s, e, Finalizer(ctx));
    forall tx | tx in block
      ensures tx in Statement(parts, 0, Finalizer(ctx))
    {
      BlocksAreKept(parts, 0, s, Finalizer(ctx), tx);
    }
  }

  // ---- Dated lines without an amount -----------------------------------------------------

  /** The next line that starts with a date, with an amount or without. */
  function NextDated(parts: seq<Part>, i: nat): (k: nat)
    requires i <= |parts|
    ensures i <= k <= |parts| && (k < |parts| ==> parts[k].Opening? || parts[k].Heading?)
    ensures forall j | i <= j < k :: !parts[j].Opening? && !parts[j].Heading?
    decreases |parts| - i
  {
    if i == |parts| || parts[i].Opening? || parts[i].Heading? then i else NextDated(parts, i + 1)
  }

  lemma NextDatedFirst(parts: seq<Part>, i: nat)
    requires i <= |parts|
    ensures NextDated(parts, i) <= NextOpening(parts, i)
  {
  }

  /** Continuation lines with amounts do carry amounts, as `PartOf` makes them. */
  predicate AmountsCarry(parts: seq<Part>) {
    forall l | 0 <= l < |parts| && parts[l].Amounts? :: parts[l].numbers != []
  }

  lemma {:induction false} GatherMore(parts: seq<Part>, s: nat, k: nat, e: nat)
    requires s < k <= e <= |parts| && parts[s].Opening? && AmountsCarry(parts)
    ensures |Gather(parts, s, k).numbers| <= |Gather(parts, s, e).numbers|
    ensures Gather(parts, s, k).numbers == Gather(parts, s, e).numbers <==> forall l | k <= l < e :: !parts[l].Amounts?
    decreases e
  {
    if k < e {
      GatherMore(parts, s, k, e - 1);
    }
  }

  lemma PartsCarry(lines: seq<Line>, p: Patterns)
    ensures AmountsCarry(Parts(lines, p))
  {
    hide Numbers, Wordings, Joined, Material, DateIndex;
  }

  /**
   * A block takes no number from behind its next dated line exactly when no line with
   * amounts stands between a dated line without amounts and the end of the block.
   */
  lemma BlockEndsAtNextDateIff(lines: seq<Line>, p: Patterns, s: nat)
    requires s < |lines| && Parts(lines, p)[s].Opening?
    ensures var parts := Parts(lines, p);
      var d, e := NextDated(parts, s + 1), NextOpening(parts, s + 1);
      && d <= e
      && (Gather(parts, s, e).numbers == Gather(parts, s, d).numbers <==>
          forall h, l | s < h < l < e && parts[h].Heading? :: !parts[l].Amounts?)
  {
    PartsCarry(lines, p);
    BlockOfPartsIff(Parts(lines, p), s);
  }

  lemma BlockOfPartsIff(parts: seq<Part>, s: nat)
    requires s < |parts| && parts[s].Opening? && AmountsCarry(parts)
    ensures var d, e := NextDated(parts, s + 1), NextOpening(parts, s + 1);
      && d <= e
      && (Gather(parts, s, e).numbers == Gather(parts, s, d).numbers <==>
          forall h, l | s < h < l < e && parts[h].Heading? :: !parts[l].Amounts?)
  {
    var d, e := NextDated(parts, s + 1), NextOpening(parts, s + 1);
    NextDatedFirst(parts, s + 1);
    GatherMore(parts, s, d, e);
    if l :| d <= l < e && parts[l].Amounts? {
      assert parts[d].Heading? && d < l;
    }
  }

  /** Where the words of a statement may stand: dates on the left, amounts on the right. */
  predicate DatedToken(t: Token, date: Date) {
    t.x < 0.6 && ParseDate(t.text) == Some(Dated(date, ""))
  }

  predicate AmountToken(t: Token, value: int) {
    t.x >= 0.6 && NumberIn(t) == Some(Numeric(t.x, value, t.text))
  }

  /** A word that is neither a date on the left nor a number. */
  predicate PlainToken(t: Token) {
    t.x >= 0.6 && !IsNumericText(Trim(t.text))
  }

  lemma OneNumber(t: Token)
    ensures Numbers([t]) == match NumberIn(t) { case None => [] case Some(n) => [n] }
  {
    assert [t][..0] == [];
    assert Numbers([t][..0]) == [];
  }

  /** A line that starts with a date. */
  lemma DatedLine(line: Line, date: Date)
    requires line.tokens != [] && DatedToken(line.tokens[0], date)
    ensures DateIndex(line.tokens) == 0 && Material(line) == line.tokens[1..]
  {
    hide ParseDate;
    assert StartsDate(line.tokens[0]);
  }

  lemma DateAndAmount(line: Line, date: Date, value: int, p: Patterns)
    requires |line.tokens| == 2 && DatedToken(line.tokens[0], date) && AmountToken(line.tokens[1], value)
    requires !p.noise(Joined(Texts(line.tokens)))
    ensures PartOf(line, p).Opening? && PartOf(line, p).date == date
    ensures PartOf(line, p).numbers == [Numeric(line.tokens[1].x, value, line.tokens[1].text)]
  {
    hide ParseDate, NumberIn, Wordings, Joined, Material, Numbers, DateIndex;
    DatedLine(line, date);
    assert line.tokens[1..] == [line.tokens[1]];
    OneNumber(line.tokens[1]);
  }

  lemma DateAndWord(line: Line, date: Date, p: Patterns)
    requires |line.tokens| == 2 && DatedToken(line.tokens[0], date) && PlainToken(line.tokens[1])
    requires !p.noise(Joined(Texts(line.tokens)))
    ensures PartOf(line, p) == Heading
  {
    hide ParseDate, IsNumericText, Wordings, Joined, Material, Numbers, DateIndex;
    DatedLine(line, date);
    assert line.tokens[1..] == [line.tokens[1]];
    OneNumber(line.tokens[1]);
  }

  lemma AmountAlone(line: Line, value: int, p: Patterns)
    requires |line.tokens| == 1 && AmountToken(line.tokens[0], value)
    requires !p.noise(Joined(Texts(line.tokens)))
    ensures PartOf(line, p).Amounts?
    ensures PartOf(line, p).numbers == [Numeric(line.tokens[0].x, value, line.tokens[0].text)]
  {
    hide ParseDate, NumberIn, Wordings, Joined, Numbers, Material;
    assert !StartsDate(line.tokens[0]);
    assert line.tokens == [line.tokens[0]];
    OneNumber(line.tokens[0]);
  }

  /** A dated line with an amount, a dated line without one, and an amount on its own. */
  lemma ThreePartsStatement(parts: seq<Part>, ctx: Context)
    requires |parts| == 3 && parts[0].Opening? && parts[1].Heading? && parts[2].Amounts?
    requires |parts[0].numbers| == 1 && |parts[2].numbers| == 1 && parts[2].numbers[0].value != 0
    requires ctx.layout.debitX.None? && ctx.layout.creditX.None?
    ensures var all := Statement(parts, 0, Finalizer(ctx));
      |all| == 1 && all[0].date == parts[0].date && all[0].amount == Abs(parts[2].numbers[0].value)
  {
    hide FromLast;
    NextOpeningIs(parts, 0, 0);
    NextOpeningIs(parts, 1, 3);
    NextOpeningIs(parts, 3, 3);
    var c := Gather(parts, 0, 3);
    assert Gather(parts, 0, 2) == Gather(parts, 0, 1);
    assert c.numbers == parts[0].numbers + parts[2].numbers && c.date == parts[0].date;
    LastDecides(c.numbers, DescriptionOf(c, Joined(Pending(parts, 0, 3))), ctx);
    assert Statement(parts, 3, Finalizer(ctx)) == [];
  }

  lemma LastDecides(ns: seq<Numeric>, description: string, ctx: Context)
    requires |ns| == 2 && ns[1].value != 0 && ctx.layout.debitX.None? && ctx.layout.creditX.None?
    ensures Classified(ns, description, ctx).Some? && Classified(ns, description, ctx).value.amount == Abs(ns[1].value)
  {
  }

  /**
   * A dated amount, a second date without an amount on its line, and the amount of that
   * second movement below it: the list holds one movement, with the first date and the
   * second amount. The first amount and the second date are lost.
   */
  lemma AmountJoinsEarlierMovement(lines: seq<Line>, first: Date, second: Date, a: int, b: int, ctx: Context)
    requires |lines| == 3 && |lines[0].tokens| == 2 && |lines[1].tokens| == 2 && |lines[2].tokens| == 1
    requires DatedToken(lines[0].tokens[0], first) && AmountToken(lines[0].tokens[1], a)
    requires DatedToken(lines[1].tokens[0], second) && PlainToken(lines[1].tokens[1])
    requires AmountToken(lines[2].tokens[0], b) && b != 0
    requires forall l | 0 <= l < 3 :: !ctx.patterns.noise(Joined(Texts(lines[l].tokens)))
    requires ctx.layout.debitX.None? && ctx.layout.creditX.None?
    ensures var all := Statement(Parts(lines, ctx.patterns), 0, Finalizer(ctx));
      |all| == 1 && all[0].date == first && all[0].amount == Abs(b)
  {
    hide DatedToken, AmountToken, PlainToken, PartOf, Joined, Texts;
    DateAndAmount(lines[0], first, a, ctx.patterns);
    DateAndWord(lines[1], second, ctx.patterns);
    AmountAlone(lines[2], b, ctx.patterns);
    ThreePartsStatement(Parts(lines, ctx.patterns), ctx);
  }
}
