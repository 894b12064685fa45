/** Interest periods of bank accounts over any sequence of accrual runs. */
module Interest {
  import opened Options
  import Compound

  datatype Frequency = Daily | Monthly | Annual | Other

  /** The fields the accrual reads and writes; dates are day numbers. */
  datatype Account = Account(
    frequency: Frequency,
    lastApplied: Option<int>, interestStart: Option<int>, created: int,
    termDays: int, maturity: Option<int>, termStart: Option<int>, autoRenew: bool)
  {
    /** The day the next period starts. */
    function PeriodStart(): int {
      if lastApplied.Some? then lastApplied.value
      else if interestStart.Some? then interestStart.value
      else created
    }

    /** A term deposit: `term_days` and `maturity_date` both set. */
    predicate IsTerm() {
      termDays != 0 && maturity.Some?
    }
  }

  /** Fewest days a period of a regular account can have; `None` for a frequency that never accrues. */
  function Threshold(f: Frequency): Option<int> {
    match f
    case Daily => Some(1)
    case Monthly => Some(28)
    case Annual => Some(350)
    case Other => None
  }

  /**
   * A run of the job: its day and what the rate and the balance of that day would earn,
   * over a number of days or over the term. Nothing is earned without rate or balance.
   */
  datatype Run = Run(day: int, earned: int -> int, termEarned: int)

  datatype Accrual = Accrual(interest: int, start: int, end: int)

  /** `calculateInterest`. */
  function CalculateInterest(a: Account, run: Run): Option<Accrual> {
    var start := a.PeriodStart();
    if start == run.day then None
    else if a.IsTerm() then
      if run.day < a.maturity.value || run.termEarned <= 0 then None
      else Some(Accrual(run.termEarned, a.maturity.value, run.day))
    else
      var days := run.day - start;
      match Threshold(a.frequency)
      case None => None
      case Some(least) =>
        if days < least || run.earned(days) <= 0 then None else Some(Accrual(run.earned(days), start, run.day))
  }

  /** `updateAccountMetadata`: remember the day and roll an auto-renewing term forward. */
  function Updated(a: Account, end: int): Account {
    var b := a.(lastApplied := Some(end));
    if a.IsTerm() && end >= a.maturity.value && a.autoRenew then
      b.(termStart := a.maturity, maturity := Some(a.maturity.value + a.termDays))
    else b
  }

  /** The day of the last application, else of the agreed start, else of the opening of the account. */
  function StartDay(a: Account): int {
    match (a.lastApplied, a.interestStart)
    case (Some(day), _) => day
    case (None, Some(day)) => day
    case (None, None) => a.created
  }

  /**
   * A regular account is paid by a run exactly when 1, 28 or 350 days have passed, for daily,
   * monthly and annual interest, and something is earned over them; other accounts never are.
   */
  lemma RegularAccrualIff(a: Account, run: Run)
    requires a.termDays == 0 || a.maturity.None?
    ensures var days, paid := run.day - StartDay(a), CalculateInterest(a, run);
      && (a.frequency == Daily ==> (paid.Some? <==> days >= 1 && run.earned(days) > 0))
      && (a.frequency == Monthly ==> (paid.Some? <==> days >= 28 && run.earned(days) > 0))
      && (a.frequency == Annual ==> (paid.Some? <==> days >= 350 && run.earned(days) > 0))
      && (a.frequency == Other ==> paid.None?)
      && (paid.Some? ==> paid.value == Accrual(run.earned(days), StartDay(a), run.day))
      && (paid.Some? ==> AfterRun(a, run) == a.(lastApplied := Some(run.day)))
      && (paid.None? ==> AfterRun(a, run) == a)
  {
  }

  /**
   * A term deposit is paid the interest of its term by a run on or after its maturity, unless
   * it was applied that day or earns nothing; if it renews, its maturity moves on by the term.
   */
  lemma TermAccrualIff(a: Account, run: Run)
    requires a.termDays != 0 && a.maturity.Some?
    ensures var paid, m := CalculateInterest(a, run), a.maturity.value;
      && (paid.Some? <==> run.day >= m && run.day != StartDay(a) && run.termEarned > 0)
      && (paid.Some? ==> paid.value == Accrual(run.termEarned, m, run.day))
      && (paid.Some? && !a.autoRenew ==> AfterRun(a, run) == a.(lastApplied := Some(run.day)))
      && (paid.Some? && a.autoRenew ==>
            AfterRun(a, run) == a.(lastApplied := Some(run.day), termStart := Some(m), maturity := Some(m + a.termDays)))
      && (paid.None? ==> AfterRun(a, run) == a)
  {
  }

  function AfterRun(a: Account, run: Run): Account {
    match CalculateInterest(a, run)
    case None => a
    case Some(accrual) => Updated(a, accrual.end)
  }

  /** The accruals of a sequence of runs. */
  function History(a: Account, runs: seq<Run>): seq<Accrual>
    decreases |runs|
  {
    if runs == [] then []
    else
      match CalculateInterest(a, runs[0])
      case None => History(a, runs[1..])
      case Some(accrual) => [accrual] + History(Updated(a, accrual.end), runs[1..])
  }

  function Final(a: Account, runs: seq<Run>): Account
    decreases |runs|
  {
    if runs == [] then a else Final(AfterRun(a, runs[0]), runs[1..])
  }

  predicate DaysInOrder(runs: seq<Run>) {
    forall i, j | 0 <= i < j < |runs| :: runs[i].day <= runs[j].day
  }

  lemma OrderedTail(runs: seq<Run>)
    requires DaysInOrder(runs) && runs != []
    ensures DaysInOrder(runs[1..]) && forall r | r in runs[1..] :: r.day >= runs[0].day
  {
    var tail := runs[1..];
    assert forall i | 0 <= i < |tail| :: tail[i] == runs[i + 1];
  }

  // ---- Regular accounts ------------------------------------------------------------------

  /** Periods follow each other without gap or overlap from a first day. */
  predicate Contiguous(h: seq<Accrual>, from: int) {
    && (h != [] ==> h[0].start == from)
    && (forall i | 0 < i < |h| :: h[i].start == h[i - 1].end)
    && (forall i | 0 <= i < |h| :: h[i].start < h[i].end && h[i].interest > 0)
  }

  /** Days covered by the periods. */
  function DaysCovered(h: seq<Accrual>): int {
    if h == [] then 0 else h[0].end - h[0].start + DaysCovered(h[1..])
  }

  lemma ContiguousPrepend(p: Accrual, rest: seq<Accrual>)
    requires Contiguous(rest, p.end) && p.start < p.end && p.interest > 0
    ensures Contiguous([p] + rest, p.start)
    ensures DaysCovered([p] + rest) == p.end - p.start + DaysCovered(rest)
  {
    var h := [p] + rest;
    assert h[1..] == rest;
    assert forall i | 0 < i < |h| :: h[i] == rest[i - 1];
  }

  /**
   * Over any sequence of runs in date order, the periods of a regular account start where
   * the account stood, are contiguous and disjoint, and add up to the whole time up to the
   * last application.
   */
  lemma {:induction false} RegularPeriods(a: Account, runs: seq<Run>)
    requires !a.IsTerm() && DaysInOrder(runs)
    ensures Contiguous(History(a, runs), a.PeriodStart())
    ensures DaysCovered(History(a, runs)) == Final(a, runs).PeriodStart() - a.PeriodStart()
    decreases |runs|
  {
    if runs != [] {
      OrderedTail(runs);
      var b := AfterRun(a, runs[0]);
      RegularPeriods(b, runs[1..]);
      if CalculateInterest(a, runs[0]).Some? {
        ContiguousPrepend(CalculateInterest(a, runs[0]).value, History(b, runs[1..]));
      }
    }
  }

  /** Each period ends on a run day and is at least as long as the frequency demands. */
  lemma {:induction false} PeriodsAreLongEnough(a: Account, runs: seq<Run>, p: Accrual)
    requires !a.IsTerm() && p in History(a, runs)
    ensures Threshold(a.frequency).Some? && p.end - p.start >= Threshold(a.frequency).value
    ensures exists r :: r in runs && r.day == p.end && r.earned(p.end - p.start) == p.interest
    decreases |runs|
  {
    var first := CalculateInterest(a, runs[0]);
    if first == Some(p) {
      assert runs[0] in runs;
    } else {
      var b := AfterRun(a, runs[0]);
      assert p in History(b, runs[1..]);
      PeriodsAreLongEnough(b, runs[1..], p);
      assert forall r | r in runs[1..] :: r in runs;
    }
  }

  lemma {:induction false} EndsIncrease(h: seq<Accrual>, from: int, i: nat, j: nat)
    requires Contiguous(h, from) && i < j < |h|
    ensures h[i].end < h[j].end
    decreases j - i
  {
    if i + 1 < j {
      EndsIncrease(h, from, i + 1, j);
    }
  }

  /** A day belongs to a period when it follows its start and does not follow its end. */
  predicate Covers(p: Accrual, day: int) {
    p.start < day <= p.end
  }

  /** No day of a regular account is paid twice, and at most one period ends on a day. */
  lemma EachDayIsPaidOnce(a: Account, runs: seq<Run>, i: nat, j: nat, day: int)
    requires !a.IsTerm() && DaysInOrder(runs) && i < j < |History(a, runs)|
    ensures History(a, runs)[i].end < History(a, runs)[j].end
    ensures !(Covers(History(a, runs)[i], day) && Covers(History(a, runs)[j], day))
  {
    var h := History(a, runs);
    RegularPeriods(a, runs);
    EndsIncrease(h, a.PeriodStart(), i, j);
    if i < j - 1 {
      EndsIncrease(h, a.PeriodStart(), i, j - 1);
    }
  }

  /** The run earns something over that many days and over any longer time. */
  ghost predicate Earns(run: Run, least: int) {
    forall n: int | n >= least :: run.earned(n) > 0
  }

  /** A run earns what daily compounding gives, in cents, and nothing over no days. */
  ghost predicate Compounds(run: Run, principal: real, annualRate: real, r: real) {
    forall n: int :: run.earned(n) as real == 100.0 * Compound.AccruedDaily(principal, annualRate, r, n)
  }

  /** With daily compounding it is enough that the run earns over the shortest period. */
  lemma CompoundEarnsIff(run: Run, principal: real, annualRate: real, r: real, least: int)
    requires r >= 0.0 && Compounds(run, principal, annualRate, r)
    ensures Earns(run, least) <==> run.earned(least) > 0
  {
    if run.earned(least) > 0 {
      forall n: int | n >= least
        ensures run.earned(n) > 0
      {
        assert run.earned(least) as real == 100.0 * Compound.AccruedDaily(principal, annualRate, r, least);
        assert run.earned(n) as real == 100.0 * Compound.AccruedDaily(principal, annualRate, r, n);
        Compound.AccruedDailyGrows(principal, annualRate, r, least, n);
      }
    }
  }

  /** After a run that earns over the threshold and longer, fewer days are unpaid than the frequency asks for. */
  lemma {:induction false} RegularRunCatchesUp(a: Account, runs: seq<Run>)
    requires !a.IsTerm() && Threshold(a.frequency).Some? && runs != []
    requires Earns(runs[|runs| - 1], Threshold(a.frequency).value)
    ensures runs[|runs| - 1].day - Final(a, runs).PeriodStart() < Threshold(a.frequency).value
    decreases |runs|
  {
    if |runs| > 1 {
      RegularRunCatchesUp(AfterRun(a, runs[0]), runs[1..]);
    } else {
      assert Final(a, runs) == AfterRun(a, runs[0]);
    }
  }

  lemma {:induction false} StartsFollow(h: seq<Accrual>, from: int, i: nat)
    requires Contiguous(h, from) && i < |h|
    ensures h[i].start >= from
  {
    if i > 0 {
      StartsFollow(h, from, i - 1);
    }
  }

  lemma StartFollows(a: Account, runs: seq<Run>, p: Accrual)
    requires !a.IsTerm() && DaysInOrder(runs) && p in History(a, runs)
    ensures p.start >= a.PeriodStart()
  {
    RegularPeriods(a, runs);
    var i :| 0 <= i < |History(a, runs)| && History(a, runs)[i] == p;
    hide History;
    StartsFollow(History(a, runs), a.PeriodStart(), i);
  }

  /** A run that earns and is not followed by the end of the period left less than the threshold. */
  lemma NotDueYet(a: Account, run: Run, p: Accrual)
    requires !a.IsTerm() && Threshold(a.frequency).Some? && p.start >= AfterRun(a, run).PeriodStart()
    requires Earns(run, Threshold(a.frequency).value)
    ensures run.day - p.start < Threshold(a.frequency).value
  {
  }

  /** A period ends on the first run day that reaches the threshold: no earlier run had. */
  lemma {:induction false} PeriodsEndWhenDue(a: Account, runs: seq<Run>, p: Accrual, i: nat)
    requires !a.IsTerm() && DaysInOrder(runs) && p in History(a, runs)
    requires i < |runs| && runs[i].day < p.end
    requires Threshold(a.frequency).Some? ==> Earns(runs[i], Threshold(a.frequency).value)
    ensures Threshold(a.frequency).Some? && runs[i].day - p.start < Threshold(a.frequency).value
    decreases |runs|
  {
    OrderedTail(runs);
    PeriodsAreLongEnough(a, runs, p);
    var b, tail := AfterRun(a, runs[0]), runs[1..];
    assert CalculateInterest(a, runs[0]) != Some(p) by {
      assert runs[0].day <= runs[i].day;
    }
    assert p in History(b, tail);
    hide History, DaysInOrder, Earns;
    if i > 0 {
      PeriodsEndWhenDue(b, tail, p, i - 1);
    } else {
      StartFollows(b, tail, p);
      NotDueYet(a, runs[0], p);
    }
  }

  // ---- Term deposits ---------------------------------------------------------------------

  /** Maturity of the k-th term. */
  function TermEnd(first: int, termDays: int, k: nat): int
    decreases k
  {
    if k == 0 then first else TermEnd(first + termDays, termDays, k - 1)
  }

  lemma {:induction false} TermEndIs(first: int, termDays: int, k: nat)
    ensures TermEnd(first, termDays, k) == first + termDays * k
    decreases k
  {
    if k > 0 {
      TermEndIs(first + termDays, termDays, k - 1);
      assert termDays * k == termDays * (k - 1) + termDays;
    }
  }

  /** Payments for consecutive maturities from `first`, none before its maturity, each on a later day than the last. */
  predicate TermSchedule(h: seq<Accrual>, first: int, termDays: int) {
    && (forall k | 0 <= k < |h| ::
          h[k].start == TermEnd(first, termDays, k) && h[k].end >= h[k].start && h[k].interest > 0)
    && forall k | 0 < k < |h| :: h[k].end > h[k - 1].end
  }

  lemma SchedulePrepend(p: Accrual, rest: seq<Accrual>, first: int, termDays: int)
    requires TermSchedule(rest, first + termDays, termDays) && (rest != [] ==> rest[0].end > p.end)
    requires p.start == first && p.end >= first && p.interest > 0
    ensures TermSchedule([p] + rest, first, termDays)
  {
    var h := [p] + rest;
    forall k | 0 < k < |h|
      ensures h[k] == rest[k - 1] && TermEnd(first, termDays, k) == TermEnd(first + termDays, termDays, k - 1)
    {
    }
  }

  /** One payment of an auto-renewing deposit. */
  lemma RenewalStep(a: Account, run: Run)
    requires a.IsTerm() && a.autoRenew && CalculateInterest(a, run).Some?
    ensures var p, b := CalculateInterest(a, run).value, AfterRun(a, run);
            && p.start == a.maturity.value && p.end == run.day && p.end >= p.start && p.interest > 0
            && b.IsTerm() && b.autoRenew && b.termDays == a.termDays
            && b.maturity == Some(a.maturity.value + a.termDays) && b.lastApplied == Some(run.day)
            && (a.lastApplied.Some? ==> run.day != a.lastApplied.value)
  {
  }

  /** No run from the maturity on is dated before the deposit's own start. */
  ghost predicate InTime(a: Account, runs: seq<Run>)
    requires a.IsTerm()
  {
    forall r | r in runs && r.day >= a.maturity.value :: r.day >= a.PeriodStart()
  }

  lemma {:induction false} RenewingTermSchedule(a: Account, runs: seq<Run>)
    requires a.IsTerm() && a.autoRenew && DaysInOrder(runs) && InTime(a, runs)
    ensures TermSchedule(History(a, runs), a.maturity.value, a.termDays)
    ensures a.lastApplied.Some? && History(a, runs) != [] ==> History(a, runs)[0].end > a.lastApplied.value
    decreases |runs|
  {
    if runs != [] {
      OrderedTail(runs);
      var run, tail := runs[0], runs[1..];
      assert run in runs && forall r | r in tail :: r in runs;
      var paid := CalculateInterest(a, run);
      if paid.Some? {
        RenewalStep(a, run);
        var b := AfterRun(a, run);
        RenewingTermSchedule(b, tail);
        SchedulePrepend(paid.value, History(b, tail), a.maturity.value, a.termDays);
      } else {
        RenewingTermSchedule(a, tail);
      }
    }
  }

  lemma {:induction false} RenewingTermMaturity(a: Account, runs: seq<Run>)
    requires a.IsTerm() && a.autoRenew
    ensures Final(a, runs).maturity == Some(TermEnd(a.maturity.value, a.termDays, |History(a, runs)|))
    decreases |runs|
  {
    if runs != [] {
      if CalculateInterest(a, runs[0]).Some? {
        RenewalStep(a, runs[0]);
      }
      RenewingTermMaturity(AfterRun(a, runs[0]), runs[1..]);
    }
  }

  /**
   * The days on or after a day on which a run would pay: something is earned over the term,
   * and the deposit was not applied on that day. Several runs of one day count once.
   */
  ghost function PayDays(a: Account, runs: seq<Run>, from: int): set<int> {
    EarningDays(runs, from, a.PeriodStart())
  }

  ghost function EarningDays(runs: seq<Run>, from: int, except: int): set<int> {
    set r | r in runs && r.termEarned > 0 && r.day >= from && r.day != except :: r.day
  }

  /**
   * There are days enough to pay the terms up to the k-th, one a day and none before its
   * maturity: from the maturity of each of them on, as many days as terms still to pay.
   */
  ghost predicate EnoughDays(a: Account, runs: seq<Run>, k: nat)
    requires a.maturity.Some?
  {
    forall j | 0 <= j <= k :: |PayDays(a, runs, TermEnd(a.maturity.value, a.termDays, j))| >= k - j + 1
  }

  lemma NoPayment(a: Account, runs: seq<Run>, from: int)
    requires a.IsTerm() && runs != [] && from >= a.maturity.value && CalculateInterest(a, runs[0]).None?
    ensures PayDays(a, runs, from) == PayDays(a, runs[1..], from)
  {
    assert runs == [runs[0]] + runs[1..];
    assert forall r | r in runs :: r == runs[0] || r in runs[1..];
  }

  /** Earning days of runs that do not go back before a first one, which is used up. */
  lemma DaysStep(runs: seq<Run>, from: int, except: int)
    requires runs != [] && runs[0].termEarned > 0 && forall r | r in runs[1..] :: r.day >= runs[0].day
    requires runs[0].day > except
    ensures EarningDays(runs, from, except) ==
            EarningDays(runs[1..], from, runs[0].day) + (if runs[0].day >= from then {runs[0].day} else {})
  {
    assert runs == [runs[0]] + runs[1..];
    assert forall r | r in runs :: r == runs[0] || r in runs[1..];
    assert forall r | r in runs[1..] :: r in runs;
    assert runs[0] in runs;
  }

  /** A payment uses up its day. */
  lemma OnePayment(a: Account, runs: seq<Run>, from: int)
    requires a.IsTerm() && runs != [] && DaysInOrder(runs) && InTime(a, runs)
    requires from >= a.maturity.value && CalculateInterest(a, runs[0]).Some?
    ensures var b, day := AfterRun(a, runs[0]), runs[0].day;
      && day !in PayDays(b, runs[1..], from)
      && PayDays(a, runs, from) == PayDays(b, runs[1..], from) + (if day >= from then {day} else {})
      && (day >= from ==> PayDays(b, runs[1..], from) == PayDays(b, runs[1..], a.maturity.value))
      && PayDays(b, runs[1..], from) <= PayDays(b, runs[1..], a.maturity.value)
  {
    OrderedTail(runs);
    assert runs[0] in runs;
    assert AfterRun(a, runs[0]).PeriodStart() == runs[0].day > a.PeriodStart();
    DaysStep(runs, from, a.PeriodStart());
  }

  lemma TermEndsGrow(first: int, termDays: int, k: nat)
    requires termDays > 0
    ensures TermEnd(first, termDays, k) >= first
  {
    TermEndIs(first, termDays, k);
    assert termDays * k >= 0;
  }

  /** The earning days from the maturity of the j-th term on. */
  ghost function DaysFor(a: Account, runs: seq<Run>, first: int, j: nat): nat {
    |PayDays(a, runs, TermEnd(first, a.termDays, j))|
  }

  /** The count of days before and after a payment. */
  lemma DaysMove(a: Account, runs: seq<Run>, j: nat)
    requires a.IsTerm() && a.termDays > 0 && runs != [] && DaysInOrder(runs) && InTime(a, runs)
    requires CalculateInterest(a, runs[0]).Some?
    ensures var m, b, tail := a.maturity.value, AfterRun(a, runs[0]), runs[1..];
      var late := runs[0].day >= TermEnd(m, a.termDays, j);
      && b.termDays == a.termDays
      && DaysFor(a, runs, m, j) == DaysFor(b, tail, m, j) + (if late then 1 else 0)
      && DaysFor(b, tail, m, j) <= DaysFor(b, tail, m, 0)
      && (late ==> DaysFor(b, tail, m, j) == DaysFor(b, tail, m, 0))
      && (j == 0 ==> late)
  {
    hide PayDays;
    var m, b := a.maturity.value, AfterRun(a, runs[0]);
    TermEndsGrow(m, a.termDays, j);
    OnePayment(a, runs, TermEnd(m, a.termDays, j));
    Fewer(PayDays(b, runs[1..], TermEnd(m, a.termDays, j)), PayDays(b, runs[1..], m));
  }

  /** From every term up to the k-th on there are as many days as terms to pay, starting at a first maturity and term. */
  ghost predicate EnoughFrom(a: Account, runs: seq<Run>, first: int, start: nat, k: nat) {
    forall j: nat | start <= j <= k :: DaysFor(a, runs, first, j) >= k - j + 1
  }

  lemma EnoughIsFrom(a: Account, runs: seq<Run>, k: nat)
    requires a.maturity.Some?
    ensures EnoughDays(a, runs, k) <==> EnoughFrom(a, runs, a.maturity.value, 0, k)
  {
    hide PayDays, TermEnd;
    if EnoughFrom(a, runs, a.maturity.value, 0, k) {
      forall j | 0 <= j <= k
        ensures |PayDays(a, runs, TermEnd(a.maturity.value, a.termDays, j))| >= k - j + 1
      {
        assert DaysFor(a, runs, a.maturity.value, j) >= k - j + 1;
      }
    }
  }

  /** The terms after the first, counted from the second maturity. */
  lemma EnoughShifts(b: Account, tail: seq<Run>, first: int, k: nat)
    requires k > 0
    ensures EnoughFrom(b, tail, first + b.termDays, 0, k - 1) <==> EnoughFrom(b, tail, first, 1, k)
  {
    hide PayDays;
    forall j: nat {:trigger DaysFor(b, tail, first + b.termDays, j)}
      ensures DaysFor(b, tail, first + b.termDays, j) == DaysFor(b, tail, first, j + 1)
    {
    }
    hide DaysFor;
    if EnoughFrom(b, tail, first + b.termDays, 0, k - 1) {
      forall j: nat | 1 <= j <= k
        ensures DaysFor(b, tail, first, j) >= k - j + 1
      {
        assert DaysFor(b, tail, first + b.termDays, j - 1) == DaysFor(b, tail, first, j - 1 + 1);
      }
    }
  }

  lemma PaymentUsesOneDay(a: Account, runs: seq<Run>, k: nat)
    requires a.IsTerm() && a.autoRenew && a.termDays > 0 && runs != [] && DaysInOrder(runs) && InTime(a, runs)
    requires CalculateInterest(a, runs[0]).Some?
    ensures AfterRun(a, runs[0]).maturity.Some?
    ensures EnoughDays(a, runs, k) <==> k == 0 || EnoughDays(AfterRun(a, runs[0]), runs[1..], k - 1)
  {
    RenewalStep(a, runs[0]);
    var b, tail, m := AfterRun(a, runs[0]), runs[1..], a.maturity.value;
    forall j: nat
      ensures DaysFor(a, runs, m, j) >= DaysFor(b, tail, m, j)
      ensures DaysFor(a, runs, m, j) == DaysFor(b, tail, m, j) || DaysFor(a, runs, m, j) == DaysFor(a, runs, m, 0)
      ensures DaysFor(b, tail, m, j) <= DaysFor(b, tail, m, 0) && DaysFor(a, runs, m, 0) == DaysFor(b, tail, m, 0) + 1
      ensures DaysFor(a, runs, m, j) == DaysFor(a, runs, m, 0) ==> DaysFor(b, tail, m, j) == DaysFor(b, tail, m, 0)
    {
      DaysMove(a, runs, j);
      DaysMove(a, runs, 0);
    }
    hide DaysFor, EnoughDays, DaysInOrder, InTime, CalculateInterest;
    EnoughIsFrom(a, runs, k);
    if k > 0 {
      EnoughIsFrom(b, tail, k - 1);
      EnoughShifts(b, tail, m, k);
      if EnoughFrom(b, tail, m, 1, k) {
        assert DaysFor(b, tail, m, 1) >= k;
      }
    }
  }

  lemma Fewer(a: set<int>, b: set<int>)
    requires a <= b
    ensures |a| <= |b|
  {
    assert b == a + (b - a);
  }

  /** The k-th term is paid exactly when there are days enough for it and those before it. */
  lemma {:induction false} TermIsPaidIff(a: Account, runs: seq<Run>, k: nat)
    requires a.IsTerm() && a.autoRenew && a.termDays > 0 && DaysInOrder(runs) && InTime(a, runs)
    ensures k < |History(a, runs)| <==> EnoughDays(a, runs, k)
    decreases |runs|
  {
    if runs == [] {
      assert PayDays(a, runs, TermEnd(a.maturity.value, a.termDays, k)) == {};
    } else {
      OrderedTail(runs);
      assert runs[0] in runs && forall r | r in runs[1..] :: r in runs;
      if CalculateInterest(a, runs[0]).Some? {
        RenewalStep(a, runs[0]);
        PaymentUsesOneDay(a, runs, k);
        if k > 0 {
          TermIsPaidIff(AfterRun(a, runs[0]), runs[1..], k - 1);
        }
      } else {
        TermIsPaidIff(a, runs[1..], k);
        forall j | 0 <= j <= k
          ensures var from := TermEnd(a.maturity.value, a.termDays, j);
            PayDays(a, runs, from) == PayDays(a, runs[1..], from)
        {
          TermEndsGrow(a.maturity.value, a.termDays, j);
          NoPayment(a, runs, TermEnd(a.maturity.value, a.termDays, j));
        }
      }
    }
  }

  lemma {:induction false} TermEndsAscend(first: int, termDays: int, j: nat, k: nat)
    requires termDays > 0 && j <= k
    ensures TermEnd(first, termDays, j) <= TermEnd(first, termDays, k)
    decreases j
  {
    if j == 0 {
      TermEndsGrow(first, termDays, k);
    } else {
      TermEndsAscend(first + termDays, termDays, j - 1, k - 1);
    }
  }

  /** In particular when that many days follow its own maturity. */
  lemma TermIsPaidInTime(a: Account, runs: seq<Run>, k: nat)
    requires a.IsTerm() && a.autoRenew && a.termDays > 0 && DaysInOrder(runs) && InTime(a, runs)
    requires |PayDays(a, runs, TermEnd(a.maturity.value, a.termDays, k))| > k
    ensures k < |History(a, runs)|
  {
    hide TermEnd, History;
    var m, t := a.maturity.value, a.termDays;
    forall j | 0 <= j <= k
      ensures |PayDays(a, runs, TermEnd(m, t, j))| > k
    {
      TermEndsAscend(m, t, j, k);
      Fewer(PayDays(a, runs, TermEnd(m, t, k)), PayDays(a, runs, TermEnd(m, t, j)));
    }
    TermIsPaidIff(a, runs, k);
  }

  /**
   * An auto-renewing deposit pays its terms in order, each exactly once: the k-th payment is
   * for the maturity m0 + k * term, never before it, on strictly increasing days; it is made
   * exactly when there were days enough, so a late deposit catches up one term a day;
   * afterwards the deposit waits for the first maturity it has not paid.
   */
  lemma RenewingTermPaysEachTermOnce(a: Account, runs: seq<Run>)
    requires a.IsTerm() && a.autoRenew && DaysInOrder(runs) && InTime(a, runs)
    ensures var h := History(a, runs);
      && (forall k | 0 <= k < |h| ::
            h[k].start == a.maturity.value + a.termDays * k && h[k].end >= h[k].start && h[k].interest > 0)
      && (forall k | 0 < k < |h| :: h[k].end > h[k - 1].end)
      && (a.termDays > 0 ==> forall k: nat :: k < |h| <==> EnoughDays(a, runs, k))
      && Final(a, runs).maturity == Some(a.maturity.value + a.termDays * |h|)
  {
    var h := History(a, runs);
    RenewingTermSchedule(a, runs);
    RenewingTermMaturity(a, runs);
    TermEndIs(a.maturity.value, a.termDays, |h|);
    forall k | 0 <= k < |h|
      ensures h[k].start == a.maturity.value + a.termDays * k
    {
      TermEndIs(a.maturity.value, a.termDays, k);
    }
    if a.termDays > 0 {
      forall k: nat
        ensures k < |h| <==> EnoughDays(a, runs, k)
      {
        TermIsPaidIff(a, runs, k);
      }
    }
  }

  /** One run of a deposit that does not renew. */
  lemma NonRenewalStep(a: Account, runs: seq<Run>)
    requires a.IsTerm() && !a.autoRenew && runs != [] && DaysInOrder(runs) && InTime(a, runs)
    ensures var b, p := AfterRun(a, runs[0]), CalculateInterest(a, runs[0]);
      && b.IsTerm() && !b.autoRenew && b.maturity == a.maturity && InTime(b, runs[1..])
      && (p.Some? ==> p.value.start == a.maturity.value && runs[0].day >= a.maturity.value)
      && (p.None? ==> b == a)
  {
    OrderedTail(runs);
    assert forall r | r in runs[1..] :: r in runs;
  }

  /**
   * A matured deposit that does not renew keeps its maturity date: it pays the whole term
   * again on every later day on which something is earned, so the term is paid exactly once
   * if and only if there is one such day.
   */
  lemma {:induction false} NonRenewingTermPayments(a: Account, runs: seq<Run>)
    requires a.IsTerm() && !a.autoRenew && DaysInOrder(runs) && InTime(a, runs)
    ensures |History(a, runs)| == |PayDays(a, runs, a.maturity.value)|
    ensures forall p | p in History(a, runs) :: p.start == a.maturity.value
    decreases |runs|
  {
    if runs == [] {
      assert PayDays(a, runs, a.maturity.value) == {};
    } else {
      OrderedTail(runs);
      NonRenewalStep(a, runs);
      NonRenewingTermPayments(AfterRun(a, runs[0]), runs[1..]);
      if CalculateInterest(a, runs[0]).Some? {
        OnePayment(a, runs, a.maturity.value);
      } else {
        NoPayment(a, runs, a.maturity.value);
      }
      hide PayDays, InTime, DaysInOrder, AfterRun, CalculateInterest;
    }
  }

  // ---- What the job does to one account --------------------------------------------------

  /** Where the work on an account can fail: when the income is saved, or when the account is. */
  datatype Fault = Fine | IncomeFails | AccountFails

  /** A run as one account sees it. */
  datatype Visit = Visit(run: Run, fault: Fault)

  /** The stored account after a visit: it changes only when both saves succeed. */
  function AfterVisit(a: Account, v: Visit): Account {
    if v.fault.Fine? then AfterRun(a, v.run) else a
  }

  /** The incomes a visit leaves: the income is saved before the account, not together with it. */
  function PaidBy(a: Account, v: Visit): seq<Accrual> {
    match CalculateInterest(a, v.run)
    case None => []
    case Some(p) => if v.fault.IncomeFails? then [] else [p]
  }

  function Left(a: Account, vs: seq<Visit>): Account
    decreases |vs|
  {
    if vs == [] then a else Left(AfterVisit(a, vs[0]), vs[1..])
  }

  function Paid(a: Account, vs: seq<Visit>): seq<Accrual>
    decreases |vs|
  {
    if vs == [] then [] else PaidBy(a, vs[0]) + Paid(AfterVisit(a, vs[0]), vs[1..])
  }

  /** Payments chain: visiting on from where the first visits left the account. */
  lemma {:induction false} PaidChains(a: Account, vs: seq<Visit>, more: seq<Visit>)
    ensures Paid(a, vs + more) == Paid(a, vs) + Paid(Left(a, vs), more)
    ensures Left(a, vs + more) == Left(Left(a, vs), more)
    decreases |vs|
  {
    if vs == [] {
      assert vs + more == more;
    } else {
      assert (vs + more)[1..] == vs[1..] + more;
      PaidChains(AfterVisit(a, vs[0]), vs[1..], more);
    }
  }

  /** The runs that came to something: a visit whose income could not be saved leaves nothing behind. */
  function RunsOf(vs: seq<Visit>): seq<Run> {
    if vs == [] then []
    else if vs[0].fault.IncomeFails? then RunsOf(vs[1..])
    else [vs[0].run] + RunsOf(vs[1..])
  }

  /** As long as accounts can be saved, the job pays the history of the account over those runs. */
  lemma {:induction false} PaidIsHistory(a: Account, vs: seq<Visit>)
    requires forall v | v in vs :: !v.fault.AccountFails?
    ensures Paid(a, vs) == History(a, RunsOf(vs)) && Left(a, vs) == Final(a, RunsOf(vs))
    decreases |vs|
  {
    if vs != [] {
      assert vs[0] in vs && forall v | v in vs[1..] :: v in vs;
      PaidIsHistory(AfterVisit(a, vs[0]), vs[1..]);
      if !vs[0].fault.IncomeFails? {
        assert RunsOf(vs)[1..] == RunsOf(vs[1..]);
      }
    }
  }

  predicate VisitsInOrder(vs: seq<Visit>) {
    forall i, j | 0 <= i < j < |vs| :: vs[i].run.day <= vs[j].run.day
  }

  lemma {:induction false} RunsOfInOrder(vs: seq<Visit>)
    requires VisitsInOrder(vs)
    ensures DaysInOrder(RunsOf(vs))
    ensures forall r | r in RunsOf(vs) :: exists v :: v in vs && v.run == r
  {
    if vs != [] {
      var tail := vs[1..];
      assert forall i | 0 <= i < |tail| :: tail[i] == vs[i + 1];
      RunsOfInOrder(tail);
      assert vs[0] in vs && forall v | v in tail :: v in vs && vs[0].run.day <= v.run.day;
      forall r | r in RunsOf(tail)
        ensures r.day >= vs[0].run.day
      {
        var v :| v in tail && v.run == r;
      }
    }
  }

  /** The visit pays nothing to the account as it stands: nothing is due, or the income cannot be saved. */
  predicate Idle(a: Account, v: Visit) {
    CalculateInterest(a, v.run).None? || v.fault.IncomeFails?
  }

  /** After a visit with something due whose account could not be saved, every visit is idle. */
  ghost predicate NothingRepeats(a: Account, vs: seq<Visit>)
    decreases |vs|
  {
    vs == [] ||
    var b := AfterVisit(a, vs[0]);
    && (CalculateInterest(a, vs[0].run).Some? && vs[0].fault.AccountFails? ==> forall w | w in vs[1..] :: Idle(b, w))
    && NothingRepeats(b, vs[1..])
  }

  lemma {:induction false} NothingPaidIff(a: Account, vs: seq<Visit>)
    ensures Paid(a, vs) == [] <==> forall w | w in vs :: Idle(a, w)
    decreases |vs|
  {
    if vs != [] {
      assert vs[0] in vs && forall w | w in vs :: w == vs[0] || w in vs[1..];
      if Idle(a, vs[0]) {
        NothingPaidIff(a, vs[1..]);
      }
    }
  }

  lemma {:induction false} PaidFromStart(a: Account, vs: seq<Visit>)
    requires !a.IsTerm()
    ensures Paid(a, vs) != [] ==> Paid(a, vs)[0].start == a.PeriodStart() && Paid(a, vs)[0].end > a.PeriodStart()
    decreases |vs|
  {
    if vs != [] && PaidBy(a, vs[0]) == [] {
      PaidFromStart(AfterVisit(a, vs[0]), vs[1..]);
    }
  }

  /** What a visit to a regular account pays and leaves. */
  lemma OneVisit(a: Account, v: Visit)
    requires !a.IsTerm()
    ensures var b := AfterVisit(a, v);
      && !b.IsTerm()
      && (Idle(a, v) ==> PaidBy(a, v) == [] && b == a)
      && (!Idle(a, v) ==>
            && |PaidBy(a, v)| == 1 && CalculateInterest(a, v.run).Some?
            && var p := PaidBy(a, v)[0];
              && p.start == a.PeriodStart() && p.start < p.end && p.interest > 0
              && if v.fault.AccountFails? then b == a else b.PeriodStart() == p.end)
      && (CalculateInterest(a, v.run).Some? && v.fault.AccountFails? ==> !Idle(a, v))
  {
  }

  lemma ContiguousFrom(h: seq<Accrual>, from: int)
    ensures h == [] || h[0].start != from ==> (Contiguous(h, from) <==> h == [])
  {
  }

  /**
   * The income and the account are not saved together: the periods paid to a regular account
   * stay contiguous and disjoint exactly when, after an income whose account could not be
   * saved, every later visit finds nothing due or cannot save its income. Otherwise that
   * period is paid again.
   */
  lemma {:induction false} PaidPeriodsContiguousIff(a: Account, vs: seq<Visit>)
    requires !a.IsTerm()
    ensures Contiguous(Paid(a, vs), a.PeriodStart()) <==> NothingRepeats(a, vs)
    decreases |vs|
  {
    if vs != [] {
      var b, rest := AfterVisit(a, vs[0]), vs[1..];
      PaidPeriodsContiguousIff(b, rest);
      PaidFromStart(b, rest);
      NothingPaidIff(b, rest);
      OneVisit(a, vs[0]);
      hide Contiguous, CalculateInterest, AfterVisit, PaidBy;
      if Idle(a, vs[0]) {
        assert [] + Paid(b, rest) == Paid(b, rest);
      } else {
        ContiguousIff(PaidBy(a, vs[0])[0], Paid(b, rest));
        ContiguousFrom(Paid(b, rest), PaidBy(a, vs[0])[0].end);
      }
    }
  }

  lemma ContiguousIff(p: Accrual, rest: seq<Accrual>)
    requires p.start < p.end && p.interest > 0
    ensures Contiguous([p] + rest, p.start) <==> Contiguous(rest, p.end)
  {
    if Contiguous(rest, p.end) {
      ContiguousPrepend(p, rest);
    }
    if Contiguous([p] + rest, p.start) {
      ContiguousTail([p] + rest, p.start);
      assert ([p] + rest)[1..] == rest;
    }
  }

  lemma ContiguousTail(h: seq<Accrual>, from: int)
    requires h != [] && Contiguous(h, from)
    ensures Contiguous(h[1..], h[0].end)
  {
    var rest := h[1..];
    assert forall i | 0 <= i < |rest| :: rest[i] == h[i + 1];
    forall i | 0 < i < |rest|
      ensures rest[i].start == rest[i - 1].end
    {
      assert h[i + 1].start == h[i].end;
    }
  }

  /** A payment whose account could not be saved is made again, from the same day, by the next run that pays. */
  lemma FailedSavePaysAgain(a: Account, v: Visit, w: Visit)
    requires v.fault.AccountFails? && PaidBy(a, v) != [] && PaidBy(AfterVisit(a, v), w) != []
    ensures PaidBy(AfterVisit(a, v), w)[0].start == PaidBy(a, v)[0].start
  {
  }

  // ---- The job ---------------------------------------------------------------------------

  /** A saved income record. */
  datatype Income = Income(account: nat, accrual: Accrual)

  /** The incomes of one account among all, in order. */
  function IncomesOf(incomes: seq<Income>, account: nat): seq<Accrual> {
    if incomes == [] then []
    else if incomes[|incomes| - 1].account == account then
      IncomesOf(incomes[..|incomes| - 1], account) + [incomes[|incomes| - 1].accrual]
    else IncomesOf(incomes[..|incomes| - 1], account)
  }

  lemma IncomeAdded(incomes: seq<Income>, n: nat, p: Accrual, i: nat)
    ensures IncomesOf(incomes + [Income(n, p)], i) == IncomesOf(incomes, i) + if i == n then [p] else []
  {
    assert (incomes + [Income(n, p)])[..|incomes|] == incomes;
  }

  /** The visits of one account over several days. */
  function Column(days: seq<seq<Visit>>, i: nat): seq<Visit>
    requires forall d | d in days :: i < |d|
  {
    if days == [] then []
    else
      assert forall d | d in days[..|days| - 1] :: d in days;
      assert days[|days| - 1] in days;
      Column(days[..|days| - 1], i) + [days[|days| - 1][i]]
  }

  /** The first `n` accounts were visited, the others stand as they were. */
  predicate Visited(from: seq<Account>, before: seq<Income>, visits: seq<Visit>, n: nat,
                    accounts: seq<Account>, incomes: seq<Income>)
    requires |visits| == |from|
  {
    && |accounts| == |from|
    && forall i | 0 <= i < |from| ::
         && accounts[i] == (if i < n then AfterVisit(from[i], visits[i]) else from[i])
         && IncomesOf(incomes, i) == IncomesOf(before, i) + if i < n then PaidBy(from[i], visits[i]) else []
  }

  /** Each account stands where its own visits leave it and was paid what they pay. */
  predicate DaysVisited(from: seq<Account>, before: seq<Income>, days: seq<seq<Visit>>,
                        accounts: seq<Account>, incomes: seq<Income>)
    requires forall d | d in days :: |d| == |from|
  {
    && |accounts| == |from|
    && forall i | 0 <= i < |from| ::
         && accounts[i] == Left(from[i], Column(days, i))
         && IncomesOf(incomes, i) == IncomesOf(before, i) + Paid(from[i], Column(days, i))
  }

  /** How the visit of an account is counted. */
  datatype Mark = Accrued | Skipped | Failed

  function MarkOf(a: Account, v: Visit): Mark {
    if CalculateInterest(a, v.run).None? then Skipped else if v.fault.Fine? then Accrued else Failed
  }

  function Count(accounts: seq<Account>, visits: seq<Visit>, m: Mark): nat
    requires |visits| == |accounts|
  {
    if accounts == [] then 0
    else
      var n := |accounts| - 1;
      Count(accounts[..n], visits[..n], m) + if MarkOf(accounts[n], visits[n]) == m then 1 else 0
  }

  lemma CountStep(accounts: seq<Account>, visits: seq<Visit>, n: nat, m: Mark)
    requires |visits| == |accounts| && n < |accounts|
    ensures Count(accounts[..n + 1], visits[..n + 1], m) ==
            Count(accounts[..n], visits[..n], m) + if MarkOf(accounts[n], visits[n]) == m then 1 else 0
  {
    assert accounts[..n + 1][..n] == accounts[..n] && visits[..n + 1][..n] == visits[..n];
  }

  class AccrualJob {
    var accounts: seq<Account>
    var incomes: seq<Income>

    constructor (accounts: seq<Account>)
      ensures this.accounts == accounts && incomes == []
    {
      this.accounts, incomes := accounts, [];
    }

    /** `runAccrual`: one pass over the accounts; `visits[i]` is the run as account `i` sees it. */
    method RunAccrual(visits: seq<Visit>) returns (accrued: nat, skipped: nat, errors: nat)
      requires |visits| == |accounts|
      modifies this
      ensures Visited(old(accounts), old(incomes), visits, |visits|, accounts, incomes)
      ensures |accounts| == |old(accounts)| && accrued + skipped + errors == |accounts|
      ensures accrued == Count(old(accounts), visits, Accrued) && skipped == Count(old(accounts), visits, Skipped)
      ensures errors == Count(old(accounts), visits, Failed)
      ensures (forall v | v in visits :: v.fault.Fine?) ==> errors == 0 && |incomes| == |old(incomes)| + accrued
    {
      hide Visited, CalculateInterest, Updated, Count;
      accrued, skipped, errors := 0, 0, 0;
      VisitedNone(accounts, incomes, visits);
      assert accounts[..|visits|] == accounts && visits[..|visits|] == visits;
      for n := 0 to |visits|
        invariant |accounts| == |visits| && accrued + skipped + errors == n
        invariant Visited(old(accounts), old(incomes), visits, n, accounts, incomes)
        invariant accrued == Count(old(accounts)[..n], visits[..n], Accrued)
        invariant skipped == Count(old(accounts)[..n], visits[..n], Skipped)
        invariant errors == Count(old(accounts)[..n], visits[..n], Failed)
        invariant (forall v | v in visits :: v.fault.Fine?) ==> errors == 0 && |incomes| == |old(incomes)| + accrued
      {
        var visit := visits[n];
        assert visit in visits;
        VisitNext(old(accounts), old(incomes), visits, n, accounts, incomes);
        CountStep(old(accounts), visits, n, Accrued);
        CountStep(old(accounts), visits, n, Skipped);
        CountStep(old(accounts), visits, n, Failed);
        var result := CalculateInterest(accounts[n], visit.run);
        if result.None? {
          skipped := skipped + 1;
        } else if visit.fault.IncomeFails? {
          errors := errors + 1;
        } else {
          incomes := incomes + [Income(n, result.value)];
          if visit.fault.AccountFails? {
            errors := errors + 1;
          } else {
            accounts := accounts[n := Updated(accounts[n], result.value.end)];
            accrued := accrued + 1;
          }
        }
      }
    }

    /** The job on several days. */
    method RunDays(days: seq<seq<Visit>>)
      requires forall d | d in days :: |d| == |accounts|
      modifies this
      ensures DaysVisited(old(accounts), old(incomes), days, accounts, incomes)
    {
      hide DaysVisited, Visited;
      NoDays(accounts, incomes);
      for d := 0 to |days|
        invariant |accounts| == |old(accounts)|
        invariant DaysVisited(old(accounts), old(incomes), days[..d], accounts, incomes)
      {
        assert days[d] in days;
        ghost var atStart, sofar := accounts, incomes;
        var accrued, skipped, errors := RunAccrual(days[d]);
        DayAdded(old(accounts), old(incomes), days, d, atStart, sofar, accounts, incomes);
      }
      assert days[..|days|] == days;
    }
  }

  lemma VisitedNone(accounts: seq<Account>, incomes: seq<Income>, visits: seq<Visit>)
    requires |visits| == |accounts|
    ensures Visited(accounts, incomes, visits, 0, accounts, incomes)
    ensures forall m :: Count(accounts[..0], visits[..0], m) == 0
  {
  }

  /** Whatever becomes of the next account, it is what its visit makes of it. */
  lemma VisitNext(from: seq<Account>, before: seq<Income>, visits: seq<Visit>, n: nat,
                  accounts: seq<Account>, incomes: seq<Income>)
    requires |visits| == |from| && n < |from| && Visited(from, before, visits, n, accounts, incomes)
    ensures |accounts| == |from| && accounts[n] == from[n]
    ensures var result, fault := CalculateInterest(accounts[n], visits[n].run), visits[n].fault;
      && (result.None? || fault.IncomeFails? ==> Visited(from, before, visits, n + 1, accounts, incomes))
      && (result.Some? && !fault.IncomeFails? ==>
            var more := incomes + [Income(n, result.value)];
            && (fault.AccountFails? ==> Visited(from, before, visits, n + 1, accounts, more))
            && (fault.Fine? ==>
                  Visited(from, before, visits, n + 1, accounts[n := Updated(accounts[n], result.value.end)], more)))
  {
    hide CalculateInterest, Updated, IncomesOf;
    var result := CalculateInterest(accounts[n], visits[n].run);
    if result.Some? {
      forall i: nat {
        IncomeAdded(incomes, n, result.value, i);
      }
    }
  }

  lemma NoDays(accounts: seq<Account>, incomes: seq<Income>)
    ensures DaysVisited(accounts, incomes, [], accounts, incomes)
  {
  }

  lemma DayAdded(from: seq<Account>, before: seq<Income>, days: seq<seq<Visit>>, d: nat,
                 accounts: seq<Account>, incomes: seq<Income>, nextAccounts: seq<Account>, nextIncomes: seq<Income>)
    requires d < |days| && forall day | day in days :: |day| == |from|
    requires DaysVisited(from, before, days[..d], accounts, incomes)
    requires days[d] in days && Visited(accounts, incomes, days[d], |days[d]|, nextAccounts, nextIncomes)
    ensures DaysVisited(from, before, days[..d + 1], nextAccounts, nextIncomes)
  {
    hide Paid, Left, PaidBy, AfterVisit, IncomesOf, Column;
    forall i | 0 <= i < |from|
      ensures nextAccounts[i] == Left(from[i], Column(days[..d + 1], i))
      ensures IncomesOf(nextIncomes, i) == IncomesOf(before, i) + Paid(from[i], Column(days[..d + 1], i))
    {
      ColumnStep(from[i], days, d, i);
    }
  }

  lemma PaidOnce(a: Account, v: Visit)
    ensures Paid(a, [v]) == PaidBy(a, v) && Left(a, [v]) == AfterVisit(a, v)
  {
    assert [v][1..] == [];
  }

  lemma ColumnStep(a: Account, days: seq<seq<Visit>>, d: nat, i: nat)
    requires d < |days| && forall day | day in days :: i < |day|
    ensures forall day | day in days[..d] || day in days[..d + 1] :: i < |day|
    ensures days[d] in days
    ensures var before := Left(a, Column(days[..d], i));
      && Paid(a, Column(days[..d + 1], i)) == Paid(a, Column(days[..d], i)) + PaidBy(before, days[d][i])
      && Left(a, Column(days[..d + 1], i)) == AfterVisit(before, days[d][i])
  {
    hide Paid, Left, PaidBy, AfterVisit;
    assert days[..d + 1][..d] == days[..d];
    PaidChains(a, Column(days[..d], i), [days[d][i]]);
    PaidOnce(Left(a, Column(days[..d], i)), days[d][i]);
  }

  /** An auto-renewing deposit whose visits could all save the account. */
  ghost predicate RenewsUnhindered(a: Account, vs: seq<Visit>) {
    && a.IsTerm() && a.autoRenew && a.termDays > 0
    && VisitsInOrder(vs) && InTime(a, RunsOf(vs)) && forall v | v in vs :: !v.fault.AccountFails?
  }

  /**
   * What the job leaves in the table of incomes for such a deposit: new payments for
   * consecutive terms, the k-th made exactly when there were days enough, and a deposit that
   * waits for the next maturity.
   */
  lemma JobPaysEachTermOnce(from: seq<Account>, before: seq<Income>, days: seq<seq<Visit>>,
                            accounts: seq<Account>, incomes: seq<Income>, i: nat) returns (paid: seq<Accrual>)
    requires (forall d | d in days :: |d| == |from|) && i < |from|
    requires DaysVisited(from, before, days, accounts, incomes) && RenewsUnhindered(from[i], Column(days, i))
    ensures IncomesOf(incomes, i) == IncomesOf(before, i) + paid
    ensures forall k: nat :: k < |paid| <==> EnoughDays(from[i], RunsOf(Column(days, i)), k)
    ensures forall k | 0 <= k < |paid| ::
              paid[k].start == from[i].maturity.value + from[i].termDays * k && paid[k].end >= paid[k].start
    ensures accounts[i].maturity == Some(from[i].maturity.value + from[i].termDays * |paid|)
  {
    hide IncomesOf, Paid, Left, Column, RunsOf, History, Final, EnoughDays, InTime, VisitsInOrder, DaysInOrder;
    var a, vs := from[i], Column(days, i);
    paid := Paid(a, vs);
    PaidIsHistory(a, vs);
    RunsOfInOrder(vs);
    RenewingTermPaysEachTermOnce(a, RunsOf(vs));
  }
}
