/** Compound interest and the savings projection, over exact reals. */
module Compound {
  import opened Options
  import opened Calendar

  function Pow(b: real, n: nat): real {
    if n == 0 then 1.0 else b * Pow(b, n - 1)
  }

  /** `round2`: nearest cent, halves up. */
  function Round2(x: real): real {
    (x * 100.0 + 0.5).Floor as real / 100.0
  }

  lemma Round2Close(x: real)
    ensures -0.005 <= Round2(x) - x <= 0.005
  {
    var y := x * 100.0 + 0.5;
    assert y.Floor as real <= y < y.Floor as real + 1.0;
  }

  lemma Round2Monotone(x: real, y: real)
    requires x <= y
    ensures Round2(x) <= Round2(y)
  {
    var a, b := x * 100.0 + 0.5, y * 100.0 + 0.5;
    assert a <= b && a.Floor <= b.Floor;
  }

  /** Whole cents round to themselves. */
  lemma Round2Cents(cents: int)
    ensures Round2(cents as real / 100.0) == cents as real / 100.0
  {
    var y := cents as real / 100.0 * 100.0 + 0.5;
    assert y == cents as real + 0.5;
    assert y.Floor == cents;
  }

  lemma {:induction false} PowAtLeastOne(b: real, n: nat)
    requires b >= 1.0
    ensures Pow(b, n) >= 1.0
  {
    if n > 0 {
      PowAtLeastOne(b, n - 1);
      var p := Pow(b, n - 1);
      assert b * p >= p by {
        Grow(b, p);
      }
    }
  }

  lemma Grow(b: real, p: real)
    requires b >= 1.0 && p >= 0.0
    ensures b * p >= p
  {
    assert (b - 1.0) * p >= 0.0;
  }

  lemma {:induction false} PowSum(b: real, m: nat, n: nat)
    ensures Pow(b, m + n) == Pow(b, m) * Pow(b, n)
  {
    if m > 0 {
      PowSum(b, m - 1, n);
      assert b * (Pow(b, m - 1) * Pow(b, n)) == b * Pow(b, m - 1) * Pow(b, n);
    }
  }

  // ---- Daily accrual ---------------------------------------------------------------------

  /** `accruedInterestDaily`, with the daily rate `r` already derived from the annual one. */
  function AccruedDaily(principal: real, annualRate: real, r: real, days: int): real {
    if annualRate <= 0.0 || days <= 0 || principal <= 0.0 then 0.0
    else Round2(principal * (Pow(1.0 + r, days) - 1.0))
  }

  /** Growth of the principal without rounding. */
  function Growth(principal: real, r: real, days: nat): real {
    principal * (Pow(1.0 + r, days) - 1.0)
  }

  lemma GrowthNonNegative(principal: real, r: real, days: nat)
    requires principal >= 0.0 && r >= 0.0
    ensures Growth(principal, r, days) >= 0.0
  {
    PowAtLeastOne(1.0 + r, days);
  }

  lemma AccruedClose(principal: real, annualRate: real, r: real, days: nat)
    requires annualRate > 0.0 && principal > 0.0 && r >= 0.0
    ensures -0.005 <= AccruedDaily(principal, annualRate, r, days) - Growth(principal, r, days) <= 0.005
    ensures AccruedDaily(principal, annualRate, r, days) >= 0.0
  {
    if days == 0 {
      assert Growth(principal, r, 0) == 0.0;
    } else {
      var x := Growth(principal, r, days);
      Round2Close(x);
      GrowthNonNegative(principal, r, days);
      Round2Monotone(0.0, x);
      Round2Cents(0);
    }
  }

  lemma {:induction false} PowGrows(b: real, m: nat, n: nat)
    requires b >= 1.0 && m <= n
    ensures Pow(b, m) <= Pow(b, n)
  {
    if m < n {
      PowGrows(b, m, n - 1);
      PowAtLeastOne(b, n - 1);
      Grow(b, Pow(b, n - 1));
    }
  }

  lemma GrowthGrows(principal: real, r: real, d1: nat, d2: nat)
    requires principal >= 0.0 && r >= 0.0 && d1 <= d2
    ensures Growth(principal, r, d1) <= Growth(principal, r, d2)
  {
    PowGrows(1.0 + r, d1, d2);
    var a, b := Pow(1.0 + r, d1) - 1.0, Pow(1.0 + r, d2) - 1.0;
    assert principal * (b - a) >= 0.0;
    assert principal * b == principal * a + principal * (b - a);
  }

  lemma AccruedIsGrowth(principal: real, annualRate: real, r: real, days: nat)
    requires annualRate > 0.0 && principal > 0.0 && days > 0
    ensures AccruedDaily(principal, annualRate, r, days) == Round2(Growth(principal, r, days))
  {
  }

  /** Longer periods accrue no less. */
  lemma AccruedDailyGrows(principal: real, annualRate: real, r: real, d1: int, d2: int)
    requires r >= 0.0 && d1 <= d2
    ensures AccruedDaily(principal, annualRate, r, d1) <= AccruedDaily(principal, annualRate, r, d2)
  {
    if annualRate > 0.0 && principal > 0.0 && d2 > 0 {
      if d1 > 0 {
        GrowthGrows(principal, r, d1, d2);
        Round2Monotone(Growth(principal, r, d1), Growth(principal, r, d2));
        AccruedIsGrowth(principal, annualRate, r, d1);
        AccruedIsGrowth(principal, annualRate, r, d2);
        hide AccruedDaily, Growth, Round2;
      } else {
        AccruedClose(principal, annualRate, r, d2);
      }
    }
  }

  /** Without rounding, capitalising in between only grows the error `e` of the first interest. */
  lemma GrowthSplits(p: real, first: real, e: real, r: real, d1: nat, d2: nat, t: real)
    requires first == Growth(p, r, d1) + e && e * (Pow(1.0 + r, d2) - 1.0) == t
    ensures Growth(p, r, d1) + Growth(p + first, r, d2) == Growth(p, r, d1 + d2) + t
  {
    PowSum(1.0 + r, d1, d2);
    SplitAlgebra(p, first, e, Pow(1.0 + r, d1), Pow(1.0 + r, d2));
  }

  lemma SplitAlgebra(p: real, first: real, e: real, a: real, b: real)
    requires first == p * (a - 1.0) + e
    ensures p * (a - 1.0) + (p + first) * (b - 1.0) == p * (a * b - 1.0) + e * (b - 1.0)
  {
    assert p + first == p * a + e;
  }

  lemma ScaledBound(e: real, b: real)
    requires -0.005 <= e <= 0.005 && b >= 0.0
    ensures -0.005 * b <= e * b <= 0.005 * b
  {
    assert (0.005 - e) * b >= 0.0 && (0.005 + e) * b >= 0.0;
  }

  /** Three roundings, the first of them grown by `b`: `t` stands for `e * b`. */
  lemma RoundingsAdd(first: real, second: real, once: real, g1: real, g2: real, g: real, e: real, b: real, t: real)
    requires first == g1 + e && -0.005 <= second - g2 <= 0.005 && -0.005 <= once - g <= 0.005
    requires g1 + g2 == g + (t - e) && -0.005 * b <= t <= 0.005 * b
    ensures -(0.005 * (2.0 + b)) <= first + second - once <= 0.005 * (2.0 + b)
  {
  }

  lemma ScaledError(e: real, b: real) returns (t: real)
    requires -0.005 <= e <= 0.005 && b >= 0.0
    ensures e * (b - 1.0) == t - e && -0.005 * b <= t <= 0.005 * b
  {
    t := e * b;
    ScaledBound(e, b);
  }

  /** The unrounded growths behind the three accruals and the error the first one carries. */
  lemma SplitFacts(principal: real, annualRate: real, r: real, d1: nat, d2: nat, first: real)
    returns (g1: real, g2: real, g: real, e: real, t: real)
    requires r >= 0.0 && annualRate > 0.0 && principal > 0.0
    requires first == AccruedDaily(principal, annualRate, r, d1)
    ensures first >= 0.0 && first == g1 + e
    ensures -0.005 <= AccruedDaily(principal + first, annualRate, r, d2) - g2 <= 0.005
    ensures -0.005 <= AccruedDaily(principal, annualRate, r, d1 + d2) - g <= 0.005
    ensures g1 + g2 == g + (t - e) && -0.005 * Pow(1.0 + r, d2) <= t <= 0.005 * Pow(1.0 + r, d2)
  {
    AccruedClose(principal, annualRate, r, d1);
    AccruedClose(principal + first, annualRate, r, d2);
    AccruedClose(principal, annualRate, r, d1 + d2);
    g1, g2, g := Growth(principal, r, d1), Growth(principal + first, r, d2), Growth(principal, r, d1 + d2);
    e := first - g1;
    PowAtLeastOne(1.0 + r, d2);
    t := ScaledError(e, Pow(1.0 + r, d2));
    GrowthSplits(principal, first, e, r, d1, d2, t - e);
  }

  /**
   * Accruing `d1` days, capitalising, then accruing `d2` days differs from accruing all
   * days at once by at most half a cent times 2 + (1 + r)^d2.
   */
  lemma SplitAccrual(principal: real, annualRate: real, r: real, d1: nat, d2: nat)
    requires r >= 0.0
    ensures var first := AccruedDaily(principal, annualRate, r, d1);
            var second := AccruedDaily(principal + first, annualRate, r, d2);
            var once := AccruedDaily(principal, annualRate, r, d1 + d2);
            var bound := 0.005 * (2.0 + Pow(1.0 + r, d2));
            -bound <= first + second - once <= bound
  {
    var first := AccruedDaily(principal, annualRate, r, d1);
    var second := AccruedDaily(principal + first, annualRate, r, d2);
    var once := AccruedDaily(principal, annualRate, r, d1 + d2);
    PowAtLeastOne(1.0 + r, d2);
    if annualRate > 0.0 && principal > 0.0 {
      var g1, g2, g, e, t := SplitFacts(principal, annualRate, r, d1, d2, first);
      RoundingsAdd(first, second, once, g1, g2, g, e, Pow(1.0 + r, d2), t);
    } else {
      assert first == 0.0 && second == 0.0 && once == 0.0;
    }
  }

  // ---- The savings projection ------------------------------------------------------------

  /** A balance after `n` periods of growth, each followed by a deposit. */
  function Saved(balance: real, quota: real, i: real, n: nat): real {
    if n == 0 then balance else Saved(balance, quota, i, n - 1) * (1.0 + i) + quota
  }

  lemma DivisionIs(a: real, q: real, i: real)
    requires i > 0.0 && q * i == a
    ensures a / i == q
  {
  }

  /** One more period of the annuity factor `(g - 1) / i`. */
  lemma AnnuityStep(g: real, i: real)
    requires i > 0.0
    ensures ((1.0 + i) * g - 1.0) / i == (g - 1.0) / i * (1.0 + i) + 1.0
  {
    var h := (g - 1.0) / i;
    assert h * i == g - 1.0;
    assert (h * (1.0 + i) + 1.0) * i == h * i * (1.0 + i) + i;
    assert (g - 1.0) * (1.0 + i) + i == (1.0 + i) * g - 1.0;
    DivisionIs((1.0 + i) * g - 1.0, h * (1.0 + i) + 1.0, i);
  }

  /** Balance and deposits grown by the factor `g`. */
  function Grown(balance: real, quota: real, i: real, g: real): real
    requires i > 0.0
  {
    balance * g + quota * ((g - 1.0) / i)
  }

  /** One more period, from a balance `s` to the next. */
  lemma GrownStep(balance: real, quota: real, i: real, g: real, next: real, s: real)
    requires i > 0.0 && next == (1.0 + i) * g && Grown(balance, quota, i, g) == s
    ensures Grown(balance, quota, i, next) == s * (1.0 + i) + quota
  {
    AnnuityStep(g, i);
    var h := (g - 1.0) / i;
    assert (balance * g + quota * h) * (1.0 + i) + quota ==
           balance * ((1.0 + i) * g) + quota * (h * (1.0 + i) + 1.0);
  }

  /** `FV = P(1+i)^n + Q((1+i)^n - 1)/i`, as the source computes it. */
  function FutureValue(balance: real, quota: real, i: real, n: nat): real
    requires i > 0.0
  {
    Grown(balance, quota, i, Pow(1.0 + i, n))
  }

  lemma GrownStart(balance: real, quota: real, i: real)
    requires i > 0.0
    ensures Grown(balance, quota, i, 1.0) == balance
  {
    DivisionIs(0.0, 0.0, i);
  }

  /** The closed form of the source equals the period-by-period balance. */
  lemma {:induction false} ClosedForm(balance: real, quota: real, i: real, n: nat)
    requires i > 0.0
    ensures FutureValue(balance, quota, i, n) == Saved(balance, quota, i, n)
  {
    if n == 0 {
      GrownStart(balance, quota, i);
    } else {
      ClosedForm(balance, quota, i, n - 1);
      GrownStep(balance, quota, i, Pow(1.0 + i, n - 1), Pow(1.0 + i, n), Saved(balance, quota, i, n - 1));
    }
  }

  lemma {:induction false} SavedAtLeastDeposits(balance: real, quota: real, i: real, n: nat)
    requires balance >= 0.0 && quota >= 0.0 && i >= 0.0
    ensures Saved(balance, quota, i, n) >= balance + n as real * quota
    ensures Saved(balance, quota, i, n) >= 0.0
  {
    if n > 0 {
      SavedAtLeastDeposits(balance, quota, i, n - 1);
      Grow(1.0 + i, Saved(balance, quota, i, n - 1));
      assert n as real * quota == (n - 1) as real * quota + quota;
    }
  }

  lemma QuotaTimes(amount: real, periods: nat)
    requires periods >= 1
    ensures amount / periods as real * periods as real == amount
  {
  }

  /** Nominal rate per period, from an annual percentage. */
  function PeriodicRate(annualRate: real, periodsPerYear: nat): (i: real)
    requires periodsPerYear >= 1
    ensures annualRate > 0.0 ==> i > 0.0
  {
    annualRate / 100.0 / periodsPerYear as real
  }

  // ---- The number of periods -------------------------------------------------------------

  function PeriodsPerYear(f: Frequency): nat {
    match f
    case Daily => 365
    case Weekly => 52
    case Biweekly => 26
    case Monthly => 12
    case Quarterly => 4
    case Yearly => 1
  }

  function DaysPerPeriod(f: Frequency): real {
    match f
    case Daily => 1.0
    case Weekly => 7.0
    case Biweekly => 14.0
    case Monthly => 30.44
    case Quarterly => 91.31
    case Yearly => 365.25
  }

  function Ceil(x: real): int {
    if x.Floor as real == x then x.Floor else x.Floor + 1
  }

  /** Calendar months for a monthly plan, days over the length of a period for the others; one at least. */
  function TotalPeriods(f: Frequency, start: Date, end: Date): (n: nat)
    ensures n >= 1
  {
    var n := if f.Monthly? then end.Month() - start.Month() + (if end.day >= start.day then 1 else 0)
      else Ceil((end.Number() - start.Number()) as real / DaysPerPeriod(f));
    if n < 1 then 1 else n
  }

  lemma DatesInOrder(a: Date, b: Date)
    requires a.Valid() && b.Valid() && a.Number() < b.Number()
    ensures a.Month() < b.Month() || (a.Month() == b.Month() && a.day < b.day)
  {
    if b.Month() < a.Month() {
      DueGrows(b.Month(), a.Month(), b.day);
      MonthStep(b.Month());
    }
  }

  /** The k-th instalment of a monthly plan, counted from its first day, is not after its last day. */
  predicate FallsDue(start: Date, end: Date, k: nat) {
    start.Month() + k < end.Month() || (start.Month() + k == end.Month() && start.day <= end.day)
  }

  /** A monthly plan has one period for each of its monthly dates, the first and the last day included. */
  lemma MonthlyPeriodsAreDates(start: Date, end: Date, k: nat)
    requires start.Valid() && end.Valid() && start.Number() < end.Number()
    ensures k < TotalPeriods(Monthly, start, end) <==> FallsDue(start, end, k)
  {
    DatesInOrder(start, end);
  }

  /** Any other plan has the fewest periods that cover its days. */
  lemma PeriodsCoverDays(f: Frequency, start: Date, end: Date)
    requires !f.Monthly? && start.Number() < end.Number()
    ensures var n, days := TotalPeriods(f, start, end), (end.Number() - start.Number()) as real;
      (n - 1) as real * DaysPerPeriod(f) < days <= n as real * DaysPerPeriod(f)
  {
    var days := (end.Number() - start.Number()) as real;
    CeilCovers(days, DaysPerPeriod(f));
  }

  lemma CeilCovers(days: real, length: real)
    requires days > 0.0 && length > 0.0
    ensures Ceil(days / length) >= 1
    ensures (Ceil(days / length) - 1) as real * length < days <= Ceil(days / length) as real * length
  {
    var x := days / length;
    assert x * length == days;
    assert x > 0.0;
    var c := Ceil(x);
    assert (c - 1) as real < x <= c as real;
    TimesKeepsOrder((c - 1) as real, x, length);
    TimesKeepsOrder(x, c as real, length);
  }

  lemma TimesKeepsOrder(a: real, b: real, c: real)
    requires c > 0.0
    ensures a < b ==> a * c < b * c
    ensures a <= b ==> a * c <= b * c
  {
  }

  // ---- The plan --------------------------------------------------------------------------

  /** `quota` is the exact amount per period, `shown` the one in the answer. */
  datatype Plan = Open | Plan(amountToSave: real, periods: nat, daysInPeriod: int, quota: real, shown: real, projected: Option<real>)

  datatype PlanError = InvalidDateRange

  /** A rate of so many percent a year is a hundredth of it, spread over the periods of a year. */
  lemma PeriodicRateIs(annualRate: real, f: Frequency)
    ensures var i := PeriodicRate(annualRate, PeriodsPerYear(f));
      && (f == Daily ==> 36500.0 * i == annualRate) && (f == Weekly ==> 5200.0 * i == annualRate)
      && (f == Biweekly ==> 2600.0 * i == annualRate) && (f == Monthly ==> 1200.0 * i == annualRate)
      && (f == Quarterly ==> 400.0 * i == annualRate) && (f == Yearly ==> 100.0 * i == annualRate)
  {
  }

  /** The length of a period in days. */
  lemma PeriodsInDays(f: Frequency, start: Date, end: Date)
    requires !f.Monthly? && start.Number() < end.Number()
    ensures var n, days := TotalPeriods(f, start, end) as real, (end.Number() - start.Number()) as real;
      && (f == Daily ==> days == n)
      && (f == Weekly ==> 7.0 * (n - 1.0) < days <= 7.0 * n)
      && (f == Biweekly ==> 14.0 * (n - 1.0) < days <= 14.0 * n)
      && (f == Quarterly ==> 91.31 * (n - 1.0) < days <= 91.31 * n)
      && (f == Yearly ==> 365.25 * (n - 1.0) < days <= 365.25 * n)
  {
    PeriodsCoverDays(f, start, end);
    hide TotalPeriods;
  }

  /** A stated rate counts; without one, that of the account. */
  lemma RateIs(stated: real, ofAccount: Option<real>)
    ensures stated > 0.0 || ofAccount.None? ==> RateUsed(stated, ofAccount) == stated
    ensures stated <= 0.0 && ofAccount.Some? ==> RateUsed(stated, ofAccount) == ofAccount.value
  {
  }

  /** The stated rate, or the one of the account when none is stated. */
  function RateUsed(stated: real, ofAccount: Option<real>): real {
    if stated <= 0.0 && ofAccount.Some? then ofAccount.value else stated
  }

  /** `calculateQuota`, without the advice on income. */
  method CalculateQuota(target: Option<real>, current: real, f: Frequency, start: Date, end: Option<Date>,
                        stated: real, ofAccount: Option<real>)
    returns (r: Result<Plan, PlanError>)
    ensures r == Ok(Plan.Open) <==> target.None? || end.None?
    ensures r.Err? <==> target.Some? && end.Some? && start.Number() >= end.value.Number()
    ensures r.Ok? && r.value.Plan? ==>
              var p, rate := r.value, RateUsed(stated, ofAccount);
              && p.amountToSave == (if target.value > current then target.value - current else 0.0)
              && p.periods == TotalPeriods(f, start, end.value)
              && (p.daysInPeriod - 1) * p.periods < end.value.Number() - start.Number() <= p.daysInPeriod * p.periods
              && p.quota * p.periods as real == p.amountToSave && p.shown == Round2(p.quota)
              && (p.projected.None? <==> rate <= 0.0)
              && (p.projected.Some? ==>
                    p.projected.value ==
                      Round2(Saved(current, p.quota, PeriodicRate(rate, PeriodsPerYear(f)), p.periods)))
  {
    hide Saved, FutureValue, Round2, Ceil, TotalPeriods, PeriodicRate;
    if end.None? || target.None? {
      return Ok(Plan.Open);
    }
    var amountToSave := 0.0;
    if target.value - current > 0.0 {
      amountToSave := target.value - current;
    }
    if start.Number() >= end.value.Number() {
      return Err(InvalidDateRange);
    }
    var diffDays := end.value.Number() - start.Number();
    var periods := TotalPeriods(f, start, end.value);
    var daysInPeriod := Ceil(diffDays as real / periods as real);
    WholeCover(diffDays, periods);
    var quota := amountToSave / periods as real;
    QuotaTimes(amountToSave, periods);
    var rate := RateUsed(stated, ofAccount);
    var projected := Project(current, quota, rate, PeriodsPerYear(f), periods);
    r := Ok(Plan.Plan(amountToSave, periods, daysInPeriod, quota, Round2(quota), projected));
  }

  /** The projection by the closed form, where there is a rate. */
  method Project(current: real, quota: real, rate: real, perYear: nat, periods: nat) returns (projected: Option<real>)
    requires perYear >= 1
    ensures projected.None? <==> rate <= 0.0
    ensures projected.Some? ==> projected.value == Round2(Saved(current, quota, PeriodicRate(rate, perYear), periods))
  {
    if rate <= 0.0 {
      return None;
    }
    var periodic := PeriodicRate(rate, perYear);
    ClosedForm(current, quota, periodic, periods);
    projected := Some(Round2(FutureValue(current, quota, periodic, periods)));
  }

  /** The whole days of a period, rounded up. */
  lemma WholeCover(days: int, n: nat)
    requires days > 0 && n >= 1
    ensures var c := Ceil(days as real / n as real); (c - 1) * n < days <= c * n
  {
    var c := Ceil(days as real / n as real);
    CeilCovers(days as real, n as real);
    hide Ceil;
    assert ((c - 1) * n) as real == (c - 1) as real * n as real;
    assert (c * n) as real == c as real * n as real;
  }

  /**
   * The quota in the answer is rounded to cents: paid without interest, it reaches the
   * amount exactly when it was not rounded down, and misses it by half a cent a period at
   * most.
   */
  lemma ShownQuotaReachesIff(amount: real, quota: real, periods: nat)
    requires periods >= 1 && Times(quota, periods as real) == amount
    ensures var paid, slack := Times(Round2(quota), periods as real), Times(0.005, periods as real);
      (paid >= amount <==> Round2(quota) >= quota) && amount - slack <= paid <= amount + slack
  {
    var shown, n := Round2(quota), periods as real;
    Round2Close(quota);
    TimesGrows(shown, quota, n);
    TimesGrows(quota, shown, n);
    TimesGrows(quota - 0.005, shown, n);
    TimesGrows(shown, quota + 0.005, n);
    TimesSpreads(quota, 0.005, n);
    hide Round2, Times;
  }

  function Times(a: real, n: real): real {
    a * n
  }

  lemma TimesGrows(a: real, b: real, n: real)
    requires n > 0.0
    ensures a < b ==> Times(a, n) < Times(b, n)
    ensures a <= b ==> Times(a, n) <= Times(b, n)
  {
    TimesKeepsOrder(a, b, n);
  }

  lemma TimesSpreads(b: real, e: real, n: real)
    ensures Times(b - e, n) == Times(b, n) - Times(e, n) && Times(b + e, n) == Times(b, n) + Times(e, n)
  {
  }

  /** Three payments of the quota shown for 100 make 99.99. */
  lemma HundredInThree()
    ensures Round2(100.0 / 3.0) * 3.0 == 99.99
  {
    var y := 100.0 / 3.0 * 100.0 + 0.5;
    assert 3333.0 <= y < 3334.0;
    assert y.Floor == 3333;
  }

  lemma NonNegativeQuota(quota: real, periods: nat)
    requires periods >= 1 && quota * periods as real >= 0.0
    ensures quota >= 0.0
  {
  }

  /** Following the suggested quota reaches the target: the projection is never below it. */
  lemma ProjectionReachesTarget(targetCents: int, current: real, quota: real, i: real, periods: nat)
    requires periods >= 1 && current >= 0.0 && i >= 0.0
    requires var target := targetCents as real / 100.0;
             quota * periods as real == if target > current then target - current else 0.0
    ensures Round2(Saved(current, quota, i, periods)) >= targetCents as real / 100.0
  {
    var target := targetCents as real / 100.0;
    NonNegativeQuota(quota, periods);
    SavedAtLeastDeposits(current, quota, i, periods);
    Round2Monotone(target, Saved(current, quota, i, periods));
    Round2Cents(targetCents);
  }
}
