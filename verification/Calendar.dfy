/** Calendar dates and the next occurrence of a fixed transaction. */
module Calendar {
  import opened Options

  // ---- Dates and day numbers -------------------------------------------------------------

  /** A calendar day; months count from zero. */
  datatype Date = Date(year: int, month: int, day: int)
  {
    predicate Valid() {
      0 <= month < 12 && 1 <= day <= DaysIn(Month())
    }

    /** Months since year zero. */
    function Month(): int {
      12 * year + month
    }

    /** Position of the day on the time line. */
    function Number(): int {
      MonthStart(Month()) + day - 1
    }
  }

  predicate Leap(y: int) {
    y % 4 == 0 && (y % 100 != 0 || y % 400 == 0)
  }

  /** `daysInMonth`, by month index. */
  function DaysIn(t: int): int {
    var m := t % 12;
    if m == 1 then (if Leap(t / 12) then 29 else 28)
    else if m == 3 || m == 5 || m == 8 || m == 10 then 30
    else 31
  }

  /** Day number of the first day of a month: months follow each other without gap or overlap. */
  function MonthStart(t: int): int
    decreases if t < 0 then -t else t
  {
    if t == 0 then 0
    else if t > 0 then MonthStart(t - 1) + DaysIn(t - 1)
    else MonthStart(t + 1) - DaysIn(t)
  }

  lemma MonthStep(t: int)
    ensures MonthStart(t + 1) == MonthStart(t) + DaysIn(t)
    ensures 28 <= DaysIn(t) <= 31
  {
  }

  lemma MonthOfYear(y: int, m: int)
    requires 0 <= m < 12
    ensures (12 * y + m) % 12 == m && (12 * y + m) / 12 == y
  {
  }

  /** The months of a year, and the length of its February. */
  lemma MonthTable(y: int)
    ensures var t := 12 * y;
      && DaysIn(t) == 31 && DaysIn(t + 2) == 31 && DaysIn(t + 3) == 30 && DaysIn(t + 4) == 31 && DaysIn(t + 5) == 30
      && DaysIn(t + 6) == 31 && DaysIn(t + 7) == 31 && DaysIn(t + 8) == 30 && DaysIn(t + 9) == 31
      && DaysIn(t + 10) == 30 && DaysIn(t + 11) == 31
      && DaysIn(t + 1) == if (y % 4 == 0 && y % 100 != 0) || y % 400 == 0 then 29 else 28
  {
    hide DaysIn;
    MonthLength(y, 0);
    MonthLength(y, 1);
    MonthLength(y, 2);
    MonthLength(y, 3);
    MonthLength(y, 4);
    MonthLength(y, 5);
    MonthLength(y, 6);
    MonthLength(y, 7);
    MonthLength(y, 8);
    MonthLength(y, 9);
    MonthLength(y, 10);
    MonthLength(y, 11);
  }

  lemma MonthLength(y: int, m: int)
    requires 0 <= m < 12
    ensures DaysIn(12 * y + m) ==
            if m == 1 then (if (y % 4 == 0 && y % 100 != 0) || y % 400 == 0 then 29 else 28)
            else if m == 3 || m == 5 || m == 8 || m == 10 then 30 else 31
  {
    MonthOfYear(y, m);
  }

  /** Leap years before a year, counted from year zero: every fourth, but centuries only every fourth time. */
  function LeapsBefore(y: int): int {
    (y + 3) / 4 - (y + 99) / 100 + (y + 399) / 400
  }

  lemma YearLength(y: int)
    ensures MonthStart(12 * (y + 1)) == MonthStart(12 * y) +
              if (y % 4 == 0 && y % 100 != 0) || y % 400 == 0 then 366 else 365
  {
    var t := 12 * y;
    MonthTable(y);
    MonthStep(t);
    MonthStep(t + 1);
    MonthStep(t + 2);
    MonthStep(t + 3);
    MonthStep(t + 4);
    MonthStep(t + 5);
    MonthStep(t + 6);
    MonthStep(t + 7);
    MonthStep(t + 8);
    MonthStep(t + 9);
    MonthStep(t + 10);
    MonthStep(t + 11);
    hide MonthStart, DaysIn;
    assert t + 12 == 12 * (y + 1);
  }

  lemma FourStep(y: int)
    ensures (y + 4) / 4 == (y + 3) / 4 + if y % 4 == 0 then 1 else 0
  {
    var q, r := y / 4, y % 4;
    assert y == 4 * q + r;
  }

  lemma CenturyStep(y: int)
    ensures (y + 100) / 100 == (y + 99) / 100 + if y % 100 == 0 then 1 else 0
  {
    var q, r := y / 100, y % 100;
    assert y == 100 * q + r;
  }

  lemma FourCenturyStep(y: int)
    ensures (y + 400) / 400 == (y + 399) / 400 + if y % 400 == 0 then 1 else 0
  {
    var q, r := y / 400, y % 400;
    assert y == 400 * q + r;
  }

  lemma FourTimes(q: int)
    ensures (4 * q) % 4 == 0
  {
  }

  lemma HundredTimes(q: int)
    ensures (100 * q) % 100 == 0
  {
  }

  lemma CenturiesAreFourths(y: int)
    ensures y % 400 == 0 ==> y % 100 == 0
    ensures y % 100 == 0 ==> y % 4 == 0
  {
    HundredTimes(4 * (y / 400));
    FourTimes(25 * (y / 100));
    assert y % 400 == 0 ==> y == 100 * (4 * (y / 400));
    assert y % 100 == 0 ==> y == 4 * (25 * (y / 100));
  }

  lemma LeapStep(y: int)
    ensures LeapsBefore(y + 1) == LeapsBefore(y) + if (y % 4 == 0 && y % 100 != 0) || y % 400 == 0 then 1 else 0
  {
    FourStep(y);
    CenturyStep(y);
    FourCenturyStep(y);
    CenturiesAreFourths(y);
    LeapsUnfold(y, (y + 3) / 4, (y + 99) / 100, (y + 399) / 400);
    LeapsUnfold(y + 1, (y + 4) / 4, (y + 100) / 100, (y + 400) / 400);
    hide LeapsBefore;
  }

  lemma LeapsUnfold(y: int, a: int, b: int, c: int)
    requires a == (y + 3) / 4 && b == (y + 99) / 100 && c == (y + 399) / 400
    ensures LeapsBefore(y) == a - b + c
  {
  }

  /** A year starts 365 days a year after year zero, and one more for every leap year before it. */
  lemma {:induction false} YearStart(y: int)
    ensures MonthStart(12 * y) == 365 * y + LeapsBefore(y)
    decreases if y < 0 then -y else y
  {
    hide LeapsBefore;
    if y > 0 {
      YearStart(y - 1);
      YearLength(y - 1);
      LeapStep(y - 1);
    } else if y < 0 {
      YearStart(y + 1);
      YearLength(y);
      LeapStep(y);
    } else {
      NoLeaps();
    }
    hide MonthStart;
  }

  lemma NoLeaps()
    ensures LeapsBefore(0) == 0
  {
  }

  lemma LeapsAgain(y: int)
    ensures LeapsBefore(y + 400) == LeapsBefore(y) + 97
  {
    assert (y + 400 + 3) / 4 == (y + 3) / 4 + 100;
    assert (y + 400 + 99) / 100 == (y + 99) / 100 + 4;
    assert (y + 400 + 399) / 400 == (y + 399) / 400 + 1;
  }

  /** The calendar repeats itself after 400 years, which have 146097 days. */
  lemma FourCenturies(y: int)
    ensures MonthStart(12 * (y + 400)) == MonthStart(12 * y) + 146097
  {
    hide MonthStart, LeapsBefore;
    YearStart(y);
    YearStart(y + 400);
    LeapsAgain(y);
  }

  // ---- Due days --------------------------------------------------------------------------

  /** The due day of a month, clamped to the month length. */
  function Due(t: int, day: int): int {
    MonthStart(t) + Clamped(t, day) - 1
  }

  /** `clampDay`. */
  function Clamped(t: int, day: int): int {
    if day <= DaysIn(t) then day else DaysIn(t)
  }

  /** The n-th day is the due day of a month: its `day`-th day, or its last one when it has fewer. */
  predicate FallsOn(t: int, day: int, n: int) {
    if MonthStart(t) + day <= MonthStart(t + 1) then n == MonthStart(t) + day - 1 else n == MonthStart(t + 1) - 1
  }

  /** A month has one due day. */
  lemma DueIs(t: int, day: int, n: int)
    ensures FallsOn(t, day, n) <==> n == Due(t, day)
  {
    MonthStep(t);
  }

  /** Due days of later months come later, and stay inside their month. */
  lemma {:induction false} DueGrows(t: int, u: int, day: int)
    requires t < u && day >= 1
    ensures MonthStart(t) <= Due(t, day) < MonthStart(t + 1) <= MonthStart(u) <= Due(u, day)
    decreases u - t
  {
    MonthStep(t);
    if t + 1 < u {
      DueGrows(t + 1, u, day);
    }
  }

  /** `addMonthsClamped`. */
  function AddMonthsClamped(date: Date, months: int, day: int): Date {
    var total := date.Month() + months;
    Date(total / 12, total % 12, Clamped(total, day))
  }

  lemma AddMonthsIs(date: Date, months: int, day: int)
    requires day >= 1
    ensures var d := AddMonthsClamped(date, months, day);
            d.Valid() && d.Month() == date.Month() + months && d.Number() == Due(date.Month() + months, day)
  {
  }

  // ---- The five recurrences --------------------------------------------------------------

  /** `nextMonthlyOccurrence`. */
  function NextMonthly(dueDay: int, today: Date): Date {
    var candidate := Date(today.year, today.month, Clamped(today.Month(), dueDay));
    if candidate.Number() < today.Number() then
      var next := today.Month() + 1;
      Date(next / 12, next % 12, Clamped(next, dueDay))
    else candidate
  }

  /** The `%` operator of the source truncates toward zero. */
  function Remainder(a: int, b: int): int
    requires b > 0
  {
    if a >= 0 then a % b else -((-a) % b)
  }

  /** `((elapsed % n) + n) % n`. */
  function Offset(elapsed: int, n: int): int
    requires n > 0
  {
    Remainder(Remainder(elapsed, n) + n, n)
  }

  lemma ModIs(a: int, n: int, k: int, r: int)
    requires n == 7 || n == 14
    requires a == n * k + r && 0 <= r < n
    ensures a % n == r
  {
    if n == 7 {
      assert a == 7 * k + r;
    } else {
      assert a == 14 * k + r;
    }
  }

  /** The double remainder of the source is the mathematical modulus, also for anchors in the future. */
  lemma OffsetIsModulo(elapsed: int, n: int)
    requires n == 7 || n == 14
    ensures Offset(elapsed, n) == elapsed % n
  {
    if elapsed >= 0 {
      ModIs(elapsed % n + n, n, 1, elapsed % n);
    } else {
      var q, r := (-elapsed) / n, (-elapsed) % n;
      assert -elapsed == n * q + r;
      if r == 0 {
        ModIs(n, n, 1, 0);
        ModIs(elapsed, n, -q, 0);
      } else {
        ModIs(n - r, n, 0, n - r);
        ModIs(elapsed, n, -q - 1, n - r);
      }
    }
  }

  /** Next day on or after today in step with the anchor, in day numbers. */
  function NextInStep(anchor: int, n: int, today: int): int
    requires n > 0
  {
    var offset := Offset(today - anchor, n);
    if offset == 0 then today else today + (n - offset)
  }

  function NextWeekly(created: Date, today: Date): int {
    NextInStep(created.Number(), 7, today.Number())
  }

  function BiweeklyAnchor(dueDay: int, created: Date): int {
    Due(created.Month(), dueDay)
  }

  function NextBiweekly(dueDay: int, created: Date, today: Date): int {
    NextInStep(BiweeklyAnchor(dueDay, created), 14, today.Number())
  }

  /** First month of `t, t + step, ...` whose due day is not before today. */
  function FirstMonth(t: int, step: int, day: int, today: int): (u: int)
    requires step > 0 && day >= 1
    decreases if Due(t, day) < today then today - Due(t, day) else 0
  {
    if Due(t, day) >= today then t
    else
      DueGrows(t, t + step, day);
      FirstMonth(t + step, step, day, today)
  }

  /** `nextQuarterlyOccurrence` and `nextYearlyOccurrence`: the loop over clamped months. */
  method NextEvery(step: int, dueDay: int, created: Date, today: Date) returns (candidate: Date)
    requires step == 3 || step == 12
    requires dueDay >= 1
    ensures candidate.Valid()
    ensures candidate.Number() == Due(FirstMonth(created.Month(), step, dueDay, today.Number()), dueDay)
  {
    var current := today.Number();
    candidate := AddMonthsClamped(created, 0, dueDay);
    AddMonthsIs(created, 0, dueDay);
    while candidate.Number() < current
      invariant candidate.Valid() && candidate.Number() == Due(candidate.Month(), dueDay)
      invariant FirstMonth(candidate.Month(), step, dueDay, current) ==
                FirstMonth(created.Month(), step, dueDay, current)
      decreases current - candidate.Number()
    {
      DueGrows(candidate.Month(), candidate.Month() + step, dueDay);
      AddMonthsIs(candidate, step, dueDay);
      candidate := AddMonthsClamped(candidate, step, dueDay);
    }
  }

  datatype Frequency = Daily | Weekly | Biweekly | Monthly | Quarterly | Yearly

  /** The fields of a fixed transaction that decide its calendar. */
  datatype Recurrence = Recurrence(frequency: Option<Frequency>, dueDay: Option<int>, created: Date)
  {
    /** Due days run from 1 and creation dates exist. */
    predicate Valid() {
      created.Valid() && (dueDay.Some? ==> dueDay.value >= 1)
    }
  }

  /** `nextOccurrence`, as a day number. */
  function NextOccurrence(r: Recurrence, today: Date): Option<int>
    requires r.Valid()
  {
    if r.frequency == Some(Daily) then Some(today.Number())
    else if r.dueDay.None? then None
    else
      var day := r.dueDay.value;
      match r.frequency
      case Some(Weekly) => Some(NextWeekly(r.created, today))
      case Some(Biweekly) => Some(NextBiweekly(day, r.created, today))
      case Some(Quarterly) => Some(Due(FirstMonth(r.created.Month(), 3, day, today.Number()), day))
      case Some(Yearly) => Some(Due(FirstMonth(r.created.Month(), 12, day, today.Number()), day))
      case _ => Some(NextMonthly(day, today).Number())
  }

  // ---- The schedule ----------------------------------------------------------------------

  /** A whole number of periods away from the anchor, before or after it. */
  predicate InStep(anchor: int, n: int, day: int)
    requires n > 0
  {
    (day - anchor) % n == 0
  }

  /** The months `t, t + step, t + 2 step, ...`. */
  predicate Every(t: int, step: int, u: int)
    requires step > 0
  {
    u >= t && (u - t) % step == 0
  }

  /** The n-th day is the due day of one of the months `t, t + step, ...`. */
  ghost predicate FallsOnEvery(t: int, step: int, day: int, n: int)
    requires step > 0
  {
    exists u :: Every(t, step, u) && FallsOn(u, day, n)
  }

  /** The days a recurrence falls on. */
  ghost predicate Scheduled(r: Recurrence, n: int)
    requires r.Valid()
  {
    if r.frequency == Some(Daily) then true
    else if r.dueDay.None? then false
    else
      var day, t := r.dueDay.value, r.created.Month();
      match r.frequency
      case Some(Weekly) => InStep(MonthStart(t) + r.created.day - 1, 7, n)
      case Some(Biweekly) => exists anchor :: FallsOn(t, day, anchor) && InStep(anchor, 14, n)
      case Some(Quarterly) => FallsOnEvery(t, 3, day, n)
      case Some(Yearly) => FallsOnEvery(t, 12, day, n)
      case _ => exists u: int :: FallsOn(u, day, n)
  }

  lemma InStepUnique(anchor: int, n: int, a: int, b: int)
    requires (n == 7 || n == 14) && InStep(anchor, n, a) && InStep(anchor, n, b) && 0 <= a - b < n
    ensures a == b
  {
    if n == 7 {
      SevensApart(a - anchor, b - anchor);
    } else {
      FourteensApart(a - anchor, b - anchor);
    }
  }

  lemma SevensApart(x: int, y: int)
    requires x % 7 == 0 && y % 7 == 0 && 0 <= x - y < 7
    ensures x == y
  {
  }

  lemma FourteensApart(x: int, y: int)
    requires x % 14 == 0 && y % 14 == 0 && 0 <= x - y < 14
    ensures x == y
  {
  }

  /** The next day in step is in step and less than a period away. */
  lemma NextInStepIs(anchor: int, n: int, today: int)
    requires n == 7 || n == 14
    ensures var next := NextInStep(anchor, n, today);
            today <= next < today + n && InStep(anchor, n, next)
  {
    var elapsed := today - anchor;
    OffsetIsModulo(elapsed, n);
    var e := elapsed % n;
    assert 0 <= e < n;
    if e != 0 {
      assert elapsed == n * (elapsed / n) + e;
      ModIs(elapsed + n - e, n, elapsed / n + 1, 0);
      assert NextInStep(anchor, n, today) - anchor == elapsed + n - e;
    }
  }

  lemma InStepIsLeast(anchor: int, n: int, today: int)
    requires n == 7 || n == 14
    ensures var next := NextInStep(anchor, n, today);
            next >= today && InStep(anchor, n, next)
            && forall m | m >= today && InStep(anchor, n, m) :: next <= m
  {
    NextInStepIs(anchor, n, today);
    var next := NextInStep(anchor, n, today);
    NoneBetween(anchor, n, today, next);
  }

  lemma NoneBetween(anchor: int, n: int, today: int, next: int)
    requires n == 7 || n == 14
    requires today <= next < today + n && InStep(anchor, n, next)
    ensures forall m | m >= today && InStep(anchor, n, m) :: next <= m
  {
    forall m | today <= m < next && InStep(anchor, n, m) ensures false {
      InStepUnique(anchor, n, next, m);
    }
  }

  lemma EveryNext(t: int, step: int, u: int)
    requires step == 3 || step == 12
    ensures Every(t, step, u) <==> u == t || Every(t + step, step, u)
  {
    if step == 3 {
      assert (u - t) % 3 == (u - (t + 3)) % 3;
    } else {
      assert (u - t) % 12 == (u - (t + 12)) % 12;
    }
  }

  lemma {:induction false} FirstMonthIsLeast(t: int, step: int, day: int, today: int)
    requires (step == 3 || step == 12) && day >= 1
    ensures var first := FirstMonth(t, step, day, today);
            Every(t, step, first) && Due(first, day) >= today
            && forall u | Every(t, step, u) && Due(u, day) >= today :: Due(first, day) <= Due(u, day)
    decreases if Due(t, day) < today then today - Due(t, day) else 0
  {
    var first := FirstMonth(t, step, day, today);
    if Due(t, day) >= today {
      EveryNext(t, step, t);
      forall u | Every(t, step, u) && Due(u, day) >= today ensures Due(first, day) <= Due(u, day) {
        if u > t {
          DueGrows(t, u, day);
        }
      }
    } else {
      DueGrows(t, t + step, day);
      FirstMonthIsLeast(t + step, step, day, today);
      EveryNext(t, step, first);
      forall u | Every(t, step, u) && Due(u, day) >= today ensures Due(first, day) <= Due(u, day) {
        EveryNext(t, step, u);
      }
    }
  }

  lemma MonthlyIsLeast(day: int, today: Date)
    requires day >= 1 && today.Valid()
    ensures var next := NextMonthly(day, today).Number();
            next >= today.Number() && (exists t: int :: next == Due(t, day))
            && forall u: int | Due(u, day) >= today.Number() :: next <= Due(u, day)
  {
    var t := today.Month();
    MonthStep(t);
    var next := NextMonthly(day, today).Number();
    var at := if Due(t, day) < today.Number() then t + 1 else t;
    assert next == Due(at, day);
    DueGrows(t, t + 1, day);
    forall u: int | Due(u, day) >= today.Number() ensures next <= Due(u, day) {
      if u < t {
        DueGrows(u, t, day);
      } else if u > at {
        DueGrows(at, u, day);
      }
    }
  }

  /**
   * The next occurrence is the least scheduled day on or after today; there is none
   * exactly when the recurrence is not daily and has no due day.
   */
  lemma NextOccurrenceIsLeast(r: Recurrence, today: Date)
    requires r.Valid() && today.Valid()
    ensures NextOccurrence(r, today).None? <==> r.frequency != Some(Daily) && r.dueDay.None?
    ensures NextOccurrence(r, today).Some? ==>
              var next := NextOccurrence(r, today).value;
              && next >= today.Number() && Scheduled(r, next)
              && forall m | m >= today.Number() && Scheduled(r, m) :: next <= m
    ensures NextOccurrence(r, today).None? ==> forall m :: !Scheduled(r, m)
  {
    if r.frequency != Some(Daily) && r.dueDay.Some? {
      var day := r.dueDay.value;
      ScheduleIs(r);
      match r.frequency
      case Some(Weekly) => InStepIsLeast(r.created.Number(), 7, today.Number());
      case Some(Biweekly) => InStepIsLeast(BiweeklyAnchor(day, r.created), 14, today.Number());
      case Some(Quarterly) => FirstMonthIsLeast(r.created.Month(), 3, day, today.Number());
      case Some(Yearly) => FirstMonthIsLeast(r.created.Month(), 12, day, today.Number());
      case _ => MonthlyIsLeast(day, today);
    }
  }

  lemma FallsOnEveryIs(t: int, step: int, day: int, n: int)
    requires step > 0
    ensures FallsOnEvery(t, step, day, n) <==> exists u :: Every(t, step, u) && n == Due(u, day)
  {
    hide FallsOn, Due, Every;
    if FallsOnEvery(t, step, day, n) {
      var u :| Every(t, step, u) && FallsOn(u, day, n);
      DueIs(u, day, n);
    }
    if u :| Every(t, step, u) && n == Due(u, day) {
      DueIs(u, day, n);
    }
  }

  lemma FallsOnAny(day: int, n: int)
    ensures (exists u: int :: FallsOn(u, day, n)) <==> exists u: int :: n == Due(u, day)
  {
    hide FallsOn, Due;
    if u: int :| FallsOn(u, day, n) {
      DueIs(u, day, n);
    }
    if u: int :| n == Due(u, day) {
      DueIs(u, day, n);
    }
  }

  lemma AnchorIs(t: int, day: int, n: int)
    ensures (exists anchor :: FallsOn(t, day, anchor) && InStep(anchor, 14, n)) <==> InStep(Due(t, day), 14, n)
  {
    hide FallsOn, Due, InStep;
    if anchor :| FallsOn(t, day, anchor) && InStep(anchor, 14, n) {
      DueIs(t, day, anchor);
    }
    DueIs(t, day, Due(t, day));
  }

  /** The schedule in terms of the clamped due days of the loops. */
  lemma ScheduleIs(r: Recurrence)
    requires r.Valid() && r.frequency != Some(Daily) && r.dueDay.Some?
    ensures var day, t := r.dueDay.value, r.created.Month();
      forall n :: Scheduled(r, n) <==>
        match r.frequency
        case Some(Weekly) => InStep(r.created.Number(), 7, n)
        case Some(Biweekly) => InStep(BiweeklyAnchor(day, r.created), 14, n)
        case Some(Quarterly) => exists u :: Every(t, 3, u) && n == Due(u, day)
        case Some(Yearly) => exists u :: Every(t, 12, u) && n == Due(u, day)
        case _ => exists u: int :: n == Due(u, day)
  {
    hide FallsOn, Due, FallsOnEvery, Every, InStep;
    var day, t := r.dueDay.value, r.created.Month();
    forall n
      ensures Scheduled(r, n) <==>
        match r.frequency
        case Some(Weekly) => InStep(r.created.Number(), 7, n)
        case Some(Biweekly) => InStep(BiweeklyAnchor(day, r.created), 14, n)
        case Some(Quarterly) => exists u :: Every(t, 3, u) && n == Due(u, day)
        case Some(Yearly) => exists u :: Every(t, 12, u) && n == Due(u, day)
        case _ => exists u: int :: n == Due(u, day)
    {
      match r.frequency
      case Some(Weekly) =>
      case Some(Biweekly) => AnchorIs(t, day, n);
      case Some(Quarterly) => FallsOnEveryIs(t, 3, day, n);
      case Some(Yearly) => FallsOnEveryIs(t, 12, day, n);
      case _ => FallsOnAny(day, n);
    }
  }

  /** The next occurrence does not move until it has passed. */
  lemma NextOccurrenceIsStable(r: Recurrence, today: Date, later: Date)
    requires r.Valid() && today.Valid() && later.Valid()
    requires NextOccurrence(r, today).Some?
    requires today.Number() <= later.Number() <= NextOccurrence(r, today).value
    ensures r.frequency != Some(Daily) ==> NextOccurrence(r, later) == NextOccurrence(r, today)
    ensures r.frequency == Some(Daily) ==> later.Number() == today.Number()
  {
    NextOccurrenceIsLeast(r, today);
    NextOccurrenceIsLeast(r, later);
  }
}
