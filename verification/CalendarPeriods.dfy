/**
 The reporting periods of page-check statistics (scripts/snapshot_page_check_statistics.py): calendar
 months are subtracted with the day clamped to the end of the target month, in UTC.
 */
module CalendarPeriods {
  import opened Wrappers

  const MICROS_PER_DAY: int := 86400000000

  // ---------------------------------------------------------------- the proleptic Gregorian calendar

  predicate IsLeap(year: int) { year % 4 == 0 && (year % 100 != 0 || year % 400 == 0) }

  function DaysIn(year: int, month: int): int
    requires 1 <= month <= 12
  {
    if month == 2 then (if IsLeap(year) then 29 else 28) else if month in {4, 6, 9, 11} then 30 else 31
  }

  datatype RawDate = Date(year: int, month: int, day: int)

  predicate ValidDate(d: RawDate) {
    d.year >= 1 && 1 <= d.month <= 12 && 1 <= d.day <= DaysIn(d.year, d.month)
  }

  /** A date of a datetime; the upper end of its range, the year 9999, plays no part here. */
  type Date = d: RawDate | ValidDate(d) witness RawDate.Date(1, 1, 1)

  /** Months counted through all years. */
  function MonthIndex(d: RawDate): int { d.year * 12 + d.month - 1 }

  function DaysBeforeYear(year: int): int {
    var y := year - 1;
    y * 365 + y / 4 - y / 100 + y / 400
  }

  function DaysBeforeMonth(year: int, month: int): int
    requires 1 <= month <= 12
  {
    [0, 31, 59, 90, 120, 151, 181, 212, 243, 273, 304, 334][month - 1] + if month > 2 && IsLeap(year) then 1 else 0
  }

  /** The ordinal of the day before a month begins. */
  function MonthBase(index: int): int { DaysBeforeYear(index / 12) + DaysBeforeMonth(index / 12, index % 12 + 1) }

  function Ordinal(d: Date): int { DaysBeforeYear(d.year) + DaysBeforeMonth(d.year, d.month) + d.day }

  lemma YearLength(year: int)
    ensures DaysBeforeYear(year + 1) == DaysBeforeYear(year) + if IsLeap(year) then 366 else 365
  {
    assert year / 4 == (year - 1) / 4 + if year % 4 == 0 then 1 else 0;
    assert year / 100 == (year - 1) / 100 + if year % 100 == 0 then 1 else 0;
    assert year / 400 == (year - 1) / 400 + if year % 400 == 0 then 1 else 0;
  }

  lemma Twelfths(n: int, year: int, month: int)
    requires n == year * 12 + month && 0 <= month < 12
    ensures n / 12 == year && n % 12 == month
  {
  }

  /** A month begins when the one before it ends. */
  lemma NextMonth(index: int)
    ensures MonthBase(index + 1) == MonthBase(index) + DaysIn(index / 12, index % 12 + 1)
  {
    var year, month := index / 12, index % 12;
    if month == 11 {
      Twelfths(index + 1, year + 1, 0);
      YearLength(year);
    } else {
      Twelfths(index + 1, year, month + 1);
    }
  }

  lemma MonthGrows(index: int)
    ensures MonthBase(index) + 28 <= MonthBase(index + 1)
  {
    NextMonth(index);
  }

  ghost predicate Grows(f: int -> int, i: int) { f(i) + 28 <= f(i + 1) }

  lemma {:induction false} GrowsBetween(f: int -> int, a: int, b: int)
    requires a <= b && forall i :: a <= i < b ==> Grows(f, i)
    ensures f(a) + 28 * (b - a) <= f(b)
    decreases b - a
  {
    if a < b {
      GrowsBetween(f, a, b - 1);
      assert Grows(f, b - 1);
    }
  }

  lemma MonthsGrow(a: int, b: int)
    requires a <= b
    ensures MonthBase(a) + 28 * (b - a) <= MonthBase(b)
  {
    var f := (i: int) => MonthBase(i);
    forall i | a <= i < b
      ensures Grows(f, i)
    {
      MonthGrows(i);
    }
    GrowsBetween(f, a, b);
  }

  lemma OrdinalByMonth(d: Date)
    ensures Ordinal(d) == MonthBase(MonthIndex(d)) + d.day
  {
    Twelfths(MonthIndex(d), d.year, d.month - 1);
  }

  lemma MonthHolds(d: Date)
    ensures MonthBase(MonthIndex(d)) < Ordinal(d) <= MonthBase(MonthIndex(d) + 1)
  {
    OrdinalByMonth(d);
    NextMonth(MonthIndex(d));
    Twelfths(MonthIndex(d), d.year, d.month - 1);
  }

  /** Between dates of different months lie the months between. */
  lemma LaterMonth(a: Date, b: Date)
    requires MonthIndex(a) < MonthIndex(b)
    ensures Ordinal(a) + 28 * (MonthIndex(b) - MonthIndex(a) - 1) <= MonthBase(MonthIndex(b)) < Ordinal(b)
  {
    MonthHolds(a);
    MonthHolds(b);
    MonthsGrow(MonthIndex(a) + 1, MonthIndex(b));
  }

  predicate DateLess(a: Date, b: Date) {
    MonthIndex(a) < MonthIndex(b) || (MonthIndex(a) == MonthIndex(b) && a.day < b.day)
  }

  function NextDay(d: Date): Date {
    if d.day < DaysIn(d.year, d.month) then RawDate.Date(d.year, d.month, d.day + 1)
    else if d.month < 12 then RawDate.Date(d.year, d.month + 1, 1)
    else RawDate.Date(d.year + 1, 1, 1)
  }

  /** Ordinals count days, from the first of January of the year 1. */
  lemma OrdinalsCountDays(d: Date)
    ensures Ordinal(NextDay(d)) == Ordinal(d) + 1
    ensures Ordinal(RawDate.Date(1, 1, 1)) == 1
  {
    YearLength(d.year);
  }

  lemma OrdinalsOrderDates(a: Date, b: Date)
    ensures Ordinal(a) < Ordinal(b) <==> DateLess(a, b)
    ensures Ordinal(a) == Ordinal(b) <==> a == b
  {
    if MonthIndex(a) == MonthIndex(b) {
      OrdinalByMonth(a);
      OrdinalByMonth(b);
    } else if MonthIndex(a) < MonthIndex(b) {
      LaterMonth(a, b);
    } else {
      LaterMonth(b, a);
    }
  }

  // ---------------------------------------------------------------- subtracting months

  /** A moment in UTC: its date, and the microseconds since midnight. */
  datatype Instant = Instant(date: Date, time: nat)

  predicate IsInstant(t: Instant) { t.time < MICROS_PER_DAY }

  /** Microseconds since the day before the year 1; timestamps differ from them by a constant. */
  function Micros(t: Instant): int { Ordinal(t.date) * MICROS_PER_DAY + t.time }

  datatype Error = OutOfRange

  function Min(a: int, b: int): int { if a < b then a else b }

  function SubtractCalendarMonths(value: Instant, months: nat): Result<Instant, Error> {
    var monthIndex := value.date.month - 1 - months;
    var year, month := value.date.year + monthIndex / 12, monthIndex % 12 + 1;
    if year < 1 then Err(OutOfRange)
    else Ok(Instant(RawDate.Date(year, month, Min(value.date.day, DaysIn(year, month))), value.time))
  }

  /**
   The result lies exactly so many months earlier, on the same day of the month or, where there is
   none, on the last; it fails exactly when that month lies before the year 1.
   */
  lemma SubtractionHitsItsMonth(value: Instant, months: nat)
    ensures var r := SubtractCalendarMonths(value, months);
            && (r.Err? <==> MonthIndex(value.date) - months < 12)
            && (r.Ok? ==>
                  && MonthIndex(r.value.date) == MonthIndex(value.date) - months
                  && r.value.time == value.time
                  && r.value.date.day <= value.date.day
                  && (r.value.date.day < value.date.day ==> r.value.date.day == DaysIn(r.value.date.year, r.value.date.month)))
  {
    var k := value.date.month - 1 - months;
    Twelfths(value.date.year * 12 + k, value.date.year + k / 12, k % 12);
  }

  /** On dates, subtraction keeps the order. */
  lemma SubtractionKeepsDateOrder(a: Instant, b: Instant, months: nat)
    requires !DateLess(b.date, a.date)
    requires SubtractCalendarMonths(a, months).Ok? && SubtractCalendarMonths(b, months).Ok?
    ensures !DateLess(SubtractCalendarMonths(b, months).value.date, SubtractCalendarMonths(a, months).value.date)
  {
    SubtractionHitsItsMonth(a, months);
    SubtractionHitsItsMonth(b, months);
    SameMonthSameYear(SubtractCalendarMonths(a, months).value.date, SubtractCalendarMonths(b, months).value.date);
  }

  lemma SameMonthSameYear(a: Date, b: Date)
    ensures MonthIndex(a) == MonthIndex(b) ==> a.year == b.year && a.month == b.month
  {
  }

  /** Two days of one month that are both clamped to the same day. */
  predicate ClampedTogether(a: Instant, b: Instant, months: nat) {
    && MonthIndex(a.date) == MonthIndex(b.date) && a.date.day < b.date.day
    && var r := SubtractCalendarMonths(a, months);
       r.Ok? && DaysIn(r.value.date.year, r.value.date.month) <= a.date.day
  }

  lemma MicrosOrder(a: Instant, b: Instant)
    requires IsInstant(a) && IsInstant(b)
    ensures Micros(a) < Micros(b) <==> DateLess(a.date, b.date) || (a.date == b.date && a.time < b.time)
  {
    OrdinalsOrderDates(a.date, b.date);
    OrdinalsOrderDates(b.date, a.date);
  }

  /**
   On moments it does not always: of two moments in order, the results are out of order exactly when
   both days are clamped to the same one and the earlier moment has the later time of day.
   */
  lemma SubtractionKeepsOrderUnlessClamped(a: Instant, b: Instant, months: nat)
    requires IsInstant(a) && IsInstant(b) && Micros(a) <= Micros(b)
    requires SubtractCalendarMonths(a, months).Ok? && SubtractCalendarMonths(b, months).Ok?
    ensures Micros(SubtractCalendarMonths(a, months).value) > Micros(SubtractCalendarMonths(b, months).value)
            <==> ClampedTogether(a, b, months) && a.time > b.time
  {
    var x, y := SubtractCalendarMonths(a, months).value, SubtractCalendarMonths(b, months).value;
    MicrosOrder(b, a);
    MicrosOrder(y, x);
    SubtractionHitsItsMonth(a, months);
    SubtractionHitsItsMonth(b, months);
    SameMonthSameYear(x.date, y.date);
  }

  /** From the 30th of May at 23:00 and the 31st at 01:00, three months lead to the same 28th of February. */
  lemma ClampingReorders()
    ensures var a := Instant(RawDate.Date(2025, 5, 30), 23 * 3600000000);
            var b := Instant(RawDate.Date(2025, 5, 31), 3600000000);
            && Micros(a) < Micros(b)
            && SubtractCalendarMonths(a, 3) == Ok(Instant(RawDate.Date(2025, 2, 28), a.time))
            && SubtractCalendarMonths(b, 3) == Ok(Instant(RawDate.Date(2025, 2, 28), b.time))
            && Micros(SubtractCalendarMonths(a, 3).value) > Micros(SubtractCalendarMonths(b, 3).value)
  {
  }

  // ---------------------------------------------------------------- the periods

  /** Where each period starts, in the microseconds above; all end at the moment itself. */
  datatype Bounds = Bounds(today: int, last7Days: int, currentWeek: int, currentMonth: int, last3Months: int, last6Months: int)

  /** Monday is 0; the first day of the year 1 was one. */
  function Weekday(d: Date): int { (Ordinal(d) + 6) % 7 }

  /** A datetime some days earlier, unless it would lie before the year 1. */
  function DaysEarlier(t: Instant, days: nat): Result<int, Error> {
    if Ordinal(t.date) - days < 1 then Err(OutOfRange) else Ok(Micros(t) - days * MICROS_PER_DAY)
  }

  /** So many days of 24 hours earlier, refused exactly where the year 1 had not begun. */
  lemma DaysEarlierIs(t: Instant, days: nat)
    ensures DaysEarlier(t, days).Ok? <==> Ordinal(t.date) > days
    ensures DaysEarlier(t, days).Ok? ==> Micros(t) - DaysEarlier(t, days).value == days * (24 * 60 * 60 * 1_000_000)
  {
  }

  function PeriodBounds(current: Instant): Result<Bounds, Error> {
    var dayStart := current.(time := 0);
    var monthStart := dayStart.(date := current.date.(day := 1));
    match (DaysEarlier(dayStart, Weekday(current.date)), DaysEarlier(current, 7),
           SubtractCalendarMonths(current, 3), SubtractCalendarMonths(current, 6))
    case (Ok(weekStart), Ok(last7), Ok(last3), Ok(last6)) =>
      Ok(Bounds(Micros(dayStart), last7, weekStart, Micros(monthStart), Micros(last3), Micros(last6)))
    case _ => Err(OutOfRange)
  }

  lemma MonthsReachBack(current: Instant, months: nat)
    requires IsInstant(current) && months >= 2 && SubtractCalendarMonths(current, months).Ok?
    ensures Micros(SubtractCalendarMonths(current, months).value) <= Micros(current) - 28 * MICROS_PER_DAY
    ensures Micros(SubtractCalendarMonths(current, months).value) < Micros(Instant(current.date.(day := 1), 0))
  {
    var r := SubtractCalendarMonths(current, months).value;
    var first := current.date.(day := 1);
    SubtractionHitsItsMonth(current, months);
    LaterMonth(r.date, current.date);
    LaterMonth(r.date, first);
    MicrosAtLeast(Ordinal(r.date) + 28, Ordinal(current.date));
    MicrosAtLeast(Ordinal(r.date) + 1, Ordinal(first));
  }

  lemma MicrosAtLeast(a: int, b: int)
    requires a <= b
    ensures a * MICROS_PER_DAY <= b * MICROS_PER_DAY
  {
  }

  lemma FewerMonthsAreLater(current: Instant, few: nat, many: nat)
    requires few < many && IsInstant(current) && SubtractCalendarMonths(current, many).Ok?
    ensures SubtractCalendarMonths(current, few).Ok?
    ensures Micros(SubtractCalendarMonths(current, many).value) < Micros(SubtractCalendarMonths(current, few).value)
  {
    SubtractionHitsItsMonth(current, few);
    SubtractionHitsItsMonth(current, many);
    MicrosOrder(SubtractCalendarMonths(current, many).value, SubtractCalendarMonths(current, few).value);
  }

  /** For every moment the periods nest, and all hold the moment itself. */
  lemma PeriodsNest(current: Instant)
    requires IsInstant(current) && PeriodBounds(current).Ok?
    ensures var p := PeriodBounds(current).value;
            && p.last6Months < p.last3Months < p.last7Days < p.currentWeek <= p.today <= Micros(current)
            && p.last3Months < p.currentMonth <= p.today
  {
    MonthsReachBack(current, 3);
    FewerMonthsAreLater(current, 3, 6);
    OrdinalByMonth(current.date);
    OrdinalByMonth(current.date.(day := 1));
  }

  /** Subtracting three months twice may clamp once more, never less. */
  lemma SixIsThreeAndThree(current: Instant)
    requires SubtractCalendarMonths(current, 6).Ok?
    ensures SubtractCalendarMonths(current, 3).Ok? && SubtractCalendarMonths(SubtractCalendarMonths(current, 3).value, 3).Ok?
    ensures Micros(SubtractCalendarMonths(SubtractCalendarMonths(current, 3).value, 3).value) <= Micros(SubtractCalendarMonths(current, 6).value)
  {
    SubtractionHitsItsMonth(current, 3);
    SubtractionHitsItsMonth(current, 6);
    var three := SubtractCalendarMonths(current, 3).value;
    SubtractionHitsItsMonth(three, 3);
    var six, twice := SubtractCalendarMonths(current, 6).value, SubtractCalendarMonths(three, 3).value;
    SameMonthSameYear(six.date, twice.date);
  }

  lemma BoundsAre(current: Instant)
    requires PeriodBounds(current).Ok?
    ensures var p, o := PeriodBounds(current).value, Ordinal(current.date);
            && p.today == o * MICROS_PER_DAY
            && p.currentWeek == o * MICROS_PER_DAY - ((o + 6) % 7) * MICROS_PER_DAY
            && p.last7Days == o * MICROS_PER_DAY + current.time - 7 * MICROS_PER_DAY
            && p.currentMonth == Ordinal(current.date.(day := 1)) * MICROS_PER_DAY
  {
  }

  lemma MidnightsAndMondays(o: int, t: int)
    requires 0 <= t < MICROS_PER_DAY
    ensures (o * MICROS_PER_DAY) % MICROS_PER_DAY == 0
    ensures var week := o * MICROS_PER_DAY - ((o + 6) % 7) * MICROS_PER_DAY;
            week % (7 * MICROS_PER_DAY) == MICROS_PER_DAY && week <= o * MICROS_PER_DAY + t < week + 7 * MICROS_PER_DAY
  {
    var q, w := (o + 6) / 7, (o + 6) % 7;
    assert o * MICROS_PER_DAY - w * MICROS_PER_DAY == (q - 1) * (7 * MICROS_PER_DAY) + MICROS_PER_DAY;
  }

  /** Today starts at the last midnight, the week at the last midnight of a Monday, and the seven days end now. */
  lemma DaysAndWeeksStartLast(current: Instant)
    requires IsInstant(current) && PeriodBounds(current).Ok?
    ensures var p, now := PeriodBounds(current).value, Micros(current);
            && p.today % MICROS_PER_DAY == 0 && p.today <= now < p.today + MICROS_PER_DAY
            && p.currentWeek % (7 * MICROS_PER_DAY) == MICROS_PER_DAY && p.currentWeek <= now < p.currentWeek + 7 * MICROS_PER_DAY
            && p.last7Days + 7 * MICROS_PER_DAY == now
  {
    BoundsAre(current);
    MidnightsAndMondays(Ordinal(current.date), current.time);
  }

  lemma MonthStartIs(current: Instant)
    requires PeriodBounds(current).Ok?
    ensures PeriodBounds(current).value.currentMonth == (Ordinal(current.date) - current.date.day + 1) * MICROS_PER_DAY
  {
    BoundsAre(current);
    assert Ordinal(current.date.(day := 1)) == Ordinal(current.date) - current.date.day + 1;
  }

  lemma WithinMonth(current: Instant, next: int)
    requires IsInstant(current) && Ordinal(current.date) < next
    ensures (Ordinal(current.date) - current.date.day + 1) * MICROS_PER_DAY <= Micros(current) < next * MICROS_PER_DAY
  {
    MicrosAtLeast(Ordinal(current.date) - current.date.day + 1, Ordinal(current.date));
    MicrosAtLeast(Ordinal(current.date) + 1, next);
  }

  /** The current month starts at the first midnight of its month, which the moment lies in. */
  lemma MonthStartsFirst(current: Instant)
    requires IsInstant(current) && PeriodBounds(current).Ok?
    ensures var start, next := PeriodBounds(current).value.currentMonth, MonthBase(MonthIndex(current.date) + 1) + 1;
            start == (Ordinal(current.date) - current.date.day + 1) * MICROS_PER_DAY <= Micros(current) < next * MICROS_PER_DAY
  {
    MonthStartIs(current);
    MonthHolds(current.date);
    WithinMonth(current, MonthBase(MonthIndex(current.date) + 1) + 1);
  }

  /** The periods exist exactly when six months earlier the year 1 had begun. */
  lemma PeriodsExist(current: Instant)
    requires IsInstant(current)
    ensures PeriodBounds(current).Ok? <==> MonthIndex(current.date) - 6 >= 12
  {
    SubtractionHitsItsMonth(current, 3);
    SubtractionHitsItsMonth(current, 6);
    if MonthIndex(current.date) - 6 >= 12 {
      OrdinalByMonth(current.date);
      MonthsGrow(12, MonthIndex(current.date));
      assert MonthBase(12) == 0;
    }
  }
}
