/*******************************************************************************
 *  Local calendar values standing in for JavaScript `Date` objects: a civil
 *  date (year, zero-based month, day of month) and a moment within it. Day
 *  stepping reproduces what `setDate(getDate() ± k)` does, including the
 *  roll-over into neighbouring months and years. Time zones are not modelled:
 *  every value is local time.
 *******************************************************************************/

module Calendar {

  /** `getFullYear()`, `getMonth()` (0 = January) and `getDate()` of a date. */
  datatype Date = Date(year: int, month: int, day: int)

  predicate IsLeapYear(y: int) {
    (y % 4 == 0 && y % 100 != 0) || y % 400 == 0
  }

  function DaysInMonth(y: int, m: int): (n: int)
    requires 0 <= m < 12
    ensures 28 <= n <= 31
  {
    if m == 1 then (if IsLeapYear(y) then 29 else 28)
    else if m == 3 || m == 5 || m == 8 || m == 10 then 30
    else 31
  }

  predicate ValidDate(d: Date) {
    0 <= d.month < 12 && 1 <= d.day <= DaysInMonth(d.year, d.month)
  }

  /** A date that exists in the proleptic Gregorian calendar. */
  type Day = d: Date | ValidDate(d) witness Date(1970, 0, 1)

  /** A local moment with millisecond precision. */
  datatype Moment = Moment(date: Day, hour: int, minute: int, second: int, millis: int)

  predicate ValidMoment(t: Moment) {
    0 <= t.hour < 24 && 0 <= t.minute < 60 && 0 <= t.second < 60 && 0 <= t.millis < 1000
  }

  type Instant = t: Moment | ValidMoment(t) witness Moment(Date(1970, 0, 1), 0, 0, 0, 0)

  /** `new Date(y, m, d, h, min)`: seconds and milliseconds are zero. */
  function At(d: Day, h: int, min: int): Instant
    requires 0 <= h < 24 && 0 <= min < 60
  {
    Moment(d, h, min, 0, 0)
  }

  // ---------------------------------------------------------------------------
  // Chronological order
  // ---------------------------------------------------------------------------

  predicate DateBefore(a: Date, b: Date) {
    a.year < b.year
    || (a.year == b.year && a.month < b.month)
    || (a.year == b.year && a.month == b.month && a.day < b.day)
  }

  predicate DateLeq(a: Date, b: Date) {
    a == b || DateBefore(a, b)
  }

  /** `a < b` on two `Date` objects (their timestamps). */
  predicate Before(a: Instant, b: Instant) {
    DateBefore(a.date, b.date)
    || (a.date == b.date
        && (a.hour, a.minute, a.second, a.millis) != (b.hour, b.minute, b.second, b.millis)
        && TimeBefore(a, b))
  }

  predicate TimeBefore(a: Instant, b: Instant) {
    a.hour < b.hour
    || (a.hour == b.hour && a.minute < b.minute)
    || (a.hour == b.hour && a.minute == b.minute && a.second < b.second)
    || (a.hour == b.hour && a.minute == b.minute && a.second == b.second && a.millis < b.millis)
  }

  lemma DateOrderTotal(a: Date, b: Date)
    ensures DateBefore(a, b) || a == b || DateBefore(b, a)
    ensures !(DateBefore(a, b) && DateBefore(b, a))
    ensures !DateBefore(a, a)
  {
  }

  lemma DateLeqTransitive(a: Date, b: Date, c: Date)
    requires DateLeq(a, b) && DateLeq(b, c)
    ensures DateLeq(a, c)
  {
  }

  // ---------------------------------------------------------------------------
  // Day stepping
  // ---------------------------------------------------------------------------

  /** `d.setDate(d.getDate() + 1)`. */
  function NextDay(d: Day): Day {
    if d.day < DaysInMonth(d.year, d.month) then Date(d.year, d.month, d.day + 1)
    else if d.month < 11 then Date(d.year, d.month + 1, 1)
    else Date(d.year + 1, 0, 1)
  }

  /** `d.setDate(d.getDate() - 1)`. */
  function PrevDay(d: Day): Day {
    if d.day > 1 then Date(d.year, d.month, d.day - 1)
    else if d.month > 0 then Date(d.year, d.month - 1, DaysInMonth(d.year, d.month - 1))
    else Date(d.year - 1, 11, 31)
  }

  lemma PrevOfNext(d: Day)
    ensures PrevDay(NextDay(d)) == d
  {
  }

  lemma NextOfPrev(d: Day)
    ensures NextDay(PrevDay(d)) == d
  {
  }

  /** The next day is the immediate successor: later than `d`, and no valid
      date lies strictly between the two. */
  lemma NextDayIsSuccessor(d: Day, x: Day)
    ensures DateBefore(d, NextDay(d))
    ensures DateBefore(d, x) ==> DateLeq(NextDay(d), x)
  {
  }

  /** `d.setDate(d.getDate() + k)` for any integer `k`. */
  function AddDays(d: Day, k: int): Day
    decreases if k < 0 then -k else k
  {
    if k == 0 then d
    else if k > 0 then AddDays(NextDay(d), k - 1)
    else AddDays(PrevDay(d), k + 1)
  }

  lemma AddDaysAfterNext(d: Day, k: int)
    ensures AddDays(NextDay(d), k) == AddDays(d, k + 1)
  {
    if k < 0 {
      PrevOfNext(d);
    }
  }

  lemma AddDaysAfterPrev(d: Day, k: int)
    ensures AddDays(PrevDay(d), k) == AddDays(d, k - 1)
  {
    if k > 0 {
      NextOfPrev(d);
    }
  }

  /** Shifting by `a` then by `b` days is shifting by `a + b` days. */
  lemma {:induction false} AddDaysAdditive(d: Day, a: int, b: int)
    ensures AddDays(AddDays(d, a), b) == AddDays(d, a + b)
    decreases if a < 0 then -a else a
  {
    if a > 0 {
      AddDaysAdditive(NextDay(d), a - 1, b);
      AddDaysAfterNext(d, a - 1 + b);
    } else if a < 0 {
      AddDaysAdditive(PrevDay(d), a + 1, b);
      AddDaysAfterPrev(d, a + 1 + b);
    }
  }

  /** Moving forward never moves into the past. */
  lemma {:induction false} AddDaysForward(d: Day, k: nat)
    ensures DateLeq(d, AddDays(d, k))
    decreases k
  {
    if k > 0 {
      AddDaysForward(NextDay(d), k - 1);
      NextDayIsSuccessor(d, d);
      DateLeqTransitive(d, NextDay(d), AddDays(d, k));
    }
  }

  lemma AddDaysMonotone(d: Day, j: nat, k: nat)
    requires j <= k
    ensures DateLeq(AddDays(d, j), AddDays(d, k))
  {
    AddDaysAdditive(d, j, k - j);
    AddDaysForward(AddDays(d, j), k - j);
  }

  lemma {:induction false} AddDaysWithinMonth(d: Day, j: nat)
    requires d.day + j <= DaysInMonth(d.year, d.month)
    ensures AddDays(d, j) == Date(d.year, d.month, d.day + j)
    decreases j
  {
    if j > 0 {
      AddDaysWithinMonth(NextDay(d), j - 1);
    }
  }

  /** The first day of the month after the one `d` lies in. */
  function FirstOfNextMonth(d: Day): Day {
    if d.month < 11 then Date(d.year, d.month + 1, 1) else Date(d.year + 1, 0, 1)
  }

  /** `d.setMonth(d.getMonth() + k)`: the month index is carried into the
      year, the day of month is kept, and a day the target month does not
      have rolls over into the month after it. */
  function AddMonths(d: Day, k: int): (r: Day)
    ensures var target := MonthIndexDate(d.year * 12 + d.month + k);
            && (d.day <= DaysInMonth(target.year, target.month) ==>
                  r == Date(target.year, target.month, d.day))
            && (d.day > DaysInMonth(target.year, target.month) ==>
                  r == Date(FirstOfNextMonth(target).year, FirstOfNextMonth(target).month,
                            d.day - DaysInMonth(target.year, target.month)))
  {
    var first := MonthIndexDate(d.year * 12 + d.month + k);
    var n := DaysInMonth(first.year, first.month);
    if d.day <= n then
      AddDaysWithinMonth(first, d.day - 1);
      AddDays(first, d.day - 1)
    else
      var last := Date(first.year, first.month, n);
      AddDaysWithinMonth(first, n - 1);
      AddDaysAdditive(first, n - 1, d.day - n);
      AddDaysAfterNext(last, d.day - n - 1);
      AddDaysWithinMonth(FirstOfNextMonth(last), d.day - n - 1);
      AddDays(first, d.day - 1)
  }

  /** The first day of the month with absolute index `i` (`year * 12 + month`). */
  function MonthIndexDate(i: int): (r: Day)
    ensures r.year * 12 + r.month == i && r.day == 1
  {
    Date(i / 12, i % 12, 1)
  }

  // ---------------------------------------------------------------------------
  // Day of the week
  // ---------------------------------------------------------------------------

  /** `getDay()`: 0 = Sunday … 6 = Saturday (Sakamoto's formula). */
  function Weekday(d: Day): (w: int)
    ensures 0 <= w < 7
  {
    DayCode(d) % 7
  }

  /** The day count Sakamoto's formula reduces modulo 7. */
  function DayCode(d: Day): int {
    var y := if d.month < 2 then d.year - 1 else d.year;
    y + LeapCount(y) + MonthOffset(d.month) + d.day
  }

  function MonthOffset(m: int): int
    requires 0 <= m < 12
  {
    [0, 3, 2, 5, 0, 3, 5, 1, 4, 6, 2, 4][m]
  }

  /** The number of leap days the formula counts up to year `y`. */
  function LeapCount(y: int): int {
    y / 4 - y / 100 + y / 400
  }

  lemma DivStep4(y: int)
    ensures y / 4 - (y - 1) / 4 == if y % 4 == 0 then 1 else 0
  {
  }

  lemma DivStep100(y: int)
    ensures y / 100 - (y - 1) / 100 == if y % 100 == 0 then 1 else 0
  {
  }

  lemma DivStep400(y: int)
    ensures y / 400 - (y - 1) / 400 == if y % 400 == 0 then 1 else 0
  {
  }

  lemma LeapCountStep(y: int)
    ensures LeapCount(y) - LeapCount(y - 1) == if IsLeapYear(y) then 1 else 0
  {
    DivStep4(y);
    DivStep100(y);
    DivStep400(y);
    if y % 400 == 0 {
      MultipleOf400(y);
    } else if y % 100 == 0 {
      MultipleOf100(y);
    }
  }

  lemma MultipleOf100(y: int)
    requires y % 100 == 0
    ensures y % 4 == 0
  {
    var q := y / 100;
    assert y == 4 * (25 * q);
  }

  lemma MultipleOf400(y: int)
    requires y % 400 == 0
    ensures y % 100 == 0 && y % 4 == 0
  {
    var q := y / 400;
    assert y == 100 * (4 * q);
    MultipleOf100(y);
  }

  /** From one day to the next the day code grows by one, up to a multiple of 7. */
  lemma DayCodeNext(d: Day)
    ensures exists k: int {:trigger k * 7} :: DayCode(NextDay(d)) == DayCode(d) + 1 - k * 7
  {
    if d.day < DaysInMonth(d.year, d.month) {
      assert DayCode(NextDay(d)) == DayCode(d) + 1 - 0 * 7;
    } else if d.month == 1 {
      LeapCountStep(d.year);
      assert DayCode(NextDay(d)) == DayCode(d) + 1 - 4 * 7;
    } else if d.month < 11 {
      var n := DaysInMonth(d.year, d.month);
      var k := (MonthOffset(d.month) + n - MonthOffset(d.month + 1)) / 7;
      assert MonthOffset(d.month) + n - MonthOffset(d.month + 1) == k * 7;
      assert DayCode(NextDay(d)) == DayCode(d) + 1 - k * 7;
    } else {
      assert DayCode(NextDay(d)) == DayCode(d) + 1 - 5 * 7;
    }
  }

  /** The weekday advances by one from each day to the next. */
  lemma WeekdayNext(d: Day)
    ensures Weekday(NextDay(d)) == (Weekday(d) + 1) % 7
  {
    DayCodeNext(d);
    var a := DayCode(d);
    var k: int :| DayCode(NextDay(d)) == a + 1 - k * 7;
    ModShift(a + 1, k);
    ModAdd(a, 1);
  }

  lemma ModShift(a: int, k: int)
    ensures (a - k * 7) % 7 == a % 7
  {
  }

  lemma ModAdd(a: int, b: int)
    ensures (a % 7 + b) % 7 == (a + b) % 7
  {
    ModShift(a + b, a / 7);
    assert (a + b) - (a / 7) * 7 == a % 7 + b;
  }

  /** `k` days later the weekday has advanced by `k`, modulo 7. */
  lemma {:induction false} WeekdayAddDays(d: Day, k: nat)
    ensures Weekday(AddDays(d, k)) == (Weekday(d) + k) % 7
    decreases k
  {
    if k > 0 {
      WeekdayAddDays(NextDay(d), k - 1);
      WeekdayNext(d);
      ModAdd(Weekday(d) + 1, k - 1);
    }
  }

  /** The formula agrees with the calendar on known dates: 1 January 1970
      was a Thursday, 1 January 2024 a Monday and 29 February 2000 a
      Tuesday (months count from 0). */
  lemma WeekdayAnchors()
    ensures Weekday(Date(1970, 0, 1)) == 4
    ensures Weekday(Date(2024, 0, 1)) == 1
    ensures Weekday(Date(2000, 1, 29)) == 2
  {
  }
}
