// Gregorian calendar arithmetic behind the session calendar. A date is a day number
// counted from 1970-01-01 (a Thursday); a month is counted as 12 * year + month - 1,
// so that month 13 of a year is the first month of the next one, as time.Date has it.
module Calendar {
  type Day = int
  type Month = int

  predicate IsLeap(year: int) {
    year % 4 == 0 && (year % 100 != 0 || year % 400 == 0)
  }

  function DaysInMonth(month: Month): (n: nat)
    ensures 28 <= n <= 31
  {
    var m := month % 12 + 1;
    if m == 2 then (if IsLeap(month / 12) then 29 else 28)
    else if m == 4 || m == 6 || m == 9 || m == 11 then 30 else 31
  }

  const EPOCH: Month := 12 * 1970

  // The day number of the first day of a month.
  function MonthStart(month: Month): Day
    decreases if month < EPOCH then EPOCH - month else month - EPOCH
  {
    if month == EPOCH then 0
    else if EPOCH < month then MonthStart(month - 1) + DaysInMonth(month - 1)
    else MonthStart(month + 1) - DaysInMonth(month)
  }

  lemma MonthLength(month: Month)
    ensures MonthStart(month + 1) - MonthStart(month) == DaysInMonth(month)
  {
  }

  // January has 31 days, February 28 or 29, and so on; century years are leap years only every
  // four hundred years.
  lemma MonthsOfAYear(year: int, m: nat)
    requires m < 12
    ensures DaysInMonth(12 * year + m) ==
            [31, if IsLeap(year) then 29 else 28, 31, 30, 31, 30, 31, 31, 30, 31, 30, 31][m]
    ensures IsLeap(2000) && IsLeap(2024) && !IsLeap(1900) && !IsLeap(2023) && IsLeap(year) == IsLeap(year + 400)
  {
    assert (12 * year + m) % 12 == m && (12 * year + m) / 12 == year;
  }

  // The months of a Gregorian year add up to 365 days, or to 366 in a leap year.
  lemma YearLength(year: int)
    ensures MonthStart(12 * (year + 1)) - MonthStart(12 * year) == if IsLeap(year) then 366 else 365
  {
    hide MonthStart, IsLeap;
    var m := 12 * year;
    MonthLength(m); MonthLength(m + 1); MonthLength(m + 2); MonthLength(m + 3); MonthLength(m + 4); MonthLength(m + 5);
    MonthLength(m + 6); MonthLength(m + 7); MonthLength(m + 8); MonthLength(m + 9); MonthLength(m + 10);
    MonthLength(m + 11);
  }

  lemma {:induction false} MonthStartIncreasing(a: Month, b: Month)
    requires a < b
    ensures MonthStart(a) + 28 * (b - a) <= MonthStart(b)
    decreases b - a
  {
    MonthLength(b - 1);
    if a < b - 1 {
      MonthStartIncreasing(a, b - 1);
    }
  }

  function MonthAtOrAfter(day: Day, guess: Month): (month: Month)
    requires MonthStart(guess) <= day
    ensures MonthStart(month) <= day < MonthStart(month + 1)
    decreases day - MonthStart(guess)
  {
    MonthLength(guess);
    if day < MonthStart(guess + 1) then guess else MonthAtOrAfter(day, guess + 1)
  }

  function MonthBefore(day: Day, guess: Month): (month: Month)
    requires day < MonthStart(guess)
    ensures MonthStart(month) <= day < MonthStart(month + 1)
    decreases MonthStart(guess) - day
  {
    MonthLength(guess - 1);
    if MonthStart(guess - 1) <= day then guess - 1 else MonthBefore(day, guess - 1)
  }

  // The month a day falls in.
  function MonthOf(day: Day): (month: Month)
    ensures MonthStart(month) <= day < MonthStart(month + 1)
  {
    if MonthStart(EPOCH) <= day then MonthAtOrAfter(day, EPOCH) else MonthBefore(day, EPOCH)
  }

  lemma MonthOfUnique(day: Day, month: Month)
    requires MonthStart(month) <= day < MonthStart(month + 1)
    ensures MonthOf(day) == month
  {
    hide MonthOf;
    var m := MonthOf(day);
    if m < month {
      if m + 1 < month { MonthStartIncreasing(m + 1, month); }
    } else if month < m {
      if month + 1 < m { MonthStartIncreasing(month + 1, m); }
    }
  }

  // A civil date, and time.Date, which normalises an out-of-range month.
  datatype Civil = Civil(year: int, month: int, day: int) {
    predicate Valid() {
      1 <= month <= 12 && 1 <= day <= DaysInMonth(12 * year + month - 1)
    }
  }

  function GoDate(year: int, month: int, day: int): Day {
    MonthStart(12 * year + month - 1) + day - 1
  }

  function CivilOf(day: Day): (c: Civil)
    ensures c.Valid()
  {
    hide MonthOf;
    var m := MonthOf(day);
    MonthLength(m);
    Civil(m / 12, m % 12 + 1, day - MonthStart(m) + 1)
  }

  // Civil dates and day numbers are in one-to-one correspondence.
  lemma CivilRoundTrip(day: Day, c: Civil)
    requires c.Valid()
    ensures GoDate(CivilOf(day).year, CivilOf(day).month, CivilOf(day).day) == day
    ensures CivilOf(GoDate(c.year, c.month, c.day)) == c
  {
    hide MonthOf, MonthStart, DaysInMonth;
    var m := 12 * c.year + c.month - 1;
    assert m / 12 == c.year && m % 12 == c.month - 1;
    MonthLength(m);
    MonthOfUnique(GoDate(c.year, c.month, c.day), m);
  }

  // The first day of the next month, less one day.
  function EndOfMonth(day: Day): Day {
    var c := CivilOf(day);
    GoDate(c.year, c.month + 1, 1) - 1
  }

  // EndOfMonth is the greatest day of the month, and of no other month.
  lemma EndOfMonthIsLast(day: Day)
    ensures day <= EndOfMonth(day)
    ensures EndOfMonth(day) == MonthStart(MonthOf(day) + 1) - 1
    ensures forall k :: MonthOf(k) == MonthOf(day) ==> k <= EndOfMonth(day)
    ensures MonthOf(EndOfMonth(day)) == MonthOf(day)
    ensures CivilOf(EndOfMonth(day) + 1).day == 1
  {
    hide MonthOf;
    var m := MonthOf(day);
    assert 12 * (m / 12) + (m % 12 + 1 + 1) - 1 == m + 1;
    assert EndOfMonth(day) == MonthStart(m + 1) - 1;
    MonthLength(m);
    MonthLength(m + 1);
    MonthOfUnique(EndOfMonth(day), m);
    MonthOfUnique(EndOfMonth(day) + 1, m + 1);
  }

  // time.Weekday: 0 is Sunday.
  function GoWeekday(day: Day): (w: int)
    ensures 0 <= w <= 6
  {
    (day + 4) % 7
  }

  // ISO 8601:2004 section 4.1.4: 1 is Monday, 7 is Sunday.
  function IsoWeekday(day: Day): (w: int)
    ensures 1 <= w <= 7
  {
    var w := GoWeekday(day);
    if w == 0 then 7 else w
  }

  // The weekday advances by one each day and repeats exactly every seven days.
  lemma IsoWeekdayCycle(day: Day, other: Day)
    ensures IsoWeekday(day + 1) == IsoWeekday(day) % 7 + 1
    ensures IsoWeekday(day) == IsoWeekday(other) <==> (day - other) % 7 == 0
  {
  }

  // 1970-01-01 was a Thursday, which fixes the origin.
  lemma IsoWeekdayAnchor()
    ensures IsoWeekday(GoDate(1970, 1, 1)) == 4
  {
  }

  // The rolling window of the generation worker: the first day of the current month,
  // and the last day of the month horizonMonths later.
  function WorkerMonthStart(today: Day): Day {
    GoDate(CivilOf(today).year, CivilOf(today).month, 1)
  }

  function WorkerHorizon(today: Day, horizonMonths: nat): Day {
    var c := CivilOf(WorkerMonthStart(today));
    EndOfMonth(GoDate(c.year, c.month + horizonMonths, c.day))
  }

  lemma WorkerWindow(today: Day, horizonMonths: nat)
    ensures WorkerMonthStart(today) == MonthStart(MonthOf(today))
    ensures WorkerHorizon(today, horizonMonths) == MonthStart(MonthOf(today) + horizonMonths + 1) - 1
    ensures WorkerMonthStart(today) <= today <= WorkerHorizon(today, horizonMonths)
  {
    hide MonthStart, MonthOf, EndOfMonth;
    var m := MonthOf(today);
    MonthLength(m);
    MonthLength(m + horizonMonths);
    assert 12 * (m / 12) + (m % 12 + 1) - 1 == m;
    MonthOfUnique(MonthStart(m), m);
    var c := CivilOf(MonthStart(m));
    assert 12 * c.year + c.month + horizonMonths - 1 == m + horizonMonths && c.day == 1;
    assert GoDate(c.year, c.month + horizonMonths, c.day) == MonthStart(m + horizonMonths);
    MonthOfUnique(MonthStart(m + horizonMonths), m + horizonMonths);
    EndOfMonthIsLast(MonthStart(m + horizonMonths));
    if horizonMonths > 0 { MonthStartIncreasing(m + 1, m + horizonMonths + 1); }
  }

  // A pass on day `next` continues exactly where a pass on day `prev` stopped, leaving
  // no uncovered date between them, if and only if at most horizonMonths + 1 months
  // separate the two passes.
  lemma WindowsMeet(prev: Day, next: Day, horizonMonths: nat)
    ensures WorkerMonthStart(next) <= WorkerHorizon(prev, horizonMonths) + 1
            <==> MonthOf(next) <= MonthOf(prev) + horizonMonths + 1
  {
    hide *;
    WorkerWindow(prev, horizonMonths);
    WorkerWindow(next, horizonMonths);
    var limit := MonthOf(prev) + horizonMonths + 1;
    if MonthOf(next) < limit {
      MonthStartIncreasing(MonthOf(next), limit);
    } else if limit < MonthOf(next) {
      MonthStartIncreasing(limit, MonthOf(next));
    }
  }

  // The last day of a month.
  function MonthEnd(month: Month): Day {
    MonthStart(month + 1) - 1
  }

  lemma MonthEndsOrdered(a: Month, b: Month)
    ensures a <= b <==> MonthEnd(a) <= MonthEnd(b)
    ensures a < b <==> MonthEnd(a) + 28 <= MonthEnd(b)
  {
    if a < b {
      MonthStartIncreasing(a + 1, b + 1);
    } else if b < a {
      MonthStartIncreasing(b + 1, a + 1);
    }
  }
}
