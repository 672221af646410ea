/** The week window that `getUsersWithLoggedShifts`, `BonusLoggedShifts`,
    `connectMS`, `getIssues` and `getIssueDataForCurrentWeek` compute from
    the current date before querying the week's snapshots.

    A local calendar date is (year, month 1..12, day, weekday 0=Sunday..6),
    the values JavaScript's `getFullYear`, `getMonth() + 1`, `getDate` and
    `getDay` return. `Ordinal` counts days of the proleptic Gregorian
    calendar from 1970-01-01, the epoch of JavaScript's time values, so
    "n days later" has a precise meaning. */
module WeekWindow {
  import opened Strings
  import opened Wrappers

  predicate IsLeapYear(y: int) {
    y % 4 == 0 && (y % 100 != 0 || y % 400 == 0)
  }

  function DaysInMonth(y: int, m: int): (n: int)
    requires 1 <= m <= 12
    ensures 28 <= n <= 31
    ensures n == 29 <==> m == 2 && IsLeapYear(y)
  {
    if m == 2 then (if IsLeapYear(y) then 29 else 28)
    else if m == 4 || m == 6 || m == 9 || m == 11 then 30
    else 31
  }

  function YearDays(y: int): int {
    if IsLeapYear(y) then 366 else 365
  }

  /** Days from 1970-01-01 to the first day of year y (negative before 1970). */
  function DaysBeforeYear(y: int): int
    decreases if y < 1970 then 1970 - y else y - 1970
  {
    if y == 1970 then 0
    else if y > 1970 then DaysBeforeYear(y - 1) + YearDays(y - 1)
    else DaysBeforeYear(y + 1) - YearDays(y)
  }

  /** Days in the months 1 .. m-1 of year y. */
  function DaysBeforeMonth(y: int, m: int): int
    requires 1 <= m <= 12
  {
    var leap := if m > 2 && IsLeapYear(y) then 1 else 0;
    leap + (if m == 1 then 0 else if m == 2 then 31 else if m == 3 then 59
            else if m == 4 then 90 else if m == 5 then 120 else if m == 6 then 151
            else if m == 7 then 181 else if m == 8 then 212 else if m == 9 then 243
            else if m == 10 then 273 else if m == 11 then 304 else 334)
  }

  function DayNumber(y: int, m: int, d: int): int
    requires 1 <= m <= 12
  {
    DaysBeforeYear(y) + DaysBeforeMonth(y, m) + d - 1
  }

  /** Year y has 365 days, plus one when it is a leap year. */
  lemma YearLength(y: int)
    ensures DaysBeforeYear(y + 1) - DaysBeforeYear(y) == YearDays(y)
  {
  }

  /** The first day of year y+1 follows the last day of year y. */
  lemma {:induction false} NextYear(y: int)
    ensures DayNumber(y + 1, 1, 1) == DayNumber(y, 12, 31) + 1
  {
    YearLength(y);
    assert DaysBeforeMonth(y, 12) == YearDays(y) - 31;
  }

  /** The first day of the month after (y, m) follows its last day. */
  lemma {:induction false} NextMonthFirst(y: int, m: int)
    requires 1 <= m <= 12
    ensures var (ny, nm) := if m == 12 then (y + 1, 1) else (y, m + 1);
            DayNumber(ny, nm, 1) == DayNumber(y, m, DaysInMonth(y, m)) + 1
  {
    if m == 12 { NextYear(y); }
  }

  /** JavaScript's `setDate(n)` on a date in (y, m): day n of that month,
      rolling over into later or earlier months when n is out of range. */
  function Normalize(y: int, m: int, n: int): (r: (int, int, int))
    requires 1 <= m <= 12
    ensures 1 <= r.1 <= 12 && 1 <= r.2 <= DaysInMonth(r.0, r.1)
    ensures DayNumber(r.0, r.1, r.2) == DayNumber(y, m, 1) + n - 1
    decreases if n < 1 then 1 - n else 0, n
  {
    if n < 1 then
      var (py, pm) := if m == 1 then (y - 1, 12) else (y, m - 1);
      NextMonthFirst(py, pm);
      Normalize(py, pm, n + DaysInMonth(py, pm))
    else if n > DaysInMonth(y, m) then
      var (ny, nm) := if m == 12 then (y + 1, 1) else (y, m + 1);
      NextMonthFirst(y, m);
      Normalize(ny, nm, n - DaysInMonth(y, m))
    else
      (y, m, n)
  }

  datatype Date = Date(year: int, month: int, day: int, weekday: int)

  function Ordinal(d: Date): int
    requires 1 <= d.month <= 12
  {
    DayNumber(d.year, d.month, d.day)
  }

  /** A real calendar date whose weekday agrees with the calendar
      (1970-01-01 was a Thursday). */
  predicate Valid(d: Date) {
    && 1 <= d.month <= 12
    && 1 <= d.day <= DaysInMonth(d.year, d.month)
    && d.weekday == (Ordinal(d) + 4) % 7
  }

  lemma ModShift(a: int, k: int)
    ensures (a % 7 + k) % 7 == (a + k) % 7
  {
  }

  /** How many days lie between weekday w and the Monday on or before it. */
  function DaysSinceMonday(w: int): (b: int)
    requires 0 <= w < 7
    ensures 0 <= b <= 6 && (w - b) % 7 == 1
    ensures w != 0 ==> b == w - 1
  {
    (w + 6) % 7
  }

  /** `date.setDate(n)`: the date n - date.day days away from `date`. */
  function SetDate(d: Date, n: int): (r: Date)
    requires Valid(d)
    ensures Valid(r)
    ensures Ordinal(r) == Ordinal(d) + n - d.day
    ensures r.weekday == (d.weekday + n - d.day) % 7
  {
    var (y, m, dd) := Normalize(d.year, d.month, n);
    var r := Date(y, m, dd, (d.weekday + n - d.day) % 7);
    ModShift(Ordinal(d) + 4, n - d.day);
    r
  }

  /** A date k days away, written the way the controller writes it. */
  function AddDays(d: Date, k: int): (r: Date)
    requires Valid(d)
    ensures Valid(r) && Ordinal(r) == Ordinal(d) + k
    ensures r.weekday == (d.weekday + k) % 7
  {
    SetDate(d, d.day + k)
  }

  /** `startOfWeek.setDate(today.getDate() - currentDay + 1)` (lines 136-138):
      always a Monday; the Monday on or before `today`, except that on a
      Sunday it is the following day. */
  function WeekStart(today: Date): (s: Date)
    requires Valid(today)
    ensures Valid(s) && s.weekday == 1
    ensures today.weekday == 0 ==> Ordinal(s) == Ordinal(today) + 1
    ensures today.weekday != 0 ==> Ordinal(today) - 6 <= Ordinal(s) <= Ordinal(today)
  {
    SetDate(today, today.day - today.weekday + 1)
  }

  /** `endOfWeek = new Date(today); endOfWeek.setDate(startOfWeek.getDate() + 7)`
      (lines 140-142): the start's day number plus 7, taken in TODAY's month. */
  function WeekEnd(today: Date): (e: Date)
    requires Valid(today)
    ensures Valid(e)
    ensures Ordinal(e) == Ordinal(today) + WeekStart(today).day + 7 - today.day
  {
    SetDate(today, WeekStart(today).day + 7)
  }

  /** The window's end is 7 days after its start exactly when the start lies
      in today's month and year. */
  lemma {:induction false} WeekEndIsStartPlusSevenIff(today: Date)
    requires Valid(today)
    ensures Ordinal(WeekEnd(today)) == Ordinal(WeekStart(today)) + 7
            <==> WeekStart(today).year == today.year && WeekStart(today).month == today.month
  {
    var n := today.day - today.weekday + 1;
    var s := WeekStart(today);
    assert Ordinal(s) == Ordinal(today) + n - today.day;
    if s.year == today.year && s.month == today.month {
      assert s.day == n;
    }
    if s.day == n {
      StartDayInMonth(today);
      assert Normalize(today.year, today.month, n) == (today.year, today.month, n);
    }
  }

  /** When the start keeps the day number it was set to, that day lies in
      today's month: a Sunday on the last of the month moves the start to
      day 1 of the next. */
  lemma StartDayInMonth(today: Date)
    requires Valid(today) && WeekStart(today).day == today.day - today.weekday + 1
    ensures today.day - today.weekday + 1 <= DaysInMonth(today.year, today.month)
  {
    var n := today.day - today.weekday + 1;
    if n > DaysInMonth(today.year, today.month) {
      NormalizeOverflow(today.year, today.month, n);
    }
  }

  /** A day past the end of the month is counted on in the next month. */
  lemma NormalizeOverflow(y: int, m: int, n: int)
    requires 1 <= m <= 12 && n > DaysInMonth(y, m)
    ensures var (ny, nm) := if m == 12 then (y + 1, 1) else (y, m + 1);
            Normalize(y, m, n) == Normalize(ny, nm, n - DaysInMonth(y, m))
  {
  }

  /** A month and a day of month that print as two digits each; every
      valid date has them. */
  predicate DayFields(d: Date) {
    1 <= d.month <= 12 && 1 <= d.day <= 31
  }

  /** The date part `YYYY-MM-DD` built by the template literal at line 144. */
  function DateString(d: Date): string
    requires DayFields(d)
  {
    YearString(d.year) + "-" + Pad2(d.month) + "-" + Pad2(d.day)
  }

  /** `getFullYear()` interpolated into a string: no padding, a minus sign
      for years before year 0. */
  function YearString(y: int): (r: string)
    ensures 'T' !in r
  {
    if y >= 0 then NatToString(y) else "-" + NatToString(-y)
  }

  /** The bound sent to the snapshot queries (lines 146-148). */
  function WeekBound(d: Date): string
    requires DayFields(d)
  {
    DateString(d) + "T00:00:00.000Z"
  }

  /** Reads a `YYYY-MM-DD` string with a non-negative year back into its
      numbers. */
  function ParseDateString(s: string): Option<(nat, nat, nat)> {
    var n := |s|;
    if n >= 7 && s[n - 6] == '-' && s[n - 3] == '-' && AllDigits(s[..n - 6])
       && AllDigits(s[n - 5..n - 3]) && AllDigits(s[n - 2..])
    then Some((NatValue(s[..n - 6]), NatValue(s[n - 5..n - 3]), NatValue(s[n - 2..])))
    else None
  }

  /** The date strings of the window are unambiguous: the year, month and
      day can be read back from them. */
  lemma {:induction false} DateStringRoundTrip(d: Date)
    requires DayFields(d) && d.year >= 0
    ensures ParseDateString(DateString(d)) == Some((d.year, d.month, d.day))
  {
    var y := NatToString(d.year);
    var s := DateString(d);
    var n := |s|;
    assert s == y + "-" + Pad2(d.month) + "-" + Pad2(d.day);
    assert s[..n - 6] == y;
    assert s[n - 5..n - 3] == Pad2(d.month);
    assert s[n - 2..] == Pad2(d.day);
  }

  /** Cutting a window bound at its first 'T' (the way shift dates are keyed)
      gives back the date string. */
  lemma {:induction false} WeekBoundDatePart(d: Date)
    requires DayFields(d)
    ensures BeforeFirst(WeekBound(d), 'T') == DateString(d)
  {
    var ds := DateString(d);
    var b := WeekBound(d);
    var y := YearString(d.year);
    assert ds == y + "-" + Pad2(d.month) + "-" + Pad2(d.day);
    assert 'T' !in ds by {
      forall i | 0 <= i < |ds| ensures ds[i] != 'T' {
        if i < |y| { assert ds[i] == y[i]; }
        else if i == |y| || i == |y| + 3 { assert ds[i] == '-'; }
        else if i < |y| + 3 { assert ds[i] == Pad2(d.month)[i - |y| - 1]; }
        else { assert ds[i] == Pad2(d.day)[i - |y| - 4]; }
      }
    }
    var r := BeforeFirst(b, 'T');
    assert b[|ds|] == 'T';
    assert ds <= b;
    assert r == b[..|r|] && ds == b[..|ds|];
  }

  // Corrected window: the ISO 8601 week (Monday to Sunday) containing today,
  // and its end exactly seven days after its start.

  /** The Monday on or before `today`, Sundays included. */
  function IsoWeekStart(today: Date): (s: Date)
    requires Valid(today)
    ensures Valid(s) && s.weekday == 1
    ensures Ordinal(today) - 6 <= Ordinal(s) <= Ordinal(today)
  {
    SetDate(today, today.day - DaysSinceMonday(today.weekday))
  }

  function IsoWeekEnd(today: Date): (e: Date)
    requires Valid(today)
    ensures Valid(e) && e.weekday == 1
    ensures Ordinal(e) == Ordinal(IsoWeekStart(today)) + 7
  {
    var s := IsoWeekStart(today);
    assert (s.weekday + 7) % 7 == 1;
    AddDays(s, 7)
  }

  /** On every day but Sunday the controller's start is the ISO week start. */
  lemma {:induction false} WeekStartIsIsoExceptSunday(today: Date)
    requires Valid(today) && today.weekday != 0
    ensures WeekStart(today) == IsoWeekStart(today)
  {
    SetDateSameDay(today, today.day - today.weekday + 1, today.day - DaysSinceMonday(today.weekday));
  }

  lemma SetDateSameDay(d: Date, n1: int, n2: int)
    requires Valid(d) && n1 == n2
    ensures SetDate(d, n1) == SetDate(d, n2)
  {
  }

  /** 2023-01-01 is day 19358 after the epoch, counted a decade at a time. */
  lemma Year2023()
    ensures DaysBeforeYear(2023) == 19358
  {
    Year2020();
  }

  lemma Year2020()
    ensures DaysBeforeYear(2020) == 18262
  {
    Year2010();
  }

  lemma Year2010()
    ensures DaysBeforeYear(2010) == 14610
  {
    Year2000();
  }

  lemma Year2000()
    ensures DaysBeforeYear(2000) == 10957
  {
    Year1990();
  }

  lemma Year1990()
    ensures DaysBeforeYear(1990) == 7305
  {
    Year1980();
  }

  lemma Year1980()
    ensures DaysBeforeYear(1980) == 3652
  {
  }

  /** Sunday 2023-03-05: the controller's week starts on Monday 2023-03-06,
      the ISO week on Monday 2023-02-27. */
  lemma SundayStartsNextWeek()
    ensures Valid(Date(2023, 3, 5, 0))
    ensures WeekStart(Date(2023, 3, 5, 0)) == Date(2023, 3, 6, 1)
    ensures IsoWeekStart(Date(2023, 3, 5, 0)) == Date(2023, 2, 27, 1)
  {
    SundayStart();
    SundayIsoStart();
  }

  lemma SundayValid()
    ensures Valid(Date(2023, 3, 5, 0))
  {
    Year2023();
  }

  lemma SundayStart()
    ensures Valid(Date(2023, 3, 5, 0))
    ensures WeekStart(Date(2023, 3, 5, 0)) == Date(2023, 3, 6, 1)
  {
    SundayValid();
    assert Normalize(2023, 3, 6) == (2023, 3, 6);
  }

  /** Day -1 of March 2023 rolls back to 27 February. */
  lemma MarchMinusOne()
    ensures Normalize(2023, 3, -1) == (2023, 2, 27)
  {
    assert Normalize(2023, 2, 27) == (2023, 2, 27);
  }

  lemma SundayIsoStart()
    ensures Valid(Date(2023, 3, 5, 0))
    ensures IsoWeekStart(Date(2023, 3, 5, 0)) == Date(2023, 2, 27, 1)
  {
    SundayValid();
    MarchMinusOne();
  }

  /** Wednesday 2023-03-01: the start is Monday 2023-02-27 but the end is set
      to day 27 + 7 of March, Monday 2023-04-03, four weeks too late. */
  lemma WeekEndSkipsAMonth()
    ensures Valid(Date(2023, 3, 1, 3))
    ensures WeekStart(Date(2023, 3, 1, 3)) == Date(2023, 2, 27, 1)
    ensures WeekEnd(Date(2023, 3, 1, 3)) == Date(2023, 4, 3, 1)
    ensures IsoWeekEnd(Date(2023, 3, 1, 3)) == Date(2023, 3, 6, 1)
  {
    MarchFirstStart();
    MarchFirstEnd();
    MarchFirstIsoEnd();
  }

  lemma MarchFirstStart()
    ensures Valid(Date(2023, 3, 1, 3))
    ensures WeekStart(Date(2023, 3, 1, 3)) == Date(2023, 2, 27, 1)
  {
    Year2023();
    MarchMinusOne();
  }

  lemma MarchFirstEnd()
    ensures Valid(Date(2023, 3, 1, 3))
    ensures WeekEnd(Date(2023, 3, 1, 3)) == Date(2023, 4, 3, 1)
  {
    var t := Date(2023, 3, 1, 3);
    MarchFirstStart();
    assert Normalize(2023, 4, 3) == (2023, 4, 3);
    assert Normalize(2023, 3, 34) == (2023, 4, 3);
    assert WeekEnd(t) == SetDate(t, 34);
  }

  lemma MarchFirstIsoEnd()
    ensures Valid(Date(2023, 3, 1, 3))
    ensures IsoWeekEnd(Date(2023, 3, 1, 3)) == Date(2023, 3, 6, 1)
  {
    var t := Date(2023, 3, 1, 3);
    MarchFirstStart();
    var s := Date(2023, 2, 27, 1);
    WeekStartIsIsoExceptSunday(t);
    assert Normalize(2023, 3, 6) == (2023, 3, 6);
    assert Normalize(2023, 2, 34) == (2023, 3, 6);
    assert IsoWeekEnd(t) == SetDate(s, 34);
  }
}
