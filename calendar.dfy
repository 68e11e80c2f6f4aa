/** The proleptic Gregorian calendar as JavaScript's `Date` sees it in one fixed time zone.
    A moment is a civil date with a 0-based month (as `getMonth` returns it) and the
    second of the day; `new Date(y, m, d, hh, mm, ss)` normalises an out-of-range month
    into the year and an out-of-range day into the neighbouring months, which `MakeDate`
    reproduces. Moments compare through `Time`, the seconds since 1970-01-01 00:00. */
module Calendar {

  const SecondsPerDay: int := 86400

  datatype Civil = Civil(year: int, month: int, day: int, sec: int)

  predicate IsLeap(y: int)
  {
    y % 4 == 0 && (y % 100 != 0 || y % 400 == 0)
  }

  function DaysInMonth(y: int, m: int): (n: int)
    requires 0 <= m < 12
    ensures 28 <= n <= 31
  {
    if m == 1 then (if IsLeap(y) then 29 else 28)
    else if m == 3 || m == 5 || m == 8 || m == 10 then 30
    else 31
  }

  predicate ValidDate(c: Civil)
  {
    && 0 <= c.month < 12
    && 1 <= c.day <= DaysInMonth(c.year, c.month)
    && 0 <= c.sec < SecondsPerDay
  }

  /** A moment that a JavaScript `Date` can hold: its fields as the getters return them. */
  type Date = c: Civil | ValidDate(c) witness Civil(1970, 0, 1, 0)

  /** Months counted from year 0: `12 * getFullYear() + getMonth()`. */
  function MonthIndex(c: Civil): int
  {
    12 * c.year + c.month
  }

  function MonthLength(k: int): (n: int)
    ensures 28 <= n <= 31
  {
    DaysInMonth(k / 12, k % 12)
  }

  /** Index of January 1970, the month the day numbers count from. */
  const EpochMonth: int := 12 * 1970

  /** Day number (days since 1970-01-01) of the first day of the month with index `k`. */
  function MonthStart(k: int): int
    decreases if k < EpochMonth then EpochMonth - k else k - EpochMonth
  {
    if k == EpochMonth then 0
    else if k > EpochMonth then MonthStart(k - 1) + MonthLength(k - 1)
    else MonthStart(k + 1) - MonthLength(k)
  }

  /** Days since 1970-01-01 of the day a civil date names. */
  function DayNumber(c: Civil): int
  {
    MonthStart(MonthIndex(c)) + c.day - 1
  }

  /** `getTime()` in seconds: what every `<`, `<=` and `-` between two `Date`s compares. */
  function Time(c: Civil): int
  {
    DayNumber(c) * SecondsPerDay + c.sec
  }

  /** Consecutive months are adjacent: month `k + 1` starts right after the last day of month `k`. */
  lemma MonthStartStep(k: int)
    ensures MonthStart(k + 1) == MonthStart(k) + MonthLength(k)
  {
  }

  /** Later months start later, by at least 28 days per month. */
  lemma {:induction false} MonthStartMonotone(i: int, j: int)
    requires i <= j
    ensures MonthStart(i) + 28 * (j - i) <= MonthStart(j)
    decreases j - i
  {
    if i < j {
      MonthStartMonotone(i, j - 1);
      MonthStartStep(j - 1);
    }
  }

  /** Brings a day `d` of month `k` (possibly 0, negative or past the month's end) into range,
      carrying into earlier or later months. */
  function NormDay(k: int, d: int): (r: (int, int))
    ensures 1 <= r.1 <= MonthLength(r.0)
    ensures MonthStart(r.0) + r.1 == MonthStart(k) + d
    decreases if d < 1 then 1 - d else 0, if d < 1 then 0 else d
  {
    if d < 1 then
      MonthStartStep(k - 1);
      NormDay(k - 1, d + MonthLength(k - 1))
    else if d > MonthLength(k) then
      MonthStartStep(k);
      NormDay(k + 1, d - MonthLength(k))
    else (k, d)
  }

  /** `new Date(y, m, d)` at second `sec` of the day, with `m` and `d` normalised as JavaScript does. */
  function MakeDate(y: int, m: int, d: int, sec: int): (r: Date)
    requires 0 <= sec < SecondsPerDay
    ensures DayNumber(r) == MonthStart(12 * y + m) + d - 1
    ensures r.sec == sec
  {
    var (k, dd) := NormDay(12 * y + m, d);
    Civil(k / 12, k % 12, dd, sec)
  }

  /** A date already in range is its own normal form. */
  lemma MakeDateValid(c: Date)
    ensures MakeDate(c.year, c.month, c.day, c.sec) == c
  {
    var r := MakeDate(c.year, c.month, c.day, c.sec);
    DayNumberInjective(r, c);
  }

  /** The first and last day numbers of month `k`. */
  lemma DayNumberInMonth(c: Date)
    ensures MonthStart(MonthIndex(c)) <= DayNumber(c) < MonthStart(MonthIndex(c) + 1)
  {
    MonthStartStep(MonthIndex(c));
    MonthIndexSplit(c.year, c.month);
  }

  lemma MonthIndexSplit(y: int, m: int)
    requires 0 <= m < 12
    ensures (12 * y + m) / 12 == y && (12 * y + m) % 12 == m
  {
  }

  /** The month index determines the year and the month. */
  lemma MonthIndexInjective(a: Civil, b: Civil)
    requires 0 <= a.month < 12 && 0 <= b.month < 12
    requires MonthIndex(a) == MonthIndex(b)
    ensures a.year == b.year && a.month == b.month
  {
    MonthIndexSplit(a.year, a.month);
    MonthIndexSplit(b.year, b.month);
  }

  /** Two moments of the same month, day and second are the same moment. */
  lemma SameMoment(a: Date, b: Date)
    requires MonthIndex(a) == MonthIndex(b) && a.day == b.day && a.sec == b.sec
    ensures a == b
  {
    MonthIndexInjective(a, b);
  }

  /** Days of different months are ordered as their months are. */
  lemma MonthOrder(a: Date, b: Date)
    requires MonthIndex(a) < MonthIndex(b)
    ensures DayNumber(a) < DayNumber(b)
  {
    DayNumberInMonth(a);
    DayNumberInMonth(b);
    MonthStartMonotone(MonthIndex(a) + 1, MonthIndex(b));
  }

  /** Two dates that name the same day are the same day. */
  lemma DayNumberInjective(a: Date, b: Date)
    requires DayNumber(a) == DayNumber(b)
    ensures a.year == b.year && a.month == b.month && a.day == b.day
  {
    if MonthIndex(a) < MonthIndex(b) {
      MonthOrder(a, b);
    } else if MonthIndex(b) < MonthIndex(a) {
      MonthOrder(b, a);
    }
    assert MonthIndex(a) == MonthIndex(b);
  }

  /** Dates compare by year, then month, then day, then second of the day. */
  predicate Before(a: Civil, b: Civil)
  {
    || MonthIndex(a) < MonthIndex(b)
    || (MonthIndex(a) == MonthIndex(b) && a.day < b.day)
    || (MonthIndex(a) == MonthIndex(b) && a.day == b.day && a.sec < b.sec)
  }

  /** Comparing two `Date`s by `getTime()` is comparing their fields lexicographically. */
  lemma TimeOrder(a: Date, b: Date)
    ensures Time(a) < Time(b) <==> Before(a, b)
  {
    if MonthIndex(a) < MonthIndex(b) {
      MonthOrder(a, b);
    } else if MonthIndex(b) < MonthIndex(a) {
      MonthOrder(b, a);
    }
  }

  /** Dates compare by year, then month, then day, then second of the day, allowing equality. */
  predicate AtOrBefore(a: Civil, b: Civil)
  {
    !Before(b, a)
  }

  /** `a <= b` on two `Date`s is the lexicographic comparison of their fields. */
  lemma TimeAtOrBefore(a: Date, b: Date)
    ensures Time(a) <= Time(b) <==> AtOrBefore(a, b)
  {
    TimeOrder(b, a);
  }

  /** `new Date(day + 'T00:00:00')`: the first second of the day of `d`. */
  function StartOfDay(d: Date): Date
  {
    Civil(d.year, d.month, d.day, 0)
  }

  /** `new Date(day + 'T23:59:59')`: the last second of the day of `d`. */
  function EndOfDay(d: Date): Date
  {
    Civil(d.year, d.month, d.day, SecondsPerDay - 1)
  }

  /** A moment lies in `[StartOfDay(a), EndOfDay(b)]` exactly when its day lies between the day
      of `a` and the day of `b`, both included. */
  lemma DayRange(e: Date, a: Date, b: Date)
    ensures AtOrBefore(StartOfDay(a), e) && AtOrBefore(e, EndOfDay(b))
            <==> !Before(StartOfDay(e), StartOfDay(a)) && !Before(StartOfDay(b), StartOfDay(e))
  {
  }

  /** `AtOrBefore` is a total preorder: any two moments compare, and comparisons chain. */
  lemma AtOrBeforeTotal(a: Civil, b: Civil, c: Civil)
    ensures AtOrBefore(a, b) || AtOrBefore(b, a)
    ensures AtOrBefore(a, b) && AtOrBefore(b, c) ==> AtOrBefore(a, c)
  {
  }

  /** A moment on an earlier day, or on the same day at an earlier second, comes no later. */
  lemma TimeLe(a: Civil, b: Civil)
    requires 0 <= a.sec < SecondsPerDay && 0 <= b.sec < SecondsPerDay
    requires DayNumber(a) < DayNumber(b) || (DayNumber(a) == DayNumber(b) && a.sec <= b.sec)
    ensures Time(a) <= Time(b)
  {
    var na, nb := DayNumber(a), DayNumber(b);
    if na < nb {
      assert (nb - na) * SecondsPerDay >= SecondsPerDay;
      assert nb * SecondsPerDay == na * SecondsPerDay + (nb - na) * SecondsPerDay;
    }
  }

  /** Midnights compare as their days do. */
  lemma MidnightOrder(a: Date, b: Date)
    ensures Time(StartOfDay(a)) <= Time(StartOfDay(b)) <==> DayNumber(a) <= DayNumber(b)
  {
    var na, nb := DayNumber(a), DayNumber(b);
    assert Time(StartOfDay(a)) == na * SecondsPerDay;
    assert Time(StartOfDay(b)) == nb * SecondsPerDay;
  }

  /** Two `Date`s with the same time are equal. */
  lemma TimeInjective(a: Date, b: Date)
    requires Time(a) == Time(b)
    ensures a == b
  {
    TimeOrder(a, b);
    TimeOrder(b, a);
  }

  /** `getDay()`: 0 for Sunday to 6 for Saturday; 1970-01-01 was a Thursday. */
  function WeekDay(c: Civil): (w: int)
    ensures 0 <= w < 7
  {
    (DayNumber(c) + 4) % 7
  }

  /** Day of the year, counted from 0 for January 1st. */
  function DayOfYear(c: Civil): int
  {
    DayNumber(c) - MonthStart(12 * c.year)
  }

  /** Days from January 1st to the first day of month `m` of year `y`. */
  function DaysBeforeMonth(y: int, m: int): int
    requires 0 <= m < 12
  {
    var common := [0, 31, 59, 90, 120, 151, 181, 212, 243, 273, 304, 334];
    common[m] + (if m >= 2 && IsLeap(y) then 1 else 0)
  }

  /** Within a year, month `m` starts `DaysBeforeMonth(y, m)` days after January 1st. */
  lemma {:induction false} MonthStartInYear(y: int, m: int)
    requires 0 <= m < 12
    ensures MonthStart(12 * y + m) == MonthStart(12 * y) + DaysBeforeMonth(y, m)
  {
    if m > 0 {
      MonthStartInYear(y, m - 1);
      MonthStartStep(12 * y + m - 1);
      MonthIndexSplit(y, m - 1);
    }
  }

  lemma DayOfYearRange(c: Date)
    ensures 0 <= DayOfYear(c) <= 365
  {
    MonthStartInYear(c.year, c.month);
  }

  /** `getWeekNumber`: the number of the week whose Thursday is the Thursday of the week (Monday
      to Sunday) holding `c`, counted within the year that Thursday falls in. */
  function WeekNumber(c: Date): (w: int)
    ensures 1 <= w <= 53
  {
    var thursday := ThursdayOf(c);
    DayOfYearRange(thursday);
    (DayOfYear(thursday) + 1 + 6) / 7
  }

  /** The Thursday of the Monday-to-Sunday week holding `c` (`setUTCDate(date + 4 - (day || 7))`). */
  function ThursdayOf(c: Date): (t: Date)
    ensures WeekDay(t) == 4
    ensures DayNumber(c) - 3 <= DayNumber(t) <= DayNumber(c) + 3
  {
    var t := MakeDate(c.year, c.month, c.day + 4 - WeekDayIso(c), 0);
    ThursdayShift(c, t);
    t
  }

  lemma ThursdayShift(c: Civil, t: Civil)
    requires DayNumber(t) == DayNumber(c) + 4 - WeekDayIso(c)
    ensures WeekDay(t) == 4
    ensures DayNumber(c) - 3 <= DayNumber(t) <= DayNumber(c) + 3
  {
    var n := DayNumber(c);
    assert WeekDayIso(c) == if (n + 4) % 7 == 0 then 7 else (n + 4) % 7;
  }

  /** The week number is `ceil((days since January 1st + 1) / 7)` of the Thursday. */
  lemma WeekNumberCeil(c: Date)
    ensures var n := DayOfYear(ThursdayOf(c)) + 1;
            (WeekNumber(c) - 1) * 7 < n <= WeekNumber(c) * 7
  {
  }

  /** Two dates of the same Monday-to-Sunday week have the same week number. */
  lemma SameWeekSameNumber(a: Date, b: Date)
    requires DayNumber(a) - WeekDayIso(a) == DayNumber(b) - WeekDayIso(b)
    ensures ThursdayOf(a) == ThursdayOf(b)
    ensures WeekNumber(a) == WeekNumber(b)
  {
    ThursdayDay(a);
    ThursdayDay(b);
    TimeInjectiveDays(ThursdayOf(a), ThursdayOf(b));
  }

  /** The Thursday lies `4 - WeekDayIso(c)` days after `c`, at midnight. */
  lemma ThursdayDay(c: Date)
    ensures DayNumber(ThursdayOf(c)) == DayNumber(c) + 4 - WeekDayIso(c)
    ensures ThursdayOf(c).sec == 0
  {
  }

  /** `getDay() || 7`: 1 for Monday to 7 for Sunday. */
  function WeekDayIso(c: Civil): (w: int)
    ensures 1 <= w <= 7
  {
    if WeekDay(c) == 0 then 7 else WeekDay(c)
  }

  lemma TimeInjectiveDays(a: Date, b: Date)
    requires DayNumber(a) == DayNumber(b) && a.sec == b.sec
    ensures a == b
  {
    DayNumberInjective(a, b);
  }

  /** One month after January 31st is March 3rd, or March 2nd in a leap year:
      `setMonth(getMonth() + 1)` keeps the day number 31 and lets it overflow February. */
  lemma MonthOverflow(y: int)
    ensures MakeDate(y, 0 + 1, 31, 0) == Civil(y, 2, if IsLeap(y) then 2 else 3, 0)
  {
    var r := MakeDate(y, 1, 31, 0);
    var m := Civil(y, 2, if IsLeap(y) then 2 else 3, 0);
    MonthOverflowDay(y);
    DayNumberInjective(r, m);
  }

  lemma MonthOverflowDay(y: int)
    ensures DayNumber(Civil(y, 2, if IsLeap(y) then 2 else 3, 0)) == MonthStart(12 * y + 1) + 31 - 1
  {
    MonthIndexSplit(y, 1);
    MonthStartStep(12 * y + 1);
  }

  /** `new Date(y, m, 0)` is the last day of the previous month. */
  lemma DayZeroIsLastOfPreviousMonth(y: int, m: int, sec: int)
    requires 0 <= sec < SecondsPerDay
    ensures var r := MakeDate(y, m, 0, sec);
            MonthIndex(r) == 12 * y + m - 1 && r.day == MonthLength(12 * y + m - 1)
  {
    var k := 12 * y + m - 1;
    var r := MakeDate(y, m, 0, sec);
    MonthStartStep(k);
    var last := Civil(k / 12, k % 12, MonthLength(k), sec);
    DayNumberInjective(r, last);
  }

  /** Number of leap years among the years before `y` (counting from year 1). */
  function Leaps(y: int): int
  {
    (y - 1) / 4 - (y - 1) / 100 + (y - 1) / 400
  }

  /** Days from 1970-01-01 to January 1st of year `y`, in closed form. */
  function DaysBeforeYear(y: int): int
  {
    365 * (y - 1970) + Leaps(y) - Leaps(1970)
  }

  lemma YearStep(y: int)
    ensures DaysBeforeYear(y + 1) == DaysBeforeYear(y) + (if IsLeap(y) then 366 else 365)
  {
    DivStep(y, 4);
    DivStep(y, 100);
    DivStep(y, 400);
  }

  /** Going from `y - 1` to `y` raises `y / d` by one exactly when `d` divides `y`. */
  lemma DivStep(y: int, d: int)
    requires d > 0
    ensures y / d - (y - 1) / d == if y % d == 0 then 1 else 0
  {
    var q, r := (y - 1) / d, (y - 1) % d;
    if r + 1 == d {
      DivUnique(y, d, q + 1, 0);
    } else {
      DivUnique(y, d, q, r + 1);
    }
  }

  /** Euclidean division is determined by its quotient and remainder. */
  lemma DivUnique(y: int, d: int, q: int, r: int)
    requires d > 0 && 0 <= r < d && y == q * d + r
    ensures y / d == q && y % d == r
  {
    var q', r' := y / d, y % d;
    assert y == q' * d + r';
    if q > q' {
      MulSteps(q', q - q', d);
    } else if q < q' {
      MulSteps(q, q' - q, d);
    }
  }

  /** Adding `n >= 1` to a factor adds at least `d` to the product. */
  lemma {:induction false} MulSteps(a: int, n: int, d: int)
    requires n >= 1 && d > 0
    ensures (a + n) * d >= a * d + d
    decreases n
  {
    if n > 1 {
      MulSteps(a, n - 1, d);
    }
  }

  /** A year has 365 days, 366 in a leap year. */
  lemma YearLength(y: int)
    ensures MonthStart(12 * (y + 1)) == MonthStart(12 * y) + (if IsLeap(y) then 366 else 365)
  {
    MonthStartInYear(y, 11);
    MonthStartStep(12 * y + 11);
    MonthIndexSplit(y, 11);
  }

  /** The month-by-month day count agrees with the closed form for the first day of each year. */
  lemma {:induction false} MonthStartClosedForm(y: int)
    ensures MonthStart(12 * y) == DaysBeforeYear(y)
    decreases if y < 1970 then 1970 - y else y - 1970
  {
    if y > 1970 {
      MonthStartClosedForm(y - 1);
      YearLength(y - 1);
      YearStep(y - 1);
    } else if y < 1970 {
      MonthStartClosedForm(y + 1);
      YearLength(y);
      YearStep(y);
    }
  }

  /** 2024-12-31 was a Tuesday and 2024-01-04 a Thursday. */
  lemma WeekDayExamples(y: int)
    requires y == 2024
    ensures WeekDay(Civil(y, 11, 31, 0)) == 2
    ensures WeekDay(Civil(y, 0, 4, 0)) == 4
  {
    DayNumbers2024(y);
    WeekDaysOf(Civil(y, 11, 31, 0), Civil(y, 0, 4, 0));
  }

  lemma DayNumbers2024(y: int)
    requires y == 2024
    ensures DayNumber(Civil(y, 11, 31, 0)) == 20088
    ensures DayNumber(Civil(y, 0, 4, 0)) == 19726
  {
    NewYear2024(y);
    LeapYear2024(y);
    LastDayOfYear(y);
  }

  lemma LeapYear2024(y: int)
    requires y == 2024
    ensures IsLeap(y)
  {
  }

  lemma WeekDaysOf(a: Civil, b: Civil)
    requires DayNumber(a) == 20088 && DayNumber(b) == 19726
    ensures WeekDay(a) == 2 && WeekDay(b) == 4
  {
  }

  /** 2024-01-01 is day 19723. */
  lemma NewYear2024(y: int)
    requires y == 2024
    ensures MonthStart(12 * y) == 19723
  {
    MonthStartClosedForm(y);
    assert Leaps(2024) == 490 && Leaps(1970) == 477;
  }

  /** December 31st is the 365th day after January 1st, the 366th in a leap year. */
  lemma LastDayOfYear(y: int)
    ensures DayNumber(Civil(y, 11, 31, 0)) == MonthStart(12 * y) + (if IsLeap(y) then 365 else 364)
  {
    MonthStartInYear(y, 11);
  }

  /** A day number between the starts of months `k` and `k + 1` is a day of month `k`. */
  lemma MonthOfDayNumber(t: Date, k: int)
    requires MonthStart(k) <= DayNumber(t) < MonthStart(k + 1)
    ensures MonthIndex(t) == k
  {
    DayNumberInMonth(t);
    if MonthIndex(t) < k {
      MonthStartMonotone(MonthIndex(t) + 1, k);
    } else if MonthIndex(t) > k {
      MonthStartMonotone(k + 1, MonthIndex(t));
    }
  }

  /** January 4th is always in week 1 of its own year. */
  lemma JanuaryFourthInWeekOne(y: int)
    ensures ThursdayOf(Civil(y, 0, 4, 0)).year == y
    ensures WeekNumber(Civil(y, 0, 4, 0)) == 1
  {
    var t := ThursdayOf(Civil(y, 0, 4, 0));
    MonthIndexSplit(y, 0);
    MonthStartStep(12 * y);
    MonthOfDayNumber(t, 12 * y);
    MonthIndexSplit(t.year, t.month);
  }

  /** A December 31st that falls on a Monday, Tuesday or Wednesday belongs to week 1 of the
      following year. */
  lemma LateDecemberInWeekOne(y: int)
    requires 1 <= WeekDay(Civil(y, 11, 31, 0)) <= 3
    ensures ThursdayOf(Civil(y, 11, 31, 0)).year == y + 1
    ensures WeekNumber(Civil(y, 11, 31, 0)) == 1
  {
    var c := Civil(y, 11, 31, 0);
    var t := ThursdayOf(c);
    LastDayOfYear(y);
    YearLength(y);
    assert DayNumber(c) == MonthStart(12 * (y + 1)) - 1;
    ThursdayAfter(DayNumber(c), DayNumber(t));
    EarlyJanuary(t, y + 1);
    assert 0 <= DayOfYear(t) <= 2;
  }

  /** A day among the first three of year `y` is in year `y`, with its day of the year counted
      from the first. */
  lemma EarlyJanuary(t: Date, y: int)
    requires MonthStart(12 * y) <= DayNumber(t) <= MonthStart(12 * y) + 2
    ensures t.year == y
    ensures DayOfYear(t) == DayNumber(t) - MonthStart(12 * y)
  {
    MonthStartStep(12 * y);
    MonthOfDayNumber(t, 12 * y);
    MonthIndexSplit(t.year, t.month);
    MonthIndexSplit(y, 0);
  }

  /** A Thursday within three days of a Monday, Tuesday or Wednesday comes after it. */
  lemma ThursdayAfter(n: int, nt: int)
    requires 1 <= (n + 4) % 7 <= 3
    requires (nt + 4) % 7 == 4
    requires n - 3 <= nt <= n + 3
    ensures n < nt
  {
  }
}
