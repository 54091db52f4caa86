// The sprint number of a date (WeeklySprintCalculator.calculate), against the week dates of
// ISO 8601:2004, sections 2.2.10 and 4.1.4.
module SprintCalendar {
  import opened Options
  import opened Versions

  // ---------------------------------------------------------------- the calendar

  predicate IsLeap(y: int) { y % 4 == 0 && (y % 100 != 0 || y % 400 == 0) }

  function YearLength(y: int): int { if IsLeap(y) then 366 else 365 }

  // The number of the 1st of January; day 0 is Monday, 3 January 2000.
  function FirstDay(y: int): int
    decreases if y < 2000 then 2000 - y else y - 2000
  {
    if y == 2000 then -2
    else if y > 2000 then FirstDay(y - 1) + YearLength(y - 1)
    else FirstDay(y + 1) - YearLength(y)
  }

  lemma NextFirstDay(y: int)
    ensures FirstDay(y + 1) == FirstDay(y) + YearLength(y)
  {
  }

  lemma {:induction false} YearsFollow(y: int, z: int)
    requires y < z
    ensures FirstDay(y) + 365 <= FirstDay(y + 1) <= FirstDay(z)
    decreases z - y
  {
    NextFirstDay(y);
    if y + 1 < z { YearsFollow(y + 1, z); }
  }

  // month counts from 0, as m.month() does; day counts from 1.
  datatype Date = Date(year: int, month: int, day: int)

  function MonthLength(y: int, month: int): int {
    if month == 1 then (if IsLeap(y) then 29 else 28) else if month in {3, 5, 8, 10} then 30 else 31
  }

  function MonthStart(y: int, month: int): int
    requires 0 <= month <= 12
  {
    if month == 0 then 0 else MonthStart(y, month - 1) + MonthLength(y, month - 1)
  }

  predicate Valid(d: Date) { 0 <= d.month < 12 && 1 <= d.day <= MonthLength(d.year, d.month) }

  function DayNumber(d: Date): int
    requires Valid(d)
  {
    FirstDay(d.year) + MonthStart(d.year, d.month) + d.day - 1
  }

  // How many days of the year precede each month.
  lemma MonthStarts(y: int)
    ensures var leap := if IsLeap(y) then 1 else 0;
            && MonthStart(y, 0) == 0 && MonthStart(y, 1) == 31 && MonthStart(y, 2) == 59 + leap
            && MonthStart(y, 3) == 90 + leap && MonthStart(y, 4) == 120 + leap && MonthStart(y, 5) == 151 + leap
            && MonthStart(y, 6) == 181 + leap && MonthStart(y, 7) == 212 + leap && MonthStart(y, 8) == 243 + leap
            && MonthStart(y, 9) == 273 + leap && MonthStart(y, 10) == 304 + leap && MonthStart(y, 11) == 334 + leap
            && MonthStart(y, 12) == 365 + leap == YearLength(y)
  {
  }

  lemma {:induction false} MonthsFollow(y: int, a: int, b: int)
    requires 0 <= a < b <= 12
    ensures MonthStart(y, a) + MonthLength(y, a) == MonthStart(y, a + 1) <= MonthStart(y, b)
    decreases b - a
  {
    if a + 1 < b { MonthsFollow(y, a + 1, b); }
  }

  predicate Earlier(a: Date, b: Date) {
    a.year < b.year || (a.year == b.year && (a.month < b.month || (a.month == b.month && a.day < b.day)))
  }

  lemma InsideYear(d: Date)
    requires Valid(d)
    ensures FirstDay(d.year) <= DayNumber(d) < FirstDay(d.year + 1)
    ensures d.month == 0 <==> DayNumber(d) < FirstDay(d.year) + 31
    ensures d.month == 11 <==> DayNumber(d) >= FirstDay(d.year + 1) - 31
  {
    MonthStarts(d.year);
    NextFirstDay(d.year);
    MonthsFollow(d.year, d.month, 12);
    if d.month > 0 { MonthsFollow(d.year, 0, d.month); }
    if d.month < 11 { MonthsFollow(d.year, d.month, 11); }
  }

  // Day numbers follow the order of dates.
  lemma DaysFollow(a: Date, b: Date)
    requires Valid(a) && Valid(b)
    ensures Earlier(a, b) <==> DayNumber(a) < DayNumber(b)
  {
    DaysAscend(a, b);
    DaysAscend(b, a);
    if !Earlier(a, b) && !Earlier(b, a) { assert a == b; }
  }

  lemma DaysAscend(a: Date, b: Date)
    requires Valid(a) && Valid(b)
    ensures Earlier(a, b) ==> DayNumber(a) < DayNumber(b)
  {
    InsideYear(a);
    InsideYear(b);
    if a.year < b.year { YearsFollow(a.year, b.year); }
    if a.year == b.year && a.month < b.month { MonthsFollow(a.year, a.month, b.month); }
  }

  // ---------------------------------------------------------------- week dates

  // Weeks run from Monday to Sunday and belong to the year their Thursday is in.
  function Thursday(n: int): int { n - n % 7 + 3 }

  function YearOf(n: int): (y: int)
    ensures FirstDay(y) <= n < FirstDay(y + 1)
  {
    if n < FirstDay(2000) then YearBefore(n, 1999) else YearFrom(n, 2000)
  }

  function YearFrom(n: int, y: int): (r: int)
    requires FirstDay(y) <= n
    ensures FirstDay(r) <= n < FirstDay(r + 1)
    decreases n - FirstDay(y)
  {
    NextFirstDay(y);
    if n < FirstDay(y + 1) then y else YearFrom(n, y + 1)
  }

  function YearBefore(n: int, y: int): (r: int)
    requires n < FirstDay(y + 1)
    ensures FirstDay(r) <= n < FirstDay(r + 1)
    decreases FirstDay(y + 1) - n
  {
    NextFirstDay(y);
    if FirstDay(y) <= n then y else YearBefore(n, y - 1)
  }

  function IsoYear(n: int): int { YearOf(Thursday(n)) }

  function IsoWeek(n: int): (w: int)
    ensures 1 <= w <= 53
  {
    NextFirstDay(IsoYear(n));
    (Thursday(n) - FirstDay(IsoYear(n))) / 7 + 1
  }

  lemma OneYear(n: int, y: int)
    requires FirstDay(y) <= n < FirstDay(y + 1)
    ensures YearOf(n) == y
  {
    var z := YearOf(n);
    if z < y { YearsFollow(z, y); }
    if y < z { YearsFollow(y, z); }
  }

  // The 1st of January by the Gregorian rule: a leap day every fourth year, but not in centuries
  // that 400 does not divide.
  lemma {:induction false} FirstDayIs(y: int)
    ensures FirstDay(y) == 365 * (y - 2000) + ((y - 1) / 4 - (y - 1) / 100 + (y - 1) / 400) - 486
    decreases if y < 2000 then 2000 - y else y - 2000
  {
    if y > 2000 {
      FirstDayIs(y - 1);
      LeapDays(y - 1);
    } else if y < 2000 {
      FirstDayIs(y + 1);
      LeapDays(y);
    }
  }

  lemma LeapDays(y: int)
    ensures y / 4 - y / 100 + y / 400
         == (y - 1) / 4 - (y - 1) / 100 + (y - 1) / 400 + if IsLeap(y) then 1 else 0
  {
    Quotient(y, 4);
    Quotient(y, 100);
    Quotient(y, 400);
  }

  lemma Quotient(y: int, m: int)
    requires m == 4 || m == 100 || m == 400
    ensures y / m == (y - 1) / m + if y % m == 0 then 1 else 0
  {
  }

  // Day 0 is 3 January 2000.
  lemma DayZero()
    ensures DayNumber(Date(2000, 0, 3)) == 0
  {
  }

  // Week 1 is the week of 4 January, and each week is followed by the next of the year or by week 1
  // of the next year.
  lemma WeekOfFourthOfJanuary(y: int)
    ensures IsoYear(FirstDay(y) + 3) == y && IsoWeek(FirstDay(y) + 3) == 1
  {
    NextFirstDay(y);
    OneYear(Thursday(FirstDay(y) + 3), y);
  }

  lemma NextWeek(n: int)
    ensures || (IsoYear(n + 7) == IsoYear(n) && IsoWeek(n + 7) == IsoWeek(n) + 1)
            || (IsoYear(n + 7) == IsoYear(n) + 1 && IsoWeek(n + 7) == 1)
  {
    var y, t := IsoYear(n), Thursday(n);
    NextFirstDay(y);
    NextFirstDay(y + 1);
    OneYear(t + 7, if t + 7 < FirstDay(y + 1) then y else y + 1);
  }

  // All days from Monday to Sunday are in the same week.
  lemma DaysOfWeek(n: int, k: int)
    requires n % 7 == 0 && n <= k < n + 7
    ensures IsoYear(k) == IsoYear(n) && IsoWeek(k) == IsoWeek(n)
  {
    assert Thursday(k) == Thursday(n);
  }

  // ---------------------------------------------------------------- calculate

  function RealYear(d: Date, week: int): int {
    if week >= 52 && d.month == 0 then d.year - 1
    else if week == 1 && d.month == 11 then d.year + 1
    else d.year
  }

  // _.padStart(week, 2, "0")
  function Padded(week: int): string
    requires 0 <= week < 100
  {
    if week < 10 then "0" + IntText(week) else IntText(week)
  }

  // parseInt of the two numbers written one after the other; NaN is None.
  function Calculate(d: Date): Option<int>
    requires Valid(d)
  {
    var week := IsoWeek(DayNumber(d));
    ParseInt(IntText(RealYear(d, week) - 2000) + Padded(week))
  }

  // The correction by month always yields the year the week belongs to.
  lemma RealYearIsIsoYear(d: Date)
    requires Valid(d)
    ensures RealYear(d, IsoWeek(DayNumber(d))) == IsoYear(DayNumber(d))
  {
    var n, y := DayNumber(d), d.year;
    InsideYear(d);
    NextFirstDay(y - 1);
    NextFirstDay(y);
    NextFirstDay(y + 1);
    NearNewYear(n, FirstDay(y - 1), FirstDay(y), FirstDay(y + 1));
    var t := Thursday(n);
    OneYear(t, if t < FirstDay(y) then y - 1 else if t < FirstDay(y + 1) then y else y + 1);
  }

  // A week that belongs to another year than one of its days is the first or one of the last,
  // and the day is in January or December; no other week of January or December is.
  lemma NearNewYear(n: int, last: int, first: int, next: int)
    requires last + 365 <= first <= last + 366 && first + 365 <= next <= first + 366 && first <= n < next
    ensures var t := Thursday(n);
            && last <= t < next + 365
            && (t < first ==> (t - last) / 7 + 1 >= 52 && n < first + 31)
            && (first <= t < next ==> !((t - first) / 7 + 1 >= 52 && n < first + 31))
            && (first <= t < next ==> !((t - first) / 7 + 1 == 1 && n >= next - 31))
            && (t >= next ==> (t - next) / 7 + 1 == 1 && n >= next - 31)
  {
  }

  lemma PaddedIsTwoDigits(week: int)
    requires 0 <= week < 100
    ensures Padded(week) == [Digit(week / 10), Digit(week % 10)]
  {
    if week >= 10 { assert NatText(week / 10) == [Digit(week / 10)]; }
  }

  predicate AreDigits(s: string) { forall i | 0 <= i < |s| :: IsDigit(s[i]) }

  lemma TwoMoreDigits(s: string, a: int, b: int)
    requires 0 <= a < 10 && 0 <= b < 10 && s != [] && AreDigits(s)
    ensures ParseNat(s + [Digit(a)] + [Digit(b)]) == Some(100 * Value(s, 10) + 10 * a + b)
  {
    OneMoreDigit(s, a);
    OneMoreDigit(s + [Digit(a)], b);
    DigitsMean(s + [Digit(a)] + [Digit(b)]);
  }

  lemma DigitsMean(t: string)
    requires |t| > 1 && AreDigits(t)
    ensures ParseNat(t) == Some(Value(t, 10))
  {
    AllDigits(t);
    assert t[..|t|] == t;
    assert IsDigit(t[1]);
  }

  lemma OneMoreDigit(s: string, a: int)
    requires 0 <= a < 10 && AreDigits(s)
    ensures AreDigits(s + [Digit(a)]) && Value(s + [Digit(a)], 10) == 10 * Value(s, 10) + a
  {
    assert (s + [Digit(a)])[..|s|] == s;
  }

  // Written after a year offset, the week takes two places; the sign covers both.
  lemma ConcatenationMeans(a: int, week: int)
    requires 1 <= week <= 53
    ensures ParseInt(IntText(a) + Padded(week)) == Some(if a >= 0 then 100 * a + week else 100 * a - week)
  {
    UnsignedMeans(if a < 0 then -a else a, week);
    SignedMeans(a, Padded(week), 100 * (if a < 0 then -a else a) + week);
  }

  lemma SignedMeans(a: int, tail: string, n: int)
    requires var s := NatText(if a < 0 then -a else a) + tail;
             s != [] && IsDigit(s[0]) && ParseNat(s) == Some(n)
    ensures ParseInt(IntText(a) + tail) == Some(if a < 0 then -n else n)
  {
    var s := NatText(if a < 0 then -a else a) + tail;
    PlainMeans(s, n);
    NegatedMeans(s, n);
    SignFirst(a, tail);
  }

  lemma SignFirst(a: int, tail: string)
    ensures IntText(a) + tail == if a < 0 then ['-'] + (NatText(-a) + tail) else NatText(a) + tail
  {
  }

  lemma PlainMeans(s: string, n: int)
    requires s != [] && IsDigit(s[0]) && ParseNat(s) == Some(n)
    ensures ParseInt(s) == Some(n)
  {
  }

  lemma NegatedMeans(s: string, n: int)
    requires ParseNat(s) == Some(n)
    ensures ParseInt(['-'] + s) == Some(-n)
  {
    assert (['-'] + s)[1..] == s;
  }

  lemma UnsignedMeans(m: nat, week: int)
    requires 1 <= week <= 53
    ensures var s := NatText(m) + Padded(week);
            s != [] && IsDigit(s[0]) && ParseNat(s) == Some(100 * m + week)
  {
    PaddedIsTwoDigits(week);
    NatTextIsDecimal(m);
    TwoMoreDigits(NatText(m), week / 10, week % 10);
    assert NatText(m) + Padded(week) == NatText(m) + [Digit(week / 10)] + [Digit(week % 10)];
  }

  // The number a date should have.
  function Sprint(n: int): int { 100 * (IsoYear(n) - 2000) + IsoWeek(n) }

  lemma CenturyStart(n: int)
    ensures n >= 0 <==> IsoYear(n) >= 2000
  {
    assert FirstDay(2000) == -2;
    if n >= 0 && IsoYear(n) < 2000 { YearsFollow(IsoYear(n), 2000); }
    if n < 0 && IsoYear(n) >= 2000 && IsoYear(n) != 2000 { YearsFollow(2000, IsoYear(n)); }
  }

  // calculate is 100 * (ISO year - 2000) + ISO week exactly from 3 January 2000 on.
  lemma CalculateIsSprint(d: Date)
    requires Valid(d)
    ensures Calculate(d).Some?
    ensures Calculate(d) == Some(Sprint(DayNumber(d))) <==> DayNumber(d) >= 0
    ensures DayNumber(d) < 0 ==> Calculate(d).value == 100 * (IsoYear(DayNumber(d)) - 2000) - IsoWeek(DayNumber(d))
  {
    var n := DayNumber(d);
    RealYearIsIsoYear(d);
    ConcatenationMeans(IsoYear(n) - 2000, IsoWeek(n));
    CenturyStart(n);
  }

  lemma WeeksFollow(s: int, t: int, first: int)
    requires s + 7 <= t
    ensures (s - first) / 7 < (t - first) / 7
  {
  }

  lemma SprintsFollow(n: int, k: int)
    requires n <= k
    ensures Sprint(n) <= Sprint(k)
    ensures Sprint(n) == Sprint(k) <==> n / 7 == k / 7
  {
    if n / 7 == k / 7 {
      assert Thursday(n) == Thursday(k);
    } else {
      var y, z := IsoYear(n), IsoYear(k);
      assert Thursday(n) + 7 <= Thursday(k);
      if z < y { YearsFollow(z, y); }
      WeeksFollow(Thursday(n), Thursday(k), FirstDay(y));
    }
  }

  predicate SameWeek(a: Date, b: Date)
    requires Valid(a) && Valid(b)
  {
    DayNumber(a) / 7 == DayNumber(b) / 7
  }

  // Going from one date to a later one the sprint number does not fall exactly when the first is
  // not before 3 January 2000, both are in one week, or an ISO year ends between them.
  lemma CalculateIncreases(a: Date, b: Date)
    requires Valid(a) && Valid(b) && Earlier(a, b)
    ensures Calculate(a).Some? && Calculate(b).Some?
    ensures Calculate(a).value <= Calculate(b).value
       <==> DayNumber(a) >= 0 || SameWeek(a, b) || IsoYear(DayNumber(a)) < IsoYear(DayNumber(b))
  {
    DaysFollow(a, b);
    CalculateIsSprint(a);
    CalculateIsSprint(b);
    CenturyStart(DayNumber(a));
    CenturyStart(DayNumber(b));
    SprintsFollow(DayNumber(a), DayNumber(b));
    SprintParts(DayNumber(a), DayNumber(b));
  }

  // Two dates, on whichever side of 2000, have the same number exactly when they are in one week.
  lemma SameSprintIffSameWeek(a: Date, b: Date)
    requires Valid(a) && Valid(b)
    ensures Calculate(a) == Calculate(b) <==> SameWeek(a, b)
  {
    CalculateIsSprint(a);
    CalculateIsSprint(b);
    CenturyStart(DayNumber(a));
    CenturyStart(DayNumber(b));
    var n, k := DayNumber(a), DayNumber(b);
    SprintParts(n, k);
    SprintsFollow(if n <= k then n else k, if n <= k then k else n);
  }

  lemma SprintParts(n: int, k: int)
    ensures Sprint(n) == Sprint(k) <==> IsoYear(n) == IsoYear(k) && IsoWeek(n) == IsoWeek(k)
    ensures Sprint(n) < Sprint(k) <==> IsoYear(n) < IsoYear(k) || (IsoYear(n) == IsoYear(k) && IsoWeek(n) < IsoWeek(k))
  {
  }

  // ---------------------------------------------------------------- particular dates

  lemma WeekOf(n: int, y: int, w: int)
    requires FirstDay(y) <= Thursday(n) < FirstDay(y + 1) && w == (Thursday(n) - FirstDay(y)) / 7 + 1
    ensures IsoYear(n) == y && IsoWeek(n) == w
  {
    OneYear(Thursday(n), y);
  }

  lemma FirstDays()
    ensures FirstDay(1999) == -367 && FirstDay(2000) == -2
    ensures FirstDay(2024) == 8764 && FirstDay(2025) == 9130 && FirstDay(2026) == 9495
  {
    assert FirstDay(2004) == 1459;
    assert FirstDay(2008) == 2920;
    assert FirstDay(2012) == 4381;
    assert FirstDay(2016) == 5842;
    assert FirstDay(2020) == 7303;
  }

  // In 1999 the number falls from week 51 to week 52.
  lemma CalculateCanFall()
    ensures Calculate(Date(1999, 11, 20)) == Some(-151) && Calculate(Date(1999, 11, 27)) == Some(-152)
  {
    FirstDays();
    WeekOf(-14, 1999, 51);
    NearEnd(Date(1999, 11, 20), 1999, 20);
    CalculateOn(Date(1999, 11, 20), -14, 1999, 51);
    WeekOf(-7, 1999, 52);
    NearEnd(Date(1999, 11, 27), 1999, 27);
    CalculateOn(Date(1999, 11, 27), -7, 1999, 52);
  }

  // Monday, 30 December 2024, is in week 1 of 2025: that week does not start in January.
  lemma WeekOneCanStartInDecember()
    ensures Calculate(Date(2024, 11, 30)) == Some(2501)
  {
    FirstDays();
    WeekOf(9128, 2025, 1);
    NearEnd(Date(2024, 11, 30), 2024, 30);
    CalculateOn(Date(2024, 11, 30), 9128, 2025, 1);
  }

  lemma NearEnd(d: Date, y: int, day: int)
    requires d == Date(y, 11, day) && 1 <= day <= 31
    ensures Valid(d) && DayNumber(d) == FirstDay(y + 1) - 32 + day
  {
    MonthStarts(y);
    NextFirstDay(y);
  }

  lemma CalculateOn(d: Date, n: int, y: int, w: int)
    requires Valid(d) && DayNumber(d) == n && IsoYear(n) == y && IsoWeek(n) == w
    ensures Calculate(d) == Some(100 * (y - 2000) + if n >= 0 then w else -w)
  {
    CalculateIsSprint(d);
    assert Sprint(n) == 100 * (y - 2000) + w;
  }

  // A date in December is in week 1 exactly when the next year begins on a Tuesday, Wednesday or
  // Thursday and the date is in the week of that day.
  lemma WeekOneInDecemberIff(d: Date)
    requires Valid(d) && d.month == 11
    ensures IsoWeek(DayNumber(d)) == 1
       <==> FirstDay(d.year + 1) % 7 in {1, 2, 3} && DayNumber(d) >= FirstDay(d.year + 1) - FirstDay(d.year + 1) % 7
  {
    var n, y := DayNumber(d), d.year;
    InsideYear(d);
    NextFirstDay(y - 1);
    NextFirstDay(y);
    NextFirstDay(y + 1);
    NearNewYear(n, FirstDay(y - 1), FirstDay(y), FirstDay(y + 1));
    var t := Thursday(n);
    OneYear(t, if t < FirstDay(y) then y - 1 else if t < FirstDay(y + 1) then y else y + 1);
    LastWeek(n, FirstDay(y + 1));
  }

  // The week of a day shortly before the day `next` has its Thursday on or after `next`.
  lemma LastWeek(n: int, next: int)
    requires n < next
    ensures Thursday(n) >= next <==> next % 7 in {1, 2, 3} && n >= next - next % 7
  {
  }

  // Week 1 of an ISO year starts in January exactly when the year does not begin on one of
  // those days.
  lemma WeekOneStartsInJanuaryIff(y: int, monday: int)
    requires monday % 7 == 0 && IsoYear(monday) == y && IsoWeek(monday) == 1
    ensures monday >= FirstDay(y) <==> FirstDay(y) % 7 !in {1, 2, 3}
  {
  }
}
