/**
 Gregorian to Solar Hijri dates (`GregorianToJalali` in jalali.go): a day count, then the 33-year
 cycle of 12053 days.
 */
module Jalali {
  import opened Prelude

  datatype Date = Date(year: int, month: int, day: int)

  /** The remainder of Go's division; it has the sign of the dividend. */
  function Rem(a: int, b: int): int
    requires b > 0
  {
    a - b * GoDiv(a, b)
  }

  /** Days before a month in a year that is not a leap year. */
  function DaysBefore(m: int): int
    requires 1 <= m <= 12
  {
    [0, 31, 59, 90, 120, 151, 181, 212, 243, 273, 304, 334][m - 1]
  }

  function DayCount(g: Date): int
    requires 1 <= g.month <= 12
  {
    var y := if g.month > 2 then g.year + 1 else g.year;
    355666 + 365 * g.year + GoDiv(y + 3, 4) - GoDiv(y + 99, 100) + GoDiv(y + 399, 400) + g.day + DaysBefore(g.month)
  }

  function YearAndDay(days: int): (int, int) {
    var cycle, d := GoDiv(days, 12053), Rem(days, 12053);
    var four, e := GoDiv(d, 1461), Rem(d, 1461);
    var jy := -1595 + 33 * cycle + 4 * four;
    if e > 365 then (jy + GoDiv(e - 1, 365), Rem(e - 1, 365)) else (jy, e)
  }

  function MonthAndDay(e: int): (int, int) {
    if e < 186 then (1 + GoDiv(e, 31), 1 + Rem(e, 31)) else (7 + GoDiv(e - 186, 30), 1 + Rem(e - 186, 30))
  }

  function FromDays(days: int): Date {
    var (jy, e) := YearAndDay(days);
    var (jm, jd) := MonthAndDay(e);
    Date(jy, jm, jd)
  }

  function GregorianToJalali(g: Date): Date {
    if g.month < 1 || g.month > 12 then g else FromDays(DayCount(g))
  }

  // ----- the two calendars -----

  predicate GregorianLeap(y: int) { y % 4 == 0 && (y % 100 != 0 || y % 400 == 0) }

  function GregorianMonth(y: int, m: int): int
    requires 1 <= m <= 12
  {
    if m == 2 then (if GregorianLeap(y) then 29 else 28)
    else if m in {4, 6, 9, 11} then 30 else 31
  }

  predicate ValidGregorian(g: Date) {
    g.year >= 1 && 1 <= g.month <= 12 && 1 <= g.day <= GregorianMonth(g.year, g.month)
  }

  function NextGregorian(g: Date): Date
    requires 1 <= g.month <= 12
  {
    if g.day < GregorianMonth(g.year, g.month) then g.(day := g.day + 1)
    else if g.month < 12 then Date(g.year, g.month + 1, 1)
    else Date(g.year + 1, 1, 1)
  }

  /** Eight leap years in a cycle of 33, every fourth from its start, and a common year at its end. */
  predicate JalaliLeap(y: int) {
    var p := (y + 1595) % 33;
    p % 4 == 0 && p != 32
  }

  function JalaliMonth(y: int, m: int): int
    requires 1 <= m <= 12
  {
    if m <= 6 then 31 else if m <= 11 then 30 else if JalaliLeap(y) then 30 else 29
  }

  predicate ValidJalali(j: Date) {
    1 <= j.month <= 12 && 1 <= j.day <= JalaliMonth(j.year, j.month)
  }

  function NextJalali(j: Date): Date
    requires 1 <= j.month <= 12
  {
    if j.day < JalaliMonth(j.year, j.month) then j.(day := j.day + 1)
    else if j.month < 12 then Date(j.year, j.month + 1, 1)
    else Date(j.year + 1, 1, 1)
  }

  // ----- the day count counts days -----

  /** Leap days up to a year, the way the source counts them. */
  function LeapDays(y: int): int
    requires y >= 0
  {
    (y + 3) / 4 - (y + 99) / 100 + (y + 399) / 400
  }

  lemma Ceiling(y: int, n: int)
    requires y >= 1 && n >= 2
    ensures (y + 1 + n - 1) / n == (y + n - 1) / n + (if y % n == 0 then 1 else 0)
  {
    var q, r := y / n, y % n;
    assert y == n * q + r;
    if r == 0 {
      assert y + n - 1 == n * q + (n - 1);
      DivUnique(y + n - 1, n, q, n - 1);
      DivUnique(y + n, n, q + 1, 0);
    } else {
      DivUnique(y + n - 1, n, q + 1, r - 1);
      DivUnique(y + n, n, q + 1, r);
    }
  }

  lemma DivUnique(a: int, n: int, q: int, r: int)
    requires n > 0 && 0 <= r < n && a == n * q + r
    ensures a / n == q && a % n == r
  {
    var d := a / n - q;
    assert n * d == r - a % n;
    assert d >= 1 ==> n * d >= n;
    assert d <= -1 ==> n * d <= -n;
  }

  lemma Multiples(y: int)
    ensures y % 400 == 0 ==> y % 100 == 0
    ensures y % 100 == 0 ==> y % 4 == 0
  {
    if y % 400 == 0 { DivUnique(y, 100, 4 * (y / 400), 0); }
    if y % 100 == 0 { DivUnique(y, 4, 25 * (y / 100), 0); }
  }

  lemma LeapStep(y: int)
    requires y >= 1
    ensures LeapDays(y + 1) == LeapDays(y) + (if GregorianLeap(y) then 1 else 0)
  {
    Ceiling(y, 4);
    Ceiling(y, 100);
    Ceiling(y, 400);
    Multiples(y);
  }

  /** The day's number within its year. */
  function YearDay(g: Date): int
    requires 1 <= g.month <= 12
  {
    DaysBefore(g.month) + (if g.month > 2 && GregorianLeap(g.year) then 1 else 0) + g.day
  }

  lemma CountByYear(g: Date)
    requires g.year >= 1 && 1 <= g.month <= 12
    ensures DayCount(g) == 355666 + 365 * g.year + LeapDays(g.year) + YearDay(g)
  {
    LeapStep(g.year);
  }

  lemma NextYearDay(g: Date)
    requires ValidGregorian(g)
    ensures ValidGregorian(NextGregorian(g))
    ensures 1 <= NextGregorian(g).year == (if g.month == 12 && g.day == 31 then g.year + 1 else g.year)
    ensures 1 <= NextGregorian(g).month <= 12
    ensures YearDay(NextGregorian(g)) == if g.month == 12 && g.day == 31 then 1 else YearDay(g) + 1
    ensures g.month == 12 && g.day == 31 ==> YearDay(g) == if GregorianLeap(g.year) then 366 else 365
  {
  }

  lemma NextDayCount(g: Date)
    requires ValidGregorian(g)
    ensures ValidGregorian(NextGregorian(g))
    ensures DayCount(NextGregorian(g)) == DayCount(g) + 1
    ensures DayCount(g) >= 0
  {
    hide DayCount, YearDay, LeapDays, GregorianLeap, NextGregorian;
    NextYearDay(g);
    LeapStep(g.year);
    CountByYear(g);
    CountByYear(NextGregorian(g));
    CountNonNegative(g);
  }

  lemma CountNonNegative(g: Date)
    requires ValidGregorian(g)
    ensures DayCount(g) >= 0
  {
    var y := if g.month > 2 then g.year + 1 else g.year;
    assert (y + 99) / 100 <= y + 99;
  }

  // ----- the cycle -----

  /** A position in the cycle: `fours` blocks of four years, then `ones` years, then `rest` days. */
  datatype Place = Place(cycle: int, fours: int, ones: int, rest: int)

  predicate LongYear(p: Place) { p.ones == 0 && p.fours < 8 }

  predicate ValidPlace(p: Place) {
    && 0 <= p.cycle && 0 <= p.fours <= 8 && 0 <= p.ones <= 3 && (p.fours == 8 ==> p.ones == 0)
    && 0 <= p.rest <= (if LongYear(p) then 365 else 364)
  }

  function InBlock(p: Place): int { if p.ones == 0 then p.rest else 366 + 365 * (p.ones - 1) + p.rest }

  function PlaceDays(p: Place): int { 12053 * p.cycle + 1461 * p.fours + InBlock(p) }

  function PlaceYear(p: Place): int { -1595 + 33 * p.cycle + 4 * p.fours + p.ones }

  lemma PlaceLeap(p: Place)
    requires ValidPlace(p)
    ensures JalaliLeap(PlaceYear(p)) <==> LongYear(p)
  {
    var q := 4 * p.fours + p.ones;
    DivUnique(PlaceYear(p) + 1595, 33, p.cycle, q);
    DivUnique(q, 4, p.fours, p.ones);
  }

  lemma PlaceYearAndDay(p: Place)
    requires ValidPlace(p)
    ensures PlaceDays(p) >= 0 && YearAndDay(PlaceDays(p)) == (PlaceYear(p), p.rest)
  {
    var d, e := 1461 * p.fours + InBlock(p), InBlock(p);
    DivUnique(PlaceDays(p), 12053, p.cycle, d);
    DivUnique(d, 1461, p.fours, e);
    if p.ones > 0 { DivUnique(e - 1, 365, p.ones, p.rest); }
  }

  /** Every day has its place. */
  lemma FindPlace(days: int) returns (p: Place)
    requires days >= 0
    ensures ValidPlace(p) && PlaceDays(p) == days
  {
    var c, d := days / 12053, days % 12053;
    var f, e := d / 1461, d % 1461;
    if e <= 365 {
      p := Place(c, f, 0, e);
    } else {
      p := Place(c, f, (e - 1) / 365, (e - 1) % 365);
    }
  }

  /** The place of the next day. */
  function NextPlace(p: Place): Place {
    if p.rest < (if LongYear(p) then 365 else 364) then p.(rest := p.rest + 1)
    else if p.fours == 8 then Place(p.cycle + 1, 0, 0, 0)
    else if p.ones < 3 then Place(p.cycle, p.fours, p.ones + 1, 0)
    else Place(p.cycle, p.fours + 1, 0, 0)
  }

  lemma NextPlaceDays(p: Place)
    requires ValidPlace(p)
    ensures ValidPlace(NextPlace(p)) && PlaceDays(NextPlace(p)) == PlaceDays(p) + 1
  {
  }

  lemma MonthOfDay(y: int, e: int)
    requires 0 <= e <= (if JalaliLeap(y) then 365 else 364)
    ensures var (m, d) := MonthAndDay(e); ValidJalali(Date(y, m, d))
    ensures var (m, d) := MonthAndDay(e);
            e == (if m <= 6 then 31 * (m - 1) else 186 + 30 * (m - 7)) + d - 1
  {
  }

  lemma MonthStep(y: int, e: int)
    requires 0 <= e <= (if JalaliLeap(y) then 365 else 364)
    ensures var (m, d) := MonthAndDay(e);
      NextJalali(Date(y, m, d)) ==
        if e == (if JalaliLeap(y) then 365 else 364) then Date(y + 1, 1, 1)
        else var (m', d') := MonthAndDay(e + 1); Date(y, m', d')
  {
    MonthOfDay(y, e);
    if e < (if JalaliLeap(y) then 365 else 364) { MonthOfDay(y, e + 1); }
  }

  /** The date of a place in the cycle. */
  function PlaceDate(p: Place): Date {
    var (m, d) := MonthAndDay(p.rest);
    Date(PlaceYear(p), m, d)
  }

  lemma FromPlace(p: Place)
    requires ValidPlace(p)
    ensures FromDays(PlaceDays(p)) == PlaceDate(p)
  {
    PlaceYearAndDay(p);
  }

  lemma NextPlaceDate(p: Place)
    requires ValidPlace(p)
    ensures ValidPlace(NextPlace(p)) && ValidJalali(PlaceDate(p))
    ensures PlaceDate(NextPlace(p)) == NextJalali(PlaceDate(p))
  {
    PlaceLeap(p);
    MonthOfDay(PlaceYear(p), p.rest);
    MonthStep(PlaceYear(p), p.rest);
  }

  /** The next day of the count is the next day of the calendar. */
  lemma NextFromDays(days: int)
    requires days >= 0
    ensures ValidJalali(FromDays(days))
    ensures FromDays(days + 1) == NextJalali(FromDays(days))
  {
    hide *;
    var p := FindPlace(days);
    NextPlaceDays(p);
    FromPlace(p);
    FromPlace(NextPlace(p));
    NextPlaceDate(p);
  }

  // ----- the results -----

  /** The conversion turns valid dates into valid dates and the next day into the next day. */
  lemma Homomorphism(g: Date)
    requires ValidGregorian(g)
    ensures ValidJalali(GregorianToJalali(g))
    ensures GregorianToJalali(NextGregorian(g)) == NextJalali(GregorianToJalali(g))
  {
    assert 1 <= g.month <= 12;
    hide *;
    NextDayCount(g);
    NextFromDays(DayCount(g));
    ByDayCount(g);
    ByDayCount(NextGregorian(g));
  }

  lemma ByDayCount(g: Date)
    requires ValidGregorian(g)
    ensures GregorianToJalali(g) == FromDays(DayCount(g))
  {
  }

  predicate Earlier(a: Date, b: Date) {
    a.year < b.year || (a.year == b.year && (a.month < b.month || (a.month == b.month && a.day < b.day)))
  }

  lemma NextIsLater(j: Date)
    requires ValidJalali(j)
    ensures Earlier(j, NextJalali(j))
  {
  }

  lemma EarlierOrder(a: Date, b: Date, c: Date)
    ensures Earlier(a, b) && Earlier(b, c) ==> Earlier(a, c)
    ensures !Earlier(a, a) && (Earlier(a, b) ==> !Earlier(b, a))
    ensures a == b || Earlier(a, b) || Earlier(b, a)
  {
  }

  lemma {:induction false} DaysMonotone(a: int, b: int)
    requires 0 <= a < b
    ensures Earlier(FromDays(a), FromDays(b))
    decreases b
  {
    hide *;
    NextFromDays(b - 1);
    NextIsLater(FromDays(b - 1));
    if a < b - 1 {
      DaysMonotone(a, b - 1);
      EarlierOrder(FromDays(a), FromDays(b - 1), FromDays(b));
    }
  }

  lemma {:induction false} YearDayOrder(a: Date, b: Date)
    requires ValidGregorian(a) && ValidGregorian(b) && a.year == b.year && a.month < b.month
    ensures YearDay(a) < YearDay(b)
    decreases b.month
  {
    if a.month < b.month - 1 {
      var end := Date(b.year, b.month - 1, GregorianMonth(b.year, b.month - 1));
      YearDayOrder(a, end);
    }
  }

  lemma WithinYear(a: Date, b: Date)
    requires ValidGregorian(a) && ValidGregorian(b) && a.year == b.year
    ensures Earlier(a, b) ==> DayCount(a) < DayCount(b)
    ensures a == b ==> DayCount(a) == DayCount(b)
  {
    CountByYear(a);
    CountByYear(b);
    if a.month < b.month { YearDayOrder(a, b); }
  }

  lemma {:induction false} YearsAhead(a: Date, b: Date)
    requires ValidGregorian(a) && ValidGregorian(b) && a.year < b.year
    ensures DayCount(a) < DayCount(b)
    decreases b.year
  {
    var newYear, eve := Date(b.year, 1, 1), Date(b.year - 1, 12, 31);
    assert NextGregorian(eve) == newYear;
    NextDayCount(eve);
    WithinYear(newYear, b);
    assert newYear == b || Earlier(newYear, b);
    if a.year == b.year - 1 {
      WithinYear(a, eve);
      assert a == eve || Earlier(a, eve);
    } else {
      YearsAhead(a, eve);
    }
  }

  lemma Increasing(a: Date, b: Date)
    requires ValidGregorian(a) && ValidGregorian(b) && Earlier(a, b)
    ensures Earlier(GregorianToJalali(a), GregorianToJalali(b))
  {
    NextDayCount(a);
    if a.year < b.year { YearsAhead(a, b); } else { WithinYear(a, b); }
    DaysMonotone(DayCount(a), DayCount(b));
  }

  /** So it is strictly monotone, and two days never share a date. */
  lemma Monotone(a: Date, b: Date)
    requires ValidGregorian(a) && ValidGregorian(b)
    ensures Earlier(a, b) <==> Earlier(GregorianToJalali(a), GregorianToJalali(b))
    ensures GregorianToJalali(a) == GregorianToJalali(b) <==> a == b
  {
    hide *;
    EarlierOrder(a, b, a);
    EarlierOrder(GregorianToJalali(a), GregorianToJalali(b), GregorianToJalali(a));
    if Earlier(a, b) {
      Increasing(a, b);
    } else if Earlier(b, a) {
      Increasing(b, a);
    }
  }

  /** Two anchors: the vernal equinox of 2024 opens 1403, and 11 February 1979 is 22 Bahman 1357. */
  lemma Anchors()
    ensures GregorianToJalali(Date(2024, 3, 20)) == Date(1403, 1, 1)
    ensures GregorianToJalali(Date(1979, 2, 11)) == Date(1357, 11, 22)
  {
    hide FromDays, DayCount;
    AnchorCounts();
    FromPlace(Place(90, 7, 0, 0));
    FromPlace(Place(89, 3, 3, 327));
  }

  lemma AnchorCounts()
    ensures DayCount(Date(2024, 3, 20)) == 1094997 && DayCount(Date(1979, 2, 11)) == 1078523
  {
  }

  /** Day `n` after a date. */
  function LaterGregorian(g: Date, n: nat): (r: Date)
    requires ValidGregorian(g)
    ensures ValidGregorian(r)
  {
    if n == 0 then g else NextDayCount(LaterGregorian(g, n - 1)); NextGregorian(LaterGregorian(g, n - 1))
  }

  function LaterJalali(j: Date, n: nat): (r: Date)
    requires ValidJalali(j)
    ensures ValidJalali(r)
  {
    if n == 0 then j else NextJalali(LaterJalali(j, n - 1))
  }

  lemma LaterZero(g: Date, j: Date)
    requires ValidGregorian(g) && ValidJalali(j)
    ensures LaterGregorian(g, 0) == g && LaterJalali(j, 0) == j
  {
  }

  lemma LaterStep(g: Date, j: Date, n: nat)
    requires ValidGregorian(g) && ValidJalali(j)
    ensures LaterGregorian(g, n + 1) == NextGregorian(LaterGregorian(g, n))
    ensures LaterJalali(j, n + 1) == NextJalali(LaterJalali(j, n))
  {
  }

  /** Counting days in either calendar gives the same day, from any date on. */
  lemma {:induction false} SameDayLater(g: Date, n: nat)
    requires ValidGregorian(g)
    ensures ValidJalali(GregorianToJalali(g))
    ensures GregorianToJalali(LaterGregorian(g, n)) == LaterJalali(GregorianToJalali(g), n)
  {
    hide *;
    Homomorphism(g);
    LaterZero(g, GregorianToJalali(g));
    if n > 0 {
      LaterStep(g, GregorianToJalali(g), n - 1);
      SameDayLater(g, n - 1);
      Homomorphism(LaterGregorian(g, n - 1));
    }
  }
}
