/** The proleptic Gregorian calendar of ECMA-262 section 21.4.1, as days since 1970-01-01. */
module Calendar {

  predicate IsLeap(y: int) {
    y % 4 == 0 && (y % 100 != 0 || y % 400 == 0)
  }

  /** DayFromYear. */
  function YearStart(y: int): int {
    365 * (y - 1970) + (y - 1969) / 4 - (y - 1901) / 100 + (y - 1601) / 400
  }

  function DaysInYear(y: int): int {
    if IsLeap(y) then 366 else 365
  }

  function DaysInMonth(y: int, m: int): int
    requires 1 <= m <= 12
  {
    if m == 2 then (if IsLeap(y) then 29 else 28)
    else if m == 4 || m == 6 || m == 9 || m == 11 then 30
    else 31
  }

  /** Days of the year before month m; month 13 stands for the whole year. */
  function MonthStart(y: int, m: int): int
    requires 1 <= m <= 13
  {
    if m == 1 then 0 else MonthStart(y, m - 1) + DaysInMonth(y, m - 1)
  }

  datatype Civil = Civil(year: int, month: int, day: int)

  predicate IsCivil(c: Civil) {
    1 <= c.month <= 12 && 1 <= c.day <= DaysInMonth(c.year, c.month)
  }

  function DayOf(c: Civil): int
    requires 1 <= c.month <= 12
  {
    YearStart(c.year) + MonthStart(c.year, c.month) + c.day - 1
  }

  lemma LeapStep4(y: int)
    ensures (y - 1968) / 4 - (y - 1969) / 4 == if y % 4 == 0 then 1 else 0
  {
  }

  lemma LeapStep100(y: int)
    ensures (y - 1900) / 100 - (y - 1901) / 100 == if y % 100 == 0 then 1 else 0
  {
  }

  lemma LeapStep400(y: int)
    ensures (y - 1600) / 400 - (y - 1601) / 400 == if y % 400 == 0 then 1 else 0
  {
  }

  lemma CenturiesAreFourths(y: int)
    ensures y % 400 == 0 ==> y % 100 == 0
    ensures y % 100 == 0 ==> y % 4 == 0
  {
    var c, q := y / 100, y / 400;
    assert y == 100 * c + y % 100 && y == 400 * q + y % 400;
    assert y % 400 == 0 ==> y == 100 * (4 * q);
    assert y % 100 == 0 ==> y == 4 * (25 * c);
  }

  lemma YearStep(y: int)
    ensures YearStart(y + 1) == YearStart(y) + DaysInYear(y)
  {
    LeapStep4(y);
    LeapStep100(y);
    LeapStep400(y);
    CenturiesAreFourths(y);
  }

  lemma MonthsFillYear(y: int)
    ensures MonthStart(y, 13) == DaysInYear(y)
  {
    assert MonthStart(y, 2) == 31;
    assert MonthStart(y, 3) == 31 + DaysInMonth(y, 2);
    assert MonthStart(y, 4) == MonthStart(y, 3) + 31;
    assert MonthStart(y, 5) == MonthStart(y, 4) + 30;
    assert MonthStart(y, 6) == MonthStart(y, 5) + 31;
    assert MonthStart(y, 7) == MonthStart(y, 6) + 30;
    assert MonthStart(y, 8) == MonthStart(y, 7) + 31;
    assert MonthStart(y, 9) == MonthStart(y, 8) + 31;
    assert MonthStart(y, 10) == MonthStart(y, 9) + 30;
    assert MonthStart(y, 11) == MonthStart(y, 10) + 31;
    assert MonthStart(y, 12) == MonthStart(y, 11) + 30;
    assert MonthStart(y, 13) == MonthStart(y, 12) + 31;
  }

  lemma {:induction false} YearsGrow(y: int, z: int)
    requires y <= z
    ensures YearStart(y) + 365 * (z - y) <= YearStart(z) <= YearStart(y) + 366 * (z - y)
    decreases z - y
  {
    if y < z {
      YearsGrow(y, z - 1);
      YearStep(z - 1);
    }
  }

  /** The year a day falls in, searching upwards from one that starts no later. */
  function YearFrom(day: int, y: int): (r: int)
    requires YearStart(y) <= day
    ensures YearStart(r) <= day < YearStart(r + 1)
    decreases day - YearStart(y)
  {
    YearStep(y);
    if day < YearStart(y + 1) then y else YearFrom(day, y + 1)
  }

  function EarlyYear(day: int): (y: int)
    ensures YearStart(y) <= day
  {
    var y := if day >= 0 then 1970 + day / 366 else 1970 + day / 365;
    if day >= 0 then YearsGrow(1970, y); y else YearsGrow(y, 1970); y
  }

  function MonthFrom(y: int, offset: int, m: int): (r: int)
    requires 1 <= m <= 12 && MonthStart(y, m) <= offset < MonthStart(y, 13)
    ensures 1 <= r <= 12 && MonthStart(y, r) <= offset < MonthStart(y, r + 1)
    decreases 12 - m
  {
    if offset < MonthStart(y, m + 1) then m else MonthFrom(y, offset, m + 1)
  }

  function CivilOf(day: int): (c: Civil)
    ensures IsCivil(c) && DayOf(c) == day
  {
    var y := YearFrom(day, EarlyYear(day));
    YearStep(y);
    MonthsFillYear(y);
    var offset := day - YearStart(y);
    var m := MonthFrom(y, offset, 1);
    Civil(y, m, offset - MonthStart(y, m) + 1)
  }

  lemma {:induction false} MonthsGrow(y: int, m: int, n: int)
    requires 1 <= m < n <= 13
    ensures MonthStart(y, m) + DaysInMonth(y, m) <= MonthStart(y, n)
    decreases n - m
  {
    if m + 1 < n {
      MonthsGrow(y, m, n - 1);
    }
  }

  lemma WithinYear(c: Civil)
    requires IsCivil(c)
    ensures YearStart(c.year) <= DayOf(c) < YearStart(c.year + 1)
  {
    YearStep(c.year);
    MonthsFillYear(c.year);
    MonthsGrow(c.year, c.month, 13);
    if c.month > 1 {
      MonthsGrow(c.year, 1, c.month);
    }
  }

  predicate Before(a: Civil, b: Civil) {
    a.year < b.year || (a.year == b.year && (a.month < b.month || (a.month == b.month && a.day < b.day)))
  }

  /** Earlier on the calendar is earlier in days. */
  lemma BeforeIsEarlier(a: Civil, b: Civil)
    requires IsCivil(a) && IsCivil(b) && Before(a, b)
    ensures DayOf(a) < DayOf(b)
  {
    if a.year < b.year {
      WithinYear(a);
      WithinYear(b);
      YearsGrow(a.year + 1, b.year);
    } else if a.month < b.month {
      MonthsGrow(a.year, a.month, b.month);
    }
  }

  /** Days and civil dates are in order-preserving bijection. */
  lemma CivilBijection(c: Civil, d: Civil)
    requires IsCivil(c) && IsCivil(d)
    ensures CivilOf(DayOf(c)) == c
    ensures DayOf(c) < DayOf(d) <==> Before(c, d)
    ensures DayOf(c) == DayOf(d) <==> c == d
  {
    Trichotomy(CivilOf(DayOf(c)), c);
    Trichotomy(c, d);
  }

  lemma Trichotomy(c: Civil, d: Civil)
    requires IsCivil(c) && IsCivil(d)
    ensures Before(c, d) ==> DayOf(c) < DayOf(d)
    ensures Before(d, c) ==> DayOf(d) < DayOf(c)
    ensures Before(c, d) || Before(d, c) || c == d
  {
    if Before(c, d) {
      BeforeIsEarlier(c, d);
    } else if Before(d, c) {
      BeforeIsEarlier(d, c);
    }
  }
}
