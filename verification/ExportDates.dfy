/** Dates and instants as the finance exports read, compare and print them. Instants are milliseconds since 1970. */
module ExportDates {
  import opened Wrappers
  import opened Text
  import opened Calendar

  const DAY_MS: int := 24 * 60 * 60 * 1000
  const MANILA_OFFSET_MS: int := 8 * 60 * 60 * 1000
  const MAX_DAY: int := 100_000_000   // a Date holds instants within this many days of 1970

  predicate InDateRange(day: int) {
    -MAX_DAY <= day <= MAX_DAY
  }

  /** A stored calendar date, as days since 1970. */
  type Day = d: int | InDateRange(d)

  /** A stored point in time whose Philippine date a Date can hold. */
  type Instant = t: int | InDateRange((t + MANILA_OFFSET_MS) / DAY_MS)

  /** Four digits for the years 0 to 9999, a sign and six digits otherwise. */
  function IsoYear(y: int): string
    requires -1_000_000 < y < 1_000_000
  {
    if 0 <= y <= 9999 then Pad(y, 4)
    else if y < 0 then "-" + Pad(-y, 6)
    else "+" + Pad(y, 6)
  }

  function IsoDate(c: Civil): string
    requires -1_000_000 < c.year < 1_000_000 && IsCivil(c)
  {
    IsoYear(c.year) + ("-" + (Pad(c.month, 2) + ("-" + Pad(c.day, 2))))
  }

  lemma YearsInRange(day: int)
    requires -MAX_DAY - 1 <= day <= MAX_DAY + 1
    ensures -1_000_000 < CivilOf(day).year < 1_000_000
  {
    var c := CivilOf(day);
    WithinYear(c);
    if c.year >= 1_000_000 {
      YearsGrow(1970, c.year);
    } else if c.year <= -1_000_000 {
      YearsGrow(c.year, 1970);
      YearStep(c.year);
    }
  }

  /** `toISOString().slice(0, 10)` of a UTC midnight. */
  function FormatDateOnly(day: int): (s: string)
    requires -MAX_DAY - 1 <= day <= MAX_DAY + 1
    ensures |s| == 10
  {
    YearsInRange(day);
    IsoDate(CivilOf(day))[..10]
  }

  /** `toISOString().slice(0, 23)` of the instant eight hours on, with the fixed offset. */
  function FormatManilaTimestamp(t: int): (s: string)
    requires InDateRange((t + MANILA_OFFSET_MS) / DAY_MS)
    ensures |s| == 29
  {
    var local := t + MANILA_OFFSET_MS;
    var ms := local % DAY_MS;
    YearsInRange(local / DAY_MS);
    var time := Pad(ms / 3_600_000, 2) + ":" + Pad(ms / 60_000 % 60, 2) + ":" + Pad(ms / 1000 % 60, 2) + "." + Pad(ms % 1000, 3);
    (IsoDate(CivilOf(local / DAY_MS)) + ("T" + time + "Z"))[..23] + "+08:00"
  }

  // ---------------------------------------------------------------- the accepted calendar days

  predicate AllDigits(s: string) {
    forall i | 0 <= i < |s| :: '0' <= s[i] <= '9'
  }

  /** The signed six-digit year of an expanded value. */
  function SignedYear(value: string): int
    requires |value| == 10 && AllDigits(value[1..7])
  {
    if value[0] == '-' then 0 - Value(value[1..7]) else Value(value[1..7])
  }

  /**
   * What `new Date(value + 'T00:00:00.000Z')` makes of a ten-character value in one of the two forms of the
   * ECMA-262 date-time string format that long: a day beyond its month's end rolls over.
   */
  function ParseDay(value: string): Option<int> {
    if |value| != 10 || value[7] != '-' || !AllDigits(value[8..]) then None
    else if AllDigits(value[..4]) && value[4] == '-' && AllDigits(value[5..7]) then
      var m, d := Value(value[5..7]), Value(value[8..]);
      if 1 <= m <= 12 && 1 <= d <= 31 then Some(DayOf(Civil(Value(value[..4]), m, d))) else None
    else if (value[0] == '+' || value[0] == '-') && AllDigits(value[1..7]) then
      var y, m := SignedYear(value), Value(value[8..]);
      if 1 <= m <= 12 && !(value[0] == '-' && y == 0) && InDateRange(DayOf(Civil(y, m, 1)))
      then Some(DayOf(Civil(y, m, 1))) else None
    else None
  }

  /** A four-digit day lands within the year or just after it. */
  lemma ParsedDayInRange(value: string)
    requires ParseDay(value).Some?
    ensures -MAX_DAY - 1 <= ParseDay(value).value <= MAX_DAY + 1
  {
    if AllDigits(value[..4]) {
      var y, m := Value(value[..4]), Value(value[5..7]);
      PadOfValue(value[..4]);
      assert Pow10(4) == 10 * (10 * (10 * (10 * Pow10(0))));
      YearsGrow(0, y);
      YearsGrow(y, 10_000);
      MonthsFillYear(y);
      MonthsGrow(y, m, 13);
      if m > 1 {
        MonthsGrow(y, 1, m);
      }
    }
  }

  predicate IsRealCalendarDate(value: string) {
    ParseDay(value).Some? && (ParsedDayInRange(value); FormatDateOnly(ParseDay(value).value) == value)
  }

  /** The value is the ten-character date of a civil day in the years 0 to 9999. */
  ghost predicate IsPlainDate(value: string, c: Civil) {
    IsCivil(c) && 0 <= c.year <= 9999 && value == IsoDate(c)
  }

  /** The value is the ten-character month of an expanded year. */
  ghost predicate IsExpandedMonth(value: string, y: int, m: int) {
    && (-1_000_000 < y < 0 || 9999 < y < 1_000_000) && 1 <= m <= 12
    && InDateRange(DayOf(Civil(y, m, 1)))
    && value == IsoYear(y) + ("-" + Pad(m, 2))
  }

  lemma PlainDateParts(c: Civil)
    requires IsCivil(c) && 0 <= c.year <= 9999
    ensures var s := IsoDate(c);
            && |s| == 10 && s[4] == '-' && s[7] == '-'
            && s[..4] == Pad(c.year, 4) && s[5..7] == Pad(c.month, 2) && s[8..] == Pad(c.day, 2)
  {
  }

  lemma Pow10s()
    ensures Pow10(2) == 100 && Pow10(3) == 1000 && Pow10(4) == 10_000 && Pow10(6) == 1_000_000
  {
    assert Pow10(1) == 10 * Pow10(0);
    assert Pow10(2) == 10 * Pow10(1);
    assert Pow10(3) == 10 * Pow10(2);
    assert Pow10(4) == 10 * Pow10(3);
    assert Pow10(5) == 10 * Pow10(4);
    assert Pow10(6) == 10 * Pow10(5);
  }

  lemma PlainDateIsReal(value: string, c: Civil)
    requires IsPlainDate(value, c)
    ensures ParseDay(value) == Some(DayOf(c)) && IsRealCalendarDate(value)
  {
    hide Pad, Value, Pow10, YearStart, MonthStart;
    PlainDateParts(c);
    Pow10s();
    ValueOfPad(c.year, 4);
    ValueOfPad(c.month, 2);
    ValueOfPad(c.day, 2);
    CivilBijection(c, c);
    assert IsoDate(c)[..10] == IsoDate(c);
  }

  lemma ExpandedMonthParts(y: int, m: int)
    requires (-1_000_000 < y < 0 || 9999 < y < 1_000_000) && 1 <= m <= 12
    ensures var s := IsoYear(y) + ("-" + Pad(m, 2));
            && |s| == 10 && s[7] == '-' && (s[0] == if y < 0 then '-' else '+')
            && s[1..7] == Pad(if y < 0 then -y else y, 6) && s[8..] == Pad(m, 2) && !AllDigits(s[..4])
    ensures IsoDate(Civil(y, m, 1))[..10] == IsoYear(y) + ("-" + Pad(m, 2))
  {
    var s := IsoYear(y) + ("-" + Pad(m, 2));
    var sign, digits := IsoYear(y)[0], IsoYear(y)[1..];
    assert digits == Pad(if y < 0 then -y else y, 6);
    assert s[..4][0] == sign && !('0' <= sign <= '9');
    assert s[1..7] == digits && s[8..] == Pad(m, 2);
    ExpandedDatePrefix(Civil(y, m, 1));
  }

  lemma ExpandedMonthIsReal(value: string, y: int, m: int)
    requires IsExpandedMonth(value, y, m)
    ensures ParseDay(value) == Some(DayOf(Civil(y, m, 1))) && IsRealCalendarDate(value)
  {
    hide DayOf, CivilOf, Pad, Value, Pow10, IsoYear;
    ExpandedMonthParts(y, m);
    Pow10s();
    ValueOfPad(if y < 0 then -y else y, 6);
    ValueOfPad(m, 2);
    assert SignedYear(value) == y;
    CivilBijection(Civil(y, m, 1), Civil(y, m, 1));
  }

  /** The check accepts every civil day of the years 0 to 9999, every in-range month of an expanded year, and nothing else. */
  lemma RealCalendarDates(value: string)
    ensures IsRealCalendarDate(value) <==>
            (exists c :: IsPlainDate(value, c)) || (exists y, m :: IsExpandedMonth(value, y, m))
  {
    if c :| IsPlainDate(value, c) {
      PlainDateIsReal(value, c);
    }
    if y, m :| IsExpandedMonth(value, y, m) {
      ExpandedMonthIsReal(value, y, m);
    }
    if IsRealCalendarDate(value) {
      RealDateShape(value);
    }
  }

  lemma RealDateShape(value: string)
    requires IsRealCalendarDate(value)
    ensures (exists c :: IsPlainDate(value, c)) || (exists y, m :: IsExpandedMonth(value, y, m))
  {
    hide DayOf, CivilOf, ParseDay, Pad, Value, SignedYear;
    var day := ParseDay(value).value;
    ParsedDayInRange(value);
    YearsInRange(day);
    var c := CivilOf(day);
    if 0 <= c.year <= 9999 {
      assert IsoDate(c)[..10] == IsoDate(c);
      assert IsPlainDate(value, c);
    } else {
      ExpandedMonthParts(c.year, c.month);
      ExpandedParse(value);
      var m := Value(value[8..]);
      CivilBijection(Civil(SignedYear(value), m, 1), c);
      assert IsoDate(c)[..10] == IsoYear(c.year) + ("-" + Pad(c.month, 2)) by { ExpandedDatePrefix(c); }
      assert IsExpandedMonth(value, c.year, c.month);
    }
  }

  lemma ExpandedDatePrefix(c: Civil)
    requires IsCivil(c) && (-1_000_000 < c.year < 0 || 9999 < c.year < 1_000_000)
    ensures IsoDate(c)[..10] == IsoYear(c.year) + ("-" + Pad(c.month, 2))
    ensures IsoDate(c)[0] == if c.year < 0 then '-' else '+'
  {
    assert IsoDate(c) == (IsoYear(c.year) + ("-" + Pad(c.month, 2))) + ("-" + Pad(c.day, 2));
  }

  /** A value that begins with a sign was read as the first of an expanded month. */
  lemma ExpandedParse(value: string)
    requires ParseDay(value).Some? && (value[0] == '-' || value[0] == '+')
    ensures |value| == 10 && AllDigits(value[1..7]) && AllDigits(value[8..]) && 1 <= Value(value[8..]) <= 12
    ensures ParseDay(value) == Some(DayOf(Civil(SignedYear(value), Value(value[8..]), 1)))
    ensures InDateRange(ParseDay(value).value)
  {
    assert value[..4][0] == value[0];
  }

  // ---------------------------------------------------------------- text order and calendar order

  /** Among plain dates the ten characters sort as the days do. */
  lemma PlainDatesSort(c: Civil, d: Civil)
    requires IsCivil(c) && IsCivil(d) && 0 <= c.year <= 9999 && 0 <= d.year <= 9999
    ensures LexLe(IsoDate(c), IsoDate(d)) <==> DayOf(c) <= DayOf(d)
    ensures IsoDate(c) == IsoDate(d) <==> c == d
  {
    hide DayOf;
    Pow10s();
    PadOrder(c.year, d.year, 4);
    PadOrder(c.month, d.month, 2);
    PadOrder(c.day, d.day, 2);
    CivilBijection(c, d);
    var yc, yd := Pad(c.year, 4), Pad(d.year, 4);
    var mc, md := Pad(c.month, 2), Pad(d.month, 2);
    var dc, dd := Pad(c.day, 2), Pad(d.day, 2);
    LexConcat(yc, yd, "-" + (mc + ("-" + dc)), "-" + (md + ("-" + dd)));
    LexConcat("-", "-", mc + ("-" + dc), md + ("-" + dd));
    LexConcat(mc, md, "-" + dc, "-" + dd);
    LexConcat("-", "-", dc, dd);
    PlainDateParts(c);
    PlainDateParts(d);
  }

  /** Dates on which the text comparison of the range rule agrees with the calendar. */
  predicate Comparable(a: string, b: string)
    requires |a| == |b| == 10
  {
    && (a[0] == '+' <==> b[0] == '+')
    && (a[0] == '-' && b[0] == '-' ==> a[1..7] == b[1..7])
  }

  lemma ExpandedMonthsSort(y: int, m: int, z: int, n: int)
    requires (y < 0 && z < 0) || (y > 9999 && z > 9999)
    requires -1_000_000 < y < 1_000_000 && -1_000_000 < z < 1_000_000 && 1 <= m <= 12 && 1 <= n <= 12
    ensures var a, b := IsoYear(y) + ("-" + Pad(m, 2)), IsoYear(z) + ("-" + Pad(n, 2));
            LexLe(a, b) <==> if y == z then m <= n else if y < 0 then y > z else y < z
  {
    hide Pad, LexLe, Pow10;
    Pow10s();
    var ya, za := if y < 0 then -y else y, if z < 0 then -z else z;
    PadOrder(ya, za, 6);
    PadOrder(m, n, 2);
    LexConcat(IsoYear(y), IsoYear(z), "-" + Pad(m, 2), "-" + Pad(n, 2));
    LexConcat("-", "-", Pad(m, 2), Pad(n, 2));
    assert IsoYear(y)[1..] == Pad(ya, 6) && IsoYear(z)[1..] == Pad(za, 6);
    if y < 0 {
      LexConcat("-", "-", Pad(ya, 6), Pad(za, 6));
    } else {
      LexConcat("+", "+", Pad(ya, 6), Pad(za, 6));
    }
  }

  lemma ExpandedPair(a: string, b: string, y: int, m: int, z: int, n: int)
    requires IsExpandedMonth(a, y, m) && IsExpandedMonth(b, z, n) && (y < 0 <==> z < 0)
    ensures |a| == |b| == 10
    ensures (LexLe(a, b) <==> DayOf(Civil(y, m, 1)) <= DayOf(Civil(z, n, 1))) <==> Comparable(a, b)
  {
    hide DayOf, Pad, IsoYear, LexLe, Pow10, InDateRange;
    ExpandedMonthParts(y, m);
    ExpandedMonthParts(z, n);
    ExpandedMonthsSort(y, m, z, n);
    CivilBijection(Civil(y, m, 1), Civil(z, n, 1));
    Pow10s();
    PadOrder(if y < 0 then -y else y, if z < 0 then -z else z, 6);
  }

  /** The kind of an accepted value shows in its first character, and bounds its day. */
  lemma Kinds(a: string) returns (c: Civil)
    requires IsRealCalendarDate(a)
    ensures |a| == 10 && IsCivil(c) && ParseDay(a) == Some(DayOf(c))
    ensures if a[0] == '+' then c.day == 1 && c.year > 9999 && IsExpandedMonth(a, c.year, c.month)
            else if a[0] == '-' then c.day == 1 && c.year < 0 && IsExpandedMonth(a, c.year, c.month)
            else '0' <= a[0] <= '9' && IsPlainDate(a, c)
  {
    hide ParseDay, DayOf, IsRealCalendarDate;
    RealCalendarDates(a);
    if d :| IsPlainDate(a, d) {
      c := d;
      PlainKind(a, d);
    } else {
      var y, m :| IsExpandedMonth(a, y, m);
      c := Civil(y, m, 1);
      ExpandedMonthIsReal(a, y, m);
      ExpandedKind(a, y, m);
    }
  }

  lemma PlainKind(a: string, c: Civil)
    requires IsPlainDate(a, c)
    ensures |a| == 10 && ParseDay(a) == Some(DayOf(c)) && '0' <= a[0] <= '9'
  {
    hide ParseDay, DayOf, IsRealCalendarDate;
    PlainDateIsReal(a, c);
    PlainDateParts(c);
    assert a[..4][0] == a[0];
  }

  lemma ExpandedKind(a: string, y: int, m: int)
    requires IsExpandedMonth(a, y, m)
    ensures |a| == 10 && (a[0] == if y < 0 then '-' else '+') && IsCivil(Civil(y, m, 1))
  {
    hide DayOf;
    ExpandedMonthParts(y, m);
  }

  /**
   * The request schema compares accepted values as text, taking them to sort chronologically. Exactly the
   * comparable pairs do: expanded years sort by their sign, and negative ones backwards.
   */
  lemma TextOrderIsChronologicalIff(a: string, b: string)
    requires IsRealCalendarDate(a) && IsRealCalendarDate(b)
    ensures |a| == |b| == 10
    ensures (LexLe(a, b) <==> ParseDay(a).value <= ParseDay(b).value) <==> Comparable(a, b)
  {
    hide DayOf, ParseDay, IsRealCalendarDate;
    var c := Kinds(a);
    var d := Kinds(b);
    CivilBijection(c, d);
    if '0' <= a[0] <= '9' && '0' <= b[0] <= '9' {
      PlainDatesSort(c, d);
    } else if a[0] == b[0] {
      ExpandedPair(a, b, c.year, c.month, d.year, d.month);
    }
  }

  /** The extra form a due date must have: four digits, two and two. */
  predicate HasDueDateForm(value: string) {
    |value| == 10 && AllDigits(value[..4]) && value[4] == '-' && AllDigits(value[5..7]) && value[7] == '-' && AllDigits(value[8..])
  }

  /** With that form the calendar check leaves only plain dates, and those sort chronologically as text. */
  lemma DueDatesSortChronologically(a: string, b: string)
    requires HasDueDateForm(a) && HasDueDateForm(b) && IsRealCalendarDate(a) && IsRealCalendarDate(b)
    ensures LexLe(a, b) <==> ParseDay(a).value <= ParseDay(b).value
  {
    hide ParseDay, IsRealCalendarDate, LexLe;
    assert a[..4][0] == a[0] && b[..4][0] == b[0];
    TextOrderIsChronologicalIff(a, b);
  }

  // ---------------------------------------------------------------- ranges

  function CountInclusiveDays(from: string, to: string): int
    requires ParseDay(from).Some? && ParseDay(to).Some?
  {
    ParseDay(to).value - ParseDay(from).value + 1
  }

  const MAX_RANGE_DAYS := 366

  /** The two range rules of the request schema on accepted values. */
  predicate RangeAccepted(from: string, to: string) {
    && IsRealCalendarDate(from) && IsRealCalendarDate(to)
    && LexLe(from, to)
    && CountInclusiveDays(from, to) <= MAX_RANGE_DAYS
  }

  /** On comparable dates the rules accept exactly the ranges of 1 to 366 days. */
  lemma ComparableRangeRule(from: string, to: string)
    requires IsRealCalendarDate(from) && IsRealCalendarDate(to) && |from| == |to| == 10 && Comparable(from, to)
    ensures RangeAccepted(from, to) <==> 1 <= CountInclusiveDays(from, to) <= MAX_RANGE_DAYS
  {
    TextOrderIsChronologicalIff(from, to);
  }

  /** A range that runs eight thousand years backwards passes both rules. */
  lemma BackwardRangeAccepted()
    ensures RangeAccepted("+010000-01", "2026-01-01") && CountInclusiveDays("+010000-01", "2026-01-01") < 0
  {
    hide ParseDay, IsRealCalendarDate, CivilOf;
    var from, to := "+010000-01", "2026-01-01";
    BackwardFrom();
    BackwardTo();
    BeforeIsEarlier(Civil(2026, 1, 1), Civil(10_000, 1, 1));
    BeforeIsEarlier(Civil(2026, 1, 1), Civil(9999, 12, 31));
    BeforeIsEarlier(Civil(9999, 12, 31), Civil(10_000, 1, 1));
    assert from[0] < to[0];
  }

  lemma BackwardFrom()
    ensures IsRealCalendarDate("+010000-01") && ParseDay("+010000-01") == Some(DayOf(Civil(10_000, 1, 1)))
  {
    hide ParseDay, IsRealCalendarDate, CivilOf;
    SmallPads();
    assert DayOf(Civil(10_000, 1, 1)) == YearStart(10_000);
    assert IsExpandedMonth("+010000-01", 10_000, 1);
    ExpandedMonthIsReal("+010000-01", 10_000, 1);
  }

  lemma BackwardTo()
    ensures IsRealCalendarDate("2026-01-01") && ParseDay("2026-01-01") == Some(DayOf(Civil(2026, 1, 1)))
  {
    hide ParseDay, IsRealCalendarDate, CivilOf;
    SmallPads();
    assert IsPlainDate("2026-01-01", Civil(2026, 1, 1));
    PlainDateIsReal("2026-01-01", Civil(2026, 1, 1));
  }

  lemma SmallPads()
    ensures Pad(10_000, 6) == "010000" && Pad(1, 2) == "01" && Pad(2026, 4) == "2026"
  {
    PadTwo(1);
    PadTwo(20);
    PadTwo(10);
    assert Pad(202, 3) == Pad(20, 2) + ['2'];
    assert Pad(2026, 4) == Pad(202, 3) + ['6'];
    assert Pad(10, 3) == Pad(1, 2) + ['0'];
    assert Pad(100, 4) == Pad(10, 3) + ['0'];
    assert Pad(1000, 5) == Pad(100, 4) + ['0'];
    assert Pad(10_000, 6) == Pad(1000, 5) + ['0'];
  }

  lemma PadTwo(n: nat)
    requires n < 100
    ensures Pad(n, 2) == [Digit(n / 10), Digit(n % 10)]
  {
    var tens := n / 10;
    assert tens < 10 && tens % 10 == tens;
    assert Pad(tens, 1) == Pad(tens / 10, 0) + [Digit(tens)];
    assert Pad(tens, 1) == [Digit(tens)];
    assert Pad(n, 2) == Pad(tens, 1) + [Digit(n % 10)];
  }

  /** Inclusive Philippine days as a half-open range of instants. */
  function ManilaDayRange(from: string, to: string): (int, int)
    requires ParseDay(from).Some? && ParseDay(to).Some?
  {
    (ParseDay(from).value * DAY_MS - MANILA_OFFSET_MS, ParseDay(to).value * DAY_MS - MANILA_OFFSET_MS + DAY_MS)
  }

  predicate BetweenDates(from: string, text: string, to: string) {
    LexLe(from, text) && LexLe(text, to)
  }

  lemma PlainPrefix(c: Civil, rest: string)
    requires IsCivil(c) && 0 <= c.year <= 9999
    ensures |IsoDate(c)| == 10 && IsoDate(c)[..10] == IsoDate(c) && (IsoDate(c) + rest)[..10] == IsoDate(c)
  {
  }

  /** The first ten characters of a printed timestamp are its Philippine date. */
  lemma TimestampDate(t: int)
    requires InDateRange((t + MANILA_OFFSET_MS) / DAY_MS)
    requires 0 <= CivilOf((t + MANILA_OFFSET_MS) / DAY_MS).year <= 9999
    ensures FormatManilaTimestamp(t)[..10] == IsoDate(CivilOf((t + MANILA_OFFSET_MS) / DAY_MS))
    ensures '0' <= FormatManilaTimestamp(t)[0] <= '9'
  {
    hide CivilOf;
    var c := CivilOf((t + MANILA_OFFSET_MS) / DAY_MS);
    PlainPrefix(c, "");
    assert FormatManilaTimestamp(t)[..10] == IsoDate(c)[..10];
    assert FormatManilaTimestamp(t)[0] == IsoDate(c)[0] == Pad(c.year, 4)[0];
  }

  /** The instant a printed timestamp names. */
  function ParseTimestamp(s: string): Option<int> {
    if |s| != 29 || s[10] != 'T' || s[13] != ':' || s[16] != ':' || s[19] != '.' || s[23..] != "+08:00" then None
    else if ParseDay(s[..10]).None? then None
    else if !AllDigits(s[11..13]) || !AllDigits(s[14..16]) || !AllDigits(s[17..19]) || !AllDigits(s[20..23]) then None
    else
      var time := Value(s[11..13]) * 3_600_000 + Value(s[14..16]) * 60_000 + Value(s[17..19]) * 1000 + Value(s[20..23]);
      Some(ParseDay(s[..10]).value * DAY_MS + time - MANILA_OFFSET_MS)
  }

  lemma TimeParts(date: string, h: string, m: string, sec: string, ms: string)
    requires |date| == 10 && |h| == 2 && |m| == 2 && |sec| == 2 && |ms| == 3
    ensures var s := (date + ("T" + (h + ":" + m + ":" + sec + "." + ms) + "Z"))[..23] + "+08:00";
            && |s| == 29 && s[..10] == date && s[10] == 'T' && s[13] == ':' && s[16] == ':' && s[19] == '.'
            && s[11..13] == h && s[14..16] == m && s[17..19] == sec && s[20..23] == ms && s[23..] == "+08:00"
  {
    var time := h + ":" + m + ":" + sec + "." + ms;
    assert |time| == 12 && time[..2] == h && time[3..5] == m && time[6..8] == sec && time[9..] == ms;
    assert time[2] == ':' && time[5] == ':' && time[8] == '.';
    var body := (date + ("T" + time + "Z"))[..23];
    assert body[..10] == date && body[10] == 'T' && body[11..] == time;
  }

  lemma TimeSplits(ms: int)
    requires 0 <= ms < DAY_MS
    ensures ms / 3_600_000 < 24 && ms / 60_000 % 60 < 60 && ms / 1000 % 60 < 60
    ensures ms == ms / 3_600_000 * 3_600_000 + ms / 60_000 % 60 * 60_000 + ms / 1000 % 60 * 1000 + ms % 1000
  {
    var seconds := ms / 1000;
    var minutes := seconds / 60;
    var hours := minutes / 60;
    assert ms == 1000 * seconds + ms % 1000;
    assert seconds == 60 * minutes + seconds % 60;
    assert minutes == 60 * hours + minutes % 60;
    assert minutes == ms / 60_000 && hours == ms / 3_600_000;
  }

  /** A printed timestamp of the years 0 to 9999 reads back to its instant, to the millisecond. */
  lemma TimestampRoundTrip(t: int)
    requires InDateRange((t + MANILA_OFFSET_MS) / DAY_MS)
    requires 0 <= CivilOf((t + MANILA_OFFSET_MS) / DAY_MS).year <= 9999
    ensures ParseTimestamp(FormatManilaTimestamp(t)) == Some(t)
  {
    hide CivilOf, ParseDay, DayOf, Pad, Value, IsRealCalendarDate;
    var local := t + MANILA_OFFSET_MS;
    var ms := local % DAY_MS;
    var c := CivilOf(local / DAY_MS);
    PlainPrefix(c, "");
    PlainDateIsReal(IsoDate(c), c);
    Pow10s();
    TimeSplits(ms);
    ValueOfPad(ms / 3_600_000, 2);
    ValueOfPad(ms / 60_000 % 60, 2);
    ValueOfPad(ms / 1000 % 60, 2);
    ValueOfPad(ms % 1000, 3);
    TimeParts(IsoDate(c), Pad(ms / 3_600_000, 2), Pad(ms / 60_000 % 60, 2), Pad(ms / 1000 % 60, 2), Pad(ms % 1000, 3));
  }

  lemma DayBounds(t: int, first: int, last: int)
    ensures first * DAY_MS - MANILA_OFFSET_MS <= t < last * DAY_MS - MANILA_OFFSET_MS + DAY_MS <==>
            first <= ManilaDay(t) <= last
  {
  }

  function ManilaDay(t: int): int {
    (t + MANILA_OFFSET_MS) / DAY_MS
  }

  /** The days a date can be printed in full for. */
  predicate InPlainYears(day: int)
    ensures InPlainYears(day) ==> InDateRange(day)
    ensures InPlainYears(day) <==> YearStart(0) <= day < YearStart(10_000)
  {
    PlainYears(day);
    0 <= CivilOf(day).year <= 9999
  }

  lemma PlainYears(day: int)
    ensures 0 <= CivilOf(day).year <= 9999 <==> YearStart(0) <= day < YearStart(10_000)
    ensures -MAX_DAY <= YearStart(0) < YearStart(10_000) <= MAX_DAY
  {
    hide CivilOf, DayOf;
    var c := CivilOf(day);
    WithinYear(c);
    if c.year < 0 {
      YearsGrow(c.year + 1, 0);
    } else if c.year > 9999 {
      YearsGrow(10_000, c.year);
    } else {
      YearsGrow(0, c.year);
      YearsGrow(c.year + 1, 10_000);
    }
  }

  predicate StartsPlain(value: string) {
    value != "" && '0' <= value[0] <= '9'
  }

  predicate StartsPlus(value: string) {
    value != "" && value[0] == '+'
  }

  lemma FirstDecides(a: string, b: string)
    requires a != "" && b != ""
    ensures a[0] != b[0] ==> (LexLe(a, b) <==> a[0] < b[0])
  {
  }

  lemma LowerEnd(from: string, c: Civil)
    requires IsRealCalendarDate(from) && IsCivil(c) && 0 <= c.year <= 9999
    ensures LexLe(from, IsoDate(c)) <==> StartsPlus(from) || ParseDay(from).value <= DayOf(c)
    ensures StartsPlus(from) ==> DayOf(c) < ParseDay(from).value
    ensures !StartsPlus(from) && !StartsPlain(from) ==> ParseDay(from).value < YearStart(0)
  {
    hide DayOf, ParseDay, IsRealCalendarDate, IsoDate, IsExpandedMonth, LexLe, YearStart;
    var f := Kinds(from);
    CivilBijection(f, c);
    PlainKind(IsoDate(c), c);
    FirstDecides(from, IsoDate(c));
    if StartsPlain(from) {
      PlainDatesSort(f, c);
    } else if f.year < 0 {
      WithinYear(f);
      YearsGrow(f.year + 1, 0);
    }
  }

  lemma UpperEnd(c: Civil, to: string)
    requires IsRealCalendarDate(to) && IsCivil(c) && 0 <= c.year <= 9999
    ensures LexLe(IsoDate(c), to) <==> StartsPlain(to) && DayOf(c) <= ParseDay(to).value
    ensures !StartsPlain(to) && !StartsPlus(to) ==> ParseDay(to).value < DayOf(c)
  {
    hide DayOf, ParseDay, IsRealCalendarDate, IsoDate, IsExpandedMonth, LexLe;
    var g := Kinds(to);
    CivilBijection(g, c);
    PlainKind(IsoDate(c), c);
    FirstDecides(IsoDate(c), to);
    if StartsPlain(to) {
      PlainDatesSort(c, g);
    }
  }

  /** The ends of an accepted range are in the order of their first characters: plus, minus, digit. */
  lemma KindsInOrder(from: string, to: string)
    requires RangeAccepted(from, to)
    ensures StartsPlus(to) ==> StartsPlus(from)
    ensures StartsPlain(from) ==> StartsPlain(to)
  {
    hide ParseDay, IsRealCalendarDate;
    var f := Kinds(from);
    var g := Kinds(to);
  }

  /**
   * On the days of the years 0 to 9999 an accepted range selects what its texts enclose, unless it runs from after 9999
   * back to a plain date.
   */
  lemma EnclosedDays(from: string, to: string, c: Civil)
    requires RangeAccepted(from, to) && IsCivil(c) && 0 <= c.year <= 9999
    ensures ParseDay(from).value <= DayOf(c) <= ParseDay(to).value <==>
            BetweenDates(from, IsoDate(c), to) && !(StartsPlus(from) && StartsPlain(to))
  {
    hide DayOf, ParseDay, IsRealCalendarDate, IsoDate, LexLe;
    LowerEnd(from, c);
    UpperEnd(c, to);
    KindsInOrder(from, to);
  }

  /** Exactly the instants an accepted range selects among those of the years 0 to 9999. */
  lemma ManilaSelection(from: string, to: string, t: int)
    requires RangeAccepted(from, to) && InPlainYears(ManilaDay(t))
    ensures var (gte, lt) := ManilaDayRange(from, to);
            gte <= t < lt <==> BetweenDates(from, FormatManilaTimestamp(t)[..10], to) && !(StartsPlus(from) && StartsPlain(to))
  {
    hide ParseDay, FormatManilaTimestamp, DayOf, IsoDate, LexLe, BetweenDates, YearStart;
    TimestampDate(t);
    EnclosedDays(from, to, CivilOf(ManilaDay(t)));
    DayBounds(t, ParseDay(from).value, ParseDay(to).value);
  }

  /** The instant a Philippine day begins. */
  lemma DayBegins(day: int)
    ensures ManilaDay(day * DAY_MS - MANILA_OFFSET_MS) == day
  {
  }

  /**
   * An instant is selected by an accepted range exactly when its printed date lies between the two texts: for
   * every instant of the years 0 to 9999, exactly when the range does not run from after 9999 back to a plain date.
   */
  lemma ManilaRangeIsDatesIff(from: string, to: string)
    requires RangeAccepted(from, to)
    ensures (forall t | InPlainYears(ManilaDay(t)) ::
              var (gte, lt) := ManilaDayRange(from, to);
              gte <= t < lt <==> BetweenDates(from, FormatManilaTimestamp(t)[..10], to))
            <==> !(StartsPlus(from) && StartsPlain(to))
  {
    hide ParseDay, FormatManilaTimestamp, LexLe, CivilOf, YearStart;
    forall t | InPlainYears(ManilaDay(t))
      ensures var (gte, lt) := ManilaDayRange(from, to);
              gte <= t < lt <==> BetweenDates(from, FormatManilaTimestamp(t)[..10], to) && !(StartsPlus(from) && StartsPlain(to))
    {
      ManilaSelection(from, to, t);
    }
    if StartsPlain(to) && StartsPlus(from) {
      LastDayEnclosed(from, to);
      var t := ParseDay(to).value * DAY_MS - MANILA_OFFSET_MS;
      DayBegins(ParseDay(to).value);
      TimestampDate(t);
      assert BetweenDates(from, FormatManilaTimestamp(t)[..10], to);
    }
  }

  /** A plain last day lies between the texts of an accepted range that does not begin after it. */
  lemma LastDayEnclosed(from: string, to: string)
    requires RangeAccepted(from, to) && StartsPlain(to)
    ensures InPlainYears(ParseDay(to).value) && BetweenDates(from, IsoDate(CivilOf(ParseDay(to).value)), to)
  {
    hide ParseDay, CivilOf, DayOf, LexLe, YearStart;
    var g := Kinds(to);
    CivilBijection(g, g);
    UpperEnd(g, to);
  }

  /** The same for due dates, compared as UTC midnights. */
  lemma DueSelection(from: string, to: string, due: int)
    requires RangeAccepted(from, to) && InPlainYears(due)
    ensures ParseDay(from).value * DAY_MS <= due * DAY_MS <= ParseDay(to).value * DAY_MS <==>
            BetweenDates(from, FormatDateOnly(due), to) && !(StartsPlus(from) && StartsPlain(to))
  {
    hide ParseDay, CivilOf, DayOf, IsoDate, LexLe, BetweenDates, YearStart;
    var c := CivilOf(due);
    EnclosedDays(from, to, c);
    PlainPrefix(c, "");
    assert FormatDateOnly(due) == IsoDate(c)[..10];
  }

  lemma DateRangeIsDatesIff(from: string, to: string)
    requires RangeAccepted(from, to)
    ensures (forall due | InPlainYears(due) ::
              ParseDay(from).value * DAY_MS <= due * DAY_MS <= ParseDay(to).value * DAY_MS <==>
              BetweenDates(from, FormatDateOnly(due), to))
            <==> !(StartsPlus(from) && StartsPlain(to))
  {
    hide ParseDay, LexLe, CivilOf, YearStart, IsoDate;
    forall due | InPlainYears(due)
      ensures ParseDay(from).value * DAY_MS <= due * DAY_MS <= ParseDay(to).value * DAY_MS <==>
              BetweenDates(from, FormatDateOnly(due), to) && !(StartsPlus(from) && StartsPlain(to))
    {
      DueSelection(from, to, due);
    }
    if StartsPlain(to) && StartsPlus(from) {
      LastDayEnclosed(from, to);
      var c := CivilOf(ParseDay(to).value);
      PlainPrefix(c, "");
      assert FormatDateOnly(ParseDay(to).value) == IsoDate(c)[..10];
      assert BetweenDates(from, FormatDateOnly(ParseDay(to).value), to);
    }
  }

  // ---------------------------------------------------------------- counting the days of a range

  /** The printed date of a day in the years 0 to 9999; nothing elsewhere. */
  function PlainText(day: int): string {
    if InPlainYears(day) then IsoDate(CivilOf(day)) else ""
  }

  /** The dates of the years 0 to 9999 that lie between two texts. */
  ghost function DatesBetween(from: string, to: string): set<string> {
    set day | YearStart(0) <= day < YearStart(10_000) && BetweenDates(from, PlainText(day), to) :: PlainText(day)
  }

  /** The dates of an interval of days, none of which is printed twice. */
  lemma {:induction false} DistinctDates(first: int, end: int) returns (dates: set<string>)
    requires YearStart(0) <= first <= end <= YearStart(10_000)
    ensures dates == set day | first <= day < end :: PlainText(day)
    ensures |dates| == end - first
    decreases end - first
  {
    hide CivilOf, YearStart, IsoDate, LexLe, PlainText;
    if first == end {
      dates := {};
    } else {
      var rest := DistinctDates(first, end - 1);
      dates := rest + {PlainText(end - 1)};
      forall day | first <= day < end - 1 ensures PlainText(day) != PlainText(end - 1) {
        TextsDiffer(day, end - 1);
      }
    }
  }

  lemma TextsDiffer(d: int, e: int)
    requires InPlainYears(d) && InPlainYears(e) && d != e
    ensures PlainText(d) != PlainText(e)
  {
    hide DayOf, IsoDate, LexLe;
    PlainDatesSort(CivilOf(d), CivilOf(e));
  }

  /** The first day a text admits among those of the years 0 to 9999. */
  function FirstDay(from: string): int
    requires ParseDay(from).Some?
  {
    if StartsPlain(from) then ParseDay(from).value else YearStart(0)
  }

  /** How many dates lie between the texts of an accepted range. */
  lemma DatesBetweenSize(from: string, to: string)
    requires RangeAccepted(from, to)
    ensures |DatesBetween(from, to)| == if StartsPlain(to) then ParseDay(to).value - FirstDay(from) + 1 else 0
    ensures StartsPlain(to) ==> FirstDay(from) <= ParseDay(to).value
  {
    hide ParseDay, CivilOf, DayOf, LexLe, YearStart, IsoDate;
    forall day | InPlainYears(day)
      ensures BetweenDates(from, PlainText(day), to) <==> StartsPlain(to) && FirstDay(from) <= day <= ParseDay(to).value
    {
      LowerEnd(from, CivilOf(day));
      UpperEnd(CivilOf(day), to);
    }
    if StartsPlain(to) {
      LastDayEnclosed(from, to);
      FirstIsPlain(from);
      var dates := DistinctDates(FirstDay(from), ParseDay(to).value + 1);
      assert DatesBetween(from, to) == dates;
    } else {
      assert DatesBetween(from, to) == {};
    }
  }

  lemma FirstIsPlain(from: string)
    requires IsRealCalendarDate(from)
    ensures InPlainYears(FirstDay(from))
  {
    hide ParseDay, CivilOf, DayOf, YearStart, IsoDate;
    var f := Kinds(from);
    CivilBijection(f, f);
    PlainYears(YearStart(0));
  }

  /** Of two firsts of months neither is the day before the other. */
  lemma MonthsAreLong(f: Civil, g: Civil)
    requires IsCivil(f) && IsCivil(g) && f.day == 1 == g.day
    ensures DayOf(g) + 1 != DayOf(f)
  {
    var next := g.(day := 2);
    assert DayOf(next) == DayOf(g) + 1;
    CivilBijection(next, f);
  }

  /** The day count of an accepted range is the number of dates between its ends exactly when both ends are plain. */
  lemma InclusiveDaysAreCountedIff(from: string, to: string)
    requires RangeAccepted(from, to)
    ensures |DatesBetween(from, to)| == CountInclusiveDays(from, to) <==> StartsPlain(from) && StartsPlain(to)
  {
    hide ParseDay, CivilOf, DayOf, LexLe, YearStart, IsoDate, DatesBetween;
    DatesBetweenSize(from, to);
    KindsInOrder(from, to);
    var f := Kinds(from);
    var g := Kinds(to);
    if StartsPlain(to) {
      LowerEnd(from, g);
    } else {
      MonthsAreLong(f, g);
    }
  }

  lemma SameText(s: string)
    ensures LexLe(s, s)
  {
    LexConcat(s, s, "", "");
    assert s + "" == s;
  }

  /**
   * An accepted range from after 9999 back to a plain date selects no instant at all, though it encloses its last
   * day, and it counts fewer days than it encloses dates.
   */
  lemma BackwardRangesSelectNothing(from: string, to: string, t: int)
    requires RangeAccepted(from, to) && StartsPlus(from) && StartsPlain(to)
    ensures var (gte, lt) := ManilaDayRange(from, to); !(gte <= t < lt)
    ensures BetweenDates(from, to, to)
    ensures CountInclusiveDays(from, to) < |DatesBetween(from, to)|
  {
    hide ParseDay, IsRealCalendarDate, CivilOf, DayOf, IsoDate, LexLe, DatesBetween, YearStart;
    var g := Kinds(to);
    LowerEnd(from, g);
    DatesBetweenSize(from, to);
    SameText(to);
  }
}
