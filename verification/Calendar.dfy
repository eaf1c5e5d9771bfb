/** The proleptic Gregorian date of a day count, and the UTC stamp in conflict-copy names. */
module Calendar {
  datatype Date = Date(year: int, month: int, day: int)

  /** Date of the day `days` after 1970-01-01, counted in 400-year eras that start in March. */
  function CivilFromDays(days: int): Date {
    var z := days + 719_468;
    var era := z / 146_097;
    var doe := z % 146_097;
    var yoe := YearOfEra(doe);
    var doy := doe - (365 * yoe + yoe / 4 - yoe / 100);
    var mp := (5 * doy + 2) / 153;
    var d := doy - (153 * mp + 2) / 5 + 1;
    var m := if mp < 10 then mp + 3 else mp - 9;
    Date(yoe + era * 400 + (if m <= 2 then 1 else 0), m, d)
  }

  function YearOfEra(doe: int): int {
    (doe - doe / 1_460 + doe / 36_524 - doe / 146_096) / 365
  }

  // The calendar itself, stated without eras or March-based years.

  predicate IsLeap(y: int) {
    y % 4 == 0 && (y % 100 != 0 || y % 400 == 0)
  }

  function DaysInMonth(y: int, m: int): int {
    if m == 2 then (if IsLeap(y) then 29 else 28)
    else if m == 4 || m == 6 || m == 9 || m == 11 then 30
    else 31
  }

  predicate IsDate(t: Date) {
    1 <= t.month <= 12 && 1 <= t.day <= DaysInMonth(t.year, t.month)
  }

  function NextDay(t: Date): Date {
    if t.day < DaysInMonth(t.year, t.month) then t.(day := t.day + 1)
    else if t.month < 12 then Date(t.year, t.month + 1, 1)
    else Date(t.year + 1, 1, 1)
  }

  /** Days in the years from year 1 up to `y`, exclusive; negative before year 1. */
  function DaysBeforeYear(y: int): int {
    365 * (y - 1) + (y - 1) / 4 - (y - 1) / 100 + (y - 1) / 400
  }

  function DaysBeforeMonth(y: int, m: int): int
    requires 1 <= m <= 12
  {
    if m == 1 then 0 else DaysBeforeMonth(y, m - 1) + DaysInMonth(y, m - 1)
  }

  function DaysFromCivil(t: Date): int
    requires IsDate(t)
  {
    DaysBeforeYear(t.year) + DaysBeforeMonth(t.year, t.month) + t.day - 1 - DaysBeforeYear(1970)
  }

  /** Each multiple of `k` adds one to the count of multiples. */
  lemma MultiplesStep(y: int)
    ensures y / 4 - (y - 1) / 4 == if y % 4 == 0 then 1 else 0
    ensures y / 100 - (y - 1) / 100 == if y % 100 == 0 then 1 else 0
    ensures y / 400 - (y - 1) / 400 == if y % 400 == 0 then 1 else 0
  {
  }

  lemma MultiplesNest(y: int)
    ensures y % 400 == 0 ==> y % 100 == 0
    ensures y % 100 == 0 ==> y % 4 == 0
  {
  }

  /** A year is as long as its months. */
  lemma YearLength(y: int)
    ensures DaysBeforeYear(y + 1) - DaysBeforeYear(y) == if IsLeap(y) then 366 else 365
  {
    MultiplesStep(y);
    MultiplesNest(y);
  }

  lemma MonthTable(y: int, m: int)
    requires 1 <= m <= 12
    ensures DaysBeforeMonth(y, m) ==
            [0, 31, 59, 90, 120, 151, 181, 212, 243, 273, 304, 334][m - 1]
            + if m > 2 && IsLeap(y) then 1 else 0
  {
    if m > 1 { MonthTable(y, m - 1); }
  }

  lemma {:induction false} YearsOrdered(y1: int, y2: int)
    requires y1 <= y2
    ensures DaysBeforeYear(y1) <= DaysBeforeYear(y2)
    decreases y2 - y1
  {
    if y1 < y2 {
      YearsOrdered(y1, y2 - 1);
      YearLength(y2 - 1);
    }
  }

  lemma {:induction false} MonthsOrdered(y: int, m1: int, m2: int)
    requires 1 <= m1 < m2 <= 12
    ensures DaysBeforeMonth(y, m1) + DaysInMonth(y, m1) <= DaysBeforeMonth(y, m2)
    decreases m2
  {
    if m1 < m2 - 1 { MonthsOrdered(y, m1, m2 - 1); }
  }

  lemma WithinYear(t: Date)
    requires IsDate(t)
    ensures 0 <= DaysBeforeMonth(t.year, t.month) + t.day - 1
    ensures DaysBeforeMonth(t.year, t.month) + t.day <= if IsLeap(t.year) then 366 else 365
  {
    MonthTable(t.year, t.month);
  }

  /** No two dates share a day count. */
  lemma DaysFromCivilInjective(a: Date, b: Date)
    requires IsDate(a) && IsDate(b) && DaysFromCivil(a) == DaysFromCivil(b)
    ensures a == b
  {
    WithinYear(a);
    WithinYear(b);
    YearLength(a.year);
    YearLength(b.year);
    if a.year < b.year { YearsOrdered(a.year + 1, b.year); }
    if b.year < a.year { YearsOrdered(b.year + 1, a.year); }
    if a.month < b.month { MonthsOrdered(a.year, a.month, b.month); }
    if b.month < a.month { MonthsOrdered(a.year, b.month, a.month); }
  }

  /** A day of the era split into centuries, four-year cycles, years and days. */
  lemma YearOfEraSplit(doe: int, c: int, q: int, r: int, s: int)
    requires 0 <= c < 4 && 0 <= q < 25 && 0 <= s <= 1460
    requires doe == 36_524 * c + 1_461 * q + s
    requires q == 24 && s == 1460 ==> c == 3
    requires 0 <= r < 4 && 365 * r <= s && (r < 3 ==> s < 365 * (r + 1))
    ensures YearOfEra(doe) == 100 * c + 4 * q + r
  {
    var extra := if 24 * c + q + s >= 1_460 then 1 else 0;
    assert doe == 1_460 * (25 * c + q + extra) + (24 * c + q + s - 1_460 * extra);
    assert doe / 1_460 == 25 * c + q + extra;
    var last := if q == 24 && s == 1460 then 1 else 0;
    assert doe == 36_524 * (c + last) + (1_461 * q + s - 36_524 * last);
    assert doe / 36_524 == c + last;
    assert doe / 146_096 == last;
    assert doe - doe / 1_460 + doe / 36_524 - doe / 146_096
        == 365 * (100 * c + 4 * q + r) + (s - extra - 365 * r);
  }

  /** Days from the start of an era to March 1 of its year `y`. */
  function EraStart(y: int): int {
    365 * y + y / 4 - y / 100
  }

  /** The year of the era is the one whose March-based span holds the day. */
  lemma YearOfEraSpan(doe: int)
    requires 0 <= doe < 146_097
    ensures 0 <= YearOfEra(doe) < 400
    ensures var y := YearOfEra(doe);
            EraStart(y) <= doe < EraStart(y + 1) + if y == 399 then 1 else 0
  {
    var c := if doe / 36_524 < 4 then doe / 36_524 else 3;
    var doc := doe - 36_524 * c;
    var q := doc / 1_461;
    var s := doc - 1_461 * q;
    var r := if s / 365 < 4 then s / 365 else 3;
    YearOfEraSplit(doe, c, q, r, s);
    var y := 100 * c + 4 * q + r;
    assert y / 4 == 25 * c + q && y / 100 == c;
    MultiplesStep(y + 1);
    MultiplesNest(y + 1);
    if r == 3 && s >= 1460 {
      assert y + 1 == 4 * (25 * c + q + 1);
      assert (y + 1) % 4 == 0;
      if (y + 1) % 100 == 0 { assert q == 24 && c == 3; }
    }
  }

  /** Where a March-based year starts among calendar years. */
  lemma EraYear(era: int, yoe: int)
    requires 0 <= yoe < 400
    ensures DaysBeforeYear(yoe + 400 * era + 1) == 146_097 * era + EraStart(yoe)
  {
    var y := yoe + 400 * era;
    assert y / 4 == yoe / 4 + 100 * era;
    assert y / 100 == yoe / 100 + 4 * era;
    assert y / 400 == era;
  }

  /** Whether the February that ends a March-based year has a 29th. */
  lemma EraLeap(era: int, yoe: int)
    requires 0 <= yoe < 400
    ensures EraStart(yoe + 1) + (if yoe == 399 then 1 else 0) - EraStart(yoe)
         == if IsLeap(yoe + 400 * era + 1) then 366 else 365
  {
    if yoe < 399 {
      EraYear(era, yoe);
      EraYear(era, yoe + 1);
    } else {
      EraYear(era, 399);
      EraYear(era + 1, 0);
      assert 399 + 400 * era + 2 == 0 + 400 * (era + 1) + 1;
    }
    YearLength(yoe + 400 * era + 1);
  }

  /** Month and day of a March-based day of the year. */
  lemma MarchMonth(doy: int)
    requires 0 <= doy <= 365
    ensures var mp := (5 * doy + 2) / 153;
            0 <= mp < 12
            && (153 * mp + 2) / 5 == [0, 31, 61, 92, 122, 153, 184, 214, 245, 275, 306, 337][mp]
            && (153 * mp + 2) / 5 <= doy
            && (mp < 11 ==> doy < [31, 61, 92, 122, 153, 184, 214, 245, 275, 306, 337][mp])
  {
  }

  /** The date of day `doy` of the March-based year that starts in calendar year `y`. */
  function FromMarch(y: int, doy: int): Date {
    var mp := (5 * doy + 2) / 153;
    var m := if mp < 10 then mp + 3 else mp - 9;
    Date(if m <= 2 then y + 1 else y, m, doy - (153 * mp + 2) / 5 + 1)
  }

  lemma FromMarchPlaces(y: int, doy: int)
    requires 0 <= doy < if IsLeap(y + 1) then 366 else 365
    ensures var t := FromMarch(y, doy);
            IsDate(t)
            && DaysBeforeMonth(t.year, t.month) + t.day - 1
               == doy - 306 + if t.year == y then (if IsLeap(y) then 366 else 365) else 0
  {
    MarchMonth(doy);
    var t := FromMarch(y, doy);
    MonthTable(t.year, t.month);
  }

  /** The era arithmetic finds the March-based year and day of the year. */
  lemma CivilFromMarch(days: int) returns (y: int, doy: int)
    ensures CivilFromDays(days) == FromMarch(y, doy)
    ensures 0 <= doy < if IsLeap(y + 1) then 366 else 365
    ensures DaysBeforeYear(y + 1) + doy == days + 719_468
  {
    hide YearOfEra, IsLeap, DaysBeforeYear;
    var z := days + 719_468;
    var era, doe := z / 146_097, z % 146_097;
    var yoe := YearOfEra(doe);
    YearOfEraSpan(doe);
    EraLeap(era, yoe);
    EraYear(era, yoe);
    y, doy := yoe + 400 * era, doe - EraStart(yoe);
  }

  /** The era arithmetic yields a calendar date whose day count is the one given. */
  lemma CivilIsInverse(days: int)
    ensures IsDate(CivilFromDays(days))
    ensures DaysFromCivil(CivilFromDays(days)) == days
  {
    var y, doy := CivilFromMarch(days);
    FromMarchPlaces(y, doy);
    YearLength(y);
    var t := FromMarch(y, doy);
    var inYear := DaysBeforeMonth(t.year, t.month) + t.day - 1;
    assert t.year == y || t.year == y + 1;
    assert DaysBeforeYear(t.year) + inYear == days + 719_162;
  }

  /** Every date is the image of its own day count. */
  lemma CivilFromDaysOfDate(t: Date)
    requires IsDate(t)
    ensures CivilFromDays(DaysFromCivil(t)) == t
  {
    CivilIsInverse(DaysFromCivil(t));
    DaysFromCivilInjective(CivilFromDays(DaysFromCivil(t)), t);
  }

  /** Day counts advance by one along the calendar. */
  lemma NextDayCounts(t: Date)
    requires IsDate(t)
    ensures IsDate(NextDay(t))
    ensures DaysFromCivil(NextDay(t)) == DaysFromCivil(t) + 1
  {
    if t.day == DaysInMonth(t.year, t.month) && t.month == 12 {
      YearLength(t.year);
      MonthTable(t.year, 12);
    }
  }

  /** The next day number is the next calendar date, across months, leap years and eras. */
  lemma CivilSuccessor(days: int)
    ensures CivilFromDays(days + 1) == NextDay(CivilFromDays(days))
  {
    CivilIsInverse(days);
    CivilIsInverse(days + 1);
    NextDayCounts(CivilFromDays(days));
    DaysFromCivilInjective(CivilFromDays(days + 1), NextDay(CivilFromDays(days)));
  }

  lemma Epoch()
    ensures CivilFromDays(0) == Date(1970, 1, 1)
  {
    hide YearOfEra;
    YearOfEraSplit(135_080, 3, 17, 1, 671);
  }
}
