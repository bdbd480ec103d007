/**
  Gregorian dates: counting days naively, month by month and year by year, and the two
  closed-form conversions the daemon uses, one in each direction.
 */
module Calendar {
  // ---------------------------------------------------------------------------
  // Naive counting
  // ---------------------------------------------------------------------------

  datatype Date = Date(year: int, month: int, day: int)

  predicate IsLeap(y: int)
  {
    y % 4 == 0 && (y % 100 != 0 || y % 400 == 0)
  }

  function DaysInMonth(y: int, m: int): int
  {
    if m == 2 then (if IsLeap(y) then 29 else 28)
    else if m == 4 || m == 6 || m == 9 || m == 11 then 30
    else 31
  }

  function DaysInYear(y: int): int { if IsLeap(y) then 366 else 365 }

  /** Days from 1 January 1970 to 1 January of year `y`, one year at a time, forwards or backwards. */
  function YearStart(y: int): int
    decreases if y > 1970 then y - 1970 else 1970 - y
  {
    if y == 1970 then 0
    else if y > 1970 then YearStart(y - 1) + DaysInYear(y - 1)
    else YearStart(y + 1) - DaysInYear(y)
  }

  /** Days from 1 January to the first of month `m`, one month at a time. */
  function MonthStart(y: int, m: int): int
    requires 1 <= m <= 12
  {
    if m == 1 then 0 else MonthStart(y, m - 1) + DaysInMonth(y, m - 1)
  }

  predicate ValidDate(d: Date)
  {
    1970 <= d.year && 1 <= d.month <= 12 && 1 <= d.day <= DaysInMonth(d.year, d.month)
  }

  /** Days from 1970-01-01 to `d`, negative before it. */
  function DayCount(d: Date): int
    requires 1 <= d.month <= 12
  {
    YearStart(d.year) + MonthStart(d.year, d.month) + d.day - 1
  }

  // ---------------------------------------------------------------------------
  // The daemon's closed forms
  // ---------------------------------------------------------------------------

  /** Division truncating toward zero, as on machine integers. */
  function Quot(a: int, b: int): int
    requires b > 0
  {
    if a >= 0 then a / b else -((-a) / b)
  }

  /** The year within a 400-year era, from the day within that era. */
  function YearOfEra(doe: int): int
  {
    (doe - doe / 1460 + doe / 36_524 - doe / 146_096) / 365
  }

  /** Civil-from-days: the date `days` days after 1970-01-01. */
  function CivilFromDays(days: nat): Date
  {
    var z := days + 719_468;
    var era := Quot(if z >= 0 then z else z - 146_096, 146_097);
    var doe := z - era * 146_097;
    var yoe := YearOfEra(doe);
    var y := yoe + era * 400;
    var doy := doe - (365 * yoe + yoe / 4 - yoe / 100);
    var mp := (5 * doy + 2) / 153;
    var day := doy - (153 * mp + 2) / 5 + 1;
    var month := if mp < 10 then mp + 3 else mp - 9;
    Date(if month <= 2 then y + 1 else y, month, day)
  }

  /** Days-from-civil, for any year and any month; the day is not range-checked. */
  function DaysFromCivil(year: int, month: int, day: int): int
  {
    var y := if month <= 2 then year - 1 else year;
    var era := Quot(if y >= 0 then y else y - 399, 400);
    var yoe := y - era * 400;
    var doy := (153 * (if month > 2 then month - 3 else month + 9) + 2) / 5 + day - 1;
    var doe := yoe * 365 + yoe / 4 - yoe / 100 + doy;
    era * 146_097 + doe - 719_468
  }

  // ---------------------------------------------------------------------------
  // Years that begin in March
  // ---------------------------------------------------------------------------

  /** Days from 1 March of year 0 to 1 March of year `y`. */
  function MarchStart(y: int): int { 365 * y + y / 4 - y / 100 + y / 400 }

  lemma MarchYearLength(y: int)
    ensures MarchStart(y) - MarchStart(y - 1) == DaysInYear(y)
  {
    assert y / 4 - (y - 1) / 4 == if y % 4 == 0 then 1 else 0;
    assert y / 100 - (y - 1) / 100 == if y % 100 == 0 then 1 else 0;
    assert y / 400 - (y - 1) / 400 == if y % 400 == 0 then 1 else 0;
    assert y % 100 == 0 ==> y % 4 == 0;
    assert y % 400 == 0 ==> y % 100 == 0;
  }

  lemma {:induction false} YearStartClosed(y: int)
    ensures YearStart(y) == MarchStart(y - 1) + 306 - 719_468
    decreases if y > 1970 then y - 1970 else 1970 - y
  {
    if y > 1970 {
      YearStartClosed(y - 1);
      MarchYearLength(y - 1);
    } else if y < 1970 {
      YearStartClosed(y + 1);
      MarchYearLength(y);
    }
  }

  /** The month lengths from March on follow one linear pattern. */
  lemma MonthStartClosed(y: int, m: int)
    requires 1 <= m <= 12
    ensures m <= 2 ==> MonthStart(y, m) == (153 * (m + 9) + 2) / 5 - 306
    ensures m > 2 ==> MonthStart(y, m) == (153 * (m - 3) + 2) / 5 + DaysInYear(y) - 306
  {
    assert MonthStart(y, 1) == 0;
    assert MonthStart(y, 2) == 31;
    assert MonthStart(y, 3) == 59 + (DaysInYear(y) - 365);
    assert MonthStart(y, 4) == 90 + (DaysInYear(y) - 365);
    assert MonthStart(y, 5) == 120 + (DaysInYear(y) - 365);
    assert MonthStart(y, 6) == 151 + (DaysInYear(y) - 365);
    assert MonthStart(y, 7) == 181 + (DaysInYear(y) - 365);
    assert MonthStart(y, 8) == 212 + (DaysInYear(y) - 365);
    assert MonthStart(y, 9) == 243 + (DaysInYear(y) - 365);
    assert MonthStart(y, 10) == 273 + (DaysInYear(y) - 365);
    assert MonthStart(y, 11) == 304 + (DaysInYear(y) - 365);
    assert MonthStart(y, 12) == 334 + (DaysInYear(y) - 365);
  }

  lemma EraSplit(y: int)
    ensures var era := Quot(if y >= 0 then y else y - 399, 400);
      var yoe := y - era * 400;
      && 0 <= yoe < 400
      && MarchStart(y) == era * 146_097 + 365 * yoe + yoe / 4 - yoe / 100
  {
    var era := Quot(if y >= 0 then y else y - 399, 400);
    assert era == y / 400;
    var yoe := y - era * 400;
    assert y == yoe + 400 * era;
    assert y / 4 == yoe / 4 + 100 * era;
    assert y / 100 == yoe / 100 + 4 * era;
  }

  /** Days-from-civil agrees with naive counting, in any year and whatever the day. */
  lemma DaysFromCivilCounts(d: Date)
    requires 1 <= d.month <= 12
    ensures DaysFromCivil(d.year, d.month, d.day) == DayCount(d)
  {
    YearStartClosed(d.year);
    MonthStartClosed(d.year, d.month);
    MarchYearLength(d.year);
    EraSplit(if d.month <= 2 then d.year - 1 else d.year);
  }

  // ---------------------------------------------------------------------------
  // Civil-from-days is right
  // ---------------------------------------------------------------------------

  /** Century, four-year cycle, year of the cycle, day of the year. */
  ghost predicate Splits(doe: int, c: int, q: int, k: int, d: int)
  {
    && 0 <= c <= 3 && 0 <= q <= 24 && 0 <= k <= 3 && 0 <= d <= 365
    && (d == 365 ==> k == 3 && (q == 24 ==> c == 3))
    && doe == 36_524 * c + 1461 * q + 365 * k + d
  }

  lemma SplitExists(doe: int) returns (c: int, q: int, k: int, d: int)
    requires 0 <= doe < 146_097
    ensures Splits(doe, c, q, k, d)
  {
    c := if doe == 146_096 then 3 else doe / 36_524;
    var r := doe - 36_524 * c;
    q := r / 1461;
    var s := r - 1461 * q;
    k := if s == 1460 then 3 else s / 365;
    d := s - 365 * k;
  }

  lemma SplitQuotients(doe: int, c: int, q: int, k: int, d: int)
    requires Splits(doe, c, q, k, d)
    ensures doe / 36_524 - doe / 146_096 == c
    ensures doe / 1460 == 25 * c + q + (24 * c + q + 365 * k + d) / 1460
  {
    var t := 24 * c + q + 365 * k + d;
    assert doe == 1460 * (25 * c + q) + t;
    assert doe == 146_096 || doe / 36_524 == c;
  }

  lemma Div4(x: int, q: int, r: int)
    requires x == 4 * q + r && 0 <= r < 4
    ensures x / 4 == q && x % 4 == r
  {
  }

  lemma Div100(x: int, q: int, r: int)
    requires x == 100 * q + r && 0 <= r < 100
    ensures x / 100 == q && x % 100 == r
  {
  }

  lemma Div400(x: int, q: int, r: int)
    requires x == 400 * q + r && 0 <= r < 400
    ensures x / 400 == q && x % 400 == r
  {
  }

  lemma Div365(x: int, q: int, r: int)
    requires x == 365 * q + r && 0 <= r < 365
    ensures x / 365 == q
  {
  }

  lemma Within(c: int, q: int, k: int, d: int)
    requires 0 <= c <= 3 && 0 <= q <= 24 && 0 <= k <= 3 && 0 <= d <= 365 && (d == 365 ==> k == 3)
    ensures 0 <= d - (24 * c + q + 365 * k + d) / 1460 < 365
  {
  }

  lemma SplitYear(c: int, q: int, k: int)
    requires 0 <= c <= 3 && 0 <= q <= 24 && 0 <= k <= 3
    ensures MarchStart(100 * c + 4 * q + k) == 36_524 * c + 1461 * q + 365 * k
    ensures k == 3 && (q == 24 ==> c == 3) ==> IsLeap(100 * c + 4 * q + k + 1)
  {
    var y := 100 * c + 4 * q + k;
    Div4(y, 25 * c + q, k);
    Div100(y, c, 4 * q + k);
    Div400(y, 0, y);
    if k == 3 {
      Div4(y + 1, 25 * c + q + 1, 0);
      if q == 24 {
        Div400(y + 1, c / 3, y + 1 - 400 * (c / 3));
      } else {
        Div100(y + 1, c, 4 * q + 4);
      }
    }
  }

  lemma Numerator(doe: int, a: int, b: int, c: int, q: int, k: int, d: int, u: int)
    requires doe == 36_524 * c + 1461 * q + 365 * k + d
    requires a == 25 * c + q + u && b == c && 0 <= d - u < 365
    ensures (doe - a + b) / 365 == 100 * c + 4 * q + k
  {
    Div365(doe - a + b, 100 * c + 4 * q + k, d - u);
  }

  lemma SplitFindsYear(doe: int, c: int, q: int, k: int, d: int)
    requires Splits(doe, c, q, k, d)
    ensures YearOfEra(doe) == 100 * c + 4 * q + k
  {
    SplitQuotients(doe, c, q, k, d);
    Within(c, q, k, d);
    Numerator(doe, doe / 1460, doe / 36_524 - doe / 146_096, c, q, k, d, (24 * c + q + 365 * k + d) / 1460);
  }

  /** The nested divisions find the year of the era and a day within that year. */
  lemma YearOfEraIsRight(doe: int)
    requires 0 <= doe < 146_097
    ensures 0 <= YearOfEra(doe) < 400
    ensures MarchStart(YearOfEra(doe)) <= doe < MarchStart(YearOfEra(doe)) + DaysInYear(YearOfEra(doe) + 1)
  {
    hide MarchStart, IsLeap, YearOfEra;
    var c, q, k, d := SplitExists(doe);
    SplitFindsYear(doe, c, q, k, d);
    SplitYear(c, q, k);
  }

  /** Within a March year, the month pattern can be inverted. */
  lemma MonthOfYear(doy: int)
    requires 0 <= doy <= 365
    ensures var mp := (5 * doy + 2) / 153;
      && 0 <= mp <= 11
      && (153 * mp + 2) / 5 <= doy
      && (mp < 11 ==> doy < (153 * (mp + 1) + 2) / 5)
      && (doy >= 306 <==> mp >= 10)
  {
  }

  /** The date `doy` days after 1 March of year `y`. */
  function MarchDate(y: int, doy: int): Date
  {
    var mp := (5 * doy + 2) / 153;
    var month := if mp < 10 then mp + 3 else mp - 9;
    Date(if month <= 2 then y + 1 else y, month, doy - (153 * mp + 2) / 5 + 1)
  }

  lemma SameLeap(y: int, era: int)
    ensures IsLeap(y + 400 * era) == IsLeap(y)
  {
    Div4(y + 400 * era, y / 4 + 100 * era, y % 4);
    Div100(y + 400 * era, y / 100 + 4 * era, y % 100);
    Div400(y + 400 * era, y / 400 + era, y % 400);
  }

  lemma MarchInEra(yoe: int)
    requires 0 <= yoe < 400
    ensures MarchStart(yoe) == 365 * yoe + yoe / 4 - yoe / 100
  {
    Div400(yoe, 0, yoe);
  }

  lemma MarchShift(yoe: int, era: int)
    requires 0 <= yoe < 400
    ensures MarchStart(yoe + 400 * era) == MarchStart(yoe) + 146_097 * era
  {
    Div4(yoe + 400 * era, yoe / 4 + 100 * era, yoe % 4);
    Div100(yoe + 400 * era, yoe / 100 + 4 * era, yoe % 100);
    Div400(yoe + 400 * era, era, yoe);
  }

  /** The algorithm's year and day of the March year. */
  lemma CivilParts(days: nat, era: int, doe: int)
    requires era == (days + 719_468) / 146_097 && doe == days + 719_468 - era * 146_097
    ensures var y, doy := YearOfEra(doe) + era * 400, doe - MarchStart(YearOfEra(doe));
      && CivilFromDays(days) == MarchDate(y, doy)
      && 0 <= doy < DaysInYear(y + 1)
      && MarchStart(y) + doy == days + 719_468
  {
    hide YearOfEra, IsLeap, MarchStart, MarchDate;
    YearOfEraIsRight(doe);
    var yoe := YearOfEra(doe);
    MarchInEra(yoe);
    SameLeap(yoe + 1, era);
    MarchShift(yoe, era);
    CivilUnfold(days, era, doe, yoe);
  }

  /** The year and day of the March year that the algorithm computes for `days`. */
  lemma MarchParts(days: nat) returns (y: int, doy: int)
    ensures CivilFromDays(days) == MarchDate(y, doy)
    ensures 0 <= doy < DaysInYear(y + 1)
    ensures MarchStart(y) + doy == days + 719_468
  {
    hide YearOfEra, IsLeap, MarchStart, MarchDate, CivilFromDays, DaysInYear;
    var era := (days + 719_468) / 146_097;
    var doe := days + 719_468 - era * 146_097;
    CivilParts(days, era, doe);
    y, doy := YearOfEra(doe) + era * 400, doe - MarchStart(YearOfEra(doe));
  }

  lemma CivilUnfold(days: nat, era: int, doe: int, yoe: int)
    requires era == (days + 719_468) / 146_097 && doe == days + 719_468 - era * 146_097 && yoe == YearOfEra(doe)
    ensures CivilFromDays(days) == MarchDate(yoe + era * 400, doe - (365 * yoe + yoe / 4 - yoe / 100))
  {
    hide YearOfEra;
  }

  /** A day of a March year, from 1970-01-01 on, is a valid date. */
  lemma MarchDateIsValid(y: int, doy: int)
    requires 0 <= doy < DaysInYear(y + 1)
    requires 719_468 <= MarchStart(y) + doy
    ensures ValidDate(MarchDate(y, doy))
  {
    hide IsLeap;
    MonthOfYear(doy);
    MarchYearLength(y + 1);
    assert 1969 <= y;
  }

  /** And it lies where the count says. */
  lemma MarchDateCounts(y: int, doy: int)
    requires 0 <= doy <= 365 && 1970 <= MarchDate(y, doy).year
    ensures 1 <= MarchDate(y, doy).month <= 12
    ensures DayCount(MarchDate(y, doy)) == MarchStart(y) + doy - 719_468
  {
    hide IsLeap, MonthStart, YearStart;
    MonthOfYear(doy);
    var d := MarchDate(y, doy);
    YearStartClosed(d.year);
    MonthStartClosed(d.year, d.month);
    MarchYearLength(d.year);
  }

  /**
    Civil-from-days yields a valid Gregorian date, and counting years and months naively
    from 1970-01-01 to that date gives back the day number.
   */
  lemma CivilIsRight(days: nat)
    ensures ValidDate(CivilFromDays(days))
    ensures DayCount(CivilFromDays(days)) == days
  {
    hide MarchStart, MarchDate, CivilFromDays, YearStart, MonthStart;
    var y, doy := MarchParts(days);
    MarchDateIsValid(y, doy);
    MarchDateCounts(y, doy);
  }

  // ---------------------------------------------------------------------------
  // Dates and day numbers are in order-preserving one-to-one correspondence
  // ---------------------------------------------------------------------------

  ghost predicate Earlier(a: Date, b: Date)
  {
    a.year < b.year || (a.year == b.year && (a.month < b.month || (a.month == b.month && a.day < b.day)))
  }

  lemma {:induction false} YearsAddUp(a: int, b: int)
    requires 1970 <= a < b
    ensures YearStart(a) + DaysInYear(a) <= YearStart(b)
  {
    if a + 1 < b {
      YearsAddUp(a, b - 1);
    }
  }

  lemma {:induction false} MonthsAddUp(y: int, m: int, n: int)
    requires 1 <= m < n <= 12
    ensures MonthStart(y, m) + DaysInMonth(y, m) <= MonthStart(y, n)
  {
    if m + 1 < n {
      MonthsAddUp(y, m, n - 1);
    }
  }

  lemma YearHolds(d: Date)
    requires ValidDate(d)
    ensures YearStart(d.year) <= DayCount(d) < YearStart(d.year) + DaysInYear(d.year)
  {
    if d.month < 12 {
      MonthsAddUp(d.year, d.month, 12);
    }
    if d.month > 1 {
      MonthsAddUp(d.year, 1, d.month);
    }
    MonthStartClosed(d.year, 12);
  }

  lemma CountIsMonotone(a: Date, b: Date)
    requires ValidDate(a) && ValidDate(b)
    ensures Earlier(a, b) ==> DayCount(a) < DayCount(b)
  {
    if a.year < b.year {
      YearHolds(a);
      YearHolds(b);
      YearsAddUp(a.year, b.year);
    } else if a.year == b.year && a.month < b.month {
      MonthsAddUp(a.year, a.month, b.month);
    }
  }

  /** Dates compare as their day numbers do, and every valid date is the date of its count. */
  lemma CivilIsBijective(d: Date)
    requires ValidDate(d)
    ensures 0 <= DayCount(d) && CivilFromDays(DayCount(d)) == d
  {
    YearHolds(d);
    if d.year > 1970 {
      YearsAddUp(1970, d.year);
    }
    var e := CivilFromDays(DayCount(d));
    CivilIsRight(DayCount(d));
    CountIsMonotone(d, e);
    CountIsMonotone(e, d);
  }

  lemma CivilIsMonotone(a: nat, b: nat)
    ensures a < b <==> Earlier(CivilFromDays(a), CivilFromDays(b))
    ensures a == b <==> CivilFromDays(a) == CivilFromDays(b)
  {
    CivilIsRight(a);
    CivilIsRight(b);
    CountIsMonotone(CivilFromDays(a), CivilFromDays(b));
    CountIsMonotone(CivilFromDays(b), CivilFromDays(a));
  }
}
