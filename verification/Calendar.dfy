/** The proleptic Gregorian calendar with astronomical years, and the arithmetic that finds a date in it. */
module Calendar {
  datatype Date = Date(year: int, month: int, day: int)

  // The calendar: the leap rule of Appendix C of RFC 3339, and what day follows which.

  predicate Leap(year: int) {
    year % 4 == 0 && (year % 100 != 0 || year % 400 == 0)
  }

  function DaysInMonth(year: int, month: int): (days: int)
    requires 1 <= month <= 12
    ensures 28 <= days <= 31
  {
    if month == 2 then (if Leap(year) then 29 else 28)
    else if month == 4 || month == 6 || month == 9 || month == 11 then 30
    else 31
  }

  predicate Valid(d: Date) {
    1 <= d.month <= 12 && 1 <= d.day <= DaysInMonth(d.year, d.month)
  }

  function NextDay(d: Date): (next: Date)
    requires Valid(d)
    ensures Valid(next)
  {
    if d.day < DaysInMonth(d.year, d.month) then d.(day := d.day + 1)
    else if d.month < 12 then Date(d.year, d.month + 1, 1)
    else Date(d.year + 1, 1, 1)
  }

  // Counting days from the first of January 2000, by years and months.

  /** Days from the first of January of year 0 to that of the given year: the leap years before it are counted. */
  function DaysBeforeYear(year: int): int {
    365 * year + (year + 3) / 4 - (year + 99) / 100 + (year + 399) / 400
  }

  function DaysBeforeMonth(year: int, month: int): int
    requires 1 <= month <= 13
    decreases month
  {
    if month == 1 then 0 else DaysBeforeMonth(year, month - 1) + DaysInMonth(year, month - 1)
  }

  function DaysFromCivil(d: Date): int
    requires Valid(d)
  {
    DaysBeforeYear(d.year) + DaysBeforeMonth(d.year, d.month) + d.day - 1 - 730_485
  }

  // The arithmetic of the decoder.

  function Month(mp: int): int {
    if mp < 10 then mp + 3 else mp - 9
  }

  /** The year of a 400-year era on a day of it, both counted from March. */
  function YearOfEra(doe: int): int {
    (doe - doe / 1460 + doe / 36524 - doe / 146096) / 365
  }

  function DayOfYear(doe: int): int {
    doe - (365 * YearOfEra(doe) + YearOfEra(doe) / 4 - YearOfEra(doe) / 100)
  }

  /** The date of a day of a year, counted from March. */
  function DateFrom(year: int, doy: int): Date {
    var mp := (5 * doy + 2) / 153;
    Date(year + (if Month(mp) <= 2 then 1 else 0), Month(mp), doy - (153 * mp + 2) / 5 + 1)
  }

  function DateIn(era: int, doe: int): Date {
    DateFrom(YearOfEra(doe) + era * 400, DayOfYear(doe))
  }

  function Civil(pgDays: int): Date {
    var z := pgDays + 10_957 + 719_468;
    DateIn(z / 146_097, z % 146_097)
  }

  // Years

  lemma Fours(e: int, r: int)
    ensures (400 * e + r) / 4 == 100 * e + r / 4 && (400 * e + r) % 4 == r % 4
  {
  }

  lemma Hundreds(e: int, r: int)
    ensures (400 * e + r) / 100 == 4 * e + r / 100 && (400 * e + r) % 100 == r % 100
  {
  }

  lemma FourHundreds(e: int, r: int)
    ensures (400 * e + r) / 400 == e + r / 400 && (400 * e + r) % 400 == r % 400
  {
  }

  /** Years repeat with the era of 400. */
  lemma YearsRepeat(e: int, r: int)
    ensures DaysBeforeYear(400 * e + r) == 146_097 * e + DaysBeforeYear(r) && (Leap(400 * e + r) <==> Leap(r))
  {
    Fours(e, r);
    Fours(e, r + 3);
    Hundreds(e, r);
    Hundreds(e, r + 99);
    FourHundreds(e, r);
    FourHundreds(e, r + 399);
  }

  lemma YearLengthInEra(r: int)
    requires 0 <= r < 400
    ensures DaysBeforeYear(r + 1) == DaysBeforeYear(r) + if Leap(r) then 366 else 365
    ensures DaysBeforeYear(r) + 59 + (if Leap(r) then 1 else 0) == 60 + 365 * r + r / 4 - r / 100
  {
    assert (r + 399) / 400 == if r == 0 then 0 else 1;
    assert (r + 400) / 400 == 1;
    assert (r + 100) / 100 == r / 100 + 1;
    assert (r + 99) / 100 == if r % 100 == 0 then r / 100 else r / 100 + 1;
    assert (r + 4) / 4 == r / 4 + 1;
    assert (r + 3) / 4 == if r % 4 == 0 then r / 4 else r / 4 + 1;
    assert r % 100 == 0 ==> r % 4 == 0;
    assert r % 400 == 0 <==> r == 0;
  }

  lemma YearLength(year: int)
    ensures DaysBeforeYear(year + 1) == DaysBeforeYear(year) + if Leap(year) then 366 else 365
  {
    var e, r := year / 400, year % 400;
    YearsRepeat(e, r);
    YearsRepeat(e, r + 1);
    YearLengthInEra(r);
  }

  lemma {:induction false} YearsInOrder(a: int, b: int)
    requires a <= b
    ensures DaysBeforeYear(a) <= DaysBeforeYear(b)
    decreases b - a
  {
    if a < b {
      YearLength(b - 1);
      YearsInOrder(a, b - 1);
    }
  }

  lemma MonthStarts(year: int)
    ensures var leap := if Leap(year) then 1 else 0;
      && DaysBeforeMonth(year, 1) == 0 && DaysBeforeMonth(year, 2) == 31 && DaysBeforeMonth(year, 3) == 59 + leap
      && DaysBeforeMonth(year, 4) == 90 + leap && DaysBeforeMonth(year, 5) == 120 + leap && DaysBeforeMonth(year, 6) == 151 + leap
      && DaysBeforeMonth(year, 7) == 181 + leap && DaysBeforeMonth(year, 8) == 212 + leap && DaysBeforeMonth(year, 9) == 243 + leap
      && DaysBeforeMonth(year, 10) == 273 + leap && DaysBeforeMonth(year, 11) == 304 + leap && DaysBeforeMonth(year, 12) == 334 + leap
      && DaysBeforeMonth(year, 13) == 365 + leap
  {
    assert DaysBeforeMonth(year, 4) == DaysBeforeMonth(year, 3) + 31;
    assert DaysBeforeMonth(year, 6) == DaysBeforeMonth(year, 5) + 31;
    assert DaysBeforeMonth(year, 8) == DaysBeforeMonth(year, 7) + 31;
    assert DaysBeforeMonth(year, 10) == DaysBeforeMonth(year, 9) + 30;
    assert DaysBeforeMonth(year, 12) == DaysBeforeMonth(year, 11) + 30;
  }

  /** The day number of the first of March of a year of an era: year 0 has its 60 days before March. */
  lemma MarchFirst(yoe: int, era: int)
    requires 0 <= yoe < 400
    ensures var year := yoe + era * 400;
      DaysBeforeYear(year) + DaysBeforeMonth(year, 3) == 60 + era * 146_097 + 365 * yoe + yoe / 4 - yoe / 100
  {
    YearsRepeat(era, yoe);
    YearLengthInEra(yoe);
    assert 400 * era + yoe == yoe + era * 400;
    MonthStarts(yoe + era * 400);
  }

  // Eras

  /**
   * A day of an era that is not its last, split into century, four-year cycle, and day of the cycle: the
   * year found is the one that the day is in.
   */
  lemma SplitEra(doe: int, b: int, q: int, s: int)
    requires 0 <= b < 4 && 0 <= q < 25 && 0 <= s < 1461 && doe == 36524 * b + 1461 * q + s && 1461 * q + s < 36524
    ensures var k := if s < 1460 then s / 365 else 3;
      YearOfEra(doe) == 100 * b + 4 * q + k && DayOfYear(doe) == s - 365 * k
  {
    assert doe / 36524 == b;
    assert doe / 146096 == 0;
    var w := if 24 * b + q + s >= 1460 then 1 else 0;
    assert doe == 1460 * (25 * b + q + w) + (24 * b + q + s - 1460 * w);
    assert doe / 1460 == 25 * b + q + w;
    var k := if s < 1460 then s / 365 else 3;
    assert doe - doe / 1460 + doe / 36524 - doe / 146096 == 365 * (100 * b + 4 * q + k) + (s - w - 365 * k);
    assert 0 <= s - w - 365 * k < 365;
    assert YearOfEra(doe) == 100 * b + 4 * q + k;
    assert YearOfEra(doe) / 4 == 25 * b + q;
    assert YearOfEra(doe) / 100 == b;
  }

  lemma SplitIsRight(b: int, q: int, s: int, yoe: int, doy: int)
    requires 0 <= b < 4 && 0 <= q < 25 && 0 <= s < 1461 && 1461 * q + s < 36524
    requires var k := if s < 1460 then s / 365 else 3; yoe == 100 * b + 4 * q + k && doy == s - 365 * k
    ensures 0 <= yoe < 400 && 0 <= doy <= 365 && (doy == 365 ==> s == 1460 && q < 24 && yoe + 1 == 100 * b + 4 * (q + 1))
  {
  }

  /** The year after three others of a four-year cycle is a leap year, but for the last cycle of a century. */
  lemma LeapAfter(b: int, q: int)
    requires 0 <= b < 4 && 0 <= q < 24
    ensures Leap(100 * b + 4 * (q + 1))
  {
    assert (100 * b + 4 * (q + 1)) % 4 == 0;
    assert (100 * b + 4 * (q + 1)) % 100 == 4 * (q + 1);
  }

  /** The year and day found are within the year, and the 366th day is found only where the year has one. */
  lemma EraIsRight(doe: int)
    requires 0 <= doe < 146_097
    ensures 0 <= YearOfEra(doe) < 400 && 0 <= DayOfYear(doe) <= 365
    ensures DayOfYear(doe) == 365 ==> Leap(YearOfEra(doe) + 1)
  {
    if doe < 146_096 {
      var b := doe / 36524;
      var r := doe % 36524;
      var q, s := r / 1461, r % 1461;
      SplitEra(doe, b, q, s);
      SplitIsRight(b, q, s, YearOfEra(doe), DayOfYear(doe));
      if DayOfYear(doe) == 365 {
        LeapAfter(b, q);
      }
    }
  }

  /** The months from March on start so many days after the first of March. */
  lemma MonthFromMarch(mp: int)
    requires 0 <= mp < 12
    ensures (153 * mp + 2) / 5
      == [0, 31, 61, 92, 122, 153, 184, 214, 245, 275, 306, 337][mp]
  {
  }

  lemma MonthOfDay(doy: int)
    requires 0 <= doy <= 365
    ensures var mp := (5 * doy + 2) / 153; 0 <= mp < 12 && (153 * mp + 2) / 5 <= doy < (153 * (mp + 1) + 2) / 5
  {
  }

  /** A day counted from March becomes a day of a month of the calendar. */
  lemma MonthIsRight(year: int, doy: int)
    requires 0 <= doy <= 365 && (doy == 365 ==> Leap(year + 1))
    ensures var d := DateFrom(year, doy);
      && Valid(d)
      && DaysBeforeYear(d.year) + DaysBeforeMonth(d.year, d.month) + d.day - 1 == DaysBeforeYear(year) + DaysBeforeMonth(year, 3) + doy
  {
    var mp := (5 * doy + 2) / 153;
    MonthOfDay(doy);
    MonthFromMarch(mp);
    if mp < 11 {
      MonthFromMarch(mp + 1);
    }
    MonthStarts(year);
    MonthStarts(year + 1);
    YearLength(year);
  }

  lemma LeapInEra(era: int, yoe: int)
    ensures Leap(yoe + era * 400 + 1) <==> Leap(yoe + 1)
  {
    YearsRepeat(era, yoe + 1);
    assert yoe + era * 400 + 1 == 400 * era + (yoe + 1);
  }

  lemma DateFromIsRight(era: int, yoe: int, doy: int)
    requires 0 <= yoe < 400 && 0 <= doy <= 365 && (doy == 365 ==> Leap(yoe + 1))
    ensures var d := DateFrom(yoe + era * 400, doy);
      && Valid(d)
      && DaysBeforeYear(d.year) + DaysBeforeMonth(d.year, d.month) + d.day - 1
        == 60 + era * 146_097 + 365 * yoe + yoe / 4 - yoe / 100 + doy
  {
    LeapInEra(era, yoe);
    MonthIsRight(yoe + era * 400, doy);
    MarchFirst(yoe, era);
  }

  lemma DateInIsRight(era: int, doe: int)
    requires 0 <= doe < 146_097
    ensures var d := DateIn(era, doe);
      Valid(d) && DaysBeforeYear(d.year) + DaysBeforeMonth(d.year, d.month) + d.day - 1 == 60 + era * 146_097 + doe
  {
    EraIsRight(doe);
    DateFromIsRight(era, YearOfEra(doe), DayOfYear(doe));
  }

  lemma Eras(z: int)
    ensures z == (z / 146_097) * 146_097 + z % 146_097 && 0 <= z % 146_097 < 146_097
  {
  }

  /** Every day number has a date of the calendar, and counting days to that date gives the number back. */
  lemma CivilIsRight(n: int)
    ensures Valid(Civil(n)) && DaysFromCivil(Civil(n)) == n
  {
    var z := n + 10_957 + 719_468;
    DateInIsRight(z / 146_097, z % 146_097);
    Eras(z);
  }

  // Dates in order

  predicate Before(a: Date, b: Date) {
    a.year < b.year || (a.year == b.year && (a.month < b.month || (a.month == b.month && a.day < b.day)))
  }

  lemma {:induction false} MonthsInOrder(year: int, a: int, b: int)
    requires 1 <= a <= b <= 13
    ensures DaysBeforeMonth(year, a) <= DaysBeforeMonth(year, b)
    ensures a < b ==> DaysBeforeMonth(year, a) + DaysInMonth(year, a) <= DaysBeforeMonth(year, b)
    decreases b - a
  {
    if a < b - 1 {
      MonthsInOrder(year, a, b - 1);
    }
  }

  lemma EarlierIsLess(a: Date, b: Date)
    requires Valid(a) && Valid(b) && Before(a, b)
    ensures DaysFromCivil(a) < DaysFromCivil(b)
  {
    MonthsInOrder(a.year, a.month, 13);
    MonthsInOrder(b.year, 1, b.month);
    if a.year < b.year {
      YearsInOrder(a.year + 1, b.year);
      YearLength(a.year);
      MonthStarts(a.year);
    } else {
      MonthsInOrder(a.year, a.month, b.month);
    }
  }

  /** The other direction: every date of the calendar is the date of its day number. */
  lemma DaysAreRight(d: Date)
    requires Valid(d)
    ensures Civil(DaysFromCivil(d)) == d
  {
    var e := Civil(DaysFromCivil(d));
    CivilIsRight(DaysFromCivil(d));
    if Before(d, e) {
      EarlierIsLess(d, e);
    } else if Before(e, d) {
      EarlierIsLess(e, d);
    }
  }

  lemma NextDayCounts(d: Date)
    requires Valid(d)
    ensures DaysFromCivil(NextDay(d)) == DaysFromCivil(d) + 1
  {
    MonthStarts(d.year);
    YearLength(d.year);
  }

  /** The next day number is the calendar's next day. */
  lemma CivilSuccession(n: int)
    ensures Valid(Civil(n)) && Civil(n + 1) == NextDay(Civil(n))
  {
    CivilIsRight(n);
    NextDayCounts(Civil(n));
    DaysAreRight(NextDay(Civil(n)));
  }

  /** Day 0 is the first day of 2000; with the succession of days this fixes the date of every other day. */
  lemma Epoch()
    ensures Civil(0) == Date(2000, 1, 1)
  {
    assert 730_425 / 146_097 == 4 && 730_425 % 146_097 == 146_037;
    assert YearOfEra(146_037) == 399 && DayOfYear(146_037) == 306;
    assert DateFrom(1999, 306) == Date(2000, 1, 1);
  }

  predicate FitsI64(x: int) {
    -0x8000_0000_0000_0000 <= x < 0x8000_0000_0000_0000
  }

  /** Nothing in the computation of a date leaves 64 bits, for the days of any 32-bit date or 64-bit timestamp. */
  lemma CivilFits(pgDays: int)
    requires -0x8000_0000 <= pgDays < 0x8000_0000
    ensures var z := pgDays + 10_957 + 719_468; var era, doe := z / 146_097, z % 146_097;
      var yoe, doy := YearOfEra(doe), DayOfYear(doe); var mp := (5 * doy + 2) / 153;
      && FitsI64(pgDays + 10_957) && FitsI64(z) && FitsI64(era * 400) && FitsI64(yoe + era * 400) && FitsI64(yoe + era * 400 + 1)
      && FitsI64(doe - doe / 1460 + doe / 36524) && FitsI64(365 * yoe + yoe / 4) && FitsI64(5 * doy + 2) && FitsI64(153 * mp + 2)
  {
    EraIsRight((pgDays + 10_957 + 719_468) % 146_097);
  }

  lemma TimestampDaysFit(micros: int)
    requires FitsI64(micros)
    ensures -0x8000_0000 <= micros / 86_400_000_000 < 0x8000_0000
  {
  }
}
