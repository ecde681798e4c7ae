/** The civil-date conversion of `krabb-libs/date`: era arithmetic against a naive
    Gregorian day count, and the order of the formatted strings. */
module Calendar {
  import opened Integers
  import opened Text

  const SECONDS_PER_DAY := 86_400
  const DAYS_PER_ERA := 146_097
  const DAYS_BEFORE_UNIX_EPOCH := 719_468

  datatype CivilDate = CivilDate(year: int, month: int, day: int)

  // ---------- The Gregorian calendar, counted naively ----------

  predicate IsLeap(year: int) {
    year % 4 == 0 && (year % 100 != 0 || year % 400 == 0)
  }

  function DaysInMonth(year: int, month: int): int {
    if month == 2 then (if IsLeap(year) then 29 else 28)
    else if month in {4, 6, 9, 11} then 30
    else 31
  }

  function YearLength(year: int): int {
    if IsLeap(year) then 366 else 365
  }

  /** Days from 0000-01-01 to January 1 of `year`, one year at a time. */
  function DaysBeforeYear(year: nat): int {
    if year == 0 then 0 else DaysBeforeYear(year - 1) + YearLength(year - 1)
  }

  function DaysBeforeMonth(year: int, month: int): int
    requires 1 <= month <= 12
    decreases month
  {
    if month == 1 then 0 else DaysBeforeMonth(year, month - 1) + DaysInMonth(year, month - 1)
  }

  predicate ValidDate(date: CivilDate) {
    0 <= date.year && 1 <= date.month <= 12 && 1 <= date.day <= DaysInMonth(date.year, date.month)
  }

  /** Days since 1970-01-01. */
  function DayNumber(date: CivilDate): int
    requires ValidDate(date)
  {
    DaysBeforeYear(date.year) + DaysBeforeMonth(date.year, date.month) + date.day - 1 - DaysBeforeYear(1970)
  }

  function NextDay(date: CivilDate): CivilDate {
    if date.day < DaysInMonth(date.year, date.month) then date.(day := date.day + 1)
    else if date.month < 12 then CivilDate(date.year, date.month + 1, 1)
    else CivilDate(date.year + 1, 1, 1)
  }

  predicate DateBefore(a: CivilDate, b: CivilDate) {
    a.year < b.year || (a.year == b.year && (a.month < b.month || (a.month == b.month && a.day < b.day)))
  }

  // ---------- The conversion ----------

  function CivilDateFromUnixDays(daysSinceUnixEpoch: int): CivilDate {
    var daysSinceCivilEpoch := daysSinceUnixEpoch + DAYS_BEFORE_UNIX_EPOCH;
    var era := daysSinceCivilEpoch / DAYS_PER_ERA;
    var dayOfEra := daysSinceCivilEpoch - era * DAYS_PER_ERA;
    var yearOfEra := YearWithinEra(dayOfEra);
    var year := yearOfEra + era * 400;
    var dayOfYear := dayOfEra - DaysBeforeYearWithinEra(yearOfEra);
    var (month, day) := MonthAndDay(dayOfYear);
    CivilDate(if month <= 2 then year + 1 else year, month, day)
  }

  function YearWithinEra(dayOfEra: int): int {
    (dayOfEra - dayOfEra / 1_460 + dayOfEra / 36_524 - dayOfEra / 146_096) / 365
  }

  function DaysBeforeYearWithinEra(year: int): int {
    365 * year + year / 4 - year / 100
  }

  function MonthAndDay(dayOfYear: int): (int, int) {
    var marchBasedMonth := (5 * dayOfYear + 2) / 153;
    var day := dayOfYear - (153 * marchBasedMonth + 2) / 5 + 1;
    var month := marchBasedMonth + if marchBasedMonth < 10 then 3 else -9;
    (month, day)
  }

  // ---------- The day count in closed form ----------

  lemma {:induction false} DaysBeforeYearClosed(year: nat)
    ensures DaysBeforeYear(year) == ClosedYears(year)
  {
    if year > 0 {
      DaysBeforeYearClosed(year - 1);
      ClosedStep(year - 1);
    }
  }

  function ClosedYears(year: nat): int {
    365 * year + (year + 3) / 4 - (year + 99) / 100 + (year + 399) / 400
  }

  lemma CenturiesDivide(year: nat)
    ensures year % 400 == 0 ==> year % 100 == 0
    ensures year % 100 == 0 ==> year % 4 == 0
  {
    if year % 400 == 0 {
      assert year == 100 * (4 * (year / 400));
      MultipleOf(100, 4 * (year / 400));
    }
    if year % 100 == 0 {
      assert year == 4 * (25 * (year / 100));
      MultipleOf(4, 25 * (year / 100));
    }
  }

  lemma MultipleOf(unit: int, n: int)
    requires unit in {4, 100}
    ensures (unit * n) % unit == 0
  {}

  lemma ClosedStep(year: nat)
    ensures ClosedYears(year + 1) == ClosedYears(year) + YearLength(year)
  {
    QuotientStep(year, 4);
    QuotientStep(year, 100);
    QuotientStep(year, 400);
    CenturiesDivide(year);
  }

  /** Rounding up, one more unit arrives right after each multiple. */
  lemma QuotientStep(n: nat, unit: int)
    requires unit in {4, 100, 400}
    ensures (n + 1 + unit - 1) / unit == (n + unit - 1) / unit + (if n % unit == 0 then 1 else 0)
  {
    if unit == 4 {
      assert (n + 4) / 4 == (n + 3) / 4 + (if n % 4 == 0 then 1 else 0);
    } else if unit == 100 {
      assert (n + 100) / 100 == (n + 99) / 100 + (if n % 100 == 0 then 1 else 0);
    } else {
      assert (n + 400) / 400 == (n + 399) / 400 + (if n % 400 == 0 then 1 else 0);
    }
  }

  lemma RoundedUp(n: nat, unit: int)
    requires unit in {4, 100, 400}
    ensures (n + unit - 1) / unit == n / unit + (if n % unit == 0 then 0 else 1)
  {
    QuotientStep(n, unit);
    assert (n + 1 + unit - 1) / unit == n / unit + 1;
  }

  lemma DaysBeforeMonthClosed(year: int, month: int)
    requires 1 <= month <= 12
    ensures month <= 2 ==> DaysBeforeMonth(year, month) == 31 * (month - 1)
    ensures month > 2 ==>
      DaysBeforeMonth(year, month) == (153 * (month - 3) + 2) / 5 + YearLength(year) - 306
    ensures DaysBeforeMonth(year, month) + DaysInMonth(year, month) <= YearLength(year)
    ensures month == 12 ==> DaysBeforeMonth(year, 12) + 31 == YearLength(year)
  {
    if month > 1 { DaysBeforeMonthClosed(year, month - 1); }
  }

  // ---------- Era arithmetic ----------

  /** Addresses a day of an era by century, four-year cycle, year and day. */
  lemma SplitEra(dayOfEra: int) returns (century: int, cycle: int, rest: int, day: int)
    requires 0 <= dayOfEra < DAYS_PER_ERA
    ensures 0 <= century < 4 && 0 <= cycle < 25 && 0 <= rest < 4 && 0 <= day <= 365
    ensures day == 365 ==> rest == 3 && (cycle < 24 || century == 3)
    ensures dayOfEra == 36_524 * century + 1_461 * cycle + 365 * rest + day
  {
    century := if dayOfEra == 146_096 then 3 else dayOfEra / 36_524;
    var inCentury := dayOfEra - 36_524 * century;
    cycle := inCentury / 1_461;
    var inCycle := inCentury - 1_461 * cycle;
    rest := if inCycle == 1_460 then 3 else inCycle / 365;
    day := inCycle - 365 * rest;
  }

  lemma CycleQuotients(century: int, cycle: int, rest: int)
    requires 0 <= century < 4 && 0 <= cycle < 25 && 0 <= rest < 4
    ensures var year := 100 * century + 4 * cycle + rest;
            year / 4 == 25 * century + cycle && year / 100 == century
  {}

  /** The corrected quotient names the year of the era that contains the day. */
  lemma YearWithinEraExact(dayOfEra: int)
    requires 0 <= dayOfEra < DAYS_PER_ERA
    ensures var year := YearWithinEra(dayOfEra);
            && 0 <= year < 400
            && 0 <= dayOfEra - DaysBeforeYearWithinEra(year) < YearLength(year + 1)
  {
    var century, cycle, rest, day := SplitEra(dayOfEra);
    var year := 100 * century + 4 * cycle + rest;
    CycleQuotients(century, cycle, rest);
    var extra := if 365 * rest + day + cycle + 24 * century >= 1_460 then 1 else 0;
    assert dayOfEra / 1_460 == 25 * century + cycle + extra;
    assert dayOfEra / 36_524 == century + (if dayOfEra == 146_096 then 1 else 0);
    assert YearWithinEra(dayOfEra) == year;
    if rest < 3 { CycleQuotients(century, cycle, rest + 1); }
    else if cycle < 24 { CycleQuotients(century, cycle + 1, 0); }
    else if century < 3 { CycleQuotients(century + 1, 0, 0); }
  }

  /** Month and day number within a year that starts in March. */
  lemma MonthAndDayExact(dayOfYear: int)
    requires 0 <= dayOfYear < 366
    ensures var (month, day) := MonthAndDay(dayOfYear);
            && 1 <= month <= 12 && 1 <= day
            && (month > 2 ==> day <= DaysInMonth(0, month) && dayOfYear == (153 * (month - 3) + 2) / 5 + day - 1)
            && (month <= 2 ==> dayOfYear == 306 + 31 * (month - 1) + day - 1 && (month == 1 ==> day <= 31))
  {}

  /** January 1 of a year, counted from the era the year lies in. */
  lemma YearFromEra(era: nat, yearOfEra: int)
    requires 0 <= yearOfEra < 400
    ensures var year := yearOfEra + era * 400;
            && DaysBeforeYear(year) == era * DAYS_PER_ERA + DaysBeforeYearWithinEra(yearOfEra) + 366 - YearLength(year)
  {
    var year := yearOfEra + era * 400;
    DaysBeforeYearClosed(year);
    RoundedUp(year, 4);
    RoundedUp(year, 100);
    RoundedUp(year, 400);
    EraQuotients(era, yearOfEra, 4, 100);
    EraQuotients(era, yearOfEra, 100, 4);
    EraQuotients(era, yearOfEra, 400, 1);
    assert yearOfEra / 400 == 0;
    CenturiesDivide(year);
  }

  /** Leap years repeat with the era. */
  lemma YearLengthFromEra(era: nat, yearOfEra: nat)
    ensures YearLength(yearOfEra + era * 400) == YearLength(yearOfEra)
  {
    EraQuotients(era, yearOfEra, 4, 100);
    EraQuotients(era, yearOfEra, 100, 4);
    EraQuotients(era, yearOfEra, 400, 1);
  }

  lemma EpochYear()
    ensures DaysBeforeYear(1970) == 719_528
  {
    DaysBeforeYearClosed(1970);
  }

  lemma EraQuotients(era: nat, yearOfEra: nat, unit: int, share: int)
    requires (unit, share) in {(4, 100), (100, 4), (400, 1)}
    ensures (yearOfEra + era * 400) / unit == yearOfEra / unit + share * era
    ensures (yearOfEra + era * 400) % unit == yearOfEra % unit
  {
    var whole, rest := yearOfEra / unit, yearOfEra % unit;
    assert yearOfEra == unit * whole + rest;
    if unit == 4 { assert yearOfEra + era * 400 == 4 * (whole + 100 * era) + rest; }
    else if unit == 100 { assert yearOfEra + era * 400 == 100 * (whole + 4 * era) + rest; }
    else { assert yearOfEra + era * 400 == 400 * (whole + era) + rest; }
  }

  /** The month arithmetic lands in a valid month of the year that starts in March. */
  lemma PlacedInMonth(year: nat, dayOfYear: int)
    requires 0 <= dayOfYear < YearLength(year + 1)
    ensures var (month, day) := MonthAndDay(dayOfYear);
            var date := CivilDate(if month <= 2 then year + 1 else year, month, day);
            && ValidDate(date)
            && DayNumber(date) + DaysBeforeYear(1970) == DaysBeforeYear(year) + YearLength(year) - 306 + dayOfYear
  {
    MonthAndDayExact(dayOfYear);
    var (month, day) := MonthAndDay(dayOfYear);
    if month <= 2 {
      DaysBeforeMonthClosed(year + 1, month);
      assert DaysBeforeYear(year + 1) == DaysBeforeYear(year) + YearLength(year);
    } else {
      DaysBeforeMonthClosed(year, month);
      assert DaysInMonth(year, month) == DaysInMonth(0, month);
    }
  }

  ghost function DateInEra(era: int, dayOfEra: int): CivilDate {
    var yearOfEra := YearWithinEra(dayOfEra);
    var (month, day) := MonthAndDay(dayOfEra - DaysBeforeYearWithinEra(yearOfEra));
    CivilDate(yearOfEra + era * 400 + (if month <= 2 then 1 else 0), month, day)
  }

  lemma DateAt(era: nat, yearOfEra: nat, dayOfYear: int)
    requires yearOfEra < 400 && 0 <= dayOfYear < YearLength(yearOfEra + 1)
    ensures var (month, day) := MonthAndDay(dayOfYear);
            var date := CivilDate(yearOfEra + era * 400 + (if month <= 2 then 1 else 0), month, day);
            && ValidDate(date)
            && DayNumber(date) == era * DAYS_PER_ERA + DaysBeforeYearWithinEra(yearOfEra) + dayOfYear - DAYS_BEFORE_UNIX_EPOCH
  {
    YearLengthFromEra(era, yearOfEra + 1);
    YearFromEra(era, yearOfEra);
    PlacedInMonth(yearOfEra + era * 400, dayOfYear);
    EpochYear();
  }

  lemma DateInEraExact(era: nat, dayOfEra: int)
    requires 0 <= dayOfEra < DAYS_PER_ERA
    ensures ValidDate(DateInEra(era, dayOfEra))
    ensures DayNumber(DateInEra(era, dayOfEra)) == era * DAYS_PER_ERA + dayOfEra - DAYS_BEFORE_UNIX_EPOCH
  {
    YearWithinEraExact(dayOfEra);
    var yearOfEra := YearWithinEra(dayOfEra);
    DateAt(era, yearOfEra, dayOfEra - DaysBeforeYearWithinEra(yearOfEra));
  }

  /** The conversion is exact: a valid date whose naive day count is the input. */
  lemma CivilExact(days: int)
    requires -DAYS_BEFORE_UNIX_EPOCH <= days
    ensures ValidDate(CivilDateFromUnixDays(days))
    ensures DayNumber(CivilDateFromUnixDays(days)) == days
  {
    var era, dayOfEra := EraOfDay(days);
    DateInEraExact(era, dayOfEra);
  }

  lemma EraOfDay(days: int) returns (era: nat, dayOfEra: int)
    requires -DAYS_BEFORE_UNIX_EPOCH <= days
    ensures 0 <= dayOfEra < DAYS_PER_ERA && days + DAYS_BEFORE_UNIX_EPOCH == era * DAYS_PER_ERA + dayOfEra
    ensures CivilDateFromUnixDays(days) == DateInEra(era, dayOfEra)
  {
    era, dayOfEra := EraParts(days + DAYS_BEFORE_UNIX_EPOCH);
  }

  lemma EraParts(z: nat) returns (era: nat, dayOfEra: nat)
    ensures era == z / DAYS_PER_ERA && dayOfEra < DAYS_PER_ERA && z == era * DAYS_PER_ERA + dayOfEra
  {
    era, dayOfEra := z / DAYS_PER_ERA, z % DAYS_PER_ERA;
  }

  // ---------- Order, uniqueness and succession ----------

  lemma {:induction false} YearsGrow(a: nat, b: nat)
    requires a < b
    ensures DaysBeforeYear(a) + YearLength(a) <= DaysBeforeYear(b)
    decreases b
  {
    if a + 1 < b { YearsGrow(a, b - 1); }
  }

  lemma {:induction false} MonthsGrow(year: int, a: int, b: int)
    requires 1 <= a < b <= 12
    ensures DaysBeforeMonth(year, a) + DaysInMonth(year, a) <= DaysBeforeMonth(year, b)
    decreases b
  {
    if a + 1 < b { MonthsGrow(year, a, b - 1); }
  }

  lemma EarlierDateSmallerNumber(a: CivilDate, b: CivilDate)
    requires ValidDate(a) && ValidDate(b) && DateBefore(a, b)
    ensures DayNumber(a) < DayNumber(b)
  {
    DaysBeforeMonthClosed(a.year, a.month);
    DaysBeforeMonthClosed(b.year, b.month);
    if a.year < b.year { YearsGrow(a.year, b.year); }
    else if a.month < b.month { MonthsGrow(a.year, a.month, b.month); }
  }

  /** Dates compare as their day numbers do. */
  lemma DateOrder(a: CivilDate, b: CivilDate)
    requires ValidDate(a) && ValidDate(b)
    ensures DateBefore(a, b) <==> DayNumber(a) < DayNumber(b)
    ensures a == b <==> DayNumber(a) == DayNumber(b)
  {
    if DateBefore(a, b) { EarlierDateSmallerNumber(a, b); }
    else if DateBefore(b, a) { EarlierDateSmallerNumber(b, a); }
  }

  /** The conversion also undoes the day count. */
  lemma CivilOfDayNumber(date: CivilDate)
    requires ValidDate(date) && -DAYS_BEFORE_UNIX_EPOCH <= DayNumber(date)
    ensures CivilDateFromUnixDays(DayNumber(date)) == date
  {
    CivilExact(DayNumber(date));
    DateOrder(date, CivilDateFromUnixDays(DayNumber(date)));
  }

  lemma NextDayIsOneLater(date: CivilDate)
    requires ValidDate(date)
    ensures ValidDate(NextDay(date)) && DayNumber(NextDay(date)) == DayNumber(date) + 1
  {
    DaysBeforeMonthClosed(date.year, date.month);
    DaysBeforeMonthClosed(date.year, 12);
    if date.day == DaysInMonth(date.year, date.month) && date.month == 12 {
      assert DaysBeforeYear(date.year + 1) == DaysBeforeYear(date.year) + YearLength(date.year);
      assert DaysBeforeMonth(date.year + 1, 1) == 0;
    }
  }

  /** Consecutive days map to calendar successors. */
  lemma CivilSuccessor(days: int)
    requires -DAYS_BEFORE_UNIX_EPOCH <= days
    ensures CivilDateFromUnixDays(days + 1) == NextDay(CivilDateFromUnixDays(days))
  {
    CivilExact(days);
    NextDayIsOneLater(CivilDateFromUnixDays(days));
    CivilOfDayNumber(NextDay(CivilDateFromUnixDays(days)));
  }

  // ---------- Formatting ----------

  function Zeros(count: nat): string {
    seq(count, _ => '0')
  }

  /** `{:0width}`: zero padded on the left, never shortened. */
  function Padded(n: nat, width: nat): string {
    var digits := Decimal(n);
    if |digits| >= width then digits else Zeros(width - |digits|) + digits
  }

  function FormatCivil(date: CivilDate): string
    requires ValidDate(date)
  {
    Padded(date.year, 4) + ("-" + (Padded(date.month, 2) + ("-" + Padded(date.day, 2))))
  }

  function FormatDate(timestamp: u64): string {
    CivilExact(timestamp / SECONDS_PER_DAY);
    FormatCivil(CivilDateFromUnixDays(timestamp / SECONDS_PER_DAY))
  }

  function FormatTime(seconds: nat): string {
    Padded(seconds / 3_600, 2) + (":" + (Padded(seconds % 3_600 / 60, 2) + (":" + (Padded(seconds % 60, 2) + " UTC"))))
  }

  function FormatDatetime(timestamp: u64): string {
    FormatDate(timestamp) + (" " + FormatTime(timestamp % SECONDS_PER_DAY))
  }

  function Pow10(width: nat): nat {
    if width == 0 then 1 else 10 * Pow10(width - 1)
  }

  lemma {:induction false} PaddedWidth(n: nat, width: nat)
    requires width > 0 && n < Pow10(width)
    ensures |Decimal(n)| <= width && |Padded(n, width)| == width
    ensures width > 1 ==> Padded(n, width) == Padded(n / 10, width - 1) + [Digit(n % 10)]
  {
    if width > 1 {
      PaddedWidth(n / 10, width - 1);
      if n < 10 {
        assert Decimal(n / 10) == ['0'];
        assert Padded(0, width - 1) == Zeros(width - 1);
      }
    } else {
      assert Pow10(1) == 10 * Pow10(0);
    }
  }

  lemma {:induction false} PaddedOrder(m: nat, n: nat, width: nat)
    requires width > 0 && m < Pow10(width) && n < Pow10(width)
    ensures |Padded(m, width)| == |Padded(n, width)| == width
    ensures LexLess(Padded(m, width), Padded(n, width)) <==> m < n
    ensures Padded(m, width) == Padded(n, width) <==> m == n
  {
    PaddedWidth(m, width);
    PaddedWidth(n, width);
    if width == 1 {
      assert Pow10(1) == 10 * Pow10(0);
      assert Padded(m, 1) == [Digit(m)] && Padded(n, 1) == [Digit(n)];
    } else {
      PaddedOrder(m / 10, n / 10, width - 1);
      LastDigitOrder(Padded(m / 10, width - 1), Padded(n / 10, width - 1), m, n);
    }
  }

  /** Numbers compare by all but their last digits, then by those. */
  lemma LastDigitOrder(frontM: string, frontN: string, m: nat, n: nat)
    requires |frontM| == |frontN|
    requires (LexLess(frontM, frontN) <==> m / 10 < n / 10) && (frontM == frontN <==> m / 10 == n / 10)
    ensures var a, b := frontM + [Digit(m % 10)], frontN + [Digit(n % 10)]; (LexLess(a, b) <==> m < n) && (a == b <==> m == n)
  {
    var lastM, lastN := [Digit(m % 10)], [Digit(n % 10)];
    LexBlocks(frontM, frontN, lastM, lastN);
    assert LexLess(lastM, lastN) <==> m % 10 < n % 10;
    if frontM + lastM == frontN + lastN {
      assert (frontM + lastM)[..|frontM|] == frontM && (frontN + lastN)[..|frontM|] == frontN;
      assert (frontM + lastM)[|frontM|] == (frontN + lastN)[|frontM|];
    }
  }

  /** One fixed-width number and a separator, followed by more text. */
  lemma FieldOrder(m: nat, n: nat, width: nat, restM: string, restN: string)
    requires width > 0 && m < Pow10(width) && n < Pow10(width)
    ensures LexLess(Padded(m, width) + restM, Padded(n, width) + restN) <==> m < n || (m == n && LexLess(restM, restN))
    ensures Padded(m, width) + restM == Padded(n, width) + restN <==> m == n && restM == restN
  {
    PaddedOrder(m, n, width);
    LexBlocks(Padded(m, width), Padded(n, width), restM, restN);
    if Padded(m, width) + restM == Padded(n, width) + restN {
      assert (Padded(m, width) + restM)[..width] == Padded(m, width);
      assert (Padded(n, width) + restN)[..width] == Padded(n, width);
      assert (Padded(m, width) + restM)[width..] == restM;
      assert (Padded(n, width) + restN)[width..] == restN;
    }
  }

  lemma SeparatorOrder(separator: string, restM: string, restN: string)
    ensures LexLess(separator + restM, separator + restN) <==> LexLess(restM, restN)
  {
    LexBlocks(separator, separator, restM, restN);
    LexIrreflexive(separator);
  }

  lemma PowersOfTen()
    ensures Pow10(2) == 100 && Pow10(4) == 10_000
  {
    assert Pow10(0) == 1;
    assert Pow10(1) == 10 * Pow10(0);
    assert Pow10(2) == 10 * Pow10(1);
    assert Pow10(3) == 10 * Pow10(2);
  }

  lemma FormatCivilOrder(a: CivilDate, b: CivilDate)
    requires ValidDate(a) && ValidDate(b) && a.year <= 9_999 && b.year <= 9_999
    ensures LexLess(FormatCivil(a), FormatCivil(b)) <==> DateBefore(a, b)
    ensures |FormatCivil(a)| == |FormatCivil(b)| == 10
    ensures FormatCivil(a) == FormatCivil(b) ==> a == b
  {
    PowersOfTen();
    PaddedWidth(a.year, 4); PaddedWidth(a.month, 2); PaddedWidth(a.day, 2);
    PaddedWidth(b.year, 4); PaddedWidth(b.month, 2); PaddedWidth(b.day, 2);
    var dayA, dayB := Padded(a.day, 2), Padded(b.day, 2);
    var monthA, monthB := Padded(a.month, 2) + ("-" + dayA), Padded(b.month, 2) + ("-" + dayB);
    PaddedOrder(a.day, b.day, 2);
    SeparatorOrder("-", dayA, dayB);
    FieldOrder(a.month, b.month, 2, "-" + dayA, "-" + dayB);
    SeparatorOrder("-", monthA, monthB);
    FieldOrder(a.year, b.year, 4, "-" + monthA, "-" + monthB);
    if FormatCivil(a) == FormatCivil(b) {
      assert ("-" + monthA)[1..] == monthA && ("-" + monthB)[1..] == monthB;
      assert ("-" + dayA)[1..] == dayA && ("-" + dayB)[1..] == dayB;
    }
  }

  lemma ClockOrder(a: nat, b: nat)
    ensures a < b <==> a / 3_600 < b / 3_600 || (a / 3_600 == b / 3_600 && a % 3_600 < b % 3_600)
    ensures a % 3_600 < b % 3_600 <==>
      a % 3_600 / 60 < b % 3_600 / 60 || (a % 3_600 / 60 == b % 3_600 / 60 && a % 60 < b % 60)
  {
    MinuteOrder(a);
    MinuteOrder(b);
    assert a == 3_600 * (a / 3_600) + a % 3_600 && b == 3_600 * (b / 3_600) + b % 3_600;
  }

  lemma MinuteOrder(a: nat)
    ensures a % 3_600 == 60 * (a % 3_600 / 60) + a % 60
  {
    assert a == 60 * (60 * (a / 3_600) + a % 3_600 / 60) + a % 3_600 % 60;
  }

  lemma FormatTimeOrder(a: nat, b: nat)
    requires a < SECONDS_PER_DAY && b < SECONDS_PER_DAY
    ensures LexLess(FormatTime(a), FormatTime(b)) <==> a < b
  {
    PowersOfTen();
    ClockOrder(a, b);
    var secondA, secondB := Padded(a % 60, 2) + " UTC", Padded(b % 60, 2) + " UTC";
    var minuteA, minuteB := Padded(a % 3_600 / 60, 2) + (":" + secondA), Padded(b % 3_600 / 60, 2) + (":" + secondB);
    LexIrreflexive(" UTC");
    FieldOrder(a % 60, b % 60, 2, " UTC", " UTC");
    SeparatorOrder(":", secondA, secondB);
    FieldOrder(a % 3_600 / 60, b % 3_600 / 60, 2, ":" + secondA, ":" + secondB);
    SeparatorOrder(":", minuteA, minuteB);
    FieldOrder(a / 3_600, b / 3_600, 2, ":" + minuteA, ":" + minuteB);
  }

  /** Up to year 9999 the formatted timestamps sort as text in time order. */
  lemma FormattedTimestampsSort(a: u64, b: u64)
    requires CivilDateFromUnixDays(a / SECONDS_PER_DAY).year <= 9_999
    requires CivilDateFromUnixDays(b / SECONDS_PER_DAY).year <= 9_999
    ensures LexLess(FormatDatetime(a), FormatDatetime(b)) <==> a < b
    ensures LexLess(FormatDate(a), FormatDate(b)) <==> a / SECONDS_PER_DAY < b / SECONDS_PER_DAY
  {
    var dayA, dayB := a / SECONDS_PER_DAY, b / SECONDS_PER_DAY;
    CivilExact(dayA);
    CivilExact(dayB);
    var dateA, dateB := CivilDateFromUnixDays(dayA), CivilDateFromUnixDays(dayB);
    DateOrder(dateA, dateB);
    FormatCivilOrder(dateA, dateB);
    var timeA, timeB := FormatTime(a % SECONDS_PER_DAY), FormatTime(b % SECONDS_PER_DAY);
    LexBlocks(FormatDate(a), FormatDate(b), " " + timeA, " " + timeB);
    SeparatorOrder(" ", timeA, timeB);
    FormatTimeOrder(a % SECONDS_PER_DAY, b % SECONDS_PER_DAY);
  }
}
