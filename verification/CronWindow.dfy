/** Why an eight-year window is enough for a cron search: the calendar side of `next`. */
module CronWindow {
  import opened Wrappers
  import opened Integers
  import opened Sorting
  import opened CronField
  import opened Calendar
  import opened Cron

  // ---------- Which days match ----------

  /** The month and calendar part of a match, on a local day. */
  ghost predicate DayMatches(s: Schedule, day: int)
    requires -DAYS_BEFORE_UNIX_EPOCH <= day
  {
    DateMatches(s, CivilDateFromUnixDays(day), day)
  }

  ghost predicate DateMatches(s: Schedule, date: CivilDate, day: int) {
    var weekday := (day + 4) % 7 in s.weekdays || ((day + 4) % 7 == 0 && 7 in s.weekdays);
    && date.month in s.months
    && (if s.dayAny then s.weekdayAny || weekday
        else if s.weekdayAny then date.day in s.days
        else date.day in s.days || weekday)
  }

  /** A listed month and day that meet in a leap year. */
  ghost predicate PairExists(s: Schedule) {
    exists month, day :: PairListed(s, month, day)
  }

  ghost predicate PairListed(s: Schedule, month: nat, day: nat) {
    month in s.months && day in s.days && day <= DaysInMonth(2000, month)
  }

  /** Only the day of the month decides, and no listed day exists in a listed month. */
  ghost predicate Impossible(s: Schedule) {
    s.weekdayAny && !s.dayAny && !PairExists(s)
  }

  // ---------- A matching day within 2921 days ----------

  lemma LeapWithinEight(year: nat) returns (leap: nat)
    ensures year < leap <= year + 8 && IsLeap(leap)
    ensures !IsLeap(year) ==> leap <= year + 7
  {
    var up := year + 4 - year % 4;
    leap := if IsLeap(up) then up else up + 4;
    assert up % 4 == 0 && year < up <= year + 4;
    NextFourth(up);
  }

  /** Of two consecutive multiples of four at least one is a leap year. */
  lemma NextFourth(year: nat)
    requires year % 4 == 0
    ensures IsLeap(year) || (IsLeap(year + 4) && year % 4 == 0)
  {
    if !IsLeap(year) {
      assert year == 100 * (year / 100);
      BehindCentury(year / 100);
    }
  }

  lemma BehindCentury(centuries: nat)
    ensures (100 * centuries + 4) % 100 == 4 && (100 * centuries + 4) % 4 == 0
  {}

  lemma {:induction false} SpanBound(year: nat, count: nat)
    ensures 365 * count <= DaysBeforeYear(year + count) - DaysBeforeYear(year) <= 366 * count
  {
    if count > 0 {
      SpanBound(year, count - 1);
      assert DaysBeforeYear(year + count) == DaysBeforeYear(year + count - 1) + YearLength(year + count - 1);
    }
  }

  /** Eight years that start with a leap year and hold no other before the last day: 2921 days. */
  lemma LeapGap(year: nat, leap: nat)
    requires IsLeap(year) && IsLeap(leap) && year < leap <= year + 8
    requires forall y :: year < y < leap ==> !IsLeap(y)
    ensures DaysBeforeYear(leap) - DaysBeforeYear(year) <= 2_921
  {
    CommonSpan(year + 1, leap);
    assert DaysBeforeYear(year + 1) == DaysBeforeYear(year) + 366;
  }

  lemma {:induction false} CommonSpan(low: nat, high: nat)
    requires low <= high
    requires forall y :: low <= y < high ==> !IsLeap(y)
    ensures DaysBeforeYear(high) - DaysBeforeYear(low) == 365 * (high - low)
    decreases high
  {
    if low < high { CommonSpan(low, high - 1); }
  }

  lemma {:induction false} FirstLeapAfter(year: nat, bound: nat) returns (leap: nat)
    requires year < bound && IsLeap(bound)
    ensures year < leap <= bound && IsLeap(leap)
    ensures forall y :: year < y < leap ==> !IsLeap(y)
    decreases bound
  {
    if y :| year < y < bound && IsLeap(y) {
      leap := FirstLeapAfter(year, y);
    } else {
      leap := bound;
    }
  }

  /** A day number lies within its year. */
  lemma NumberWithinYear(date: CivilDate)
    requires ValidDate(date)
    ensures DaysBeforeYear(date.year) <= DayNumber(date) + DaysBeforeYear(1970) < DaysBeforeYear(date.year) + YearLength(date.year)
  {
    DaysBeforeMonthClosed(date.year, date.month);
    DaysBeforeMonthNonNegative(date.year, date.month);
  }

  /** A date of the year after `day`'s own lies at most 732 days ahead. */
  lemma NextYearDate(day: int, date: CivilDate)
    requires -DAYS_BEFORE_UNIX_EPOCH <= day && ValidDate(date)
    requires date.year == CivilDateFromUnixDays(day).year + 1
    ensures day < DayNumber(date) <= day + 732
    ensures CivilDateFromUnixDays(DayNumber(date)) == date
  {
    CivilExact(day);
    var now := CivilDateFromUnixDays(day);
    NumberWithinYear(now);
    NumberWithinYear(date);
    assert DaysBeforeYear(date.year) == DaysBeforeYear(now.year) + YearLength(now.year);
    CivilOfDayNumber(date);
  }

  lemma {:induction false} DaysBeforeMonthNonNegative(year: int, month: int)
    requires 1 <= month <= 12
    ensures 0 <= DaysBeforeMonth(year, month)
  {
    if month > 1 { DaysBeforeMonthNonNegative(year, month - 1); }
  }

  /** Among any seven consecutive days each weekday occurs. */
  lemma WeekdayAmongSeven(first: int, weekday: nat) returns (k: nat)
    requires weekday < 7
    ensures k < 7 && (first + k + 4) % 7 == weekday
  {
    var current := (first + 4) % 7;
    k := if weekday >= current then weekday - current else weekday + 7 - current;
    var weeks := (first + 4) / 7;
    assert first + 4 == 7 * weeks + current;
    if weekday >= current {
      assert first + k + 4 == 7 * weeks + weekday;
    } else {
      assert first + k + 4 == 7 * (weeks + 1) + weekday;
    }
  }

  lemma MatchByWeekday(s: Schedule, day: int) returns (found: int)
    requires ValidSchedule(s) && !s.weekdayAny && -DAYS_BEFORE_UNIX_EPOCH <= day
    ensures day < found <= day + 732 && DayMatches(s, found)
  {
    CivilExact(day);
    var year := CivilDateFromUnixDays(day).year + 1;
    var month, listed := s.months[0], s.weekdays[0];
    assert month in s.months && listed in s.weekdays;
    var weekday := if listed == 7 then 0 else listed;
    var first := CivilDate(year, month, 1);
    var k := WeekdayAmongSeven(DayNumber(first), weekday);
    var date := CivilDate(year, month, 1 + k);
    NextYearDate(day, date);
    found := DayNumber(date);
    assert found == DayNumber(first) + k;
  }

  lemma MatchByMonth(s: Schedule, day: int) returns (found: int)
    requires ValidSchedule(s) && s.weekdayAny && s.dayAny && -DAYS_BEFORE_UNIX_EPOCH <= day
    ensures day < found <= day + 732 && DayMatches(s, found)
  {
    CivilExact(day);
    var month := s.months[0];
    assert month in s.months;
    var date := CivilDate(CivilDateFromUnixDays(day).year + 1, month, 1);
    NextYearDate(day, date);
    found := DayNumber(date);
  }

  /** Some February 29 falls within the 2921 days after any day. */
  lemma LeapDayAhead(day: int) returns (date: CivilDate)
    requires -DAYS_BEFORE_UNIX_EPOCH <= day
    ensures ValidDate(date) && date.month == 2 && date.day == 29
    ensures day < DayNumber(date) <= day + 2_921
    ensures CivilDateFromUnixDays(DayNumber(date)) == date
  {
    CivilExact(day);
    var now := CivilDateFromUnixDays(day);
    var own := CivilDate(now.year, 2, 29);
    var bound := LeapWithinEight(now.year);
    var leap := FirstLeapAfter(now.year, bound);
    DaysBeforeMonthClosed(now.year, now.month);
    DaysBeforeMonthNonNegative(now.year, now.month);
    if IsLeap(now.year) && DateBefore(now, own) {
      date := own;
      DaysBeforeMonthClosed(now.year, 2);
    } else {
      date := CivilDate(leap, 2, 29);
      DaysBeforeMonthClosed(leap, 2);
      DaysBeforeMonthClosed(now.year, 2);
      if IsLeap(now.year) {
        DateOrder(now, own);
        LeapGap(now.year, leap);
      } else {
        SpanBound(now.year, leap - now.year);
      }
    }
    DateOrder(now, date);
    CivilOfDayNumber(date);
  }

  /** A day of the month that fits a leap year but not this one is February 29. */
  lemma OnlyLeapDayIsMissing(year: int, month: int, day: int)
    requires DaysInMonth(year, month) < day <= DaysInMonth(2000, month)
    ensures month == 2 && day == 29
  {}

  lemma MatchByPair(s: Schedule, day: int) returns (found: int)
    requires ValidSchedule(s) && s.weekdayAny && !s.dayAny && PairExists(s) && -DAYS_BEFORE_UNIX_EPOCH <= day
    ensures day < found <= day + 2_921 && DayMatches(s, found)
  {
    CivilExact(day);
    var month: nat, monthDay: nat :| PairListed(s, month, monthDay);
    var year := CivilDateFromUnixDays(day).year + 1;
    var date := CivilDate(year, month, monthDay);
    if monthDay <= DaysInMonth(year, month) {
      NextYearDate(day, date);
    } else {
      OnlyLeapDayIsMissing(year, month, monthDay);
      date := LeapDayAhead(day);
    }
    found := DayNumber(date);
    assert CivilDateFromUnixDays(found) == date;
    assert DateMatches(s, date, found);
  }

  lemma MatchingDayAhead(s: Schedule, day: int) returns (found: int)
    requires ValidSchedule(s) && !Impossible(s) && -DAYS_BEFORE_UNIX_EPOCH <= day
    ensures day < found <= day + 2_921 && DayMatches(s, found)
  {
    if !s.weekdayAny { found := MatchByWeekday(s, day); }
    else if s.dayAny { found := MatchByMonth(s, day); }
    else { found := MatchByPair(s, day); }
  }

  // ---------- From days to timestamps ----------

  lemma MatchIsDayAndTime(s: Schedule, offset: int, seconds: int)
    requires WholeMinuteOffset(offset) && 0 <= seconds
    ensures MatchesAt(s, offset, seconds) <==>
      var fields := LocalFields(offset, seconds);
      fields.minute in s.minutes && fields.hour in s.hours && DayMatches(s, LocalDay(offset, seconds))
  {}

  lemma ClockOfSeconds(hour: nat, minute: nat)
    requires hour < 24 && minute < 60
    ensures var second := hour * 3_600 + minute * 60;
            second < 86_400 && second / 3_600 == hour && second % 3_600 / 60 == minute
  {
    var second := hour * 3_600 + minute * 60;
    assert second / 3_600 == hour && second % 3_600 == minute * 60;
  }

  /** On a matching local day some whole minute matches. */
  lemma MomentOnDay(s: Schedule, offset: int, day: int) returns (t: int)
    requires ValidSchedule(s) && WholeMinuteOffset(offset) && 0 <= day * 86_400 - offset && DayMatches(s, day)
    ensures t >= 0 && t % 60 == 0 && MatchesAt(s, offset, t)
    ensures day * 86_400 <= t + offset < (day + 1) * 86_400
  {
    var hour, minute := s.hours[0], s.minutes[0];
    assert hour in s.hours && minute in s.minutes;
    ClockOfSeconds(hour, minute);
    var second := hour * 3_600 + minute * 60;
    t := day * 86_400 + second - offset;
    LocalParts(offset, day, second, t);
    MatchIsDayAndTime(s, offset, t);
    WholeMinute(t, 1_440 * day + 60 * hour + minute - offset / 60);
  }

  lemma LocalParts(offset: int, day: int, second: nat, t: int)
    requires second < 86_400 && t + offset == 86_400 * day + second
    ensures LocalDay(offset, t) == day && (t + offset) % 86_400 == second
  {}

  lemma WholeMinute(t: int, minutes: int)
    requires t == 60 * minutes
    ensures t % 60 == 0
  {}

  lemma NoDayWhenImpossible(s: Schedule, day: int)
    requires ValidSchedule(s) && Impossible(s) && -DAYS_BEFORE_UNIX_EPOCH <= day
    ensures !DayMatches(s, day)
  {
    CivilExact(day);
    var date := CivilDateFromUnixDays(day);
    assert date.day <= DaysInMonth(2000, date.month);
    assert !PairListed(s, date.month, date.day);
  }

  /** The window holds a match unless the schedule can never match at all. */
  lemma WindowSuffices(s: Schedule, offset: int, after: u64)
    requires ValidSchedule(s) && WholeMinuteOffset(offset) && SearchStart(after) <= I64_MAX
    ensures NoMatch(s, offset, after + 1, SearchStart(after) + SEARCH_WINDOW) <==> Impossible(s)
    ensures Impossible(s) ==> forall t :: 0 <= t ==> !MatchesAt(s, offset, t)
  {
    var start := SearchStart(after);
    StartIsNextMinute(after, 0);
    if Impossible(s) {
      forall t | 0 <= t ensures !MatchesAt(s, offset, t) {
        NoDayWhenImpossible(s, LocalDay(offset, t));
        MatchIsDayAndTime(s, offset, t);
      }
    } else {
      var t := MomentInWindow(s, offset, start);
      assert after + 1 <= t;
    }
  }

  lemma MomentInWindow(s: Schedule, offset: int, start: nat) returns (t: int)
    requires ValidSchedule(s) && WholeMinuteOffset(offset) && !Impossible(s)
    ensures start <= t < start + SEARCH_WINDOW && t % 60 == 0 && MatchesAt(s, offset, t)
  {
    var day := LocalDay(offset, start);
    assert day * 86_400 <= start + offset < (day + 1) * 86_400;
    var found := MatchingDayAhead(s, day);
    t := MomentOnDay(s, offset, found);
  }

  // ---------- The scheduler's entry point ----------

  /** The next occurrence of a cron text in a fixed-offset zone. */
  method Next(cron: string, zone: string, after: u64) returns (r: Result<u64, CronError>)
    requires zone == "UTC" || (zone != "" && zone[0] in "+-")
    ensures r.Ok? ==> FixedOffset(zone).Ok? && exists s :: ScheduleMeaning(cron, s)
    ensures r.Ok? && SearchStart(after) <= I64_MAX ==>
      forall s :: ScheduleMeaning(cron, s) ==> IsNext(s, FixedOffset(zone).value, after, r.value)
    ensures r.Ok? && SearchStart(after) <= I64_MAX ==> forall s, offset :: ScheduleMeaning(cron, s) && ZoneIs(zone, offset) ==>
      WholeMinuteOffset(offset) && IsNext(s, offset, after, r.value)
    ensures FixedOffset(zone).Ok? && SearchStart(after) + SEARCH_WINDOW <= TIMESTAMP_MAX + 1 ==>
      forall s :: ScheduleMeaning(cron, s) ==> (r == Err(NoOccurrence) <==> Impossible(s)) && (r.Err? ==> r.error == NoOccurrence)
  {
    var schedule := Parse(cron);
    if schedule.Err? {
      return Err(schedule.error);
    }
    assert ScheduleMeaning(cron, schedule.value);
    var offset := FixedOffset(zone);
    if offset.Err? {
      return Err(offset.error);
    }
    forall written | ZoneIs(zone, written) ensures written == offset.value { ZoneOffset(zone, written); }
    r := Search(schedule.value, offset.value, after);
    if SearchStart(after) <= I64_MAX {
      WindowSuffices(schedule.value, offset.value, after);
    }
  }
}
