/** Cron schedules of `krabb-plugins/scheduler/src/cron.rs` in fixed-offset zones: the
    minute-skipping search against a minute-by-minute scan. */
module Cron {
  import opened Wrappers
  import opened Integers
  import opened Sorting
  import opened CronField
  import opened Text
  import Calendar

  const SEARCH_WINDOW := 8 * 366 * 24 * 60 * 60
  /** The last second `jiff::Timestamp` can hold, 9999-12-30T22:00:00Z. */
  const TIMESTAMP_MAX := 253_402_207_200

  datatype Schedule = Schedule(
    minutes: seq<nat>,
    hours: seq<nat>,
    days: seq<nat>,
    months: seq<nat>,
    weekdays: seq<nat>,
    dayAny: bool,
    weekdayAny: bool)

  datatype Fields = Fields(minute: nat, hour: nat, day: nat, month: nat, weekday: nat)

  ghost predicate ValidField(values: seq<nat>, minimum: nat, maximum: nat) {
    StrictlyAscending(values) && values != [] && forall v :: v in values ==> minimum <= v <= maximum
  }

  ghost predicate ValidSchedule(s: Schedule) {
    && ValidField(s.minutes, 0, 59)
    && ValidField(s.hours, 0, 23)
    && ValidField(s.days, 1, 31)
    && ValidField(s.months, 1, 12)
    && ValidField(s.weekdays, 0, 7)
  }

  // ---------- Parsing ----------

  /** The maximal runs of other characters, in order. */
  function SplitWhitespace(s: string): seq<string> {
    if s == "" then []
    else if IsWhitespace(s[0]) then SplitWhitespace(s[1..])
    else
      var rest := SplitWhitespace(s[1..]);
      if |s| > 1 && !IsWhitespace(s[1]) && rest != [] then [[s[0]] + rest[0]] + rest[1..]
      else [[s[0]]] + rest
  }

  ghost predicate IsWord(s: string) {
    s != "" && forall c :: c in s ==> !IsWhitespace(c)
  }

  lemma {:induction false} WordsAreWords(s: string)
    ensures forall word :: word in SplitWhitespace(s) ==> IsWord(word)
  {
    if s != "" {
      WordsAreWords(s[1..]);
      var rest := SplitWhitespace(s[1..]);
      if rest != [] { assert IsWord(rest[0]); }
    }
  }

  lemma {:induction false} WordAlone(word: string)
    requires IsWord(word)
    ensures SplitWhitespace(word) == [word]
  {
    if |word| > 1 {
      WordAlone(word[1..]);
      assert [word[0]] + word[1..] == word;
    } else {
      assert word[1..] == "" && SplitWhitespace("") == [];
      assert word == [word[0]];
    }
  }

  /** White space between two texts keeps their words apart, so a text has the words that stand between its
      white space, in order. */
  lemma {:induction false} WordsJoin(a: string, space: char, b: string)
    requires IsWhitespace(space)
    ensures SplitWhitespace(a + [space] + b) == SplitWhitespace(a) + SplitWhitespace(b)
  {
    var all := a + [space] + b;
    if a == "" {
      assert all[1..] == b;
    } else {
      WordsJoin(a[1..], space, b);
      assert all[1..] == a[1..] + [space] + b;
      if !IsWhitespace(a[0]) { WordsExtend(a, space, b); }
    }
  }

  lemma WordsExtend(a: string, space: char, b: string)
    requires IsWhitespace(space) && a != "" && !IsWhitespace(a[0])
    requires SplitWhitespace(a[1..] + [space] + b) == SplitWhitespace(a[1..]) + SplitWhitespace(b)
    ensures SplitWhitespace(a + [space] + b) == SplitWhitespace(a) + SplitWhitespace(b)
  {
    var all := a + [space] + b;
    assert all[1..] == a[1..] + [space] + b;
    if |a| > 1 && !IsWhitespace(a[1]) {
      FirstWordGrows(all, SplitWhitespace(all[1..]));
      FirstWordGrows(a, SplitWhitespace(a[1..]));
      GrownFirst(a[0], SplitWhitespace(a[1..]), SplitWhitespace(b));
    } else {
      WordBegins(all, SplitWhitespace(all[1..]));
      WordBegins(a, SplitWhitespace(a[1..]));
      BegunFirst(a[0], SplitWhitespace(a[1..]), SplitWhitespace(b));
    }
  }

  lemma GrownFirst(c: char, first: seq<string>, second: seq<string>)
    requires first != []
    ensures [[c] + (first + second)[0]] + (first + second)[1..] == [[c] + first[0]] + first[1..] + second
  {
    assert (first + second)[1..] == first[1..] + second;
  }

  lemma BegunFirst(c: char, first: seq<string>, second: seq<string>)
    ensures [[c]] + (first + second) == [[c]] + first + second
  {}

  lemma FirstWordGrows(s: string, rest: seq<string>)
    requires |s| > 1 && !IsWhitespace(s[0]) && !IsWhitespace(s[1]) && SplitWhitespace(s[1..]) == rest
    ensures rest != [] && SplitWhitespace(s) == [[s[0]] + rest[0]] + rest[1..]
  {
    assert s[1..][0] == s[1];
  }

  lemma WordBegins(s: string, rest: seq<string>)
    requires s != "" && !IsWhitespace(s[0]) && (|s| > 1 ==> IsWhitespace(s[1])) && SplitWhitespace(s[1..]) == rest
    ensures SplitWhitespace(s) == [[s[0]]] + rest
  {}

  /** The schedule a cron text denotes. */
  ghost predicate ScheduleMeaning(text: string, s: Schedule) {
    var fields := SplitWhitespace(text);
    && |fields| == 5
    && FieldMeaning(fields[0], 0, 59, s.minutes)
    && FieldMeaning(fields[1], 0, 23, s.hours)
    && FieldMeaning(fields[2], 1, 31, s.days)
    && FieldMeaning(fields[3], 1, 12, s.months)
    && FieldMeaning(fields[4], 0, 7, s.weekdays)
    && s.dayAny == WildcardField(fields[2])
    && s.weekdayAny == WildcardField(fields[4])
  }

  method Parse(text: string) returns (r: Result<Schedule, CronError>)
    ensures r.Ok? ==> ValidSchedule(r.value)
    ensures forall s :: ScheduleMeaning(text, s) <==> r == Ok(s)
  {
    var fields := SplitWhitespace(text);
    if |fields| != 5 {
      return Err(FieldCount);
    }
    var minutes := ParseField(fields[0], 0, 59);
    if minutes.Err? { return Err(minutes.error); }
    var hours := ParseField(fields[1], 0, 23);
    if hours.Err? { return Err(hours.error); }
    var days := ParseField(fields[2], 1, 31);
    if days.Err? { return Err(days.error); }
    var months := ParseField(fields[3], 1, 12);
    if months.Err? { return Err(months.error); }
    var weekdays := ParseField(fields[4], 0, 7);
    if weekdays.Err? { return Err(weekdays.error); }
    return Ok(Schedule(minutes.value, hours.value, days.value, months.value, weekdays.value,
                       WildcardField(fields[2]), WildcardField(fields[4])));
  }

  // ---------- Matching ----------

  /** Restricted day and weekday fields are alternatives; a wildcard leaves the other one to decide. */
  predicate Matches(s: Schedule, fields: Fields) {
    var weekday := fields.weekday in s.weekdays || (fields.weekday == 0 && 7 in s.weekdays);
    var day := fields.day in s.days;
    var calendar := match (s.dayAny, s.weekdayAny)
      case (true, true) => true
      case (true, false) => weekday
      case (false, true) => day
      case (false, false) => day || weekday;
    fields.minute in s.minutes && fields.hour in s.hours && fields.month in s.months && calendar
  }

  /** The number of leading values at most `x`. */
  function PartitionPoint(values: seq<nat>, x: nat): (r: nat)
    requires StrictlyAscending(values)
    ensures r <= |values|
    ensures forall i :: 0 <= i < r ==> values[i] <= x
    ensures forall i :: r <= i < |values| ==> values[i] > x
  {
    if values == [] || values[0] > x then 0 else 1 + PartitionPoint(values[1..], x)
  }

  function MinuteAfter(current: nat, step: nat): nat {
    (current + step) % 60
  }

  /** The least positive step from one minute of the hour into the listed minutes. */
  function MinutesUntilNext(s: Schedule, current: nat): (r: nat)
    requires ValidSchedule(s) && current < 60
    ensures 1 <= r <= 60
    ensures MinuteAfter(current, r) in s.minutes
    ensures forall k :: 1 <= k < r ==> MinuteAfter(current, k) !in s.minutes
  {
    var next := PartitionPoint(s.minutes, current);
    if next < |s.minutes| then
      assert s.minutes[next] in s.minutes;
      s.minutes[next] - current
    else
      assert s.minutes[0] in s.minutes;
      60 - current + s.minutes[0]
  }

  // ---------- Local time in a fixed-offset zone ----------

  predicate WholeMinuteOffset(offset: int) {
    -86_340 <= offset <= 86_340 && offset % 60 == 0
  }

  function LocalDay(offset: int, seconds: int): int {
    (seconds + offset) / 86_400
  }

  function LocalFields(offset: int, seconds: int): Fields
    requires WholeMinuteOffset(offset) && 0 <= seconds
  {
    var day := LocalDay(offset, seconds);
    var second := (seconds + offset) % 86_400;
    Calendar.CivilExact(day);
    var date := Calendar.CivilDateFromUnixDays(day);
    Fields(second % 3_600 / 60, second / 3_600, date.day, date.month, (day + 4) % 7)
  }

  function ParseI32(s: string): Option<int>
    requires |s| == 2
  {
    if s[0] == '-' && IsDigits(s[1..]) then Some(-(DigitsValue(s[1..]) as int))
    else match ParseU32(s)
      case None => None
      case Some(value) => Some(value as int)
  }

  /** The `UTC` and `+HH:MM` forms of a zone; anything else is looked up by name. */
  function FixedOffset(zone: string): (r: Result<int, CronError>)
    ensures r.Ok? ==> WholeMinuteOffset(r.value)
  {
    if zone == "UTC" then Ok(0)
    else if zone == "" || zone[0] !in "+-" || |zone| != 6 || zone[3] != ':' then Err(ZoneInvalid)
    else
      match (ParseI32(zone[1..3]), ParseI32(zone[4..]))
      case (Some(hours), Some(minutes)) =>
        TwoCharacters(zone[1..3]);
        TwoCharacters(zone[4..]);
        if hours > 23 || minutes > 59 then Err(ZoneInvalid)
        else Ok((if zone[0] == '-' then -1 else 1) * (hours * 3_600 + minutes * 60))
      case _ => Err(ZoneInvalid)
  }

  lemma TwoCharacters(s: string)
    requires |s| == 2 && ParseI32(s).Some?
    ensures -9 <= ParseI32(s).value <= 99
  {
    if s[0] == '-' || s[0] == '+' {
      assert DigitsValue(s[1..][..0]) == 0;
    } else {
      assert DigitsValue(s[..1][..0]) == 0;
      assert DigitsValue(s[..1]) <= 9;
    }
  }

  datatype Side = Ahead | Behind

  function Offset(side: Side, hours: nat, minutes: nat): int {
    match side
    case Ahead => 3_600 * hours + 60 * minutes
    case Behind => -3_600 * hours - 60 * minutes
  }

  /** A written zone, and how far its clocks are ahead of UTC. */
  ghost predicate ZoneIs(zone: string, offset: int) {
    || (zone == "UTC" && offset == 0)
    || exists side, hours: nat, minutes: nat ::
         hours < 24 && minutes < 60 && zone == ZoneText(side, hours, minutes) && offset == Offset(side, hours, minutes)
  }

  function ZoneText(side: Side, hours: nat, minutes: nat): string {
    [if side.Ahead? then '+' else '-'] + Calendar.Padded(hours, 2) + [':'] + Calendar.Padded(minutes, 2)
  }

  /** A part of one digit may bear a sign of its own. */
  lemma SignedPart(digit: nat)
    requires digit < 10
    ensures ParseI32(['-', Digit(digit)]) == Some(-(digit as int)) && ParseI32(['+', Digit(digit)]) == Some(digit)
  {
    DecimalDigits(digit);
    assert ['-', Digit(digit)][1..] == ['+', Digit(digit)][1..] == Decimal(digit);
  }

  lemma TwoDigits(n: nat)
    requires n < 100
    ensures Calendar.Padded(n, 2) == [Digit(n / 10), Digit(n % 10)] && ParseI32(Calendar.Padded(n, 2)) == Some(n)
  {
    assert Calendar.Pow10(2) == 10 * Calendar.Pow10(1) == 100;
    Calendar.PaddedWidth(n, 2);
    assert Calendar.Padded(n / 10, 1) == [Digit(n / 10)];
    DecimalDigits(n / 10);
    LastDigit([Digit(n / 10)], n % 10);
  }

  /** Reading a zone undoes writing it: hours and minutes of two digits, up to 23 and 59. */
  lemma ZoneReadBack(side: Side, hours: nat, minutes: nat)
    requires hours < 100 && minutes < 100
    ensures FixedOffset(ZoneText(side, hours, minutes)) ==
      if hours < 24 && minutes < 60 then Ok(Offset(side, hours, minutes)) else Err(ZoneInvalid)
  {
    TwoDigits(hours);
    TwoDigits(minutes);
    ZoneParts(side, hours, minutes);
    ZoneParsed(ZoneText(side, hours, minutes), hours, minutes);
  }

  lemma ZoneParts(side: Side, hours: nat, minutes: nat)
    requires |Calendar.Padded(hours, 2)| == |Calendar.Padded(minutes, 2)| == 2
    ensures var zone := ZoneText(side, hours, minutes);
      && |zone| == 6 && zone[0] == (if side.Ahead? then '+' else '-') && zone[3] == ':'
      && zone[1..3] == Calendar.Padded(hours, 2) && zone[4..] == Calendar.Padded(minutes, 2)
  {}

  lemma ZoneParsed(zone: string, hours: nat, minutes: nat)
    requires |zone| == 6 && zone[0] in "+-" && zone[3] == ':'
    requires ParseI32(zone[1..3]) == Some(hours) && ParseI32(zone[4..]) == Some(minutes)
    ensures FixedOffset(zone) ==
      if hours < 24 && minutes < 60 then Ok(Offset(if zone[0] == '+' then Ahead else Behind, hours, minutes)) else Err(ZoneInvalid)
  {}

  lemma ZoneOffset(zone: string, offset: int)
    requires ZoneIs(zone, offset)
    ensures FixedOffset(zone) == Ok(offset) && WholeMinuteOffset(offset)
  {
    if side, hours: nat, minutes: nat :|
         hours < 24 && minutes < 60 && zone == ZoneText(side, hours, minutes) && offset == Offset(side, hours, minutes) {
      ZoneReadBack(side, hours, minutes);
    }
  }

  /** The local clock reads UTC plus the offset: its date, hour and minute name that moment, and its
      weekday follows from 1970-01-01, a Thursday. */
  lemma LocalClock(offset: int, seconds: int) returns (year: int)
    requires WholeMinuteOffset(offset) && 0 <= seconds
    ensures var f := LocalFields(offset, seconds);
            var date := Calendar.CivilDate(year, f.month, f.day);
            && f.hour < 24 && f.minute < 60 && Calendar.ValidDate(date)
            && 0 <= seconds + offset - (86_400 * Calendar.DayNumber(date) + 3_600 * f.hour + 60 * f.minute) < 60
            && f.weekday < 7 && f.weekday == (Calendar.DayNumber(date) + 4) % 7
  {
    var day := LocalDay(offset, seconds);
    Calendar.CivilExact(day);
    year := Calendar.CivilDateFromUnixDays(day).year;
    ClockParts((seconds + offset) % 86_400);
  }

  lemma ClockParts(second: nat)
    requires second < 86_400
    ensures second / 3_600 < 24 && second % 3_600 / 60 < 60
    ensures 0 <= second - (3_600 * (second / 3_600) + 60 * (second % 3_600 / 60)) < 60
  {}

  // ---------- Searching ----------

  predicate MatchesAt(s: Schedule, offset: int, seconds: int)
    requires WholeMinuteOffset(offset) && 0 <= seconds
  {
    Matches(s, LocalFields(offset, seconds))
  }

  /** No whole minute in `[low, high)` matches. */
  ghost predicate NoMatch(s: Schedule, offset: int, low: int, high: int)
    requires WholeMinuteOffset(offset) && 0 <= low
  {
    forall t :: low <= t < high && t % 60 == 0 ==> !MatchesAt(s, offset, t)
  }

  /** `t` is the first matching whole minute after `after`. */
  ghost predicate IsNext(s: Schedule, offset: int, after: u64, t: int)
    requires WholeMinuteOffset(offset)
  {
    after < t && t % 60 == 0 && MatchesAt(s, offset, t) && NoMatch(s, offset, after + 1, t)
  }

  function SearchStart(after: u64): nat {
    if after + 60 - after % 60 > U64_MAX then U64_MAX else after + 60 - after % 60
  }

  function LocalMinute(offset: int, seconds: int): nat {
    (seconds + offset) / 60 % 60
  }

  lemma MinuteOfHour(offset: int, seconds: int)
    requires WholeMinuteOffset(offset) && 0 <= seconds && seconds % 60 == 0
    ensures LocalFields(offset, seconds).minute == LocalMinute(offset, seconds)
  {
    var local := seconds + offset;
    var minutes := local / 60;
    assert local == 60 * minutes;
    HourOfMinutes(minutes);
  }

  lemma MatchListsMinute(s: Schedule, offset: int, seconds: int)
    requires WholeMinuteOffset(offset) && 0 <= seconds && seconds % 60 == 0
    requires MatchesAt(s, offset, seconds)
    ensures LocalMinute(offset, seconds) in s.minutes
  {
    MinuteOfHour(offset, seconds);
  }

  lemma LaterMinute(offset: int, seconds: int, k: nat)
    ensures LocalMinute(offset, seconds + 60 * k) == MinuteAfter(LocalMinute(offset, seconds), k)
  {
    assert (seconds + 60 * k + offset) / 60 == (seconds + offset) / 60 + k;
  }

  lemma HourOfMinutes(minutes: int)
    ensures 60 * minutes % 86_400 % 3_600 / 60 == minutes % 60
  {
    var days, inDay := minutes / 1_440, minutes % 1_440;
    assert 60 * minutes == 86_400 * days + 60 * inDay;
    assert 60 * minutes % 86_400 == 60 * inDay;
    var hours, inHour := inDay / 60, inDay % 60;
    assert 60 * inDay == 3_600 * hours + 60 * inHour;
    assert 60 * inDay % 3_600 == 60 * inHour;
    assert minutes == 60 * (24 * days + hours) + inHour;
    assert minutes % 60 == inHour;
  }

  lemma MinutesBetween(seconds: int, t: int) returns (k: nat)
    requires seconds < t && seconds % 60 == 0 && t % 60 == 0
    ensures k >= 1 && t == seconds + 60 * k
  {
    k := t / 60 - seconds / 60;
  }

  /** A minute strictly between `seconds` and the step's target is not listed. */
  lemma SkippedMinute(s: Schedule, offset: int, seconds: int, step: nat, t: int)
    requires ValidSchedule(s) && WholeMinuteOffset(offset) && 0 <= seconds && seconds % 60 == 0
    requires step == MinutesUntilNext(s, LocalMinute(offset, seconds))
    requires seconds < t < seconds + 60 * step && t % 60 == 0
    ensures !MatchesAt(s, offset, t)
  {
    var k := MinutesBetween(seconds, t);
    LaterMinute(offset, seconds, k);
    if MatchesAt(s, offset, t) { MatchListsMinute(s, offset, t); }
  }

  /** Stepping by `MinutesUntilNext` skips no match. */
  lemma SkipIsSafe(s: Schedule, offset: int, seconds: int, step: nat)
    requires ValidSchedule(s) && WholeMinuteOffset(offset) && 0 <= seconds && seconds % 60 == 0
    requires step == MinutesUntilNext(s, LocalMinute(offset, seconds))
    requires !MatchesAt(s, offset, seconds)
    ensures NoMatch(s, offset, seconds, seconds + 60 * step)
  {
    forall t | seconds < t < seconds + 60 * step && t % 60 == 0 ensures !MatchesAt(s, offset, t) {
      SkippedMinute(s, offset, seconds, step, t);
    }
  }

  lemma StartIsNextMinute(after: u64, t: int)
    requires SearchStart(after) <= I64_MAX
    ensures after < SearchStart(after) <= after + 60 && SearchStart(after) % 60 == 0
    ensures after < t && t % 60 == 0 ==> SearchStart(after) <= t
  {
    var whole, rest := after / 60, after % 60;
    assert after == 60 * whole + rest;
    assert SearchStart(after) == 60 * (whole + 1);
    if after < t && t % 60 == 0 {
      assert t == 60 * (t / 60);
      assert whole < t / 60;
    }
  }

  /** The search starts at the next whole minute, as long as the clock has one. */
  lemma StartExists(after: u64)
    ensures SearchStart(after) <= I64_MAX <==> after < 60 * (I64_MAX / 60)
    ensures after < 60 * (I64_MAX / 60) ==> SearchStart(after) == 60 * (after / 60 + 1)
  {}

  lemma StartFollows(s: Schedule, offset: int, after: u64)
    requires WholeMinuteOffset(offset) && SearchStart(after) <= I64_MAX
    ensures after < SearchStart(after) <= after + 60 && SearchStart(after) % 60 == 0
    ensures NoMatch(s, offset, after + 1, SearchStart(after))
  {
    StartIsNextMinute(after, 0);
    forall t | after < t && t % 60 == 0 ensures SearchStart(after) <= t {
      StartIsNextMinute(after, t);
    }
  }

  lemma WholeMinuteStep(seconds: int, step: nat)
    requires seconds % 60 == 0
    ensures (seconds + 60 * step) % 60 == 0
  {
    assert seconds + 60 * step == 60 * (seconds / 60 + step);
  }

  lemma NoMatchJoins(s: Schedule, offset: int, low: int, middle: int, high: int)
    requires WholeMinuteOffset(offset) && 0 <= low <= middle
    requires NoMatch(s, offset, low, middle) && NoMatch(s, offset, middle, high)
    ensures NoMatch(s, offset, low, high)
  {}

  /** The search itself: the least match within the window, or proof that there is none. */
  method Search(s: Schedule, offset: int, after: u64) returns (r: Result<u64, CronError>)
    requires ValidSchedule(s) && WholeMinuteOffset(offset)
    ensures SearchStart(after) > I64_MAX ==> r == Ok(U64_MAX)
    ensures SearchStart(after) <= I64_MAX && r.Ok? ==>
      IsNext(s, offset, after, r.value) && r.value < SearchStart(after) + SEARCH_WINDOW && r.value <= TIMESTAMP_MAX
    ensures r.Err? ==> SearchStart(after) <= I64_MAX && r.error in {NoOccurrence, TimestampInvalid}
    ensures r == Err(NoOccurrence) ==> NoMatch(s, offset, after + 1, SearchStart(after) + SEARCH_WINDOW)
    ensures r == Err(TimestampInvalid) ==>
      TIMESTAMP_MAX < SearchStart(after) + SEARCH_WINDOW && NoMatch(s, offset, after + 1, TIMESTAMP_MAX + 1)
  {
    var start := SearchStart(after);
    if start > I64_MAX {
      return Ok(U64_MAX);
    }
    StartFollows(s, offset, after);
    var searchEnd := start + SEARCH_WINDOW;
    var seconds := start;
    while seconds < searchEnd
      invariant start <= seconds && seconds % 60 == 0
      invariant NoMatch(s, offset, after + 1, seconds)
      decreases searchEnd - seconds
    {
      if seconds > TIMESTAMP_MAX {
        return Err(TimestampInvalid);
      }
      var fields := LocalFields(offset, seconds);
      if Matches(s, fields) {
        return Ok(seconds);
      }
      MinuteOfHour(offset, seconds);
      var step := MinutesUntilNext(s, fields.minute);
      SkipIsSafe(s, offset, seconds, step);
      NoMatchJoins(s, offset, after + 1, seconds, seconds + 60 * step);
      WholeMinuteStep(seconds, step);
      seconds := seconds + 60 * step;
    }
    return Err(NoOccurrence);
  }
}
