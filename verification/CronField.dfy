/** The field grammar of `krabb-plugins/scheduler/src/cron.rs`. */
module CronField {
  import opened Wrappers
  import opened Sorting
  import opened Text

  datatype CronError =
    | StepNotPositive
    | EndpointInvalid
    | OutsideRange
    | FieldCount
    | ZoneInvalid
    | TimestampInvalid
    | NoOccurrence

  const U32_MAX := 0xFFFF_FFFF

  // ---------- Text ----------

  /** The pieces between separators; at least one, possibly empty. */
  function Split(s: string, separator: char): (r: seq<string>)
    ensures |r| >= 1
  {
    if s == "" then [""]
    else
      var rest := Split(s[1..], separator);
      if s[0] == separator then [""] + rest else [[s[0]] + rest[0]] + rest[1..]
  }

  function JoinedBy(pieces: seq<string>, separator: char): string {
    if pieces == [] then "" else if |pieces| == 1 then pieces[0] else pieces[0] + [separator] + JoinedBy(pieces[1..], separator)
  }

  /** Between the pieces stood exactly the separators of the text. */
  lemma {:induction false} SplitMeaning(s: string, separator: char)
    ensures forall piece :: piece in Split(s, separator) ==> separator !in piece
    ensures JoinedBy(Split(s, separator), separator) == s
  {
    if s != "" {
      SplitMeaning(s[1..], separator);
      var rest := Split(s[1..], separator);
      if s[0] == separator {
        assert ([""] + rest)[1..] == rest;
        assert s == [separator] + s[1..];
      } else {
        var all := [[s[0]] + rest[0]] + rest[1..];
        assert all[1..] == rest[1..];
        assert s == [s[0]] + s[1..];
        forall piece | piece in all ensures separator !in piece {
          if piece == all[0] { assert separator !in rest[0]; }
        }
        JoinedHead(rest, s[0], separator);
      }
    }
  }

  lemma JoinedHead(pieces: seq<string>, c: char, separator: char)
    requires pieces != []
    ensures JoinedBy([[c] + pieces[0]] + pieces[1..], separator) == [c] + JoinedBy(pieces, separator)
  {
    var all := [[c] + pieces[0]] + pieces[1..];
    assert all[1..] == pieces[1..];
    if |pieces| > 1 {
      var rest := [separator] + JoinedBy(pieces[1..], separator);
      assert [c] + pieces[0] + [separator] + JoinedBy(pieces[1..], separator) == [c] + (pieces[0] + [separator] + JoinedBy(pieces[1..], separator));
    }
  }

  /** The text before and after the first separator. */
  function SplitOnce(s: string, separator: char): Option<(string, string)> {
    if s == "" then None
    else if s[0] == separator then Some(("", s[1..]))
    else match SplitOnce(s[1..], separator)
      case None => None
      case Some((before, after)) => Some(([s[0]] + before, after))
  }

  predicate IsDigits(s: string) {
    s != "" && forall i :: 0 <= i < |s| ==> '0' <= s[i] <= '9'
  }

  function DigitsValue(s: string): nat
    requires forall i :: 0 <= i < |s| ==> '0' <= s[i] <= '9'
  {
    if s == "" then 0
    else 10 * DigitsValue(s[..|s| - 1]) + (s[|s| - 1] as int - '0' as int)
  }

  /** `str::parse::<u32>`: an optional plus sign, digits, no overflow. */
  function ParseU32(s: string): (r: Option<nat>)
    ensures r.Some? ==> r.value <= U32_MAX
  {
    var digits := if s != "" && s[0] == '+' then s[1..] else s;
    if !IsDigits(digits) || DigitsValue(digits) > U32_MAX then None else Some(DigitsValue(digits))
  }

  function UnwrapOr(value: Option<nat>, default: nat): nat {
    match value
    case Some(v) => v
    case None => default
  }

  // ---------- One comma-separated item ----------

  datatype ItemRange = ItemRange(first: nat, last: nat, step: nat)

  predicate IsStar(base: string) {
    base == "*" || base == "?"
  }

  function BaseRange(item: string, base: string, minimum: nat, maximum: nat): Result<(nat, nat), CronError> {
    if IsStar(base) then Ok((minimum, maximum))
    else match SplitOnce(base, '-')
      case Some((first, last)) =>
        (match (ParseU32(first), ParseU32(last))
         case (Some(start), Some(end)) => Ok((start, end))
         case _ => Err(EndpointInvalid))
      case None =>
        var point := UnwrapOr(ParseU32(base), U32_MAX);
        if '/' in item then Ok((point, maximum)) else Ok((point, point))
  }

  function ParseItem(item: string, minimum: nat, maximum: nat): (r: Result<ItemRange, CronError>)
    ensures r.Ok? ==> minimum <= r.value.first <= r.value.last <= maximum && r.value.step > 0
  {
    var (base, step) := match SplitOnce(item, '/')
      case None => (item, 1)
      case Some((before, after)) => (before, UnwrapOr(ParseU32(after), 0));
    if step == 0 then Err(StepNotPositive)
    else match BaseRange(item, base, minimum, maximum)
      case Err(error) => Err(error)
      case Ok((start, end)) =>
        if start < minimum || end > maximum || start > end then Err(OutsideRange)
        else Ok(ItemRange(start, end, step))
  }

  predicate Denotes(item: string, minimum: nat, maximum: nat, value: nat) {
    var range := ParseItem(item, minimum, maximum);
    range.Ok? && range.value.first <= value <= range.value.last && (value - range.value.first) % range.value.step == 0
  }

  // ---------- What is written, read back ----------

  lemma {:induction false} DecimalDigits(n: nat)
    ensures IsDigits(Decimal(n)) && DigitsValue(Decimal(n)) == n
  {
    if n < 10 {
      assert DigitsValue([Digit(n)][..0]) == 0;
    } else {
      DecimalDigits(n / 10);
      LastDigit(Decimal(n / 10), n % 10);
    }
  }

  lemma LastDigit(front: string, digit: nat)
    requires IsDigits(front) && digit < 10
    ensures IsDigits(front + [Digit(digit)]) && DigitsValue(front + [Digit(digit)]) == 10 * DigitsValue(front) + digit
  {
    var all := front + [Digit(digit)];
    assert all[..|all| - 1] == front;
  }

  /** Reading a number undoes writing it. */
  lemma NumberReadBack(n: nat)
    ensures ParseU32(Decimal(n)) == if n <= U32_MAX then Some(n) else None
  {
    DecimalDigits(n);
    assert '0' <= Decimal(n)[0] <= '9';
  }

  lemma PlusReadBack(n: nat)
    ensures ParseU32("+" + Decimal(n)) == ParseU32(Decimal(n))
  {
    NumberReadBack(n);
    DecimalDigits(n);
    assert ("+" + Decimal(n))[1..] == Decimal(n);
  }

  lemma {:induction false} SplitOnceMeaning(before: string, separator: char, after: string)
    requires separator !in before
    ensures SplitOnce(before + [separator] + after, separator) == Some((before, after))
    ensures SplitOnce(before, separator) == None
  {
    var all := before + [separator] + after;
    if before == "" {
      assert all[1..] == after;
    } else {
      SplitOnceMeaning(before[1..], separator, after);
      assert all[1..] == before[1..] + [separator] + after;
      assert [before[0]] + before[1..] == before;
    }
  }

  datatype Base = Star | Point(value: nat) | Span(first: nat, last: nat)

  function WrittenBase(base: Base): string {
    match base
    case Star => "*"
    case Point(value) => Decimal(value)
    case Span(first, last) => Decimal(first) + ['-'] + Decimal(last)
  }

  function WrittenItem(base: Base, step: Option<nat>): string {
    match step
    case None => WrittenBase(base)
    case Some(count) => WrittenBase(base) + ['/'] + Decimal(count)
  }

  predicate Fits(base: Base, step: Option<nat>) {
    && (step.Some? ==> step.value <= U32_MAX)
    && (base.Point? ==> base.value <= U32_MAX)
    && (base.Span? ==> base.first <= U32_MAX && base.last <= U32_MAX)
  }

  /** Where the values of an item start and end: a single value with a step goes on to the maximum. */
  function Ends(base: Base, step: Option<nat>, minimum: nat, maximum: nat): (nat, nat) {
    match base
    case Star => (minimum, maximum)
    case Point(value) => (value, if step.Some? then maximum else value)
    case Span(first, last) => (first, last)
  }

  function StepOf(step: Option<nat>): nat {
    if step.Some? then step.value else 1
  }

  /** The value is a whole number of steps from the first one, and not behind the last. */
  predicate Reaches(first: nat, last: nat, step: nat, value: nat) {
    step > 0 && first <= value <= last && (value - first) % step == 0
  }

  lemma NumbersHaveDigits(base: Base)
    ensures '/' !in WrittenBase(base)
    ensures base.Span? ==> '-' !in Decimal(base.first)
    ensures base.Point? ==> '-' !in Decimal(base.value)
  {
    match base {
      case Star =>
      case Point(value) => DecimalDigits(value);
      case Span(first, last) =>
        DecimalDigits(first);
        DecimalDigits(last);
    }
  }

  lemma BaseReadBack(item: string, base: Base, step: Option<nat>, minimum: nat, maximum: nat)
    requires Fits(base, step) && ('/' in item <==> step.Some?)
    ensures BaseRange(item, WrittenBase(base), minimum, maximum) == Ok(Ends(base, step, minimum, maximum))
  {
    match base {
      case Star =>
      case Point(value) => PointReadBack(item, value, minimum, maximum);
      case Span(first, last) => SpanReadBack(item, first, last, minimum, maximum);
    }
  }

  lemma PointReadBack(item: string, value: nat, minimum: nat, maximum: nat)
    requires value <= U32_MAX
    ensures BaseRange(item, Decimal(value), minimum, maximum) == Ok((value, if '/' in item then maximum else value))
  {
    NumberReadBack(value);
    DecimalDigits(value);
    SplitOnceMeaning(Decimal(value), '-', "");
    assert '0' <= Decimal(value)[0] <= '9';
  }

  lemma SpanReadBack(item: string, first: nat, last: nat, minimum: nat, maximum: nat)
    requires first <= U32_MAX && last <= U32_MAX
    ensures BaseRange(item, Decimal(first) + ['-'] + Decimal(last), minimum, maximum) == Ok((first, last))
  {
    NumberReadBack(first);
    NumberReadBack(last);
    DecimalDigits(first);
    SplitOnceMeaning(Decimal(first), '-', Decimal(last));
    assert '0' <= (Decimal(first) + ['-'] + Decimal(last))[0] <= '9';
  }

  lemma ItemReadBack(base: Base, step: Option<nat>, minimum: nat, maximum: nat)
    requires Fits(base, step)
    ensures var (first, last) := Ends(base, step, minimum, maximum);
            ParseItem(WrittenItem(base, step), minimum, maximum) ==
              if StepOf(step) == 0 then Err(StepNotPositive)
              else if minimum <= first <= last <= maximum then Ok(ItemRange(first, last, StepOf(step)))
              else Err(OutsideRange)
  {
    var item := WrittenItem(base, step);
    NumbersHaveDigits(base);
    if step.Some? {
      SplitOnceMeaning(WrittenBase(base), '/', Decimal(step.value));
      NumberReadBack(step.value);
      assert item[|WrittenBase(base)|] == '/';
    } else {
      SplitOnceMeaning(item, '/', "");
    }
    BaseReadBack(item, base, step, minimum, maximum);
  }

  /** What each form of an item lists. */
  lemma ItemMeaning(base: Base, step: Option<nat>, minimum: nat, maximum: nat, value: nat)
    requires Fits(base, step)
    ensures var (first, last) := Ends(base, step, minimum, maximum);
            Denotes(WrittenItem(base, step), minimum, maximum, value) <==>
              minimum <= first && last <= maximum && Reaches(first, last, StepOf(step), value)
  {
    ItemReadBack(base, step, minimum, maximum);
    var (first, last) := Ends(base, step, minimum, maximum);
    DenotesParsed(WrittenItem(base, step), minimum, maximum, value, first, last, StepOf(step));
  }

  lemma DenotesParsed(item: string, minimum: nat, maximum: nat, value: nat, first: nat, last: nat, step: nat)
    requires ParseItem(item, minimum, maximum) ==
      if step == 0 then Err(StepNotPositive)
      else if minimum <= first <= last <= maximum then Ok(ItemRange(first, last, step))
      else Err(OutsideRange)
    ensures Denotes(item, minimum, maximum, value) <==> minimum <= first && last <= maximum && Reaches(first, last, step, value)
  {}

  lemma DenotedRange(item: string, minimum: nat, maximum: nat, value: nat, range: ItemRange)
    requires ParseItem(item, minimum, maximum) == Ok(range)
    ensures Denotes(item, minimum, maximum, value) <==>
      range.first <= value <= range.last && (value - range.first) % range.step == 0
  {}

  /** `(first..=last).step_by(step)`. */
  function StepBy(range: ItemRange): (r: seq<nat>)
    requires range.step > 0
    decreases range.last - range.first
  {
    if range.first > range.last then []
    else [range.first] + StepBy(range.(first := range.first + range.step))
  }

  lemma {:induction false} StepByElements(range: ItemRange, value: nat)
    requires range.step > 0
    ensures value in StepBy(range) <==> range.first <= value <= range.last && (value - range.first) % range.step == 0
    decreases range.last - range.first
  {
    if range.first <= range.last {
      var next := range.(first := range.first + range.step);
      StepByElements(next, value);
      if range.first < value {
        if value < next.first {
          assert 0 < value - range.first < range.step;
          SmallRemainder(value - range.first, range.step);
        } else {
          ShiftRemainder(value - next.first, range.step);
        }
      }
      if value == range.first { SmallRemainder(0, range.step); }
    }
  }

  lemma SmallRemainder(a: nat, step: nat)
    requires a < step
    ensures a % step == a
  {}

  lemma ShiftRemainder(a: nat, step: nat)
    requires step > 0
    ensures (a + step) % step == a % step
  {
    var whole, rest := a / step, a % step;
    assert a + step == step * (whole + 1) + rest;
    QuotientUnique(a + step, step, whole + 1, rest);
  }

  lemma QuotientUnique(a: nat, step: nat, whole: nat, rest: nat)
    requires step > 0 && a == step * whole + rest && rest < step
    ensures a % step == rest
  {
    var q, r := a / step, a % step;
    assert a == step * q + r;
    if q > whole { TimesGrows(step, whole, q); }
    else if q < whole { TimesGrows(step, q, whole); }
  }

  lemma {:induction false} TimesGrows(step: nat, low: int, high: int)
    requires low < high
    ensures step * low + step <= step * high
  {
    assert step * high == step * low + step * (high - low);
    TimesAtLeast(step, high - low);
  }

  lemma {:induction false} TimesAtLeast(step: nat, count: int)
    requires count >= 1
    ensures step * count >= step
  {
    assert step * count == step * (count - 1) + step;
    if count > 1 { TimesAtLeast(step, count - 1); }
  }

  // ---------- A whole field ----------

  ghost predicate AllParse(items: seq<string>, minimum: nat, maximum: nat) {
    forall i :: 0 <= i < |items| ==> ParseItem(items[i], minimum, maximum).Ok?
  }

  /** `error` is what the first item that does not parse reports. */
  ghost predicate FirstFailure(items: seq<string>, minimum: nat, maximum: nat, error: CronError) {
    exists i :: 0 <= i < |items| && ParseItem(items[i], minimum, maximum) == Err(error)
                && AllParse(items[..i], minimum, maximum)
  }

  ghost predicate ListedIn(items: seq<string>, minimum: nat, maximum: nat, value: nat) {
    exists i :: 0 <= i < |items| && Denotes(items[i], minimum, maximum, value)
  }

  /** What a parsed field is: the ascending, duplicate-free, non-empty union of its items. */
  ghost predicate FieldMeaning(text: string, minimum: nat, maximum: nat, values: seq<nat>) {
    && AllParse(Split(text, ','), minimum, maximum)
    && StrictlyAscending(values)
    && values != []
    && (forall v :: v in values ==> minimum <= v <= maximum)
    && (forall v :: v in values <==> ListedIn(Split(text, ','), minimum, maximum, v))
  }

  /** A text denotes at most one field. */
  lemma FieldMeaningUnique(text: string, minimum: nat, maximum: nat, a: seq<nat>, b: seq<nat>)
    requires FieldMeaning(text, minimum, maximum, a) && FieldMeaning(text, minimum, maximum, b)
    ensures a == b
  {
    forall v ensures v in a <==> v in b {}
    AscendingUnique(a, b);
  }

  method ParseField(text: string, minimum: nat, maximum: nat) returns (r: Result<seq<nat>, CronError>)
    ensures r.Ok? <==> AllParse(Split(text, ','), minimum, maximum)
    ensures r.Ok? ==> FieldMeaning(text, minimum, maximum, r.value)
    ensures r.Ok? ==> forall values :: FieldMeaning(text, minimum, maximum, values) ==> values == r.value
    ensures r.Err? ==> FirstFailure(Split(text, ','), minimum, maximum, r.error)
  {
    var values := ParseItems(Split(text, ','), minimum, maximum);
    if values.Err? {
      return Err(values.error);
    }
    SortedSet(values.value);
    var field := Dedup(Sort(values.value, Ascending));
    forall other | FieldMeaning(text, minimum, maximum, other) ensures other == field {
      FieldMeaningUnique(text, minimum, maximum, other, field);
    }
    return Ok(field);
  }

  /** Extends the values by those of one item after the other. */
  method ParseItems(items: seq<string>, minimum: nat, maximum: nat) returns (r: Result<seq<nat>, CronError>)
    ensures r.Ok? <==> AllParse(items, minimum, maximum)
    ensures r.Ok? ==> forall v :: v in r.value <==> ListedIn(items, minimum, maximum, v)
    ensures r.Ok? && items != [] ==> r.value != []
    ensures r.Err? ==> FirstFailure(items, minimum, maximum, r.error)
  {
    var values: seq<nat> := [];
    var i := 0;
    while i < |items|
      invariant 0 <= i <= |items|
      invariant AllParse(items[..i], minimum, maximum)
      invariant forall v :: v in values <==> ListedIn(items[..i], minimum, maximum, v)
      invariant i > 0 ==> values != []
    {
      var range := ParseItem(items[i], minimum, maximum);
      if range.Err? {
        return Err(range.error);
      }
      var more := StepBy(range.value);
      assert items[..i + 1] == items[..i] + [items[i]];
      ListedMore(items[..i], items[i], minimum, maximum, values, range.value);
      values := values + more;
      i := i + 1;
    }
    assert items[..i] == items;
    return Ok(values);
  }

  lemma ListedMore(front: seq<string>, item: string, minimum: nat, maximum: nat, values: seq<nat>, range: ItemRange)
    requires ParseItem(item, minimum, maximum) == Ok(range)
    requires forall v :: v in values <==> ListedIn(front, minimum, maximum, v)
    ensures forall v :: v in values + StepBy(range) <==> ListedIn(front + [item], minimum, maximum, v)
    ensures StepBy(range) != []
  {
    forall v ensures v in values + StepBy(range) <==> ListedIn(front + [item], minimum, maximum, v) {
      StepByElements(range, v);
      DenotedRange(item, minimum, maximum, v, range);
      ListedStep(front, item, minimum, maximum, v);
    }
  }

  lemma ListedStep(front: seq<string>, item: string, minimum: nat, maximum: nat, v: nat)
    ensures ListedIn(front + [item], minimum, maximum, v)
      <==> ListedIn(front, minimum, maximum, v) || Denotes(item, minimum, maximum, v)
  {
    var all := front + [item];
    if ListedIn(front, minimum, maximum, v) {
      var k :| 0 <= k < |front| && Denotes(front[k], minimum, maximum, v);
      assert all[k] == front[k];
    }
    if Denotes(item, minimum, maximum, v) {
      assert all[|front|] == item;
    }
    if ListedIn(all, minimum, maximum, v) {
      var k :| 0 <= k < |all| && Denotes(all[k], minimum, maximum, v);
      assert k < |front| ==> all[k] == front[k];
    }
  }

  // ---------- Wildcards ----------

  predicate WildcardItem(item: string) {
    match SplitOnce(item, '/')
    case None => false
    case Some((base, step)) => IsStar(base) && ParseU32(step) == Some(1)
  }

  predicate WildcardField(text: string) {
    IsStar(text) || exists i :: 0 <= i < |Split(text, ',')| && WildcardItem(Split(text, ',')[i])
  }

  /** Of the written items only a star with a step of one counts as a wildcard, of the fields also a star alone. */
  lemma WildcardMeaning(base: Base, step: Option<nat>)
    requires Fits(base, step)
    ensures WildcardItem(WrittenItem(base, step)) <==> base.Star? && step == Some(1)
    ensures WildcardField("*") && WildcardField("?")
    ensures step.None? ==> (WildcardField(WrittenItem(base, step)) <==> base.Star?)
  {
    NumbersHaveDigits(base);
    if step.Some? {
      SplitOnceMeaning(WrittenBase(base), '/', Decimal(step.value));
      NumberReadBack(step.value);
      StarHasNoDigits(base);
    } else {
      SplitOnceMeaning(WrittenBase(base), '/', "");
      StarHasNoDigits(base);
      PiecesHaveNo(WrittenBase(base), ',', '/');
    }
  }

  lemma StarHasNoDigits(base: Base)
    ensures IsStar(WrittenBase(base)) <==> base.Star?
  {
    match base {
      case Star =>
      case Point(value) => DecimalDigits(value);
      case Span(first, last) => DecimalDigits(first);
    }
    if !base.Star? { assert '0' <= WrittenBase(base)[0] <= '9'; }
  }

  lemma {:induction false} PiecesHaveNo(s: string, separator: char, c: char)
    requires c !in s
    ensures forall piece :: piece in Split(s, separator) ==> SplitOnce(piece, c).None?
  {
    SplitNone(s, separator, c);
    forall piece | piece in Split(s, separator) ensures SplitOnce(piece, c).None? {
      SplitOnceMeaning(piece, c, "");
    }
  }

  lemma {:induction false} SplitNone(s: string, separator: char, c: char)
    requires c !in s
    ensures forall piece :: piece in Split(s, separator) ==> c !in piece
  {
    if s != "" {
      SplitNone(s[1..], separator, c);
      var rest := Split(s[1..], separator);
      assert rest[0] in rest;
    }
  }

  /** A field that counts as a wildcard lists its whole range. */
  lemma WildcardListsAll(text: string, minimum: nat, maximum: nat, values: seq<nat>, v: nat)
    requires WildcardField(text) && FieldMeaning(text, minimum, maximum, values)
    requires minimum <= v <= maximum
    ensures v in values
  {
    var items := Split(text, ',');
    if IsStar(text) {
      assert Split(text[1..], ',') == [""];
      assert items[0] == text;
      assert SplitOnce(text[1..], '/') == None && SplitOnce(text, '/') == None;
      assert Denotes(items[0], minimum, maximum, v);
    } else {
      var i :| 0 <= i < |items| && WildcardItem(items[i]);
      assert Denotes(items[i], minimum, maximum, v);
    }
  }
}
