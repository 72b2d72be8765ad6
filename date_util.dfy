/**
 * The parts of `DateUtil` that compute, over a model of `java.time.LocalDateTime`
 * on the proleptic Gregorian calendar: the time ranges selected by a flag,
 * the rendered difference of two times, the multi-pattern parser and the
 * null-safe formatter. The current time is a parameter.
 */
module Dates {
  import opened Wrappers
  import opened JavaLang
  import Decimal

  const NULL_POINTER: string := "java.lang.NullPointerException"
  const SECONDS_PER_DAY: int := 86400
  const NANOS_PER_SECOND: int := 1_000_000_000

  // ------------------------------------------------------------ date-times

  datatype Date = Date(year: int, month: int, day: int)

  datatype DateTime = DateTime(year: int, month: int, day: int, hour: int, minute: int, second: int, nano: int)

  predicate IsLeap(year: int)
  {
    year % 4 == 0 && (year % 100 != 0 || year % 400 == 0)
  }

  function MonthLength(year: int, month: int): (n: int)
    requires 1 <= month <= 12
    ensures 28 <= n <= 31
  {
    if month == 2 then (if IsLeap(year) then 29 else 28)
    else if month == 4 || month == 6 || month == 9 || month == 11 then 30
    else 31
  }

  predicate ValidDate(d: Date)
  {
    1 <= d.month <= 12 && 1 <= d.day <= MonthLength(d.year, d.month)
  }

  /** A value a `LocalDateTime` can hold (the year range is not bounded here). */
  predicate Valid(t: DateTime)
  {
    && ValidDate(DateOf(t))
    && 0 <= t.hour < 24 && 0 <= t.minute < 60 && 0 <= t.second < 60
    && 0 <= t.nano < NANOS_PER_SECOND
  }

  function DateOf(t: DateTime): Date
  {
    Date(t.year, t.month, t.day)
  }

  function SecondOfDay(t: DateTime): int
  {
    t.hour * 3600 + t.minute * 60 + t.second
  }

  /** A date-time on the date `d` at the second `sod` of the day. */
  function At(d: Date, sod: int, nano: int): (t: DateTime)
    requires 0 <= sod < SECONDS_PER_DAY
    ensures DateOf(t) == d && SecondOfDay(t) == sod && t.nano == nano
    ensures 0 <= t.hour < 24 && 0 <= t.minute < 60 && 0 <= t.second < 60
  {
    var t := DateTime(d.year, d.month, d.day, sod / 3600, (sod % 3600) / 60, sod % 60, nano);
    assert sod == (sod / 3600) * 3600 + ((sod % 3600) / 60) * 60 + sod % 60;
    t
  }

  predicate DateBefore(a: Date, b: Date)
  {
    a.year < b.year || (a.year == b.year && (a.month < b.month || (a.month == b.month && a.day < b.day)))
  }

  /** `a.isBefore(b)`: the time-line order. */
  predicate Before(a: DateTime, b: DateTime)
  {
    || DateBefore(DateOf(a), DateOf(b))
    || (DateOf(a) == DateOf(b) && (SecondOfDay(a) < SecondOfDay(b)
         || (SecondOfDay(a) == SecondOfDay(b) && a.nano < b.nano)))
  }

  predicate NotAfter(a: DateTime, b: DateTime)
  {
    Before(a, b) || a == b
  }

  // --------------------------------------------------------- calendar steps

  function PrevDate(d: Date): (r: Date)
    requires ValidDate(d)
    ensures ValidDate(r) && DateBefore(r, d)
  {
    if d.day > 1 then Date(d.year, d.month, d.day - 1)
    else if d.month > 1 then Date(d.year, d.month - 1, MonthLength(d.year, d.month - 1))
    else Date(d.year - 1, 12, 31)
  }

  /** The next calendar day: the one whose previous day is `d`. */
  function NextDate(d: Date): (r: Date)
    requires ValidDate(d)
    ensures ValidDate(r) && DateBefore(d, r) && PrevDate(r) == d
  {
    if d.day < MonthLength(d.year, d.month) then Date(d.year, d.month, d.day + 1)
    else if d.month < 12 then Date(d.year, d.month + 1, 1)
    else Date(d.year + 1, 1, 1)
  }

  /** `minusDays(n)` on a date. */
  function MinusDays(d: Date, n: nat): (r: Date)
    requires ValidDate(d)
    ensures ValidDate(r)
    ensures n == 0 ==> r == d
    ensures n > 0 ==> DateBefore(r, d)
    decreases n
  {
    if n == 0 then d else MinusDays(PrevDate(d), n - 1)
  }

  /** `minusSeconds(s)`: whole days are borrowed from the date, the nano-of-second is kept. */
  function MinusSeconds(t: DateTime, s: nat): (r: DateTime)
    requires Valid(t)
    ensures Valid(r) && r.nano == t.nano
    ensures s > 0 ==> Before(r, t)
  {
    var total := SecondOfDay(t) - s;
    var shift := total / SECONDS_PER_DAY;
    assert shift <= 0;
    var r := At(MinusDays(DateOf(t), -shift), total % SECONDS_PER_DAY, t.nano);
    assert shift == 0 ==> total % SECONDS_PER_DAY == total;
    r
  }

  /** The last valid day of the month when the day does not exist there (`resolvePreviousValid`). */
  function Clamp(year: int, month: int, day: int): (d: Date)
    requires 1 <= month <= 12 && 1 <= day
    ensures ValidDate(d) && d.year == year && d.month == month && d.day <= day
  {
    Date(year, month, if day <= MonthLength(year, month) then day else MonthLength(year, month))
  }

  /** `minusMonths(k)`. */
  function MinusMonths(t: DateTime, k: nat): (r: DateTime)
    requires Valid(t)
    ensures Valid(r) && SecondOfDay(r) == SecondOfDay(t) && r.nano == t.nano
    ensures k > 0 ==> Before(r, t)
  {
    var count := t.year * 12 + (t.month - 1) - k;
    var year := count / 12;
    var month := count % 12 + 1;
    assert year <= t.year && (year == t.year ==> month <= t.month) && (k > 0 && year == t.year ==> month < t.month);
    At(Clamp(year, month, t.day), SecondOfDay(t), t.nano)
  }

  /** `minusYears(k)`. */
  function MinusYears(t: DateTime, k: nat): (r: DateTime)
    requires Valid(t)
    ensures Valid(r) && SecondOfDay(r) == SecondOfDay(t) && r.nano == t.nano
    ensures k > 0 ==> Before(r, t)
  {
    At(Clamp(t.year - k, t.month, t.day), SecondOfDay(t), t.nano)
  }

  /** `toLocalDate().atStartOfDay()`. */
  function StartOfDay(t: DateTime): (r: DateTime)
    requires Valid(t)
    ensures Valid(r) && DateOf(r) == DateOf(t) && SecondOfDay(r) == 0 && r.nano == 0
    ensures NotAfter(r, t)
  {
    DateTime(t.year, t.month, t.day, 0, 0, 0, 0)
  }

  // ------------------------------------------------------------ time ranges

  const START_KEY: string := "start"
  const END_KEY: string := "end"
  const INVALID_FLAG: string := "Invalid time range flag: "

  /** The flags `getTimeRageByRageFlag` accepts ("4", the custom range, is not one of them). */
  const FLAGS: set<string> := {"0", "1", "2", "3", "5", "6", "7", "8", "9", "10"}

  /** The start of the range a flag selects, ending at `now`. */
  function RangeStart(flag: string, now: DateTime): (start: Option<DateTime>)
    requires Valid(now)
    ensures start.Some? <==> flag in FLAGS
    ensures start.Some? ==> Valid(start.value) && NotAfter(start.value, now)
    ensures start.Some? && flag != "1" ==> Before(start.value, now)
  {
    match flag
    case "0" => Some(MinusSeconds(now, 3600))
    case "1" => Some(StartOfDay(now))
    case "2" => Some(DaysBefore(now, 1))
    case "3" => Some(DaysBefore(now, 7))
    case "5" => Some(DaysBefore(now, 3))
    case "6" => Some(DaysBefore(now, 30))
    case "7" => Some(MinusYears(now, 1))
    case "8" => Some(MinusSeconds(now, 600))
    case "9" => Some(MinusMonths(now, 3))
    case "10" => Some(MinusMonths(now, 6))
    case _ => None
  }

  /** `minusDays(n)` on a date-time: the time of day is kept. */
  function DaysBefore(t: DateTime, n: nat): (r: DateTime)
    requires Valid(t)
    ensures Valid(r) && SecondOfDay(r) == SecondOfDay(t) && r.nano == t.nano
    ensures n > 0 ==> Before(r, t)
  {
    At(MinusDays(DateOf(t), n), SecondOfDay(t), t.nano)
  }

  /**
   * `getTimeRageByRageFlag`: the map {"start": ..., "end": now}. A flag
   * outside the list throws `IllegalArgumentException`; a null flag makes
   * the string switch throw `NullPointerException`.
   */
  function TimeRange(flag: Option<string>, now: DateTime): (r: Result<map<string, DateTime>, string>)
    requires Valid(now)
    ensures r.Ok? <==> flag.Some? && flag.value in FLAGS
    ensures flag.None? ==> r == Err(NULL_POINTER)
    ensures flag.Some? && flag.value !in FLAGS ==> r == Err(INVALID_FLAG + flag.value)
    ensures r.Ok? ==> r.value.Keys == {START_KEY, END_KEY} && r.value[END_KEY] == now
    ensures r.Ok? ==> Valid(r.value[START_KEY]) && NotAfter(r.value[START_KEY], now)
    ensures r.Ok? && flag.value != "1" ==> Before(r.value[START_KEY], now)
  {
    if flag.None? then Err(NULL_POINTER)
    else
      var start := RangeStart(flag.value, now);
      if start.None? then Err(INVALID_FLAG + flag.value)
      else Ok(map[START_KEY := start.value, END_KEY := now])
  }

  // ------------------------------------------------------- time difference

  /** `LocalDate.toEpochDay`, with Java's truncating division. */
  function EpochDay(d: Date): int
  {
    var y := d.year;
    var m := d.month;
    var leapDays := if y >= 0 then (y + 3) / 4 - (y + 99) / 100 + (y + 399) / 400
                    else -(Quot(-y, 4) - Quot(-y, 100) + Quot(-y, 400));
    var total := 365 * y + leapDays + (367 * m - 362) / 12 + d.day - 1;
    var adjusted := if m > 2 then (if IsLeap(y) then total - 1 else total - 2) else total;
    adjusted - 719528
  }

  /** The whole seconds of `Duration.between(start, end)` (the duration's seconds are floored). */
  function DurationSeconds(start: DateTime, end: DateTime): int
  {
    var nanos := ((EpochDay(DateOf(end)) - EpochDay(DateOf(start))) * SECONDS_PER_DAY
                  + SecondOfDay(end) - SecondOfDay(start)) * NANOS_PER_SECOND + end.nano - start.nano;
    nanos / NANOS_PER_SECOND
  }

  /** `toDays()`, `toHours() % 24` and `toMinutes() % 60` of a duration of `seconds`. */
  function DifferenceParts(seconds: int): (parts: (int, int, int))
  {
    (Quot(seconds, SECONDS_PER_DAY), Rem(Quot(seconds, 3600), 24), Rem(Quot(seconds, 60), 60))
  }

  /** Truncating twice by 3600 and 24, or by 60 and 60, is truncating once by their product. */
  lemma NestedQuot(a: int)
    ensures Quot(Quot(a, 3600), 24) == Quot(a, SECONDS_PER_DAY)
    ensures Quot(Quot(a, 60), 60) == Quot(a, 3600)
  {
    var n := if a >= 0 then a else -a;
    var q := n / SECONDS_PER_DAY;
    var r := n % SECONDS_PER_DAY;
    assert n / 3600 == 24 * q + r / 3600;
    assert (n / 3600) / 24 == q;
    var q2 := n / 3600;
    var r2 := n % 3600;
    assert n / 60 == 60 * q2 + r2 / 60;
    assert (n / 60) / 60 == q2;
  }

  /** The three parts give back the whole minutes, and each lies in its range with the duration's sign. */
  lemma DifferencePartsSum(seconds: int)
    ensures var (days, hours, minutes) := DifferenceParts(seconds);
      days * 1440 + hours * 60 + minutes == Quot(seconds, 60)
    ensures var (days, hours, minutes) := DifferenceParts(seconds);
      seconds >= 0 ==> days >= 0 && 0 <= hours < 24 && 0 <= minutes < 60
    ensures var (days, hours, minutes) := DifferenceParts(seconds);
      seconds < 0 ==> days <= 0 && -24 < hours <= 0 && -60 < minutes <= 0
  {
    NestedQuot(seconds);
  }

  /** `getTimeDifference(endTime, startTime)`: "<days>天<hours>小时<minutes>分钟". */
  function TimeDifference(end: DateTime, start: DateTime): (s: string)
  {
    var (days, hours, minutes) := DifferenceParts(DurationSeconds(start, end));
    Decimal.IntToString(days) + "天" + Decimal.IntToString(hours) + "小时" + Decimal.IntToString(minutes) + "分钟"
  }

  /** The rendering reads back: the numbers sit between the unit words. */
  lemma TimeDifferenceReads(end: DateTime, start: DateTime)
    ensures var (days, hours, minutes) := DifferenceParts(DurationSeconds(start, end));
      var d := Decimal.IntToString(days);
      var h := Decimal.IntToString(hours);
      var m := Decimal.IntToString(minutes);
      TimeDifference(end, start) == d + "天" + h + "小时" + m + "分钟"
      && Decimal.ParseInt(d) == days && Decimal.ParseInt(h) == hours && Decimal.ParseInt(m) == minutes
  {
    var (days, hours, minutes) := DifferenceParts(DurationSeconds(start, end));
    Decimal.IntRoundTrip(days);
    Decimal.IntRoundTrip(hours);
    Decimal.IntRoundTrip(minutes);
  }

  // -------------------------------------------------------------- patterns

  /** A pattern letter run of the patterns used here, or a literal character. */
  datatype Item = YearField | MonthField | DayField | HourField | MinuteField | SecondField | Literal(c: char)

  type Pattern = seq<Item>

  function ItemText(item: Item): (s: string)
    ensures |s| == if item == YearField then 4 else if item.Literal? then 1 else 2
  {
    match item
    case YearField => "yyyy"
    case MonthField => "MM"
    case DayField => "dd"
    case HourField => "HH"
    case MinuteField => "mm"
    case SecondField => "ss"
    case Literal(c) => [c]
  }

  /** The pattern string. */
  function Text(p: Pattern): string
    decreases |p|
  {
    if p == [] then "" else ItemText(p[0]) + Text(p[1..])
  }

  lemma {:induction false} TextAppend(p: Pattern, q: Pattern)
    ensures Text(p + q) == Text(p) + Text(q)
    decreases |p|
  {
    if p == [] {
      assert p + q == q;
    } else {
      assert (p + q)[1..] == p[1..] + q;
      TextAppend(p[1..], q);
    }
  }

  lemma TextCons(x: Item, p: Pattern)
    ensures Text([x] + p) == ItemText(x) + Text(p)
  {
    assert ([x] + p)[1..] == p;
  }

  function DatePattern(sep: char): Pattern
  {
    [YearField, Literal(sep), MonthField, Literal(sep), DayField]
  }

  function MinutePattern(sep: char): Pattern
  {
    DatePattern(sep) + [Literal(' '), HourField, Literal(':'), MinuteField]
  }

  function SecondPattern(sep: char): Pattern
  {
    MinutePattern(sep) + [Literal(':'), SecondField]
  }

  function MonthPattern(sep: char): Pattern
  {
    [YearField, Literal(sep), MonthField]
  }

  /** The four patterns with one separator, in list order. */
  function Family(sep: char): seq<Pattern>
  {
    [DatePattern(sep), SecondPattern(sep), MinutePattern(sep), MonthPattern(sep)]
  }

  /** `PARSE_PATTERNS`, in list order. */
  const PARSE_PATTERNS: seq<Pattern> := Family('-') + Family('/') + Family('.')

  lemma DateText(sep: char)
    ensures Text(DatePattern(sep)) == "yyyy" + [sep] + "MM" + [sep] + "dd"
  {
    var l := Literal(sep);
    TextCons(DayField, []);
    assert [DayField] + [] == [DayField];
    TextCons(l, [DayField]);
    TextCons(MonthField, [l, DayField]);
    assert [MonthField] + [l, DayField] == [MonthField, l, DayField];
    TextCons(l, [MonthField, l, DayField]);
    assert [l] + [MonthField, l, DayField] == [l, MonthField, l, DayField];
    TextCons(YearField, [l, MonthField, l, DayField]);
    assert [YearField] + [l, MonthField, l, DayField] == DatePattern(sep);
  }

  lemma MonthText(sep: char)
    ensures Text(MonthPattern(sep)) == "yyyy" + [sep] + "MM"
  {
    var l := Literal(sep);
    TextCons(MonthField, []);
    assert [MonthField] + [] == [MonthField];
    TextCons(l, [MonthField]);
    TextCons(YearField, [l, MonthField]);
    assert [YearField] + [l, MonthField] == MonthPattern(sep);
  }

  lemma TimeText()
    ensures Text([Literal(' '), HourField, Literal(':'), MinuteField]) == " HH:mm"
    ensures Text([Literal(':'), SecondField]) == ":ss"
  {
    TextCons(MinuteField, []);
    assert [MinuteField] + [] == [MinuteField];
    TextCons(Literal(':'), [MinuteField]);
    TextCons(HourField, [Literal(':'), MinuteField]);
    assert [HourField] + [Literal(':'), MinuteField] == [HourField, Literal(':'), MinuteField];
    TextCons(Literal(' '), [HourField, Literal(':'), MinuteField]);
    assert [Literal(' ')] + [HourField, Literal(':'), MinuteField] == [Literal(' '), HourField, Literal(':'), MinuteField];
    TextCons(SecondField, []);
    assert [SecondField] + [] == [SecondField];
    TextCons(Literal(':'), [SecondField]);
  }

  /** The patterns spell the pattern strings of the list. */
  lemma FamilyTexts(sep: char)
    ensures Text(DatePattern(sep)) == "yyyy" + [sep] + "MM" + [sep] + "dd"
    ensures Text(MonthPattern(sep)) == "yyyy" + [sep] + "MM"
    ensures Text(MinutePattern(sep)) == "yyyy" + [sep] + "MM" + [sep] + "dd HH:mm"
    ensures Text(SecondPattern(sep)) == "yyyy" + [sep] + "MM" + [sep] + "dd HH:mm:ss"
  {
    DateText(sep);
    MonthText(sep);
    TimeText();
    TextAppend(DatePattern(sep), [Literal(' '), HourField, Literal(':'), MinuteField]);
    TextAppend(MinutePattern(sep), [Literal(':'), SecondField]);
  }

  /** The widths `pattern.length()` compares the text with. */
  lemma FamilyLengths(sep: char)
    ensures |Text(DatePattern(sep))| == 10 && |Text(SecondPattern(sep))| == 19
    ensures |Text(MinutePattern(sep))| == 16 && |Text(MonthPattern(sep))| == 7
  {
    FamilyTexts(sep);
  }

  /** Pattern `j` of the list is pattern `j % 4` of the family of separator `j / 4`. */
  lemma PatternAt(j: nat)
    requires j < |PARSE_PATTERNS|
    ensures PARSE_PATTERNS[j] == Family("-/."[j / 4])[j % 4]
  {
    var k := j / 4;
    assert PARSE_PATTERNS[4 * k..4 * k + 4] == Family("-/."[k]);
  }

  // ---------------------------------------------------------------- parsing

  /** The fields a text supplies. */
  datatype Fields = Fields(year: Option<int>, month: Option<int>, day: Option<int>,
                           hour: Option<int>, minute: Option<int>, second: Option<int>)

  const NO_FIELDS: Fields := Fields(None, None, None, None, None, None)

  predicate AllDigits(s: string)
  {
    forall i | 0 <= i < |s| :: Decimal.IsDigit(s[i])
  }

  function Record(f: Fields, item: Item, value: int): Fields
  {
    match item
    case YearField => f.(year := Some(value))
    case MonthField => f.(month := Some(value))
    case DayField => f.(day := Some(value))
    case HourField => f.(hour := Some(value))
    case MinuteField => f.(minute := Some(value))
    case SecondField => f.(second := Some(value))
    case Literal(_) => f
  }

  /**
   * Reads the text item by item: a literal must match exactly, a field must
   * be its width in ASCII digits, and nothing may be left over.
   */
  function Scan(p: Pattern, s: string, f: Fields): (r: Option<Fields>)
    decreases |p|
  {
    if p == [] then (if s == [] then Some(f) else None)
    else
      var w := |ItemText(p[0])|;
      if |s| < w then None
      else if p[0].Literal? then
        (if s[0] == p[0].c then Scan(p[1..], s[1..], f) else None)
      else if AllDigits(s[..w]) then Scan(p[1..], s[w..], Record(f, p[0], Decimal.ParseDigits(s[..w])))
      else None
  }

  /**
   * Resolving the parsed fields to a `LocalDateTime` in the formatter's
   * smart mode: a year of era from 1, month 1..12, day 1..31 moved back to
   * the month's last day, hour 0..24, minute and second 0..59 (0 when
   * absent). Hour 24 is accepted only with minute and second 0, and is the
   * midnight that ends the day: the start of the next day. Without a day or
   * an hour there is no date-time.
   */
  function Resolve(f: Fields): (r: Option<DateTime>)
    ensures r.Some? ==> Valid(r.value) && r.value.nano == 0
    ensures r.Some? ==> f.year.Some? && f.month.Some? && f.hour.Some? && f.day.Some?
    ensures r.Some? && f.hour.value < 24 ==>
      r.value.hour == f.hour.value && r.value.minute == f.minute.GetOr(0) && r.value.second == f.second.GetOr(0)
      && r.value.year == f.year.value && r.value.month == f.month.value && r.value.day <= f.day.value
  {
    if f.year.None? || f.month.None? || f.day.None? || f.hour.None? then None
    else
      var minute := f.minute.GetOr(0);
      var second := f.second.GetOr(0);
      if !(1 <= f.year.value && 1 <= f.month.value <= 12 && 1 <= f.day.value <= 31
           && 0 <= f.hour.value <= 24 && 0 <= minute < 60 && 0 <= second < 60) then None
      else
        var d := Clamp(f.year.value, f.month.value, f.day.value);
        if f.hour.value < 24 then Some(DateTime(d.year, d.month, d.day, f.hour.value, minute, second, 0))
        else if minute == 0 && second == 0 then
          var n := NextDate(d);
          Some(DateTime(n.year, n.month, n.day, 0, 0, 0, 0))
        else None
  }

  /** "24:00" (and "24:00:00") on a day is the first instant of the following day. */
  lemma EndOfDayIsNextMidnight(f: Fields)
    requires f.year.Some? && f.month.Some? && f.day.Some? && f.hour == Some(24)
    requires 1 <= f.year.value && 1 <= f.month.value <= 12 && 1 <= f.day.value <= 31
    ensures Resolve(f).Some? <==> f.minute.GetOr(0) == 0 && f.second.GetOr(0) == 0
    ensures Resolve(f).Some? ==>
      var t := Resolve(f).value;
      SecondOfDay(t) == 0 && PrevDate(DateOf(t)) == Clamp(f.year.value, f.month.value, f.day.value)
  {
  }

  /** `LocalDateTime.parse(text, ofPattern(p))`, `None` when it throws. */
  function Parse(p: Pattern, s: string): Option<DateTime>
  {
    var f := Scan(p, s, NO_FIELDS);
    if f.None? then None else Resolve(f.value)
  }

  const PARSE_FAILURE: string := "无法解析日期字符串: "

  /**
   * The loop of `parseFlexible` from pattern `i` on: patterns of another
   * length are skipped, a failed parse is swallowed, the first success is
   * returned. With a null text `length()` throws inside the `try`, the throw
   * is swallowed too, and every pattern is passed over.
   */
  function ParseFrom(patterns: seq<Pattern>, i: nat, dateStr: Option<string>): (r: Option<DateTime>)
    requires i <= |patterns|
    ensures r.Some? ==> Valid(r.value)
    decreases |patterns| - i
  {
    if i == |patterns| then None
    else if dateStr.Some? && |Text(patterns[i])| == |dateStr.value| && Parse(patterns[i], dateStr.value).Some? then
      Parse(patterns[i], dateStr.value)
    else ParseFrom(patterns, i + 1, dateStr)
  }

  /** What `ParseFrom` returns comes from a pattern of the text's length. */
  lemma {:induction false} ParseFromPicks(patterns: seq<Pattern>, i: nat, dateStr: Option<string>)
    requires i <= |patterns|
    ensures ParseFrom(patterns, i, dateStr).Some? ==> dateStr.Some? && exists j | i <= j < |patterns| ::
      |Text(patterns[j])| == |dateStr.value| && Parse(patterns[j], dateStr.value) == ParseFrom(patterns, i, dateStr)
    decreases |patterns| - i
  {
    if i < |patterns| {
      ParseFromPicks(patterns, i + 1, dateStr);
    }
  }

  /** `parseFlexible` as written: `IllegalArgumentException` when no pattern parses. */
  function ParseFlexibleAsWritten(dateStr: Option<string>): (r: Result<DateTime, string>)
    ensures r.Err? ==> r.error == PARSE_FAILURE + Str(dateStr)
    ensures r.Ok? ==> Valid(r.value)
  {
    var t := ParseFrom(PARSE_PATTERNS, 0, dateStr);
    if t.None? then Err(PARSE_FAILURE + Str(dateStr)) else Ok(t.value)
  }

  /** Scanning a pattern without an hour leaves the hour unset. */
  lemma {:induction false} ScanKeepsHour(p: Pattern, s: string, f: Fields)
    requires f.hour.None? && HourField !in p
    ensures Scan(p, s, f).Some? ==> Scan(p, s, f).value.hour.None?
    decreases |p|
  {
    if p != [] && |s| >= |ItemText(p[0])| {
      var w := |ItemText(p[0])|;
      if p[0].Literal? {
        ScanKeepsHour(p[1..], s[1..], f);
      } else if AllDigits(s[..w]) {
        ScanKeepsHour(p[1..], s[w..], Record(f, p[0], Decimal.ParseDigits(s[..w])));
      }
    }
  }

  /** Every pattern of the list without an hour is a date or year-month pattern; the others are 16 or 19 long. */
  lemma PatternShapes(j: nat)
    requires j < |PARSE_PATTERNS|
    ensures HourField !in PARSE_PATTERNS[j] || |Text(PARSE_PATTERNS[j])| == 16 || |Text(PARSE_PATTERNS[j])| == 19
  {
    PatternAt(j);
    FamilyShapes("-/."[j / 4], j % 4);
  }

  lemma FamilyShapes(sep: char, m: nat)
    requires m < 4
    ensures HourField !in Family(sep)[m] || |Text(Family(sep)[m])| == 16 || |Text(Family(sep)[m])| == 19
  {
    FamilyLengths(sep);
    if m == 0 {
      assert Family(sep)[m] == DatePattern(sep);
    } else if m == 3 {
      assert Family(sep)[m] == MonthPattern(sep);
    }
  }

  /**
   * As written, only texts with a time can parse: a date pattern or a
   * year-month pattern has no hour, so `LocalDateTime.parse` always throws.
   */
  lemma OnlyTimesParse(dateStr: string)
    ensures ParseFlexibleAsWritten(Some(dateStr)).Ok? ==> |dateStr| == 16 || |dateStr| == 19
  {
    ParseFromPicks(PARSE_PATTERNS, 0, Some(dateStr));
    if ParseFrom(PARSE_PATTERNS, 0, Some(dateStr)).Some? {
      var j :| 0 <= j < |PARSE_PATTERNS| && |Text(PARSE_PATTERNS[j])| == |dateStr|
        && Parse(PARSE_PATTERNS[j], dateStr) == ParseFrom(PARSE_PATTERNS, 0, Some(dateStr));
      PatternShapes(j);
      if HourField !in PARSE_PATTERNS[j] {
        ScanKeepsHour(PARSE_PATTERNS[j], dateStr, NO_FIELDS);
      }
    }
  }

  /** The failing call: "2024-01-01" has the form of the first pattern and is refused. */
  lemma DateOnlyRefused()
    ensures ParseFlexibleAsWritten(Some("2024-01-01")).Err?
  {
    OnlyTimesParse("2024-01-01");
  }

  /**
   * `Resolve` as intended for the date patterns: a missing day is the first
   * of the month and a missing time is the start of the day.
   */
  function ResolveAtStart(f: Fields): (r: Option<DateTime>)
    ensures r.Some? ==> Valid(r.value) && r.value.nano == 0
    ensures f.hour.Some? && f.day.Some? ==> r == Resolve(f)
  {
    Resolve(f.(day := if f.day.Some? then f.day else Some(1), hour := if f.hour.Some? then f.hour else Some(0)))
  }

  function ParseAtStart(p: Pattern, s: string): Option<DateTime>
  {
    var f := Scan(p, s, NO_FIELDS);
    if f.None? then None else ResolveAtStart(f.value)
  }

  function ParseFromAtStart(patterns: seq<Pattern>, i: nat, dateStr: Option<string>): (r: Option<DateTime>)
    requires i <= |patterns|
    ensures r.Some? ==> Valid(r.value)
    decreases |patterns| - i
  {
    if i == |patterns| then None
    else if dateStr.Some? && |Text(patterns[i])| == |dateStr.value| && ParseAtStart(patterns[i], dateStr.value).Some? then
      ParseAtStart(patterns[i], dateStr.value)
    else ParseFromAtStart(patterns, i + 1, dateStr)
  }

  /** What `ParseFromAtStart` returns comes from a pattern of the text's length, the first that reads it. */
  lemma {:induction false} ParseFromAtStartPicks(patterns: seq<Pattern>, i: nat, dateStr: Option<string>)
    requires i <= |patterns|
    ensures ParseFromAtStart(patterns, i, dateStr).Some? ==> dateStr.Some? && exists j | i <= j < |patterns| ::
      && |Text(patterns[j])| == |dateStr.value| && ParseAtStart(patterns[j], dateStr.value) == ParseFromAtStart(patterns, i, dateStr)
      && forall k | i <= k < j :: !(|Text(patterns[k])| == |dateStr.value| && ParseAtStart(patterns[k], dateStr.value).Some?)
    decreases |patterns| - i
  {
    if i < |patterns| {
      ParseFromAtStartPicks(patterns, i + 1, dateStr);
    }
  }

  /** `parseFlexible` as intended: date and year-month texts parse to the start of their first day. */
  function ParseFlexible(dateStr: Option<string>): (r: Result<DateTime, string>)
    ensures r.Err? ==> r.error == PARSE_FAILURE + Str(dateStr)
    ensures r.Ok? ==> Valid(r.value)
  {
    var t := ParseFromAtStart(PARSE_PATTERNS, 0, dateStr);
    if t.None? then Err(PARSE_FAILURE + Str(dateStr)) else Ok(t.value)
  }

  // ------------------------------------------------------------- formatting

  /** Formats one item: the year of era padded to four digits (with a '+' beyond 9999), the rest to two. */
  function FormatItem(item: Item, t: DateTime): string
  {
    match item
    case YearField =>
      var yoe := if t.year >= 1 then t.year else 1 - t.year;
      if yoe > 9999 then "+" + Decimal.NatToString(yoe) else Digits(yoe, 4)
    case MonthField => Digits(if t.month >= 0 then t.month else 0, 2)
    case DayField => Digits(if t.day >= 0 then t.day else 0, 2)
    case HourField => Digits(if t.hour >= 0 then t.hour else 0, 2)
    case MinuteField => Digits(if t.minute >= 0 then t.minute else 0, 2)
    case SecondField => Digits(if t.second >= 0 then t.second else 0, 2)
    case Literal(c) => [c]
  }

  /** `n` in exactly `width` decimal digits, leading zeros included (the lowest digits when it does not fit). */
  function Digits(n: nat, width: nat): (s: string)
    ensures |s| == width && AllDigits(s)
    ensures n < Power10(width) ==> Decimal.ParseDigits(s) == n
    decreases width
  {
    if width == 0 then ""
    else
      var s := Digits(n / 10, width - 1) + [Decimal.DigitChar(n % 10)];
      assert s[..|s| - 1] == Digits(n / 10, width - 1);
      s
  }

  function Power10(k: nat): (p: nat)
    ensures p >= 1
  {
    if k == 0 then 1 else 10 * Power10(k - 1)
  }

  /** `DateTimeFormatter.format` with a pattern of these items. */
  function Format(p: Pattern, t: DateTime): string
    decreases |p|
  {
    if p == [] then "" else FormatItem(p[0], t) + Format(p[1..], t)
  }

  /** `safeFormat`: the default for a null date-time, otherwise the formatted date-time. */
  function SafeFormat(dateTime: Option<DateTime>, pattern: Pattern, defaultValue: string): (s: string)
    ensures dateTime.None? ==> s == defaultValue
    ensures dateTime.Some? ==> s == Format(pattern, dateTime.value)
  {
    if dateTime.None? then defaultValue else Format(pattern, dateTime.value)
  }

  // ------------------------------------------------------------ round trips

  /** A date-time every item of these patterns prints at its own width. */
  predicate Printable(t: DateTime)
  {
    Valid(t) && 1 <= t.year <= 9999
  }

  /**
   * The fields of `t` print at their pattern widths. This holds for every
   * printable date-time, and also for the hour 24 that a text may give.
   */
  predicate Fits(t: DateTime)
  {
    1 <= t.year <= 9999 && 0 <= t.month < 100 && 0 <= t.day < 100
    && 0 <= t.hour < 100 && 0 <= t.minute < 100 && 0 <= t.second < 100
  }

  /** The value a field item prints and reads. */
  function FieldValue(item: Item, t: DateTime): int
  {
    match item
    case YearField => t.year
    case MonthField => t.month
    case DayField => t.day
    case HourField => t.hour
    case MinuteField => t.minute
    case SecondField => t.second
    case Literal(_) => 0
  }

  /** The fields left after reading, item by item, what `t` prints. */
  function Fill(p: Pattern, t: DateTime, f: Fields): Fields
    decreases |p|
  {
    if p == [] then f else Fill(p[1..], t, Record(f, p[0], FieldValue(p[0], t)))
  }

  lemma {:induction false} FillFields(p: Pattern, t: DateTime, f: Fields)
    ensures Fill(p, t, f).year == if YearField in p then Some(t.year) else f.year
    ensures Fill(p, t, f).month == if MonthField in p then Some(t.month) else f.month
    ensures Fill(p, t, f).day == if DayField in p then Some(t.day) else f.day
    ensures Fill(p, t, f).hour == if HourField in p then Some(t.hour) else f.hour
    ensures Fill(p, t, f).minute == if MinuteField in p then Some(t.minute) else f.minute
    ensures Fill(p, t, f).second == if SecondField in p then Some(t.second) else f.second
    decreases |p|
  {
    if p != [] {
      FillFields(p[1..], t, Record(f, p[0], FieldValue(p[0], t)));
      assert forall x :: x in p <==> x == p[0] || x in p[1..];
    }
  }

  lemma FormatItemReads(item: Item, t: DateTime)
    requires Fits(t)
    ensures |FormatItem(item, t)| == |ItemText(item)|
    ensures item.Literal? ==> FormatItem(item, t) == [item.c]
    ensures !item.Literal? ==>
      AllDigits(FormatItem(item, t)) && Decimal.ParseDigits(FormatItem(item, t)) == FieldValue(item, t)
  {
    assert Power10(2) == 100 && Power10(4) == 10000;
  }

  /** Reading what a printable date-time prints with a pattern records each of its fields. */
  lemma {:induction false} ScanFormat(p: Pattern, t: DateTime, f: Fields)
    requires Fits(t)
    ensures Scan(p, Format(p, t), f) == Some(Fill(p, t, f))
    ensures |Format(p, t)| == |Text(p)|
    decreases |p|
  {
    if p != [] {
      var a := FormatItem(p[0], t);
      var b := Format(p[1..], t);
      FormatItemReads(p[0], t);
      var w := |ItemText(p[0])|;
      assert (a + b)[..w] == a && (a + b)[w..] == b;
      ScanFormat(p[1..], t, Record(f, p[0], FieldValue(p[0], t)));
      if p[0].Literal? {
        assert Record(f, p[0], FieldValue(p[0], t)) == f;
      }
    }
  }

  /** The formatted text of a printable date-time parses back to it with a pattern that has every field. */
  lemma FormatParses(p: Pattern, t: DateTime)
    requires Printable(t) && t.nano == 0
    requires YearField in p && MonthField in p && DayField in p && HourField in p && MinuteField in p && SecondField in p
    ensures Parse(p, Format(p, t)) == Some(t)
  {
    ScanFormat(p, t, NO_FIELDS);
    FillFields(p, t, NO_FIELDS);
  }

  /** The first two patterns of the list and their widths. */
  lemma FirstPatterns()
    ensures PARSE_PATTERNS[0] == DatePattern('-') && |Text(PARSE_PATTERNS[0])| == 10
    ensures PARSE_PATTERNS[1] == SecondPattern('-') && |Text(PARSE_PATTERNS[1])| == 19
  {
    PatternAt(0);
    PatternAt(1);
    FamilyLengths('-');
  }

  lemma SecondsParse(t: DateTime)
    requires Printable(t) && t.nano == 0
    ensures Parse(SecondPattern('-'), Format(SecondPattern('-'), t)) == Some(t)
    ensures |Format(SecondPattern('-'), t)| == 19
  {
    var p := SecondPattern('-');
    assert p[0] == YearField && p[2] == MonthField && p[4] == DayField;
    assert p[6] == HourField && p[8] == MinuteField && p[10] == SecondField;
    FormatParses(p, t);
    ScanFormat(p, t, NO_FIELDS);
    FamilyLengths('-');
  }

  /** A time printed as "yyyy-MM-dd HH:mm:ss" is read back by `parseFlexible` as written. */
  lemma SecondsRoundTrip(t: DateTime)
    requires Printable(t) && t.nano == 0
    ensures ParseFlexibleAsWritten(Some(Format(SecondPattern('-'), t))) == Ok(t)
  {
    var s := Format(SecondPattern('-'), t);
    SecondsParse(t);
    FirstPatterns();
    var ps := PARSE_PATTERNS;
    assert ParseFrom(ps, 1, Some(s)) == Some(t);
    assert ParseFrom(ps, 0, Some(s)) == Some(t);
  }

  /** The formatted text of a printable date with a pattern that has no time is read back as the start of the day. */
  lemma FormatParsesAtStart(p: Pattern, t: DateTime)
    requires Printable(t)
    requires YearField in p && MonthField in p && DayField in p
    requires HourField !in p && MinuteField !in p && SecondField !in p
    ensures ParseAtStart(p, Format(p, t)) == Some(StartOfDay(t))
  {
    ScanFormat(p, t, NO_FIELDS);
    FillFields(p, t, NO_FIELDS);
    assert Clamp(t.year, t.month, t.day) == DateOf(t);
  }

  lemma DateParse(t: DateTime)
    requires Printable(t)
    ensures ParseAtStart(DatePattern('-'), Format(DatePattern('-'), t)) == Some(StartOfDay(t))
    ensures |Format(DatePattern('-'), t)| == 10
  {
    var p := DatePattern('-');
    assert p[0] == YearField && p[2] == MonthField && p[4] == DayField;
    FormatParsesAtStart(p, t);
    ScanFormat(p, t, NO_FIELDS);
    FamilyLengths('-');
  }

  /** A date printed as "yyyy-MM-dd" is read back by the corrected `parseFlexible` as the start of that day. */
  lemma DateRoundTrip(t: DateTime)
    requires Printable(t)
    ensures ParseFlexible(Some(Format(DatePattern('-'), t))) == Ok(StartOfDay(t))
  {
    var s := Format(DatePattern('-'), t);
    DateParse(t);
    FirstPatterns();
    var ps := PARSE_PATTERNS;
    assert ParseFromAtStart(ps, 0, Some(s)) == Some(StartOfDay(t));
  }

  /** Corrected: a pattern with a year and a month only reads its output as midnight on the first of the month. */
  lemma FormatParsesAtMonthStart(p: Pattern, t: DateTime)
    requires Printable(t)
    requires YearField in p && MonthField in p
    requires DayField !in p && HourField !in p && MinuteField !in p && SecondField !in p
    ensures ParseAtStart(p, Format(p, t)) == Some(DateTime(t.year, t.month, 1, 0, 0, 0, 0))
  {
    ScanFormat(p, t, NO_FIELDS);
    FillFields(p, t, NO_FIELDS);
    assert Clamp(t.year, t.month, 1) == Date(t.year, t.month, 1);
  }

  lemma MonthParse(t: DateTime)
    requires Printable(t)
    ensures ParseAtStart(MonthPattern('-'), Format(MonthPattern('-'), t)) == Some(DateTime(t.year, t.month, 1, 0, 0, 0, 0))
    ensures |Format(MonthPattern('-'), t)| == 7
  {
    var p := MonthPattern('-');
    assert p[0] == YearField && p[2] == MonthField;
    FormatParsesAtMonthStart(p, t);
    ScanFormat(p, t, NO_FIELDS);
    FamilyLengths('-');
  }

  /** A 7-character text the month pattern reads is what the corrected `parseFlexible` returns. */
  lemma MonthTextPicked(s: string, x: DateTime)
    requires |s| == 7 && ParseAtStart(MonthPattern('-'), s) == Some(x)
    ensures ParseFlexible(Some(s)) == Ok(x)
  {
    FirstThreePatterns();
    PatternAt(3);
    FamilyLengths('-');
    var ps := PARSE_PATTERNS;
    assert ps[3] == MonthPattern('-') && |Text(ps[3])| == 7;
    assert ParseFromAtStart(ps, 3, Some(s)) == Some(x);
    assert ParseFromAtStart(ps, 2, Some(s)) == Some(x);
    assert ParseFromAtStart(ps, 1, Some(s)) == Some(x);
    assert ParseFromAtStart(ps, 0, Some(s)) == Some(x);
  }

  /** The corrected `parseFlexible` reads a "yyyy-MM" text as midnight on the first of that month. */
  lemma MonthRoundTrip(t: DateTime)
    requires Printable(t)
    ensures ParseFlexible(Some(Format(MonthPattern('-'), t))) == Ok(DateTime(t.year, t.month, 1, 0, 0, 0, 0))
  {
    MonthParse(t);
    MonthTextPicked(Format(MonthPattern('-'), t), DateTime(t.year, t.month, 1, 0, 0, 0, 0));
  }

  /** The first three patterns of the list and their widths. */
  lemma FirstThreePatterns()
    ensures PARSE_PATTERNS[0] == DatePattern('-') && |Text(PARSE_PATTERNS[0])| == 10
    ensures PARSE_PATTERNS[1] == SecondPattern('-') && |Text(PARSE_PATTERNS[1])| == 19
    ensures PARSE_PATTERNS[2] == MinutePattern('-') && |Text(PARSE_PATTERNS[2])| == 16
  {
    FirstPatterns();
    PatternAt(2);
  }

  lemma {:induction false} FormatAppend(p: Pattern, q: Pattern, t: DateTime)
    ensures Format(p + q, t) == Format(p, t) + Format(q, t)
    decreases |p|
  {
    if p == [] {
      assert p + q == q;
    } else {
      assert (p + q)[1..] == p[1..] + q;
      FormatAppend(p[1..], q, t);
    }
  }

  /** Two date-times whose items print alike print alike with the whole pattern. */
  lemma {:induction false} FormatAlike(p: Pattern, t: DateTime, u: DateTime)
    requires forall i | 0 <= i < |p| :: FormatItem(p[i], t) == FormatItem(p[i], u)
    ensures Format(p, t) == Format(p, u)
    decreases |p|
  {
    if p != [] {
      assert forall i | 0 <= i < |p[1..]| :: p[1..][i] == p[i + 1];
      FormatAlike(p[1..], t, u);
    }
  }

  lemma TimeDigits()
    ensures Digits(24, 2) == "24" && Digits(0, 2) == "00"
  {
    assert Digits(2, 1) == "2" && Digits(0, 1) == "0";
  }

  /** The items that close a minute pattern. */
  const MINUTE_TAIL: Pattern := [Literal(' '), HourField, Literal(':'), MinuteField]

  lemma MinuteTailText(e: DateTime, tail: Pattern)
    requires |tail| == 4 && tail[0] == Literal(' ') && tail[1] == HourField && tail[2] == Literal(':') && tail[3] == MinuteField
    requires e.hour == 24 && e.minute == 0
    ensures Format(tail, e) == " 24:00"
  {
    var hh := FormatItem(HourField, e);
    var mm := FormatItem(MinuteField, e);
    assert hh == "24" && mm == "00" by {
      TimeDigits();
    }
    assert Format(tail[3..], e) == mm by {
      assert tail[3..][1..] == [];
    }
    assert Format(tail[2..], e) == ":" + mm by {
      assert tail[2..][1..] == tail[3..];
    }
    assert Format(tail[1..], e) == hh + ":" + mm by {
      assert tail[1..][1..] == tail[2..];
    }
  }

  /** A pattern of date items prints two date-times on the same date alike. */
  lemma DateItemsAlike(date: Pattern, t: DateTime, u: DateTime)
    requires forall i | 0 <= i < |date| :: date[i] in {YearField, MonthField, DayField} || date[i].Literal?
    requires DateOf(t) == DateOf(u)
    ensures Format(date, t) == Format(date, u)
  {
    forall i | 0 <= i < |date| ensures FormatItem(date[i], t) == FormatItem(date[i], u) {
    }
    FormatAlike(date, t, u);
  }

  /** A date pattern followed by the minute items prints a date-time at 24:00 as its date and " 24:00". */
  lemma EndOfDayText(t: DateTime, date: Pattern, tail: Pattern)
    requires forall i | 0 <= i < |date| :: date[i] in {YearField, MonthField, DayField} || date[i].Literal?
    requires tail == MINUTE_TAIL
    ensures Format(date + tail, t.(hour := 24, minute := 0, second := 0, nano := 0)) == Format(date, t) + " 24:00"
  {
    var e := t.(hour := 24, minute := 0, second := 0, nano := 0);
    FormatAppend(date, tail, e);
    DateItemsAlike(date, e, t);
    MinuteTailText(e, tail);
  }

  /** The text of a date at 24:00 parses with a full date pattern and the minute items to the next day's start. */
  /** A date pattern followed by " HH:mm" has every field but the second. */
  lemma MinuteTailFields(date: Pattern, tail: Pattern)
    requires forall i | 0 <= i < |date| :: date[i] in {YearField, MonthField, DayField} || date[i].Literal?
    requires YearField in date && MonthField in date && DayField in date
    requires tail == MINUTE_TAIL
    ensures var p := date + tail;
      SecondField !in p && HourField in p && MinuteField in p && YearField in p && MonthField in p && DayField in p
  {
    var p := date + tail;
    assert tail[1] == HourField && tail[3] == MinuteField;
    assert p[|date| + 1] == HourField && p[|date| + 3] == MinuteField;
    forall i | 0 <= i < |p| ensures p[i] != SecondField {
      if i < |date| { assert p[i] == date[i]; } else { assert p[i] == tail[i - |date|]; }
    }
    assert forall z | z in date :: z in p;
  }

  lemma EndOfDayParses(t: DateTime, date: Pattern, tail: Pattern, x: DateTime)
    requires Printable(t)
    requires forall i | 0 <= i < |date| :: date[i] in {YearField, MonthField, DayField} || date[i].Literal?
    requires YearField in date && MonthField in date && DayField in date
    requires tail == MINUTE_TAIL
    requires var n := NextDate(DateOf(t)); x == DateTime(n.year, n.month, n.day, 0, 0, 0, 0)
    ensures Parse(date + tail, Format(date, t) + " 24:00") == Some(x)
    ensures ParseAtStart(date + tail, Format(date, t) + " 24:00") == Some(x)
  {
    var e := t.(hour := 24, minute := 0, second := 0, nano := 0);
    var p := date + tail;
    EndOfDayText(t, date, tail);
    MinuteTailFields(date, tail);
    ScanFormat(p, e, NO_FIELDS);
    FillFields(p, e, NO_FIELDS);
    assert Clamp(t.year, t.month, t.day) == DateOf(t);
  }


  /** A 16-character text the first minute pattern reads is what `parseFlexible` as written returns for it. */
  lemma MinuteTextPickedAsWritten(s: string, x: DateTime)
    requires |s| == 16 && Parse(MinutePattern('-'), s) == Some(x)
    ensures ParseFlexibleAsWritten(Some(s)) == Ok(x)
  {
    FirstThreePatterns();
    var ps := PARSE_PATTERNS;
    assert ParseFrom(ps, 2, Some(s)) == Some(x);
    assert ParseFrom(ps, 0, Some(s)) == Some(x);
  }

  /** The same for the corrected `parseFlexible`. */
  lemma MinuteTextPicked(s: string, x: DateTime)
    requires |s| == 16 && ParseAtStart(MinutePattern('-'), s) == Some(x)
    ensures ParseFlexible(Some(s)) == Ok(x)
  {
    FirstThreePatterns();
    var ps := PARSE_PATTERNS;
    assert ParseFromAtStart(ps, 2, Some(s)) == Some(x);
    assert ParseFromAtStart(ps, 0, Some(s)) == Some(x);
  }

  /**
   * A day's date followed by " 24:00" reads back, with either version of
   * `parseFlexible`, as the first instant of the following day.
   */
  lemma EndOfDayRoundTrip(t: DateTime)
    requires Printable(t)
    ensures var n := NextDate(DateOf(t));
      var s := Format(DatePattern('-'), t) + " 24:00";
      && ParseFlexibleAsWritten(Some(s)) == Ok(DateTime(n.year, n.month, n.day, 0, 0, 0, 0))
      && ParseFlexible(Some(s)) == Ok(DateTime(n.year, n.month, n.day, 0, 0, 0, 0))
  {
    var n := NextDate(DateOf(t));
    var date := DatePattern('-');
    var s := Format(date, t) + " 24:00";
    var x := DateTime(n.year, n.month, n.day, 0, 0, 0, 0);
    assert date[0] == YearField && date[2] == MonthField && date[4] == DayField;
    assert MinutePattern('-') == date + MINUTE_TAIL;
    EndOfDayParses(t, date, MINUTE_TAIL, x);
    ScanFormat(date, t, NO_FIELDS);
    FamilyLengths('-');
    MinuteTextPickedAsWritten(s, x);
    MinuteTextPicked(s, x);
  }
}
