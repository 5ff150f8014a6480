/** Calendar arithmetic behind the schedule parser: which `M/D/YY` and
    `H:MM AM` texts `datetime.strptime('%m/%d/%y %I:%M %p')` accepts (the
    two-digit-year pivot, month lengths, leap years, 12-hour clock), the
    America/Phoenix zone as a fixed UTC-7 offset, and the weekly recurrence
    rule whose `UNTIL` is the end date's last local instant written in UTC
    (index.py:271-282). */
module Calendar {
  import opened Wrappers
  import opened Text

  datatype Date = Date(year: int, month: int, day: int)

  /** A 24-hour time of day, as `strptime` computes it from `%I` and `%p`. */
  datatype Clock = Clock(hour: int, minute: int)

  /** The digit groups of an `M/D/YY` text, as the date-range pattern captures them. */
  datatype DateText = DateText(month: string, day: string, year: string)

  /** The parts of an `H:MM AM` text, as the time-range pattern captures them:
      `gap` is the optional whitespace before the meridiem. */
  datatype TimeText = TimeText(hour: string, minute: string, gap: string, meridiem: string)

  predicate IsLeapYear(y: int) { y % 4 == 0 && (y % 100 != 0 || y % 400 == 0) }

  function DaysInMonth(y: int, m: int): (n: int)
    requires 1 <= m <= 12
    ensures 28 <= n <= 31
    ensures n == 29 <==> m == 2 && IsLeapYear(y)
  {
    if m == 2 then (if IsLeapYear(y) then 29 else 28)
    else if m == 4 || m == 6 || m == 9 || m == 11 then 30
    else 31
  }

  predicate ValidDate(d: Date) { 1 <= d.month <= 12 && 1 <= d.day <= DaysInMonth(d.year, d.month) }

  predicate ValidClock(c: Clock) { 0 <= c.hour < 24 && 0 <= c.minute < 60 }

  function DigitValue(c: char): nat
    requires IsDigit(c)
  {
    c as int - '0' as int
  }

  /** The decimal value of a digit string. */
  function Value(s: string): (v: nat)
    requires AllDigits(s)
    ensures |s| == 1 ==> v < 10
    ensures |s| == 2 ==> v < 100
  {
    if s == [] then 0 else 10 * Value(s[..|s| - 1]) + DigitValue(s[|s| - 1])
  }

  /** The value of one or two digits. */
  lemma ValueShort(s: string)
    requires AllDigits(s) && 1 <= |s| <= 2
    ensures |s| == 1 ==> Value(s) == DigitValue(s[0])
    ensures |s| == 2 ==> Value(s) == 10 * DigitValue(s[0]) + DigitValue(s[1])
  {
    if |s| == 2 {
      assert s[..1][..0] == [];
      assert s[..1][0] == s[0];
    } else {
      assert s[..0] == [];
    }
  }

  function DigitChar(n: nat): (c: char)
    requires n < 10
    ensures IsDigit(c) && DigitValue(c) == n
  {
    ('0' as int + n) as char
  }

  /** `%02d`: two decimal digits of `n mod 100`. */
  function Digits2(n: nat): (s: string)
    ensures |s| == 2 && AllDigits(s)
    ensures Value(s) == n % 100
  {
    var s := [DigitChar(n / 10 % 10), DigitChar(n % 10)];
    assert s[..1] == [s[0]];
    TwoDigits(n);
    s
  }

  lemma TwoDigits(n: nat)
    ensures 10 * (n / 10 % 10) + n % 10 == n % 100
  {
    var q := n / 10;
    var r := q % 10;
    assert n == 10 * q + n % 10;
    assert q == 10 * (q / 10) + r;
    assert n == 100 * (q / 10) + (10 * r + n % 10);
    assert 0 <= 10 * r + n % 10 < 100;
  }

  /** `%04d`: four decimal digits of `n mod 10000`. */
  function Digits4(n: nat): (s: string)
    ensures |s| == 4 && AllDigits(s)
  {
    Digits2(n / 100) + Digits2(n)
  }

  /** `%y`: years 00-68 are 2000-2068, years 69-99 are 1969-1999. */
  function PivotYear(yy: nat): (y: int)
    requires yy < 100
    ensures 1969 <= y <= 2068
    ensures y % 100 == yy
  {
    if yy <= 68 then 2000 + yy else 1900 + yy
  }

  predicate WellShapedDate(t: DateText) {
    1 <= |t.month| <= 2 && AllDigits(t.month)
    && 1 <= |t.day| <= 2 && AllDigits(t.day)
    && |t.year| == 2 && AllDigits(t.year)
  }

  /** `AM` or `PM` in any letter case. */
  predicate IsMeridiem(m: string) {
    |m| == 2 && (m[0] == 'A' || m[0] == 'a' || m[0] == 'P' || m[0] == 'p') && (m[1] == 'M' || m[1] == 'm')
  }

  predicate IsPm(m: string) { |m| == 2 && (m[0] == 'P' || m[0] == 'p') }

  predicate WellShapedTime(t: TimeText) {
    1 <= |t.hour| <= 2 && AllDigits(t.hour)
    && |t.minute| == 2 && AllDigits(t.minute)
    && |t.gap| <= 1 && (forall i :: 0 <= i < |t.gap| ==> IsSpace(t.gap[i]))
    && IsMeridiem(t.meridiem)
  }

  /** The text a date group stands for. */
  function DateString(t: DateText): string { t.month + "/" + t.day + "/" + t.year }

  /** The text a time group stands for. */
  function TimeString(t: TimeText): string { t.hour + ":" + t.minute + t.gap + t.meridiem }

  /** `strptime(text, '%m/%d/%y')` on a date group: `%m` accepts the values 1-12
      written with one or two digits, `%d` the values 1-31, `%y` any two digits,
      and the date must exist in that month of the pivoted year. */
  function ParseDate(t: DateText): (r: Option<Date>)
    requires WellShapedDate(t)
    ensures r.Some? ==> ValidDate(r.value) && 1969 <= r.value.year <= 2068
    ensures r.Some? <==> 1 <= Value(t.month) <= 12 && 1 <= Value(t.day) <= DaysInMonth(PivotYear(Value(t.year)), Value(t.month))
  {
    var m, d, y := Value(t.month), Value(t.day), PivotYear(Value(t.year));
    if 1 <= m <= 12 && 1 <= d <= DaysInMonth(y, m) then Some(Date(y, m, d)) else None
  }

  /** The `%I:%M %p` part of `strptime`: the hour 1-12, the minute 0-59
      (`%M` would take a single digit, leaving the second for the whitespace
      that the format requires, so minutes 60-99 fail), at least one whitespace
      character before the meridiem, which may be in any case. */
  function ParseClock(t: TimeText): (r: Option<Clock>)
    requires WellShapedTime(t)
    ensures r.Some? ==> ValidClock(r.value)
    ensures r.Some? <==> 1 <= Value(t.hour) <= 12 && Value(t.minute) <= 59 && t.gap != []
    ensures r.Some? ==> r.value.minute == Value(t.minute) && r.value.hour % 12 == Value(t.hour) % 12
    ensures r.Some? ==> (r.value.hour >= 12 <==> IsPm(t.meridiem))
  {
    var h, mi := Value(t.hour), Value(t.minute);
    if 1 <= h <= 12 && mi <= 59 && t.gap != [] then
      Some(Clock(if IsPm(t.meridiem) then h % 12 + 12 else h % 12, mi))
    else None
  }

  /** `strftime('%m/%d/%y')`, the inverse of `ParseDate`. */
  function ShortDate(d: Date): DateText
    requires 0 <= d.month && 0 <= d.day && 0 <= d.year
  {
    DateText(Digits2(d.month), Digits2(d.day), Digits2(d.year % 100))
  }

  /** `strftime('%I:%M %p')`, the inverse of `ParseClock`. */
  function TwelveHour(c: Clock): TimeText
    requires ValidClock(c)
  {
    TimeText(Digits2(if c.hour % 12 == 0 then 12 else c.hour % 12), Digits2(c.minute), " ",
             if c.hour < 12 then "AM" else "PM")
  }

  /** Every date of the pivot's range survives printing and parsing. */
  lemma ShortDateRoundTrip(d: Date)
    requires ValidDate(d) && 1969 <= d.year <= 2068
    ensures WellShapedDate(ShortDate(d)) && ParseDate(ShortDate(d)) == Some(d)
  {
    var t := ShortDate(d);
    PivotTwoDigits(d.year);
    SmallDigits2(d.month);
    SmallDigits2(d.day);
    SmallDigits2(d.year % 100);
    ParseDateOf(t, d);
  }

  /** Below a hundred, `%02d` reads back as the number itself. */
  lemma SmallDigits2(n: nat)
    requires n < 100
    ensures Value(Digits2(n)) == n
  {
  }

  /** A date group whose fields read as the fields of a valid date parses as that date. */
  lemma ParseDateOf(t: DateText, d: Date)
    requires WellShapedDate(t) && ValidDate(d)
    requires Value(t.month) == d.month && Value(t.day) == d.day
    requires Value(t.year) < 100 && PivotYear(Value(t.year)) == d.year
    ensures ParseDate(t) == Some(d)
  {
  }

  /** The pivot gives back every year of its range from the last two digits. */
  lemma PivotTwoDigits(year: int)
    requires 1969 <= year <= 2068
    ensures year % 100 < 100 && PivotYear(year % 100) == year
  {
    var yy := year % 100;
    assert year < 2000 ==> yy == year - 1900;
    assert year >= 2000 ==> yy == year - 2000;
  }

  /** Every time of day survives printing on the 12-hour clock and parsing. */
  lemma TwelveHourRoundTrip(c: Clock)
    requires ValidClock(c)
    ensures WellShapedTime(TwelveHour(c)) && ParseClock(TwelveHour(c)) == Some(c)
  {
    var t := TwelveHour(c);
    var h12 := if c.hour % 12 == 0 then 12 else c.hour % 12;
    SmallDigits2(h12);
    SmallDigits2(c.minute);
    assert IsPm(t.meridiem) <==> c.hour >= 12;
    assert c.hour < 12 ==> h12 % 12 == c.hour;
    assert c.hour >= 12 ==> h12 % 12 + 12 == c.hour;
  }

  /** `datetime.strptime(date + ' ' + time, '%m/%d/%y %I:%M %p')` succeeds. */
  predicate DateTimeParses(d: DateText, t: TimeText)
    requires WellShapedDate(d) && WellShapedTime(t)
  {
    ParseDate(d).Some? && ParseClock(t).Some?
  }

  function NextDay(d: Date): (r: Date)
    requires ValidDate(d)
    ensures ValidDate(r)
  {
    if d.day < DaysInMonth(d.year, d.month) then d.(day := d.day + 1)
    else if d.month < 12 then Date(d.year, d.month + 1, 1)
    else Date(d.year + 1, 1, 1)
  }

  function PrevDay(d: Date): (r: Date)
    requires ValidDate(d)
    ensures ValidDate(r)
  {
    if d.day > 1 then d.(day := d.day - 1)
    else if d.month > 1 then Date(d.year, d.month - 1, DaysInMonth(d.year, d.month - 1))
    else Date(d.year - 1, 12, 31)
  }

  /** The day after and the day before are inverse to each other. */
  lemma NextPrevInverse(d: Date)
    requires ValidDate(d)
    ensures PrevDay(NextDay(d)) == d && NextDay(PrevDay(d)) == d
  {
  }

  const MicrosPerSecond: nat := 1_000_000
  const MicrosPerDay: nat := 86_400 * MicrosPerSecond

  /** America/Phoenix keeps UTC-7 all year: UTC is local time plus seven hours. */
  const PhoenixToUtcMicros: nat := 7 * 3_600 * MicrosPerSecond

  /** A wall-clock instant: a date and the microseconds since its midnight. */
  datatype Instant = Instant(date: Date, micros: int)

  predicate ValidInstant(t: Instant) { ValidDate(t.date) && 0 <= t.micros < MicrosPerDay }

  /** `tz.localize(t).astimezone(pytz.utc)` for the fixed UTC-7 zone. */
  function PhoenixToUtc(t: Instant): (r: Instant)
    requires ValidInstant(t)
    ensures ValidInstant(r)
  {
    var m := t.micros + PhoenixToUtcMicros;
    if m < MicrosPerDay then Instant(t.date, m) else Instant(NextDay(t.date), m - MicrosPerDay)
  }

  /** `%Y%m%d` of a date. */
  function CompactDate(d: Date): string
    requires 0 <= d.year && 0 <= d.month && 0 <= d.day
  {
    Digits4(d.year) + Digits2(d.month) + Digits2(d.day)
  }

  /** `%H%M%S` of a second of the day, between the `T` and the `Z`. */
  function CompactTime(secs: nat): string {
    "T" + Digits2(secs / 3600) + Digits2(secs / 60 % 60) + Digits2(secs % 60) + "Z"
  }

  /** `strftime('%Y%m%dT%H%M%SZ')`: microseconds are not printed. */
  function CompactUtc(t: Instant): string
    requires ValidInstant(t) && 0 <= t.date.year
  {
    CompactDate(t.date) + CompactTime(t.micros / MicrosPerSecond)
  }

  /** `datetime.combine(end_date, datetime.max.time())`: 23:59:59.999999. */
  function LastInstant(d: Date): (t: Instant)
    requires ValidDate(d)
    ensures ValidInstant(t)
  {
    Instant(d, MicrosPerDay - 1)
  }

  /** The recurrence's `UNTIL` value (index.py:271-275). */
  function UntilStamp(end: Date): string
    requires ValidDate(end) && 0 <= end.year
  {
    CompactUtc(PhoenixToUtc(LastInstant(end)))
  }

  /** The last local instant of the end date is 06:59:59 UTC on the next day. */
  lemma UntilIsNextDayMorning(end: Date)
    requires ValidDate(end) && 0 <= end.year
    ensures UntilStamp(end) == CompactDate(NextDay(end)) + "T065959Z"
  {
    var u := PhoenixToUtc(LastInstant(end));
    assert u == Instant(NextDay(end), 25_199_999_999);
    assert u.micros / MicrosPerSecond == 25_199;
    SixFiftyNine();
  }

  lemma SixFiftyNine()
    ensures CompactTime(25_199) == "T065959Z"
  {
    assert 25_199 / 3600 == 6 && 25_199 / 60 % 60 == 59 && 25_199 % 60 == 59;
    assert Digits2(6) == "06";
    assert Digits2(59) == "59";
  }

  /** A semester ending Friday 5/03/24 recurs until 2024-05-04 06:59:59 UTC. */
  lemma UntilMayThird()
    ensures UntilStamp(Date(2024, 5, 3)) == "20240504T065959Z"
  {
    CompactDateExamples();
    ExampleUntil(Date(2024, 5, 3), Date(2024, 5, 4), "20240504");
  }

  /** The day after the last day of a year is in the next year. */
  lemma UntilNewYear()
    ensures UntilStamp(Date(2024, 12, 31)) == "20250101T065959Z"
  {
    CompactDateExamples();
    ExampleUntil(Date(2024, 12, 31), Date(2025, 1, 1), "20250101");
  }

  /** 2024 is a leap year. */
  lemma UntilLeapDay()
    ensures UntilStamp(Date(2024, 2, 28)) == "20240229T065959Z"
  {
    assert IsLeapYear(2024);
    CompactDateExamples();
    ExampleUntil(Date(2024, 2, 28), Date(2024, 2, 29), "20240229");
  }

  lemma ExampleUntil(end: Date, next: Date, stamp: string)
    requires ValidDate(end) && 0 <= end.year && NextDay(end) == next
    requires CompactDate(next) == stamp
    ensures UntilStamp(end) == stamp + "T065959Z"
  {
    UntilIsNextDayMorning(end);
  }

  lemma CompactDateExamples()
    ensures CompactDate(Date(2024, 5, 4)) == "20240504"
    ensures CompactDate(Date(2025, 1, 1)) == "20250101"
    ensures CompactDate(Date(2024, 2, 29)) == "20240229"
  {
    assert Digits2(20) == "20";
    assert Digits2(2024) == "24";
    assert Digits2(2025) == "25";
    assert Digits2(5) == "05";
    assert Digits2(4) == "04";
    assert Digits2(1) == "01";
    assert Digits2(2) == "02";
    assert Digits2(29) == "29";
  }

  /** The recurrence directive (index.py:271-282): a weekly rule on the stored
      days when there are days and an end date, and none otherwise. */
  function Recurrence(days: seq<string>, end: Option<Date>): (r: Option<string>)
    requires end.Some? ==> ValidDate(end.value) && 0 <= end.value.year
  {
    var until := if end.Some? then Some(UntilStamp(end.value)) else None;
    if days != [] && until.Some? then
      Some("RRULE:FREQ=WEEKLY;BYDAY=" + Join(days, ",") + ";UNTIL=" + until.value)
    else None
  }

  /** The rule exists exactly when there are days and an end date, and then it
      runs weekly on the days in their stored order until the morning (UTC)
      after the end date. */
  lemma RecurrenceRule(days: seq<string>, end: Option<Date>)
    requires end.Some? ==> ValidDate(end.value) && 0 <= end.value.year
    ensures Recurrence(days, end).Some? <==> days != [] && end.Some?
    ensures Recurrence(days, end).Some? ==>
      Recurrence(days, end).value
      == "RRULE:FREQ=WEEKLY;BYDAY=" + Join(days, ",") + ";UNTIL=" + CompactDate(NextDay(end.value)) + "T065959Z"
  {
    if end.Some? {
      UntilIsNextDayMorning(end.value);
    }
  }
}
