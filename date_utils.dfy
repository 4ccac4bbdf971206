/**
 * Timestamp conversion and the "time ago" text of the news list.
 *
 * `GetUtcFromTimestamp` reads the fixed-width timestamp "yyyy-MM-ddTHH:mm:ss.SSSZ"
 * (the date-time form of section 5.6 of RFC 3339, with three fraction digits and
 * the UTC designator) as milliseconds since 1970-01-01T00:00:00Z, proleptic
 * Gregorian calendar, no leap seconds. `FriendlyTime` picks the largest unit of
 * elapsed time; the clock and the time zone are parameters.
 */
module DateUtils {
  import opened Options

  /** java.text.ParseException: the text does not match the pattern. */
  datatype ParseError = ParseException

  /** Length of the part of the text the pattern reads; the parser ignores what follows. */
  const TIMESTAMP_LENGTH: nat := 24

  // ---------------------------------------------------------------------------
  // Calendar arithmetic
  // ---------------------------------------------------------------------------

  predicate IsLeapYear(y: int)
  {
    y % 4 == 0 && (y % 100 != 0 || y % 400 == 0)
  }

  function YearLength(y: int): nat
  {
    if IsLeapYear(y) then 366 else 365
  }

  function DaysInMonth(y: int, m: int): nat
    requires 1 <= m <= 12
  {
    if m == 2 then (if IsLeapYear(y) then 29 else 28)
    else if m == 4 || m == 6 || m == 9 || m == 11 then 30
    else 31
  }

  /** Leap years in [0, y). */
  function LeapsBefore(y: nat): int
  {
    (y + 3) / 4 - (y + 99) / 100 + (y + 399) / 400
  }

  /** Days from 1970-01-01 to January 1st of year y, in closed form. */
  function DaysBeforeYear(y: nat): int
  {
    365 * y + LeapsBefore(y) - 719528
  }

  /** Days from January 1st to the first day of month m, from the cumulative month table. */
  function DaysBeforeMonth(y: int, m: int): nat
    requires 1 <= m <= 12
  {
    var cumulative := [0, 31, 59, 90, 120, 151, 181, 212, 243, 273, 304, 334];
    cumulative[m - 1] + (if m > 2 && IsLeapYear(y) then 1 else 0)
  }

  /** Days from 1970-01-01 to y-m-d (negative before 1970). */
  function DaysFromCivil(y: nat, m: int, d: int): int
    requires 1 <= m <= 12
  {
    DaysBeforeYear(y) + DaysBeforeMonth(y, m) + d - 1
  }

  // Reference definitions: count the days one year and one month at a time.

  function CountDaysBeforeYear(y: int): int
    decreases if y < 1970 then 1970 - y else y - 1970
  {
    if y == 1970 then 0
    else if y > 1970 then CountDaysBeforeYear(y - 1) + YearLength(y - 1)
    else CountDaysBeforeYear(y + 1) - YearLength(y)
  }

  function CountDaysBeforeMonth(y: int, m: int): nat
    requires 1 <= m <= 12
  {
    if m == 1 then 0 else CountDaysBeforeMonth(y, m - 1) + DaysInMonth(y, m - 1)
  }

  lemma LeapsBeforeStep(y: nat)
    ensures LeapsBefore(y + 1) == LeapsBefore(y) + (if IsLeapYear(y) then 1 else 0)
  {
    assert (y + 4) / 4 == (y + 3) / 4 + (if y % 4 == 0 then 1 else 0);
    assert (y + 100) / 100 == (y + 99) / 100 + (if y % 100 == 0 then 1 else 0);
    assert (y + 400) / 400 == (y + 399) / 400 + (if y % 400 == 0 then 1 else 0);
  }

  /** The closed form agrees with counting year lengths, for every year from 0 on. */
  lemma {:induction false} DaysBeforeYearCounts(y: nat)
    ensures DaysBeforeYear(y) == CountDaysBeforeYear(y)
    decreases if y < 1970 then 1970 - y else y - 1970
  {
    if y > 1970 {
      DaysBeforeYearCounts(y - 1);
      LeapsBeforeStep(y - 1);
    } else if y < 1970 {
      DaysBeforeYearCounts(y + 1);
      LeapsBeforeStep(y);
    }
  }

  /** The month table agrees with adding up month lengths. */
  lemma {:induction false} DaysBeforeMonthCounts(y: int, m: int)
    requires 1 <= m <= 12
    ensures DaysBeforeMonth(y, m) == CountDaysBeforeMonth(y, m)
  {
    if m > 1 {
      DaysBeforeMonthCounts(y, m - 1);
    }
  }

  /** Days since the epoch are the days of the whole years, the whole months and the days before d. */
  lemma DaysFromCivilCounts(y: nat, m: int, d: int)
    requires 1 <= m <= 12
    ensures DaysFromCivil(y, m, d) == CountDaysBeforeYear(y) + CountDaysBeforeMonth(y, m) + d - 1
  {
    DaysBeforeYearCounts(y);
    DaysBeforeMonthCounts(y, m);
  }

  /** The next calendar day is exactly one day later, across month and year ends. */
  lemma NextDay(y: nat, m: int, d: int)
    requires 1 <= m <= 12 && 1 <= d <= DaysInMonth(y, m)
    ensures d < DaysInMonth(y, m) ==> DaysFromCivil(y, m, d + 1) == DaysFromCivil(y, m, d) + 1
    ensures d == DaysInMonth(y, m) && m < 12 ==> DaysFromCivil(y, m + 1, 1) == DaysFromCivil(y, m, d) + 1
    ensures d == DaysInMonth(y, m) && m == 12 ==> DaysFromCivil(y + 1, 1, 1) == DaysFromCivil(y, m, d) + 1
  {
    LeapsBeforeStep(y);
  }

  // ---------------------------------------------------------------------------
  // Parsing "yyyy-MM-dd HH:mm:ss.SSS'Z'"
  // ---------------------------------------------------------------------------

  datatype DateTime = DateTime(year: int, month: int, day: int, hour: int, minute: int, second: int, millis: int)

  /** Field ranges of a real instant (the model does not roll out-of-range fields over). */
  predicate ValidDateTime(t: DateTime)
  {
    && 0 <= t.year <= 9999
    && 1 <= t.month <= 12
    && 1 <= t.day <= DaysInMonth(t.year, t.month)
    && 0 <= t.hour <= 23
    && 0 <= t.minute <= 59
    && 0 <= t.second <= 59
    && 0 <= t.millis <= 999
  }

  function EpochMillis(t: DateTime): int
    requires ValidDateTime(t)
  {
    (((DaysFromCivil(t.year, t.month, t.day) * 24 + t.hour) * 60 + t.minute) * 60 + t.second) * 1000 + t.millis
  }

  predicate IsDigit(c: char)
  {
    '0' <= c <= '9'
  }

  function DigitValue(c: char): int
  {
    if IsDigit(c) then c as int - '0' as int else 0
  }

  function DigitChar(n: int): char
    requires 0 <= n <= 9
  {
    ('0' as int + n) as char
  }

  predicate DigitsAt(s: string, lo: nat, hi: nat)
    requires lo <= hi <= |s|
  {
    forall i :: lo <= i < hi ==> IsDigit(s[i])
  }

  function Value2(s: string, i: nat): int
    requires i + 2 <= |s|
  {
    10 * DigitValue(s[i]) + DigitValue(s[i + 1])
  }

  function Value3(s: string, i: nat): int
    requires i + 3 <= |s|
  {
    100 * DigitValue(s[i]) + Value2(s, i + 1)
  }

  function Value4(s: string, i: nat): int
    requires i + 4 <= |s|
  {
    1000 * DigitValue(s[i]) + Value3(s, i + 1)
  }

  /** `timestamp.replace('T', ' ')`: every 'T' becomes a space. */
  function ReplaceT(s: string): (r: string)
    ensures |r| == |s|
    ensures forall i :: 0 <= i < |s| ==> r[i] == (if s[i] == 'T' then ' ' else s[i])
  {
    seq(|s|, i requires 0 <= i < |s| => if s[i] == 'T' then ' ' else s[i])
  }

  /** The literal characters and digit runs of the pattern, at their fixed positions. */
  predicate MatchesPattern(s: string)
  {
    && |s| >= TIMESTAMP_LENGTH
    && DigitsAt(s, 0, 4) && s[4] == '-'
    && DigitsAt(s, 5, 7) && s[7] == '-'
    && DigitsAt(s, 8, 10) && s[10] == ' '
    && DigitsAt(s, 11, 13) && s[13] == ':'
    && DigitsAt(s, 14, 16) && s[16] == ':'
    && DigitsAt(s, 17, 19) && s[19] == '.'
    && DigitsAt(s, 20, 23) && s[23] == 'Z'
  }

  function Fields(s: string): DateTime
    requires |s| >= TIMESTAMP_LENGTH
  {
    DateTime(Value4(s, 0), Value2(s, 5), Value2(s, 8), Value2(s, 11), Value2(s, 14), Value2(s, 17), Value3(s, 20))
  }

  /** `SimpleDateFormat(TIMESTAMP_PATTERN).parse(str)`, restricted to well-formed UTC instants. */
  function Parse(s: string): (r: Result<DateTime, ParseError>)
    ensures r.Ok? ==> MatchesPattern(s) && r.value == Fields(s) && ValidDateTime(r.value)
  {
    if !MatchesPattern(s) then Err(ParseException)
    else if !ValidDateTime(Fields(s)) then Err(ParseException)
    else Ok(Fields(s))
  }

  /** Epoch milliseconds of an API timestamp; fails unless the text has the pattern's shape. */
  function GetUtcFromTimestamp(timestamp: string): (r: Result<int, ParseError>)
    ensures r.Ok? ==> |timestamp| >= TIMESTAMP_LENGTH && timestamp[23] == 'Z'
    ensures r.Ok? ==> timestamp[10] == 'T' || timestamp[10] == ' '
    ensures r.Ok? ==> DaysBeforeYear(0) * 86400000 <= r.value < DaysBeforeYear(10000) * 86400000
  {
    match Parse(ReplaceT(timestamp))
    case Err(e) => Err(e)
    case Ok(t) =>
      YearBounds(t);
      Ok(EpochMillis(t))
  }

  /** Each year adds its own length. */
  lemma DaysBeforeNextYear(y: nat)
    ensures DaysBeforeYear(y + 1) == DaysBeforeYear(y) + YearLength(y)
  {
    LeapsBeforeStep(y);
  }

  /** Later years start later. */
  lemma {:induction false} DaysBeforeYearMonotone(a: nat, b: nat)
    requires a <= b
    ensures DaysBeforeYear(a) <= DaysBeforeYear(b)
    decreases b - a
  {
    if a < b {
      DaysBeforeNextYear(a);
      DaysBeforeYearMonotone(a + 1, b);
    }
  }

  /** A valid date falls within its own year. */
  lemma DateWithinYear(y: nat, m: int, d: int)
    requires 1 <= m <= 12 && 1 <= d <= DaysInMonth(y, m)
    ensures DaysBeforeYear(y) <= DaysFromCivil(y, m, d) < DaysBeforeYear(y + 1)
  {
    DaysBeforeNextYear(y);
    assert DaysBeforeMonth(y, m) + DaysInMonth(y, m) <= YearLength(y);
  }

  lemma YearBounds(t: DateTime)
    requires ValidDateTime(t)
    ensures DaysBeforeYear(0) * 86400000 <= EpochMillis(t) < DaysBeforeYear(10000) * 86400000
  {
    var days := DaysFromCivil(t.year, t.month, t.day);
    DateWithinYear(t.year, t.month, t.day);
    DaysBeforeYearMonotone(0, t.year);
    DaysBeforeYearMonotone(t.year + 1, 10000);
    assert EpochMillis(t) == days * 86400000 + ((t.hour * 60 + t.minute) * 60 + t.second) * 1000 + t.millis;
  }

  /** The text "yyyy-MM-dd<sep>HH:mm:ss.SSSZ" of a date and time. */
  function Format(t: DateTime, sep: char): (s: string)
    requires ValidDateTime(t)
    ensures |s| == TIMESTAMP_LENGTH
  {
    [ DigitChar(t.year / 1000), DigitChar(t.year % 1000 / 100), DigitChar(t.year % 1000 % 100 / 10), DigitChar(t.year % 1000 % 100 % 10), '-',
      DigitChar(t.month / 10), DigitChar(t.month % 10), '-',
      DigitChar(t.day / 10), DigitChar(t.day % 10), sep,
      DigitChar(t.hour / 10), DigitChar(t.hour % 10), ':',
      DigitChar(t.minute / 10), DigitChar(t.minute % 10), ':',
      DigitChar(t.second / 10), DigitChar(t.second % 10), '.',
      DigitChar(t.millis / 100), DigitChar(t.millis % 100 / 10), DigitChar(t.millis % 100 % 10), 'Z' ]
  }

  lemma DigitCharValue(n: int)
    requires 0 <= n <= 9
    ensures IsDigit(DigitChar(n)) && DigitValue(DigitChar(n)) == n
  {
  }

  lemma Digits2At(s: string, i: nat, n: int)
    requires 0 <= n <= 99 && i + 2 <= |s|
    requires s[i] == DigitChar(n / 10) && s[i + 1] == DigitChar(n % 10)
    ensures DigitsAt(s, i, i + 2) && Value2(s, i) == n
  {
    DigitCharValue(n / 10);
    DigitCharValue(n % 10);
  }

  lemma Digits3At(s: string, i: nat, n: int)
    requires 0 <= n <= 999 && i + 3 <= |s|
    requires s[i] == DigitChar(n / 100) && s[i + 1] == DigitChar(n % 100 / 10) && s[i + 2] == DigitChar(n % 100 % 10)
    ensures DigitsAt(s, i, i + 3) && Value3(s, i) == n
  {
    DigitCharValue(n / 100);
    Digits2At(s, i + 1, n % 100);
  }

  lemma Digits4At(s: string, i: nat, n: int)
    requires 0 <= n <= 9999 && i + 4 <= |s|
    requires s[i] == DigitChar(n / 1000) && s[i + 1] == DigitChar(n % 1000 / 100)
    requires s[i + 2] == DigitChar(n % 1000 % 100 / 10) && s[i + 3] == DigitChar(n % 1000 % 100 % 10)
    ensures DigitsAt(s, i, i + 4) && Value4(s, i) == n
  {
    DigitCharValue(n / 1000);
    Digits3At(s, i + 1, n % 1000);
  }

  /** The formatted text has the pattern's shape and its fields read back as the instant. */
  lemma FormatFields(t: DateTime)
    requires ValidDateTime(t)
    ensures MatchesPattern(Format(t, ' ')) && Fields(Format(t, ' ')) == t
  {
    var s := Format(t, ' ');
    Digits4At(s, 0, t.year);
    Digits2At(s, 5, t.month);
    Digits2At(s, 8, t.day);
    Digits2At(s, 11, t.hour);
    Digits2At(s, 14, t.minute);
    Digits2At(s, 17, t.second);
    Digits3At(s, 20, t.millis);
  }

  /** Round trip: the formatted text of any instant, with either separator, parses back to that instant. */
  lemma ParseFormat(t: DateTime, sep: char)
    requires ValidDateTime(t) && (sep == 'T' || sep == ' ')
    ensures GetUtcFromTimestamp(Format(t, sep)) == Ok(EpochMillis(t))
  {
    var f := Format(t, sep);
    forall i | 0 <= i < TIMESTAMP_LENGTH
      ensures ReplaceT(f)[i] == Format(t, ' ')[i]
    {
    }
    assert ReplaceT(f) == Format(t, ' ');
    FormatFields(t);
  }

  /** Whatever follows the 24 characters of the pattern is ignored, as by DateFormat.parse. */
  lemma TrailingTextIgnored(timestamp: string, rest: string)
    requires |timestamp| == TIMESTAMP_LENGTH
    ensures GetUtcFromTimestamp(timestamp + rest) == GetUtcFromTimestamp(timestamp)
  {
    var a, b := ReplaceT(timestamp + rest), ReplaceT(timestamp);
    assert a[..TIMESTAMP_LENGTH] == b;
    assert MatchesPattern(a) == MatchesPattern(b);
    if MatchesPattern(a) {
      assert Fields(a) == Fields(b);
    }
  }

  /** The separator may be 'T' or a space: both texts give the same result. */
  lemma EitherSeparator(timestamp: string)
    requires |timestamp| >= TIMESTAMP_LENGTH
    ensures GetUtcFromTimestamp(timestamp[10 := 'T']) == GetUtcFromTimestamp(timestamp[10 := ' '])
  {
    assert ReplaceT(timestamp[10 := 'T']) == ReplaceT(timestamp[10 := ' ']);
  }

  /** A test vector holds once its text is the formatted instant and the instant is the expected value. */
  lemma Vector(t: DateTime, text: string, millis: int)
    requires ValidDateTime(t) && Format(t, 'T') == text && EpochMillis(t) == millis
    ensures GetUtcFromTimestamp(text) == Ok(millis)
  {
    ParseFormat(t, 'T');
  }

  /** The unit tests' vectors. */
  lemma TestVector1()
    ensures GetUtcFromTimestamp("2019-06-08T01:50:26.453Z") == Ok(1559958626453)
  {
    var t := DateTime(2019, 6, 8, 1, 50, 26, 453);
    assert DaysFromCivil(2019, 6, 8) == 18055;
    Vector(t, "2019-06-08T01:50:26.453Z", 1559958626453);
  }

  lemma TestVector2()
    ensures GetUtcFromTimestamp("2019-06-09T22:56:00.000Z") == Ok(1560120960000)
  {
    var t := DateTime(2019, 6, 9, 22, 56, 0, 0);
    assert DaysFromCivil(2019, 6, 9) == 18056;
    Vector(t, "2019-06-09T22:56:00.000Z", 1560120960000);
  }

  lemma TestVector3()
    ensures GetUtcFromTimestamp("2019-06-07T14:56:26.354Z") == Ok(1559919386354)
  {
    var t := DateTime(2019, 6, 7, 14, 56, 26, 354);
    assert DaysFromCivil(2019, 6, 7) == 18054;
    Vector(t, "2019-06-07T14:56:26.354Z", 1559919386354);
  }

  lemma TestVector4()
    ensures GetUtcFromTimestamp("2019-06-08T04:32:14.151Z") == Ok(1559968334151)
  {
    var t := DateTime(2019, 6, 8, 4, 32, 14, 151);
    assert DaysFromCivil(2019, 6, 8) == 18055;
    Vector(t, "2019-06-08T04:32:14.151Z", 1559968334151);
  }

  /** A timestamp without the trailing 'Z' is rejected, as the unit test expects. */
  lemma MissingZoneRejected()
    ensures GetUtcFromTimestamp("2019-06-08T04:32:14.151").Err?
  {
  }

  // ---------------------------------------------------------------------------
  // "Time ago" text
  // ---------------------------------------------------------------------------

  datatype TimeUnit = Year | Month | Day | Hour | Minute | Second

  /** Seconds per unit; a "month" is 30 days and a "year" 365 days. */
  function UnitSeconds(u: TimeUnit): nat
  {
    match u
    case Year => 31536000
    case Month => 2592000
    case Day => 86400
    case Hour => 3600
    case Minute => 60
    case Second => 1
  }

  /** Position of a unit in the cascade, largest first. */
  function Rank(u: TimeUnit): nat
  {
    match u
    case Year => 0
    case Month => 1
    case Day => 2
    case Hour => 3
    case Minute => 4
    case Second => 5
  }

  /** The string resource chosen: a unit, singular or plural, with its count; or the error text. */
  datatype Friendly = TimeAgo(unit: TimeUnit, plural: bool, count: int) | TimestampError

  /** Picks the unit by whole quotients of elapsed seconds, trying years, months, days, hours, minutes, seconds. */
  function FriendlyTime(seconds: int): (r: Friendly)
    ensures r.TimestampError? <==> seconds <= 0
    ensures r.TimeAgo? ==> r.count == seconds / UnitSeconds(r.unit) >= 1
    ensures r.TimeAgo? ==> (r.plural <==> r.count > 1)
    ensures r.TimeAgo? ==> forall v :: Rank(v) < Rank(r.unit) ==> seconds < UnitSeconds(v)
  {
    var years := seconds / 31536000;
    if years == 1 then TimeAgo(Year, false, years)
    else if years > 1 then TimeAgo(Year, true, years)
    else
      var months := seconds / 2592000;
      if months == 1 then TimeAgo(Month, false, months)
      else if months > 1 then TimeAgo(Month, true, months)
      else
        var days := seconds / 86400;
        if days == 1 then TimeAgo(Day, false, days)
        else if days > 1 then TimeAgo(Day, true, days)
        else
          var hours := seconds / 3600;
          if hours == 1 then TimeAgo(Hour, false, hours)
          else if hours > 1 then TimeAgo(Hour, true, hours)
          else
            var minutes := seconds / 60;
            if minutes == 1 then TimeAgo(Minute, false, minutes)
            else if minutes > 1 then TimeAgo(Minute, true, minutes)
            else if seconds == 1 then TimeAgo(Second, false, seconds)
            else if seconds > 1 then TimeAgo(Second, true, seconds)
            else TimestampError
  }

  /** Kotlin's `Long / Long`, which truncates toward zero. */
  function TruncDiv(x: int, d: int): (q: int)
    requires d > 0
    ensures x >= 0 ==> q * d <= x < q * d + d
    ensures x < 0 ==> q * d - d < x <= q * d && q <= 0
  {
    if x >= 0 then x / d else -((-x) / d)
  }

  /** The stored UTC value shifted by the zone offset in force at that instant. */
  function LocalMidnight(normalizedUtc: int, offsetAt: int -> int): int
  {
    normalizedUtc + offsetAt(normalizedUtc)
  }

  /** Whole seconds of a span, scaled back to milliseconds, bracket the span by whole units. */
  lemma WholeUnits(elapsed: int, seconds: int, count: int, unit: nat)
    requires unit >= 1
    requires seconds * 1000 <= elapsed < seconds * 1000 + 1000
    requires count * unit <= seconds < count * unit + unit
    ensures count * unit * 1000 <= elapsed < (count + 1) * unit * 1000
  {
    assert (count + 1) * unit * 1000 == count * unit * 1000 + unit * 1000;
  }

  /**
   * `getFriendlyTimeString`, with the current time and the time zone as parameters.
   * The text names the largest unit of which a whole one has elapsed since the local
   * date, and how many whole ones have; under one second it is the error text.
   */
  function GetFriendlyTimeString(nowMillis: int, normalizedUtc: int, offsetAt: int -> int): (r: Friendly)
    ensures var elapsed := nowMillis - (normalizedUtc + offsetAt(normalizedUtc));
      && (r.TimestampError? <==> elapsed < 1000)
      && (r.TimeAgo? ==> r.count >= 1 && (r.plural <==> r.count > 1))
      && (r.TimeAgo? ==> r.count * UnitSeconds(r.unit) * 1000 <= elapsed < (r.count + 1) * UnitSeconds(r.unit) * 1000)
      && (r.TimeAgo? ==> forall v :: Rank(v) < Rank(r.unit) ==> elapsed < UnitSeconds(v) * 1000)
  {
    var elapsed := nowMillis - LocalMidnight(normalizedUtc, offsetAt);
    var seconds := TruncDiv(elapsed, 1000);
    var r := FriendlyTime(seconds);
    if r.TimeAgo? then
      var unit := UnitSeconds(r.unit);
      assert r.count * unit <= seconds < r.count * unit + unit;
      WholeUnits(elapsed, seconds, r.count, unit);
      r
    else r
  }

  /** A zone offset of `o` shows the same text as UTC would show `o` milliseconds earlier. */
  lemma ZoneShiftsTheClock(nowMillis: int, normalizedUtc: int, offset: int)
    ensures GetFriendlyTimeString(nowMillis, normalizedUtc, _ => offset)
         == GetFriendlyTimeString(nowMillis - offset, normalizedUtc, _ => 0)
  {
  }

  /** In UTC, an item published a whole number of hours (under one day) ago reads "n hours ago". */
  lemma HoursAgoInUtc(nowMillis: int, hours: int)
    requires 1 <= hours <= 23
    ensures GetFriendlyTimeString(nowMillis, nowMillis - hours * 3600000, _ => 0)
         == TimeAgo(Hour, hours > 1, hours)
  {
    assert TruncDiv(hours * 3600000, 1000) == hours * 3600;
  }
}
