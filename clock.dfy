/**
 * Wall-clock readings and their text renderings. A reading is what `datetime.now()`
 * returns: a naive local `datetime`, that is, calendar fields down to the microsecond.
 * `strftime` renders the fields; subtracting two readings counts the microseconds
 * between them on the proleptic Gregorian calendar.
 */
module Clock {
  import opened PyText

  /** A naive `datetime`. */
  datatype DateTime = DateTime(year: nat, month: nat, day: nat, hour: nat, minute: nat, second: nat, micro: nat)

  const MicrosPerSecond: int := 1_000_000
  const SecondsPerDay: int := 86_400

  /** The number of days from 1970-01-01 to the given date of the proleptic Gregorian calendar. */
  function DaysFromCivil(year: nat, month: nat, day: nat): int
  {
    var y: int := if month <= 2 then year - 1 else year;
    var era := (if y >= 0 then y else y - 399) / 400;
    var yoe := y - era * 400;
    var doy := (153 * (if month > 2 then month - 3 else month + 9) + 2) / 5 + day - 1;
    var doe := yoe * 365 + yoe / 4 - yoe / 100 + doy;
    era * 146_097 + doe - 719_468
  }

  /** Microseconds since 1970-01-01 00:00:00 of the same calendar. */
  function EpochMicros(t: DateTime): int
  {
    ((DaysFromCivil(t.year, t.month, t.day) * SecondsPerDay + t.hour * 3600 + t.minute * 60 + t.second)
      * MicrosPerSecond) + t.micro
  }

  /** `(later - earlier)`, as a number of microseconds. */
  function ElapsedMicros(earlier: DateTime, later: DateTime): int
  {
    EpochMicros(later) - EpochMicros(earlier)
  }

  /** A Gregorian leap year. */
  predicate IsLeapYear(year: int)
  {
    year % 4 == 0 && (year % 100 != 0 || year % 400 == 0)
  }

  /** The length of a month of the Gregorian calendar. */
  function DaysInMonth(year: nat, month: nat): nat
  {
    if month == 2 then (if IsLeapYear(year) then 29 else 28)
    else if month == 4 || month == 6 || month == 9 || month == 11 then 30
    else 31
  }

  /** A date `datetime` accepts: year from 1 (`MINYEAR`), a month, a day of that month. */
  predicate ValidDate(year: nat, month: nat, day: nat)
  {
    1 <= year && 1 <= month <= 12 && 1 <= day <= DaysInMonth(year, month)
  }

  /** The calendar date after a valid date. */
  function NextDay(year: nat, month: nat, day: nat): (r: (nat, nat, nat))
    requires ValidDate(year, month, day)
    ensures ValidDate(r.0, r.1, r.2)
    ensures r.0 == year || (r.0 == year + 1 && r.1 == 1 && r.2 == 1)
  {
    if day < DaysInMonth(year, month) then (year, month, day + 1)
    else if month < 12 then (year, month + 1, 1)
    else (year + 1, 1, 1)
  }

  /** The days from the start of a 400-year era to 1 March of its year `yoe`. */
  function EraDays(yoe: nat): int
  {
    yoe * 365 + yoe / 4 - yoe / 100
  }

  /** The day count of 1 March of the March-based year `y`, before the epoch shift. */
  function MarchDays(y: nat): int
  {
    (y / 400) * 146_097 + EraDays(y % 400)
  }

  /** Within an era, a March-based year has 366 days when the year it ends in is divisible by 4 but not by 100. */
  lemma EraYearLength(yoe: nat)
    requires yoe < 399
    ensures EraDays(yoe + 1) == EraDays(yoe) + 365
      + (if (yoe + 1) % 4 == 0 && (yoe + 1) % 100 != 0 then 1 else 0)
  {
    assert (yoe + 1) / 4 == yoe / 4 + (if (yoe + 1) % 4 == 0 then 1 else 0);
    assert (yoe + 1) / 100 == yoe / 100 + (if (yoe + 1) % 100 == 0 then 1 else 0);
    if (yoe + 1) % 100 == 0 {
      assert (yoe + 1) % 4 == 0;
    }
  }

  /** Adding a multiple of 400 changes none of the remainders the leap-year rule looks at. */
  lemma LeapRemainders(q: nat, r: nat)
    ensures (400 * q + r) % 4 == r % 4 && (400 * q + r) % 100 == r % 100 && (400 * q + r) % 400 == r % 400
  {
    RemainderOf(4, 100 * q, r);
    RemainderOf(100, 4 * q, r);
    RemainderOf(400, q, r);
  }

  /** A multiple of `k` added to `r` leaves `r`'s remainder modulo `k`. */
  lemma RemainderOf(k: nat, m: nat, r: nat)
    requires k == 4 || k == 100 || k == 400
    ensures (k * m + r) % k == r % k
  {
    assert k * m + r == k * (m + r / k) + r % k;
  }

  /** A March-based year is 366 days long when the February it ends with is a leap February. */
  lemma MarchYearLength(y: nat)
    ensures MarchDays(y + 1) == MarchDays(y) + 365 + (if IsLeapYear(y + 1) then 1 else 0)
  {
    var q, r := y / 400, y % 400;
    assert y == 400 * q + r;
    if r == 399 {
      assert y + 1 == 400 * (q + 1) + 0;
      assert (y + 1) / 400 == q + 1 && (y + 1) % 400 == 0;
      LeapRemainders(q + 1, 0);
    } else {
      assert y + 1 == 400 * q + (r + 1);
      assert (y + 1) / 400 == q && (y + 1) % 400 == r + 1;
      EraYearLength(r);
      LeapRemainders(q, r + 1);
    }
  }

  /** The days from 1 March to the given date, in a year that runs from March to February. */
  function MarchDayOfYear(month: nat, day: nat): int
  {
    (153 * (if month > 2 then month - 3 else month + 9) + 2) / 5 + day - 1
  }

  /** The day count splits into the March-based year's start and the day within that year. */
  lemma CivilDays(year: nat, month: nat, day: nat)
    requires 1 <= year
    ensures DaysFromCivil(year, month, day)
      == MarchDays(if month <= 2 then year - 1 else year) - 719_468 + MarchDayOfYear(month, day)
  {
    var y: nat := if month <= 2 then year - 1 else year;
    assert y - (y / 400) * 400 == y % 400;
  }

  /** Where each month starts, counted in days from 1 March. */
  lemma MonthStarts(month: nat)
    requires 1 <= month < 12
    ensures month != 2 ==> MarchDayOfYear(month + 1, 1) == MarchDayOfYear(month, 1) + DaysInMonth(1, month)
    ensures MarchDayOfYear(2, 1) == 337 && MarchDayOfYear(3, 1) == 0 && MarchDayOfYear(1, 1) == 306
    ensures MarchDayOfYear(12, 1) == 275
  {
  }

  /**
   * Consecutive dates are numbered consecutively, across month ends, year ends and leap
   * days alike, so the difference of two readings counts the days between them.
   */
  lemma DaysFromCivilNextDay(year: nat, month: nat, day: nat)
    requires ValidDate(year, month, day)
    ensures var n := NextDay(year, month, day);
      DaysFromCivil(n.0, n.1, n.2) == DaysFromCivil(year, month, day) + 1
  {
    var n := NextDay(year, month, day);
    CivilDays(year, month, day);
    CivilDays(n.0, n.1, n.2);
    if day < DaysInMonth(year, month) {
    } else if month == 2 {
      MarchYearLength(year - 1);
    } else if month < 12 {
      MonthStarts(month);
      assert DaysInMonth(year, month) == DaysInMonth(1, month);
    } else {
      MonthStarts(1);
      MonthStarts(11);
    }
  }

  /** The cooldown's subtraction across midnight: the last microsecond of a day is one before the next day's first. */
  lemma ElapsedAcrossMidnight(t: DateTime)
    requires ValidDate(t.year, t.month, t.day)
    requires t.hour == 23 && t.minute == 59 && t.second == 59 && t.micro == 999_999
    ensures var n := NextDay(t.year, t.month, t.day);
      ElapsedMicros(t, DateTime(n.0, n.1, n.2, 0, 0, 0, 0)) == 1
  {
    DaysFromCivilNextDay(t.year, t.month, t.day);
  }

  /** `n` in decimal, left-padded with zeros to `width` digits (`%02d`, `%04d`). */
  function ZeroPad(n: nat, width: nat): (s: string)
    ensures AllDigits(s) && |s| >= width && |s| > 0
    decreases n, width
  {
    if n < 10 && width <= 1 then [DigitChar(n)]
    else ZeroPad(n / 10, if width == 0 then 0 else width - 1) + [DigitChar(n % 10)]
  }

  /** What one `%` directive renders: the six fields the code asks for, zero-padded; any other directive is kept as written. */
  function Directive(t: DateTime, c: char): (s: string)
    ensures c in "YmdHMS" ==> AllDigits(s) && |s| > 0
  {
    match c
    case 'Y' => ZeroPad(t.year, 4)
    case 'm' => ZeroPad(t.month, 2)
    case 'd' => ZeroPad(t.day, 2)
    case 'H' => ZeroPad(t.hour, 2)
    case 'M' => ZeroPad(t.minute, 2)
    case 'S' => ZeroPad(t.second, 2)
    case _ => ['%', c]
  }

  /** `t.strftime(fmt)`: a `%` and the character after it become that directive's text, every other character is copied. */
  function Strftime(t: DateTime, fmt: string): string
    decreases |fmt|
  {
    if fmt == [] then []
    else if fmt[0] == '%' && |fmt| >= 2 then Directive(t, fmt[1]) + Strftime(t, fmt[2..])
    else [fmt[0]] + Strftime(t, fmt[1..])
  }

  /** A format that is read as whole directives and characters, so no directive straddles its end. */
  predicate WholeDirectives(fmt: string)
    decreases |fmt|
  {
    if fmt == [] then true
    else if fmt[0] == '%' then |fmt| >= 2 && WholeDirectives(fmt[2..])
    else WholeDirectives(fmt[1..])
  }

  /** Formatting distributes over concatenation when the first part ends on a directive boundary. */
  lemma {:induction false} StrftimeAppend(t: DateTime, f1: string, f2: string)
    requires WholeDirectives(f1)
    ensures Strftime(t, f1 + f2) == Strftime(t, f1) + Strftime(t, f2)
    decreases |f1|
  {
    if f1 == [] {
      assert f1 + f2 == f2;
    } else if f1[0] == '%' {
      assert (f1 + f2)[2..] == f1[2..] + f2;
      StrftimeAppend(t, f1[2..], f2);
    } else {
      assert (f1 + f2)[1..] == f1[1..] + f2;
      StrftimeAppend(t, f1[1..], f2);
    }
  }

  /** A plain character between two formats renders as itself between their renderings. */
  lemma StrftimeAround(t: DateTime, f1: string, c: char, f2: string)
    requires WholeDirectives(f1) && c != '%'
    ensures Strftime(t, f1 + [c] + f2) == Strftime(t, f1) + [c] + Strftime(t, f2)
  {
    assert f1 + [c] + f2 == f1 + ([c] + f2);
    StrftimeAppend(t, f1, [c] + f2);
    assert ([c] + f2)[1..] == f2;
  }

  /** A character that is neither a digit nor in the format never appears in its rendering. */
  lemma {:induction false} StrftimeKeepsOut(t: DateTime, fmt: string, c: char)
    requires c !in fmt && !IsDigit(c)
    ensures c !in Strftime(t, fmt)
    decreases |fmt|
  {
    if fmt == [] {
    } else if fmt[0] == '%' && |fmt| >= 2 {
      assert fmt[1] in fmt;
      StrftimeKeepsOut(t, fmt[2..], c);
      if fmt[1] !in "YmdHMS" {
        assert Directive(t, fmt[1]) == ['%', fmt[1]];
      }
    } else {
      StrftimeKeepsOut(t, fmt[1..], c);
    }
  }

  /** Two readings within the same second: every field but the microseconds agrees. */
  predicate SameSecond(t: DateTime, u: DateTime)
  {
    t.(micro := 0) == u.(micro := 0)
  }

  /** The directives the code uses stop at seconds, so readings within one second render alike. */
  lemma {:induction false} StrftimeSameSecond(t: DateTime, u: DateTime, fmt: string)
    requires SameSecond(t, u)
    ensures Strftime(t, fmt) == Strftime(u, fmt)
    decreases |fmt|
  {
    if fmt != [] {
      if fmt[0] == '%' && |fmt| >= 2 {
        StrftimeSameSecond(t, u, fmt[2..]);
      } else {
        StrftimeSameSecond(t, u, fmt[1..]);
      }
    }
  }

  const DateFormat: string := "%Y-%m-%d"
  const TimeFormat: string := "%H:%M:%S"

  /** `strftime('%Y-%m-%d')`. */
  function DateText(t: DateTime): string
  {
    Strftime(t, DateFormat)
  }

  /** `strftime('%H:%M:%S')`. */
  function TimeText(t: DateTime): string
  {
    Strftime(t, TimeFormat)
  }

  /** `strftime('%Y%m%d_%H%M%S')`, the stamp inside image file names. */
  function StampText(t: DateTime): string
  {
    Strftime(t, "%Y%m%d_%H%M%S")
  }

  /** `strftime('%Y-%m-%d %H:%M:%S')`: the date format, a space, the time format. */
  function DateTimeText(t: DateTime): string
  {
    Strftime(t, DateFormat + " " + TimeFormat)
  }

  /**
   * `date, time = now.strftime('%Y-%m-%d %H:%M:%S').split(' ')`: the unpacking always
   * succeeds and yields the `%Y-%m-%d` and `%H:%M:%S` renderings of the same reading.
   */
  function DateAndTime(t: DateTime): (r: (string, string))
    ensures r == (DateText(t), TimeText(t))
  {
    var date, time := DateText(t), TimeText(t);
    StrftimeAround(t, DateFormat, ' ', TimeFormat);
    StrftimeKeepsOut(t, DateFormat, ' ');
    StrftimeKeepsOut(t, TimeFormat, ' ');
    SplitOnce(date, time, ' ');
    var parts := Split(DateTimeText(t), ' ');
    (parts[0], parts[1])
  }

  /** 2023-11-14 22:13:20 is 1_700_000_000 seconds after the epoch. */
  lemma KnownInstant()
    ensures EpochMicros(DateTime(2023, 11, 14, 22, 13, 20, 0)) == 1_700_000_000 * MicrosPerSecond
  {
  }

  /** The epoch is day 0. */
  lemma EpochIsDayZero()
    ensures DaysFromCivil(1970, 1, 1) == 0
  {
  }

  /** In a leap year March 1st follows February 29th. */
  lemma LeapDayPrecedesMarch()
    ensures DaysFromCivil(2024, 3, 1) - DaysFromCivil(2024, 2, 29) == 1
  {
  }

  /** Padded fields render as the digits they hold: `%02d` of 7 is `07`, `%04d` of 2023 is `2023`. */
  lemma KnownPadding()
    ensures ZeroPad(7, 2) == "07" && ZeroPad(2023, 4) == "2023"
  {
  }

  /** Padding never cuts a wider field: the padded digits denote the number itself, whatever the width. */
  lemma {:induction false} ZeroPadValue(n: nat, width: nat)
    ensures DigitsValue(ZeroPad(n, width)) == n
    decreases n, width
  {
    if !(n < 10 && width <= 1) {
      var w := if width == 0 then 0 else width - 1;
      var s := ZeroPad(n / 10, w) + [DigitChar(n % 10)];
      assert s[..|s| - 1] == ZeroPad(n / 10, w);
      ZeroPadValue(n / 10, w);
    }
  }

  /** 2023-11-14 22:13:20 renders its date as `2023-11-14`. */
  lemma KnownDateRendering()
    ensures DateText(DateTime(2023, 11, 14, 22, 13, 20, 0)) == "2023-11-14"
  {
    KnownPadding();
    assert ZeroPad(11, 2) == "11" && ZeroPad(14, 2) == "14";
  }

  /** 2023-11-14 22:13:20 renders its time as `22:13:20`. */
  lemma KnownTimeRendering()
    ensures TimeText(DateTime(2023, 11, 14, 22, 13, 20, 0)) == "22:13:20"
  {
    assert ZeroPad(22, 2) == "22" && ZeroPad(13, 2) == "13" && ZeroPad(20, 2) == "20";
  }
}
