/**
 * Calendar days of the reference leap year 2024, their zero-padded and
 * "MonthName D" renderings, the parse of such a label back to a day, and the
 * enumeration of the 366 days that the On-This-Day pass walks.
 */
module Calendar {
  import opened Options
  import opened Text

  /** A day of the reference leap year 2024 (the year itself is implicit). */
  datatype MonthDay = MonthDay(month: int, day: int)

  function DaysInMonth(month: int): int
    requires 1 <= month <= 12
  {
    if month == 2 then 29
    else if month == 4 || month == 6 || month == 9 || month == 11 then 30
    else 31
  }

  /** A day that exists in 2024, so February 29 included. */
  predicate Valid(md: MonthDay)
  {
    1 <= md.month <= 12 && 1 <= md.day <= DaysInMonth(md.month)
  }

  /** Chronological order within the year. */
  predicate Before(a: MonthDay, b: MonthDay)
  {
    a.month < b.month || (a.month == b.month && a.day < b.day)
  }

  /** `calendar.month_name[1..12]` in the default locale. */
  const MONTH_NAMES: seq<string> := ["January", "February", "March", "April", "May", "June",
                                     "July", "August", "September", "October", "November", "December"]

  function MonthName(month: int): string
    requires 1 <= month <= 12
  {
    MONTH_NAMES[month - 1]
  }

  /** CUMULATIVE_DAYS[m] is the number of days in months 1..m of 2024. */
  const CUMULATIVE_DAYS: seq<int> := [0, 31, 60, 91, 121, 152, 182, 213, 244, 274, 305, 335, 366]

  lemma CumulativeDaysStep(month: int)
    requires 1 <= month <= 12
    ensures CUMULATIVE_DAYS[month] == CUMULATIVE_DAYS[month - 1] + DaysInMonth(month)
    ensures CUMULATIVE_DAYS[month - 1] < CUMULATIVE_DAYS[month] <= 366
  {
  }

  lemma CumulativeDaysMonotone(m: int, n: int)
    requires 0 <= m <= n <= 12
    ensures CUMULATIVE_DAYS[m] <= CUMULATIVE_DAYS[n]
  {
  }

  /** The 1-based position of a day in 2024 (`timetuple().tm_yday`). */
  function DayOfYear(md: MonthDay): (n: int)
    requires Valid(md)
    ensures CUMULATIVE_DAYS[md.month - 1] < n <= CUMULATIVE_DAYS[md.month]
    ensures 1 <= n <= 366
  {
    CumulativeDaysStep(md.month);
    CUMULATIVE_DAYS[md.month - 1] + md.day
  }

  /** `datetime.date(2024, 1, 1) + datetime.timedelta(days=n - 1)`, reduced to month and day. */
  function DateOfOrdinal(n: int): MonthDay
    requires 1 <= n <= 366
  {
    OrdinalFrom(n, 1)
  }

  function OrdinalFrom(n: int, month: int): MonthDay
    requires 1 <= month <= 12 && CUMULATIVE_DAYS[month - 1] < n <= 366
    decreases 12 - month
  {
    if n <= CUMULATIVE_DAYS[month] then MonthDay(month, n - CUMULATIVE_DAYS[month - 1])
    else OrdinalFrom(n, month + 1)
  }

  lemma {:induction false} OrdinalFromIsInverse(n: int, month: int)
    requires 1 <= month <= 12 && CUMULATIVE_DAYS[month - 1] < n <= 366
    ensures Valid(OrdinalFrom(n, month)) && DayOfYear(OrdinalFrom(n, month)) == n
    decreases 12 - month
  {
    CumulativeDaysStep(month);
    if n > CUMULATIVE_DAYS[month] {
      OrdinalFromIsInverse(n, month + 1);
    }
  }

  /** Every loop index 1..366 names a real day, and the day's ordinal is the index back. */
  lemma OrdinalRoundTrip(n: int)
    requires 1 <= n <= 366
    ensures Valid(DateOfOrdinal(n)) && DayOfYear(DateOfOrdinal(n)) == n
  {
    OrdinalFromIsInverse(n, 1);
  }

  lemma {:induction false} OrdinalFromFinds(md: MonthDay, month: int)
    requires Valid(md) && 1 <= month <= md.month
    ensures CUMULATIVE_DAYS[month - 1] < DayOfYear(md)
    ensures OrdinalFrom(DayOfYear(md), month) == md
    decreases 12 - month
  {
    CumulativeDaysMonotone(month - 1, md.month - 1);
    if month < md.month {
      CumulativeDaysMonotone(month, md.month - 1);
      OrdinalFromFinds(md, month + 1);
    }
  }

  /** Every day of 2024 is reached by the loop, at the index given by its ordinal. */
  lemma DayOfYearRoundTrip(md: MonthDay)
    requires Valid(md)
    ensures DateOfOrdinal(DayOfYear(md)) == md
  {
    OrdinalFromFinds(md, 1);
  }

  /** Ordinals order days chronologically. */
  lemma DayOfYearOrder(a: MonthDay, b: MonthDay)
    requires Valid(a) && Valid(b)
    ensures Before(a, b) <==> DayOfYear(a) < DayOfYear(b)
  {
    if a.month < b.month {
      CumulativeDaysMonotone(a.month, b.month - 1);
    } else if b.month < a.month {
      CumulativeDaysMonotone(b.month, a.month - 1);
    }
  }

  /** The days the On-This-Day loop `for day in range(1, 367)` visits, in visiting order. */
  function LeapYearDays(): seq<MonthDay>
  {
    seq(366, i requires 0 <= i < 366 => DateOfOrdinal(i + 1))
  }

  /** The `i`-th visited day is the day whose ordinal is `i + 1`. */
  lemma LeapYearDayAt(i: int)
    requires 0 <= i < 366
    ensures |LeapYearDays()| == 366
    ensures Valid(LeapYearDays()[i]) && DayOfYear(LeapYearDays()[i]) == i + 1
  {
    OrdinalRoundTrip(i + 1);
  }

  /** The loop visits only real days of 2024, in strictly chronological order. */
  lemma LeapYearDaysChronological()
    ensures |LeapYearDays()| == 366
    ensures forall i :: 0 <= i < 366 ==> Valid(LeapYearDays()[i])
    ensures forall i, j :: 0 <= i < j < 366 ==> Before(LeapYearDays()[i], LeapYearDays()[j])
  {
    LeapYearDayAt(0);
    var days := LeapYearDays();
    forall i | 0 <= i < 366
      ensures Valid(days[i])
    {
      LeapYearDayAt(i);
    }
    forall i, j | 0 <= i < j < 366
      ensures Before(days[i], days[j])
    {
      LeapYearDayAt(i);
      LeapYearDayAt(j);
      DayOfYearOrder(days[i], days[j]);
    }
  }

  /** The loop visits every day of a leap year, February 29 included, at the index its ordinal names. */
  lemma LeapYearDaysComplete()
    ensures |LeapYearDays()| == 366
    ensures forall md :: Valid(md) ==> 0 <= DayOfYear(md) - 1 < 366 && LeapYearDays()[DayOfYear(md) - 1] == md
    ensures MonthDay(2, 29) in LeapYearDays()
  {
    LeapYearDayAt(0);
    var days := LeapYearDays();
    forall md | Valid(md)
      ensures 0 <= DayOfYear(md) - 1 < 366 && days[DayOfYear(md) - 1] == md
    {
      DayOfYearRoundTrip(md);
    }
    var leapDay := MonthDay(2, 29);
    DayOfYearRoundTrip(leapDay);
    assert days[DayOfYear(leapDay) - 1] == leapDay;
  }

  // ---- decimal renderings ----

  predicate IsDigit(c: char)
  {
    '0' <= c <= '9'
  }

  predicate AllDigits(s: string)
  {
    forall i :: 0 <= i < |s| ==> IsDigit(s[i])
  }

  function Digit(n: int): (c: char)
    requires 0 <= n <= 9
  {
    ('0' as int + n) as char
  }

  /** Python's `int(s)` on a string of ASCII digits. */
  function DecimalValue(s: string): int
    requires AllDigits(s)
  {
    if |s| == 0 then 0 else DecimalValue(s[..|s| - 1]) * 10 + (s[|s| - 1] as int - '0' as int)
  }

  lemma DecimalValueShort(s: string)
    requires AllDigits(s) && 1 <= |s| <= 2
    ensures |s| == 1 ==> DecimalValue(s) == s[0] as int - '0' as int
    ensures |s| == 2 ==> DecimalValue(s) == (s[0] as int - '0' as int) * 10 + (s[1] as int - '0' as int)
  {
    assert s[..|s| - 1][..0] == [];
    if |s| == 2 {
      assert s[..1] == [s[0]];
    }
  }

  /** `f"{n:02}"`, zero-padded to two digits. */
  function Pad2(n: int): string
    requires 0 <= n <= 99
  {
    [Digit(n / 10), Digit(n % 10)]
  }

  /** The padded text is two digits whose decimal value is `n`. */
  lemma Pad2IsDecimal(n: int)
    requires 0 <= n <= 99
    ensures |Pad2(n)| == 2 && AllDigits(Pad2(n)) && DecimalValue(Pad2(n)) == n
  {
    DecimalValueShort(Pad2(n));
  }

  /** `f"{d}"` for a day of the month. */
  function DayText(d: int): string
    requires 1 <= d <= 31
  {
    if d < 10 then [Digit(d)] else Pad2(d)
  }

  /** The day's text is one or two digits, with no leading zero, whose decimal value is `d`. */
  lemma DayTextIsDecimal(d: int)
    requires 1 <= d <= 31
    ensures 1 <= |DayText(d)| <= 2 && AllDigits(DayText(d)) && DayText(d)[0] != '0'
    ensures DecimalValue(DayText(d)) == d
  {
    if d < 10 {
      DecimalValueShort(DayText(d));
    } else {
      Pad2IsDecimal(d);
    }
  }

  /**
   * Zero-padding makes string order agree with numeric order; this is why
   * sorting exported rows by their `month` and `day` strings is chronological.
   */
  lemma PaddedOrder(x: int, y: int)
    requires 0 <= x <= 99 && 0 <= y <= 99
    ensures StrLe(Pad2(x), Pad2(y)) <==> x <= y
  {
    Pad2IsDecimal(x);
    Pad2IsDecimal(y);
    var a, b := Pad2(x), Pad2(y);
    assert StrLe(a[1..][1..], b[1..][1..]);
    assert StrLe(a[1..], b[1..]) <==> x % 10 <= y % 10;
    assert a[0] < b[0] <==> x / 10 < y / 10;
    assert a[0] == b[0] <==> x / 10 == y / 10;
    assert x == 10 * (x / 10) + x % 10 && y == 10 * (y / 10) + y % 10;
  }

  // ---- date labels ----

  /** `f"{calendar.month_name[month]} {day}"`, the key of the date-grouped output. */
  function DateLabel(md: MonthDay): string
    requires Valid(md)
  {
    MonthName(md.month) + " " + DayText(md.day)
  }

  /** The index of the first `c` in `s`, or `|s|` when there is none. */
  function IndexOf(s: string, c: char): (i: nat)
    ensures i <= |s| && c !in s[..i] && (i < |s| ==> s[i] == c)
  {
    if |s| == 0 then 0
    else if s[0] == c then 0
    else
      var j := IndexOf(s[1..], c);
      assert s[..j + 1] == [s[0]] + s[1..][..j];
      j + 1
  }

  /** `%B`: the number of the month with exactly this full name. */
  function MonthNumber(name: string): (r: Option<int>)
    ensures r.Some? ==> 1 <= r.value <= 12 && MonthName(r.value) == name
    ensures r.None? ==> forall m :: 1 <= m <= 12 ==> MonthName(m) != name
  {
    MonthNumberFrom(name, 1)
  }

  function MonthNumberFrom(name: string, month: int): (r: Option<int>)
    requires 1 <= month <= 13
    ensures r.Some? ==> month <= r.value <= 12 && MonthName(r.value) == name
    ensures r.Some? ==> forall m :: month <= m < r.value ==> MonthName(m) != name
    ensures r.None? ==> forall m :: month <= m <= 12 ==> MonthName(m) != name
    decreases 13 - month
  {
    if month == 13 then None
    else if MonthName(month) == name then Some(month)
    else MonthNumberFrom(name, month + 1)
  }

  /** `%d`: one digit 1-9, or two digits 01-31. */
  function ParseDay(t: string): (r: Option<int>)
    ensures r.Some? ==> 1 <= r.value <= 31
  {
    if |t| == 1 && IsDigit(t[0]) && t[0] != '0' then
      DecimalValueShort(t);
      Some(DecimalValue(t))
    else if |t| == 2 && AllDigits(t) && 1 <= DecimalValue(t) <= 31 then Some(DecimalValue(t))
    else None
  }

  /**
   * `datetime.strptime(f"{key} 2024", "%B %d %Y")` reduced to month and day:
   * a full month name, one space, a day number that exists in that month of 2024.
   */
  function ParseLabel(key: string): (r: Option<MonthDay>)
    ensures r.Some? ==> Valid(r.value)
  {
    var i := IndexOf(key, ' ');
    if i == |key| then None
    else
      match MonthNumber(key[..i])
      case None => None
      case Some(m) =>
        match ParseDay(key[i + 1..])
        case None => None
        case Some(d) => if d <= DaysInMonth(m) then Some(MonthDay(m, d)) else None
  }

  lemma MonthNamesHaveNoSpace(month: int)
    requires 1 <= month <= 12
    ensures ' ' !in MonthName(month)
  {
  }

  lemma DayTextRoundTrip(d: int)
    requires 1 <= d <= 31
    ensures ParseDay(DayText(d)) == Some(d)
  {
    DayTextIsDecimal(d);
  }

  /** Parsing a label recovers exactly the day it was built from. */
  lemma LabelRoundTrip(md: MonthDay)
    requires Valid(md)
    ensures ParseLabel(DateLabel(md)) == Some(md)
  {
    var name := MonthName(md.month);
    var key := DateLabel(md);
    MonthNamesHaveNoSpace(md.month);
    assert key[..|name|] == name;
    assert key[|name|] == ' ';
    var i := IndexOf(key, ' ');
    assert i == |name|;
    assert key[i + 1..] == DayText(md.day);
    DayTextRoundTrip(md.day);
  }

  /** Distinct days have distinct labels. */
  lemma LabelInjective(a: MonthDay, b: MonthDay)
    requires Valid(a) && Valid(b) && DateLabel(a) == DateLabel(b)
    ensures a == b
  {
    LabelRoundTrip(a);
    LabelRoundTrip(b);
  }
}
