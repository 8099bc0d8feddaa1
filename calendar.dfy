/**
 * Python's `datetime.date` and `datetime.time` as the bot uses them:
 * Gregorian validity as the `datetime(year, month, day)` constructor checks
 * it, day arithmetic (`date - timedelta(days=n)`), `date.replace(day=1)`,
 * the ordering of dates, and `strptime` with the formats `%d.%m.%Y` and
 * `%H:%M` together with their `strftime` renderings.
 */
module Calendar {
  import opened Wrappers
  import opened Text
  import opened Numbers

  datatype Date = Date(year: int, month: int, day: int)
  datatype Time = Time(hour: int, minute: int)

  /** `datetime.MINYEAR` and `datetime.MAXYEAR`. */
  const MinYear := 1
  const MaxYear := 9999

  /** `date.min`, the first day Python can represent. */
  const MinDate := Date(1, 1, 1)

  predicate IsLeap(y: int)
  {
    y % 4 == 0 && (y % 100 != 0 || y % 400 == 0)
  }

  function DaysInMonth(y: int, m: int): (n: int)
    requires 1 <= m <= 12
    ensures 28 <= n <= 31
    ensures m == 2 ==> (n == 29 <==> IsLeap(y))
  {
    if m == 2 then (if IsLeap(y) then 29 else 28)
    else if m == 4 || m == 6 || m == 9 || m == 11 then 30
    else 31
  }

  predicate ValidDate(d: Date)
  {
    MinYear <= d.year <= MaxYear && 1 <= d.month <= 12 && 1 <= d.day <= DaysInMonth(d.year, d.month)
  }

  predicate ValidTime(t: Time)
  {
    0 <= t.hour < 24 && 0 <= t.minute < 60
  }

  /** `datetime(y, m, d).date()`: the date, or `ValueError` (here `None`) when it does not exist. */
  function MakeDate(y: int, m: int, d: int): (r: Option<Date>)
    ensures r.Some? <==> ValidDate(Date(y, m, d))
    ensures r.Some? ==> r.value.year == y && r.value.month == m && r.value.day == d
  {
    if ValidDate(Date(y, m, d)) then Some(Date(y, m, d)) else None
  }

  function DaysInYear(y: int): (n: int)
    ensures n == 365 || n == 366
  {
    if IsLeap(y) then 366 else 365
  }

  /** Days in the years before `y`, counting from year 1. */
  function DaysBeforeYear(y: int): (n: nat)
    requires y >= 1
    ensures n >= 365 * (y - 1)
  {
    if y == 1 then 0 else DaysBeforeYear(y - 1) + DaysInYear(y - 1)
  }

  /** Days in the months of year `y` before month `m`. */
  function DaysBeforeMonth(y: int, m: int): (n: nat)
    requires 1 <= m <= 12
    ensures m == 1 <==> n == 0
  {
    var common :=
      if m == 1 then 0 else if m == 2 then 31 else if m == 3 then 59
      else if m == 4 then 90 else if m == 5 then 120 else if m == 6 then 151
      else if m == 7 then 181 else if m == 8 then 212 else if m == 9 then 243
      else if m == 10 then 273 else if m == 11 then 304 else 334;
    common + if m > 2 && IsLeap(y) then 1 else 0
  }

  lemma MonthStep(y: int, m: int)
    requires 1 <= m < 12
    ensures DaysBeforeMonth(y, m) + DaysInMonth(y, m) == DaysBeforeMonth(y, m + 1)
  {
  }

  lemma YearEnd(y: int)
    ensures DaysBeforeMonth(y, 12) + DaysInMonth(y, 12) == DaysInYear(y)
  {
  }

  /** `date.toordinal()`: day number 1 is 0001-01-01. */
  function Ordinal(d: Date): (n: int)
    requires ValidDate(d)
    ensures n >= 1
    ensures n == 1 <==> d == MinDate
  {
    DaysBeforeYear(d.year) + DaysBeforeMonth(d.year, d.month) + d.day
  }

  /** The calendar day before `d`. */
  function PrevDay(d: Date): (p: Date)
    requires ValidDate(d) && d != MinDate
    ensures ValidDate(p)
  {
    if d.day > 1 then Date(d.year, d.month, d.day - 1)
    else if d.month > 1 then Date(d.year, d.month - 1, DaysInMonth(d.year, d.month - 1))
    else Date(d.year - 1, 12, 31)
  }

  /** Stepping back one calendar day lowers the day number by exactly one. */
  lemma PrevDayOrdinal(d: Date)
    requires ValidDate(d) && d != MinDate
    ensures Ordinal(PrevDay(d)) == Ordinal(d) - 1
  {
    if d.day == 1 {
      if d.month > 1 {
        MonthBoundary(d.year, d.month);
      } else {
        YearBoundary(d.year);
      }
    }
  }

  lemma MonthBoundary(y: int, m: int)
    requires 1 < m <= 12 && MinYear <= y <= MaxYear
    ensures Ordinal(Date(y, m - 1, DaysInMonth(y, m - 1))) + 1 == Ordinal(Date(y, m, 1))
  {
    MonthStep(y, m - 1);
  }

  lemma YearBoundary(y: int)
    requires MinYear < y <= MaxYear
    ensures Ordinal(Date(y - 1, 12, 31)) + 1 == Ordinal(Date(y, 1, 1))
  {
    var before := DaysBeforeYear(y - 1);
    assert DaysBeforeYear(y) == before + DaysInYear(y - 1);
    YearEnd(y - 1);
    assert DaysInMonth(y - 1, 12) == 31;
    assert Ordinal(Date(y - 1, 12, 31)) == before + DaysBeforeMonth(y - 1, 12) + 31;
    assert Ordinal(Date(y, 1, 1)) == DaysBeforeYear(y) + 1;
  }

  /**
   * `d - timedelta(days=n)`: `None` when the result would fall before
   * 0001-01-01, where Python raises `OverflowError`.
   */
  function SubDays(d: Date, n: nat): (r: Option<Date>)
    requires ValidDate(d)
    ensures r.Some? ==> ValidDate(r.value)
    decreases n
  {
    if n == 0 then Some(d)
    else if d == MinDate then None
    else SubDays(PrevDay(d), n - 1)
  }

  lemma SubDaysStep(d: Date, n: nat)
    requires ValidDate(d) && n > 0 && d != MinDate
    ensures SubDays(d, n) == SubDays(PrevDay(d), n - 1)
  {
  }

  /** Subtracting `n` days succeeds exactly when a day numbered `Ordinal(d) - n` exists, and lands on it. */
  lemma {:induction false} SubDaysOrdinal(d: Date, n: nat)
    requires ValidDate(d)
    ensures SubDays(d, n).Some? <==> n < Ordinal(d)
    ensures SubDays(d, n).Some? ==> Ordinal(SubDays(d, n).value) == Ordinal(d) - n
    decreases n
  {
    if n == 0 {
    } else if d == MinDate {
      assert SubDays(d, n) == None;
    } else {
      var p := PrevDay(d);
      SubDaysStep(d, n);
      PrevDayOrdinal(d);
      SubDaysOrdinal(p, n - 1);
    }
  }

  /** `d.replace(day=1)`. */
  function FirstOfMonth(d: Date): (f: Date)
    requires ValidDate(d)
    ensures ValidDate(f) && f.day == 1 && f.year == d.year && f.month == d.month
    ensures Ordinal(d) - Ordinal(f) == d.day - 1
  {
    Date(d.year, d.month, 1)
  }

  /** Python's `a < b` on dates: year, then month, then day. */
  predicate DateBefore(a: Date, b: Date)
  {
    a.year < b.year || (a.year == b.year && (a.month < b.month || (a.month == b.month && a.day < b.day)))
  }

  lemma {:induction false} DaysBeforeYearMonotone(y: int, z: int)
    requires 1 <= y <= z
    ensures DaysBeforeYear(y) + (if y < z then DaysInYear(y) else 0) <= DaysBeforeYear(z)
    decreases z - y
  {
    if y < z - 1 {
      DaysBeforeYearMonotone(y, z - 1);
    }
  }

  lemma DaysBeforeMonthMonotone(y: int, m: int, k: int)
    requires 1 <= m < k <= 12
    ensures DaysBeforeMonth(y, m) + DaysInMonth(y, m) <= DaysBeforeMonth(y, k)
  {
  }

  lemma DayWithinYear(d: Date)
    requires ValidDate(d)
    ensures DaysBeforeMonth(d.year, d.month) + d.day <= DaysInYear(d.year)
  {
    if d.month < 12 {
      DaysBeforeMonthMonotone(d.year, d.month, 12);
    }
    YearEnd(d.year);
  }

  lemma DateBeforeImpliesOrdinal(a: Date, b: Date)
    requires ValidDate(a) && ValidDate(b) && DateBefore(a, b)
    ensures Ordinal(a) < Ordinal(b)
  {
    if a.year < b.year {
      DayWithinYear(a);
      DaysBeforeYearMonotone(a.year, b.year);
    } else if a.month < b.month {
      DaysBeforeMonthMonotone(a.year, a.month, b.month);
    }
  }

  /** Python's lexicographic date order is the order of day numbers. */
  lemma DateBeforeOrdinal(a: Date, b: Date)
    requires ValidDate(a) && ValidDate(b)
    ensures DateBefore(a, b) <==> Ordinal(a) < Ordinal(b)
    ensures a == b <==> Ordinal(a) == Ordinal(b)
  {
    if DateBefore(a, b) {
      DateBeforeImpliesOrdinal(a, b);
    } else if DateBefore(b, a) {
      DateBeforeImpliesOrdinal(b, a);
    }
  }

  // ---------------------------------------------------------------------
  // strptime fields. The regular expressions `_strptime` builds for the
  // directives are, for %d, `3[01]|[12]\d|0[1-9]|[1-9]| [1-9]`; for %m,
  // `1[0-2]|0[1-9]|[1-9]`; for %Y four digits; for %H, `2[0-3]|[0-1]\d|\d`;
  // for %M, `[0-5]\d|\d`. A field is followed by a literal separator that it
  // cannot contain, so each field is exactly the text between separators,
  // and the last one must reach the end of the input.
  // ---------------------------------------------------------------------

  predicate NonZeroDigit(c: char)
  {
    IsDigit(c) && c != '0'
  }

  /** A field of one digit, or of two digits whose value lies in `lo..hi`. */
  predicate ShortField(s: string, lo: int, hi: int)
  {
    (|s| == 1 && IsDigit(s[0])) || (|s| == 2 && AllDigits(s) && lo <= DigitsValue(s) <= hi)
  }

  predicate DayField(s: string)
  {
    (ShortField(s, 1, 31) && s != "0") || (|s| == 2 && s[0] == ' ' && NonZeroDigit(s[1]))
  }

  predicate MonthField(s: string)
  {
    ShortField(s, 1, 12) && s != "0"
  }

  predicate YearField(s: string)
  {
    |s| == 4 && AllDigits(s)
  }

  predicate HourField(s: string)
  {
    ShortField(s, 0, 23)
  }

  predicate MinuteField(s: string)
  {
    ShortField(s, 0, 59)
  }

  /** The number a field denotes; `int()` skips the leading blank of ` [1-9]`. */
  function FieldValue(s: string): (v: nat)
    requires (|s| >= 1 && s[0] == ' ' && AllDigits(s[1..])) || AllDigits(s)
    ensures |s| == 1 && IsDigit(s[0]) ==> v == DigitValue(s[0])
    ensures |s| >= 1 && s[0] == ' ' ==> v == DigitsValue(s[1..])
    ensures AllDigits(s) ==> v == DigitsValue(s)
  {
    assert |s| == 1 && IsDigit(s[0]) ==> DigitsValue(s) == DigitValue(s[0]) by {
      if |s| == 1 && IsDigit(s[0]) {
        DigitsValueSnoc([], s[0]);
        assert [] + [s[0]] == s;
      }
    }
    if |s| >= 1 && s[0] == ' ' then DigitsValue(s[1..]) else DigitsValue(s)
  }

  /** `datetime.strptime(s, "%d.%m.%Y").date()`. */
  function ParseDMY(s: string): (r: Option<Date>)
    ensures r.Some? ==> ValidDate(r.value)
  {
    var parts := SplitOn(s, '.');
    if |parts| == 3 && DayField(parts[0]) && MonthField(parts[1]) && YearField(parts[2]) then
      MakeDate(FieldValue(parts[2]), FieldValue(parts[1]), FieldValue(parts[0]))
    else None
  }

  /** `datetime.strptime(s, "%H:%M").time()`. */
  function ParseHM(s: string): (r: Option<Time>)
    ensures r.Some? ==> ValidTime(r.value)
  {
    var parts := SplitOn(s, ':');
    if |parts| == 2 && HourField(parts[0]) && MinuteField(parts[1]) then
      Some(Time(FieldValue(parts[0]), FieldValue(parts[1])))
    else None
  }

  /** Two decimal digits, zero padded. */
  function Pad2(n: nat): (s: string)
    requires n < 100
    ensures |s| == 2 && AllDigits(s) && DigitsValue(s) == n
  {
    var s := [DigitChar(n / 10), DigitChar(n % 10)];
    DigitsValueSnoc([], DigitChar(n / 10));
    DigitsValueSnoc([DigitChar(n / 10)], DigitChar(n % 10));
    assert [] + [DigitChar(n / 10)] == [DigitChar(n / 10)];
    assert [DigitChar(n / 10)] + [DigitChar(n % 10)] == s;
    s
  }

  /** Four decimal digits, zero padded. */
  function Pad4(n: nat): (s: string)
    requires n < 10000
    ensures |s| == 4 && AllDigits(s) && DigitsValue(s) == n
  {
    var s := Pad2(n / 100) + Pad2(n % 100);
    assert s[..3] == Pad2(n / 100) + [Pad2(n % 100)[0]];
    assert s[..2] == Pad2(n / 100);
    assert s[..3][..2] == s[..2];
    s
  }

  /** `d.strftime('%d.%m.%Y')` for a four-digit year. */
  function FormatDMY(d: Date): (s: string)
    requires ValidDate(d) && d.year >= 1000
    ensures |s| == 10
  {
    Pad2(d.day) + "." + Pad2(d.month) + "." + Pad4(d.year)
  }

  /** `t.strftime('%H:%M')`. */
  function FormatHM(t: Time): (s: string)
    requires ValidTime(t)
    ensures |s| == 5
  {
    Pad2(t.hour) + ":" + Pad2(t.minute)
  }

  lemma DigitsHaveNoChar(s: string, c: char)
    requires AllDigits(s) && !IsDigit(c)
    ensures c !in s
  {
  }

  lemma ParseFormatHM(t: Time)
    requires ValidTime(t)
    ensures ParseHM(FormatHM(t)) == Some(t)
  {
    var h := Pad2(t.hour);
    var m := Pad2(t.minute);
    DigitsHaveNoChar(h, ':');
    DigitsHaveNoChar(m, ':');
    SplitOnTwo(h, m, ':');
    assert FormatHM(t) == h + [':'] + m;
  }

  lemma SplitThree(a: string, b: string, c: string, sep: char)
    requires sep !in a && sep !in b && sep !in c
    ensures SplitOn(a + [sep] + b + [sep] + c, sep) == [a, b, c]
  {
    SplitOnConcat(a + [sep] + b, c, sep);
    SplitOnTwo(a, b, sep);
    SplitOnNoSep(c, sep);
  }

  /** What the bot prints as `%d.%m.%Y` reads back as the same date. */
  lemma ParseFormatDMY(d: Date)
    requires ValidDate(d) && d.year >= 1000
    ensures ParseDMY(FormatDMY(d)) == Some(d)
  {
    var dd := Pad2(d.day);
    var mm := Pad2(d.month);
    var yy := Pad4(d.year);
    DigitsHaveNoChar(dd, '.');
    DigitsHaveNoChar(mm, '.');
    DigitsHaveNoChar(yy, '.');
    SplitThree(dd, mm, yy, '.');
    assert FormatDMY(d) == dd + ['.'] + mm + ['.'] + yy;
  }
}
