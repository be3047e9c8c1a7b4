/**
 * Calendar dates and the part of Python's `datetime.strptime` / `strftime` that the
 * program relies on: the two format strings `%Y-%m-%d` and `%a, %d %b %Y %H:%M:%S %Z`.
 *
 * The parser interprets a format string directive by directive, the way strptime does,
 * but each directive accepts a fixed-width form only (see README, "Left out").
 */
module Dates {
  import opened Wrappers

  datatype Date = Date(year: int, month: int, day: int)

  /** A naive datetime, as strptime returns it (a parsed time-zone name is dropped). */
  datatype DateTime = DateTime(date: Date, hour: int, minute: int, second: int)

  /** The layout `ArticleDate` is parsed with when the weekly articles are selected. */
  const IsoFormat: string := "%Y-%m-%d"

  /** The RFC 822 layout (section 5 of RFC 822) `ArticleDate` is parsed with for the digest. */
  const RfcFormat: string := "%a, %d %b %Y %H:%M:%S %Z"

  const DayAbbreviations: seq<string> := ["Mon", "Tue", "Wed", "Thu", "Fri", "Sat", "Sun"]
  const MonthAbbreviations: seq<string> :=
    ["Jan", "Feb", "Mar", "Apr", "May", "Jun", "Jul", "Aug", "Sep", "Oct", "Nov", "Dec"]
  const ZoneNames: seq<string> := ["GMT", "UTC"]

  // ---------------------------------------------------------------------------
  // The proleptic Gregorian calendar, numbered as Python's date.toordinal does
  // ---------------------------------------------------------------------------

  predicate IsLeapYear(y: int) {
    y % 4 == 0 && (y % 100 != 0 || y % 400 == 0)
  }

  function DaysInMonth(y: int, m: int): int
    requires 1 <= m <= 12
  {
    if m == 2 then (if IsLeapYear(y) then 29 else 28)
    else if m == 4 || m == 6 || m == 9 || m == 11 then 30
    else 31
  }

  function DaysInYear(y: int): int {
    if IsLeapYear(y) then 366 else 365
  }

  /** The dates `datetime.date` accepts: years 1 to 9999, and a day that exists in its month. */
  predicate ValidDate(d: Date) {
    1 <= d.year <= 9999 && 1 <= d.month <= 12 && 1 <= d.day <= DaysInMonth(d.year, d.month)
  }

  predicate ValidDateTime(t: DateTime) {
    ValidDate(t.date) && 0 <= t.hour < 24 && 0 <= t.minute < 60 && 0 <= t.second < 60
  }

  function DaysBeforeYear(y: int): int
    requires y >= 1
  {
    var p := y - 1;
    365 * p + p / 4 - p / 100 + p / 400
  }

  function DaysBeforeMonth(y: int, m: int): int
    requires 1 <= m <= 12
  {
    [0, 31, 59, 90, 120, 151, 181, 212, 243, 273, 304, 334][m - 1]
      + (if m > 2 && IsLeapYear(y) then 1 else 0)
  }

  /** Day number of a date: 0001-01-01 is day 1. */
  function Ordinal(d: Date): int
    requires ValidDate(d)
  {
    DaysBeforeYear(d.year) + DaysBeforeMonth(d.year, d.month) + d.day
  }

  /** Day of the week of a day number, Monday being 0 (day 1 was a Monday). */
  function Weekday(ordinal: int): (w: int)
    ensures 0 <= w < 7
  {
    (ordinal + 6) % 7
  }

  /** Seconds since the start of day 1; orders datetimes as Python compares them. */
  function Timestamp(t: DateTime): int
    requires ValidDateTime(t)
  {
    Ordinal(t.date) * 86400 + t.hour * 3600 + t.minute * 60 + t.second
  }

  /** Python's comparison of two dates: by year, then month, then day. */
  predicate DateBefore(d1: Date, d2: Date) {
    d1.year < d2.year
    || (d1.year == d2.year && d1.month < d2.month)
    || (d1.year == d2.year && d1.month == d2.month && d1.day < d2.day)
  }

  /** Python's comparison of two naive datetimes: by date, then hour, minute, second. */
  predicate DateTimeBefore(t1: DateTime, t2: DateTime) {
    DateBefore(t1.date, t2.date)
    || (t1.date == t2.date &&
        (t1.hour < t2.hour
         || (t1.hour == t2.hour && t1.minute < t2.minute)
         || (t1.hour == t2.hour && t1.minute == t2.minute && t1.second < t2.second)))
  }

  lemma DaysBeforeNextMonth(y: int, m: int)
    requires 1 <= m < 12
    ensures DaysBeforeMonth(y, m) + DaysInMonth(y, m) == DaysBeforeMonth(y, m + 1)
  {
  }

  lemma DaysBeforeNextYear(y: int)
    requires y >= 1
    ensures DaysBeforeYear(y) + DaysInYear(y) == DaysBeforeYear(y + 1)
  {
    QuotientStep(y, 4);
    QuotientStep(y, 100);
    QuotientStep(y, 400);
    MultipleNests(y);
    var b4 := if y % 4 == 0 then 1 else 0;
    var b100 := if y % 100 == 0 then 1 else 0;
    var b400 := if y % 400 == 0 then 1 else 0;
    assert DaysInYear(y) == 365 + b4 - b100 + b400;
  }

  /** A multiple of 400 is a multiple of 100, and a multiple of 100 is a multiple of 4. */
  lemma MultipleNests(y: int)
    ensures y % 400 == 0 ==> y % 100 == 0
    ensures y % 100 == 0 ==> y % 4 == 0
  {
    if y % 400 == 0 {
      var k := y / 400;
      assert y == 400 * k;
      DivExact(y, 100, 4 * k);
    }
    if y % 100 == 0 {
      var k := y / 100;
      assert y == 100 * k;
      DivExact(y, 4, 25 * k);
    }
  }

  /** The quotient by `d` grows by one exactly at the multiples of `d`. */
  lemma QuotientStep(y: int, d: int)
    requires y >= 1 && d >= 1
    ensures y / d == (y - 1) / d + (if y % d == 0 then 1 else 0)
  {
    var q, r := (y - 1) / d, (y - 1) % d;
    assert y == d * q + (r + 1);
    if r + 1 == d {
      assert y == d * (q + 1);
      DivExact(y, d, q + 1);
    } else {
      DivWithRemainder(y, d, q, r + 1);
    }
  }

  lemma DivExact(y: int, d: int, q: int)
    requires d >= 1 && y == d * q
    ensures y / d == q && y % d == 0
  {
    DivWithRemainder(y, d, q, 0);
  }

  /** Euclidean division is unique: a quotient and remainder in range are the ones `/` and `%` give. */
  lemma DivWithRemainder(y: int, d: int, q: int, r: int)
    requires d >= 1 && 0 <= r < d && y == d * q + r
    ensures y / d == q && y % d == r
  {
    var q', r' := y / d, y % d;
    assert y == d * q' + r';
    if q' > q {
      assert d * q' >= d * (q + 1) by { MulMonotone(d, q + 1, q'); }
    } else if q' < q {
      assert d * q >= d * (q' + 1) by { MulMonotone(d, q' + 1, q); }
    }
  }

  lemma MulMonotone(d: int, a: int, b: int)
    requires d >= 1 && a <= b
    ensures d * a <= d * b
  {
    assert d * b - d * a == d * (b - a);
  }

  /** A date's day number lies within its year's range of day numbers. */
  lemma OrdinalWithinYear(d: Date)
    requires ValidDate(d)
    ensures DaysBeforeYear(d.year) < Ordinal(d) <= DaysBeforeYear(d.year) + DaysInYear(d.year)
  {
    var m := d.month;
    while m < 12
      invariant d.month <= m <= 12
      invariant Ordinal(d) <= DaysBeforeYear(d.year) + DaysBeforeMonth(d.year, m) + DaysInMonth(d.year, m)
    {
      DaysBeforeNextMonth(d.year, m);
      m := m + 1;
    }
  }

  lemma {:induction false} DaysBeforeYearMonotone(y1: int, y2: int)
    requires 1 <= y1 <= y2
    ensures DaysBeforeYear(y1) + (y2 - y1) * 365 <= DaysBeforeYear(y2)
    decreases y2 - y1
  {
    if y1 < y2 {
      DaysBeforeNextYear(y1);
      DaysBeforeYearMonotone(y1 + 1, y2);
    }
  }

  /** Day numbers follow calendar order: an earlier date has a smaller day number. */
  lemma OrdinalMonotone(d1: Date, d2: Date)
    requires ValidDate(d1) && ValidDate(d2)
    requires DateBefore(d1, d2)
    ensures Ordinal(d1) < Ordinal(d2)
  {
    if d1.year < d2.year {
      OrdinalWithinYear(d1);
      OrdinalWithinYear(d2);
      DaysBeforeNextYear(d1.year);
      DaysBeforeYearMonotone(d1.year + 1, d2.year);
    } else if d1.month < d2.month {
      MonthEndsBefore(d1.year, d1.month, d2.month);
    }
  }

  /** A month ends no later than any later month of the same year begins. */
  lemma {:induction false} MonthEndsBefore(y: int, m1: int, m2: int)
    requires 1 <= m1 < m2 <= 12
    ensures DaysBeforeMonth(y, m1) + DaysInMonth(y, m1) <= DaysBeforeMonth(y, m2)
    decreases m2 - m1
  {
    DaysBeforeNextMonth(y, m1);
    if m1 + 1 < m2 {
      MonthEndsBefore(y, m1 + 1, m2);
    }
  }

  /** Timestamps follow Python's datetime order, so sorting by timestamp sorts by datetime. */
  lemma TimestampMonotone(t1: DateTime, t2: DateTime)
    requires ValidDateTime(t1) && ValidDateTime(t2)
    requires DateTimeBefore(t1, t2)
    ensures Timestamp(t1) < Timestamp(t2)
  {
    if DateBefore(t1.date, t2.date) {
      OrdinalMonotone(t1.date, t2.date);
    }
  }

  /** Two datetimes neither of which comes before the other are the same datetime. */
  lemma DateTimeBeforeTotal(t1: DateTime, t2: DateTime)
    requires !DateTimeBefore(t1, t2) && !DateTimeBefore(t2, t1)
    ensures t1 == t2
  {
    assert t1.date == t2.date;
  }

  /** The numeric sort key orders datetimes exactly as Python compares them, ties included. */
  lemma TimestampOrders(t1: DateTime, t2: DateTime)
    requires ValidDateTime(t1) && ValidDateTime(t2)
    ensures Timestamp(t1) < Timestamp(t2) <==> DateTimeBefore(t1, t2)
    ensures Timestamp(t1) == Timestamp(t2) <==> t1 == t2
  {
    if DateTimeBefore(t1, t2) {
      TimestampMonotone(t1, t2);
    } else if DateTimeBefore(t2, t1) {
      TimestampMonotone(t2, t1);
    } else {
      DateTimeBeforeTotal(t1, t2);
    }
  }

  /** Going back `Weekday(x)` days from `x` reaches a Monday. */
  lemma MondayBefore(x: int)
    ensures Weekday(x - Weekday(x)) == 0
  {
    var q := (x + 6) / 7;
    assert x + 6 - Weekday(x) == 7 * q;
  }

  /** A Monday that starts a seven-day span holding `x` is the Monday of `x`'s week. */
  lemma MondayOfWeek(x: int, monday: int)
    requires Weekday(monday) == 0 && monday <= x < monday + 7
    ensures x - Weekday(x) == monday
  {
    var q := (monday + 6) / 7;
    assert monday + 6 == 7 * q;
    assert x + 6 == 7 * q + (x - monday);
  }

  // ---------------------------------------------------------------------------
  // Digits
  // ---------------------------------------------------------------------------

  predicate IsDigit(c: char) {
    '0' <= c <= '9'
  }

  predicate AllDigits(s: string) {
    forall i :: 0 <= i < |s| ==> IsDigit(s[i])
  }

  /** The decimal value of a string of digits. */
  function Value(s: string): nat
    requires AllDigits(s)
  {
    if s == [] then 0 else Value(s[..|s| - 1]) * 10 + (s[|s| - 1] as int - '0' as int)
  }

  function Pow10(n: nat): (p: nat)
    ensures p >= 1
  {
    if n == 0 then 1 else 10 * Pow10(n - 1)
  }

  /** `n` written with exactly `width` digits: zero-padded on the left, cut on the left. */
  function Pad(n: nat, width: nat): (s: string)
    ensures |s| == width && AllDigits(s)
  {
    if width == 0 then [] else Pad(n / 10, width - 1) + [('0' as int + n % 10) as char]
  }

  /** Reading back a padded number gives the number, when it fits in the width. */
  lemma {:induction false} ValuePad(n: nat, width: nat)
    requires n < Pow10(width)
    ensures Value(Pad(n, width)) == n
  {
    if width > 0 {
      var s := Pad(n, width);
      var last := ('0' as int + n % 10) as char;
      assert s == Pad(n / 10, width - 1) + [last];
      assert s[..|s| - 1] == Pad(n / 10, width - 1);
      assert s[|s| - 1] as int - '0' as int == n % 10;
      assert n / 10 < Pow10(width - 1);
      ValuePad(n / 10, width - 1);
      assert n == n / 10 * 10 + n % 10;
    }
  }

  // ---------------------------------------------------------------------------
  // strptime
  // ---------------------------------------------------------------------------

  /** The fields a format can set; what a format does not set keeps strptime's default. */
  datatype Fields = Fields(year: int, month: int, day: int, hour: int, minute: int, second: int)

  const DefaultFields: Fields := Fields(1900, 1, 1, 0, 0, 0)

  /** The number written by the first `width` characters of `s`, if they are all digits. */
  function NumberAt(s: string, width: nat): (r: Option<nat>)
    ensures r.Some? ==> |s| >= width && AllDigits(s[..width]) && r.value == Value(s[..width])
  {
    if |s| >= width && AllDigits(s[..width]) then Some(Value(s[..width])) else None
  }

  /** A two-digit field whose value must lie in `lo..hi`, as strptime's pattern for it demands. */
  function TwoDigits(s: string, lo: int, hi: int): (r: Option<nat>)
    ensures r.Some? ==> lo <= r.value <= hi && |s| >= 2
  {
    match NumberAt(s, 2)
    case Some(v) => if lo <= v <= hi then Some(v) else None
    case None => None
  }

  /** The position of the first three characters of `s` in `names`, if they are one of them. */
  function NameAt(s: string, names: seq<string>): (r: Option<nat>)
    ensures r.Some? ==> |s| >= 3 && r.value < |names| && names[r.value] == s[..3]
  {
    if |s| < 3 then None else IndexOf(names, s[..3])
  }

  function IndexOf(names: seq<string>, w: string): (r: Option<nat>)
    ensures r.Some? ==> r.value < |names| && names[r.value] == w
    ensures r.None? ==> w !in names
  {
    if names == [] then None
    else if names[0] == w then Some(0)
    else match IndexOf(names[1..], w)
      case Some(k) => Some(k + 1)
      case None => None
  }

  /** One `%` directive: what it consumes from the front of `s` and which field it sets. */
  function ScanDirective(s: string, d: char, f: Fields): (r: Option<(string, Fields)>)
    ensures r.Some? ==> |r.value.0| < |s|
  {
    match d
    case 'Y' =>
      (match NumberAt(s, 4) case Some(v) => Some((s[4..], f.(year := v))) case None => None)
    case 'm' =>
      (match TwoDigits(s, 1, 12) case Some(v) => Some((s[2..], f.(month := v))) case None => None)
    case 'd' =>
      (match TwoDigits(s, 1, 31) case Some(v) => Some((s[2..], f.(day := v))) case None => None)
    case 'H' =>
      (match TwoDigits(s, 0, 23) case Some(v) => Some((s[2..], f.(hour := v))) case None => None)
    case 'M' =>
      (match TwoDigits(s, 0, 59) case Some(v) => Some((s[2..], f.(minute := v))) case None => None)
    case 'S' =>
      (match TwoDigits(s, 0, 61) case Some(v) => Some((s[2..], f.(second := v))) case None => None)
    case 'a' =>
      (match NameAt(s, DayAbbreviations) case Some(_) => Some((s[3..], f)) case None => None)
    case 'b' =>
      (match NameAt(s, MonthAbbreviations) case Some(k) => Some((s[3..], f.(month := k + 1))) case None => None)
    case 'Z' =>
      (match NameAt(s, ZoneNames) case Some(_) => Some((s[3..], f)) case None => None)
    case '%' =>
      if |s| > 0 && s[0] == '%' then Some((s[1..], f)) else None
    case _ => None
  }

  /** Matches all of `s` against all of `fmt`; leftover text on either side is a failure. */
  function Scan(s: string, fmt: string, f: Fields): Option<Fields>
    decreases |fmt|
  {
    if fmt == [] then
      (if s == [] then Some(f) else None)
    else if fmt[0] == '%' then
      if |fmt| < 2 then None
      else match ScanDirective(s, fmt[1], f)
        case Some((rest, f')) => Scan(rest, fmt[2..], f')
        case None => None
    else if |s| > 0 && s[0] == fmt[0] then
      Scan(s[1..], fmt[1..], f)
    else
      None
  }

  /** `datetime.strptime(s, fmt)`: None where Python raises ValueError. */
  function Strptime(s: string, fmt: string): (r: Option<DateTime>)
    ensures r.Some? ==> ValidDateTime(r.value)
  {
    match Scan(s, fmt, DefaultFields)
    case None => None
    case Some(f) =>
      var t := DateTime(Date(f.year, f.month, f.day), f.hour, f.minute, f.second);
      if ValidDateTime(t) then Some(t) else None
  }

  // ---------------------------------------------------------------------------
  // strftime
  // ---------------------------------------------------------------------------

  function RenderDirective(t: DateTime, d: char): string
    requires ValidDateTime(t)
  {
    match d
    case 'Y' => Pad(t.date.year, 4)
    case 'm' => Pad(t.date.month, 2)
    case 'd' => Pad(t.date.day, 2)
    case 'H' => Pad(t.hour, 2)
    case 'M' => Pad(t.minute, 2)
    case 'S' => Pad(t.second, 2)
    case 'a' => DayAbbreviations[Weekday(Ordinal(t.date))]
    case 'b' => MonthAbbreviations[t.date.month - 1]
    case 'Z' => ""
    case '%' => "%"
    case _ => ['%', d]
  }

  /** `t.strftime(fmt)` for a naive datetime. */
  function Strftime(t: DateTime, fmt: string): (r: string)
    requires ValidDateTime(t)
    ensures (forall i :: 0 <= i < |fmt| ==> fmt[i] != '%') ==> r == fmt
    decreases |fmt|
  {
    if fmt == [] then []
    else if fmt[0] == '%' && |fmt| >= 2 then RenderDirective(t, fmt[1]) + Strftime(t, fmt[2..])
    else [fmt[0]] + Strftime(t, fmt[1..])
  }

  /** The ISO text of a date: four digits, '-', two digits, '-', two digits. */
  lemma IsoText(t: DateTime)
    requires ValidDateTime(t)
    ensures Strftime(t, IsoFormat)
         == Pad(t.date.year, 4) + ("-" + (Pad(t.date.month, 2) + ("-" + Pad(t.date.day, 2))))
  {
    var f := IsoFormat;
    assert f[2..] == "-%m-%d" && f[3..] == "%m-%d" && f[5..] == "-%d" && f[6..] == "%d" && f[8..] == "";
  }

  /** Scanning a `%` directive: the rest of the format goes on after what the directive consumed. */
  lemma ScanDirectiveStep(s: string, fmt: string, f: Fields, rest: string, f': Fields)
    requires |fmt| >= 2 && fmt[0] == '%'
    requires ScanDirective(s, fmt[1], f) == Some((rest, f'))
    ensures Scan(s, fmt, f) == Scan(rest, fmt[2..], f')
  {
  }

  /** Scanning a literal character of the format: it must be the next character of the text. */
  lemma ScanLiteralStep(s: string, fmt: string, f: Fields)
    requires |fmt| >= 1 && fmt[0] != '%' && |s| >= 1 && s[0] == fmt[0]
    ensures Scan(s, fmt, f) == Scan(s[1..], fmt[1..], f)
  {
  }

  /** A format that starts with a directive only matches where that directive does. */
  lemma ScanNeedsDirective(s: string, fmt: string, f: Fields)
    requires |fmt| >= 2 && fmt[0] == '%'
    requires Scan(s, fmt, f).Some?
    ensures ScanDirective(s, fmt[1], f).Some?
  {
  }

  /** `%d` matches exactly a two-digit day number. */
  lemma ScanDay(dd: string, f: Fields)
    requires |dd| == 2 && AllDigits(dd) && 1 <= Value(dd) <= 31
    ensures Scan(dd, "%d", f) == Some(f.(day := Value(dd)))
  {
    assert dd[..2] == dd && dd[2..] == [];
    ScanDirectiveStep(dd, "%d", f, [], f.(day := Value(dd)));
    assert "%d"[2..] == [];
  }

  /** `%m-%d` matches a two-digit month, a dash and a two-digit day. */
  lemma ScanMonthDay(m: string, dd: string, f: Fields)
    requires |m| == 2 && AllDigits(m) && 1 <= Value(m) <= 12
    requires |dd| == 2 && AllDigits(dd) && 1 <= Value(dd) <= 31
    ensures Scan(m + ("-" + dd), "%m-%d", f) == Some(f.(month := Value(m), day := Value(dd)))
  {
    var s := m + ("-" + dd);
    var f' := f.(month := Value(m));
    assert s[..2] == m;
    ScanDirectiveStep(s, "%m-%d", f, s[2..], f');
    assert "%m-%d"[2..] == "-%d" && "-%d"[1..] == "%d";
    assert s[2..] == "-" + dd && s[2..][1..] == dd;
    ScanLiteralStep(s[2..], "-%d", f');
    ScanDay(dd, f');
  }

  /** A format opening with `%Y` consumes four digits as the year, then goes on. */
  lemma ScanYear(y: string, rest: string, fmt: string, f: Fields)
    requires |y| == 4 && AllDigits(y)
    requires |fmt| >= 2 && fmt[0] == '%' && fmt[1] == 'Y'
    ensures Scan(y + rest, fmt, f) == Scan(rest, fmt[2..], f.(year := Value(y)))
  {
    var s := y + rest;
    assert s[..4] == y && s[4..] == rest;
    ScanDirectiveStep(s, fmt, f, rest, f.(year := Value(y)));
  }

  /** `%Y-%m-%d` matches a four-digit year, then a month and a day as above. */
  lemma ScanIso(y: string, m: string, dd: string, fmt: string, f: Fields)
    requires |y| == 4 && AllDigits(y)
    requires |m| == 2 && AllDigits(m) && 1 <= Value(m) <= 12
    requires |dd| == 2 && AllDigits(dd) && 1 <= Value(dd) <= 31
    requires |fmt| >= 3 && fmt[0] == '%' && fmt[1] == 'Y' && fmt[2] == '-' && fmt[3..] == "%m-%d"
    ensures Scan(y + ("-" + (m + ("-" + dd))), fmt, f)
         == Some(f.(year := Value(y), month := Value(m), day := Value(dd)))
  {
    var rest := "-" + (m + ("-" + dd));
    var f' := f.(year := Value(y));
    ScanYear(y, rest, fmt, f);
    assert fmt[2..][1..] == fmt[3..];
    assert rest[1..] == m + ("-" + dd);
    ScanLiteralStep(rest, fmt[2..], f');
    ScanMonthDay(m, dd, f');
  }

  /** Writing a datetime as `%Y-%m-%d` and reading it back gives its date, at midnight. */
  lemma IsoRoundTrip(t: DateTime)
    requires ValidDateTime(t)
    ensures Strptime(Strftime(t, IsoFormat), IsoFormat) == Some(DateTime(t.date, 0, 0, 0))
  {
    var d := t.date;
    IsoText(t);
    ValuePad(d.year, 4);
    ValuePad(d.month, 2);
    ValuePad(d.day, 2);
    var fmt := IsoFormat;
    assert fmt[0] == '%' && fmt[1] == 'Y' && fmt[2] == '-' && fmt[3..] == "%m-%d";
    ScanIso(Pad(d.year, 4), Pad(d.month, 2), Pad(d.day, 2), fmt, DefaultFields);
  }

  /** A text that strptime accepts with a format opening with `%Y` starts with a digit. */
  lemma StartsWithDigit(s: string, fmt: string)
    requires |fmt| >= 2 && fmt[0] == '%' && fmt[1] == 'Y'
    requires Strptime(s, fmt).Some?
    ensures |s| > 0 && IsDigit(s[0])
  {
    ScanNeedsDirective(s, fmt, DefaultFields);
    assert s[..4][0] == s[0];
  }

  lemma DayDirective(s: string, f: Fields)
    requires ScanDirective(s, 'a', f).Some?
    ensures NameAt(s, DayAbbreviations).Some?
  {
  }

  /** A text that strptime accepts with a format opening with `%a` starts with a day name. */
  lemma StartsWithDay(s: string, fmt: string)
    requires |fmt| >= 2 && fmt[0] == '%' && fmt[1] == 'a'
    requires Strptime(s, fmt).Some?
    ensures NameAt(s, DayAbbreviations).Some?
  {
    ScanNeedsDirective(s, fmt, DefaultFields);
    DayDirective(s, DefaultFields);
  }

  /** Every day name starts with an upper-case letter. */
  lemma DayNamesCapitalised(s: string)
    requires NameAt(s, DayAbbreviations).Some?
    ensures |s| > 0 && 'A' <= s[0] <= 'Z'
  {
    var k := NameAt(s, DayAbbreviations).value;
    assert DayAbbreviations[k] == s[..3];
    assert s[..3][0] == s[0];
  }

  /**
   * No text is both a `%Y-%m-%d` date and an RFC 822 date: the first starts with a digit, the
   * second with the capital letter of a day name.
   */
  lemma FormatsDisjoint(s: string)
    ensures !(Strptime(s, IsoFormat).Some? && Strptime(s, RfcFormat).Some?)
  {
    var iso, rfc := IsoFormat, RfcFormat;
    assert iso[0] == '%' && iso[1] == 'Y' && rfc[0] == '%' && rfc[1] == 'a';
    DigitAndDayFormatsDisjoint(s, iso, rfc);
  }

  /** A format opening with `%Y` and one opening with `%a` accept no text in common. */
  lemma DigitAndDayFormatsDisjoint(s: string, digits: string, days: string)
    requires |digits| >= 2 && digits[0] == '%' && digits[1] == 'Y'
    requires |days| >= 2 && days[0] == '%' && days[1] == 'a'
    ensures !(Strptime(s, digits).Some? && Strptime(s, days).Some?)
  {
    if Strptime(s, digits).Some? && Strptime(s, days).Some? {
      StartsWithDigit(s, digits);
      StartsWithDay(s, days);
      DayNamesCapitalised(s);
    }
  }

  // ---------------------------------------------------------------------------
  // Well-formed RFC 822 dates
  // ---------------------------------------------------------------------------

  /** The text `Www, DD Mon YYYY HH:MM:SS ZZZ` built from its eight fields. */
  function RfcText(w: string, dd: string, mon: string, y: string, hh: string, mi: string, ss: string, z: string)
    : string
  {
    w + ("," + (" " + (dd + (" " + (mon + (" " + (y + (" " + TimeText(hh, mi, ss, z)))))))))
  }

  /** The time and zone part `HH:MM:SS ZZZ` of an RFC 822 date. */
  function TimeText(hh: string, mi: string, ss: string, z: string): string {
    hh + (":" + (mi + (":" + (ss + (" " + z)))))
  }

  /** Padding the value of a digit string to the string's own width gives the string back. */
  lemma {:induction false} PadValue(s: string)
    requires AllDigits(s)
    ensures Pad(Value(s), |s|) == s
  {
    if s != [] {
      var init := s[..|s| - 1];
      var n := Value(s);
      assert AllDigits(init) by {
        forall i | 0 <= i < |init| ensures IsDigit(init[i]) {
          assert init[i] == s[i];
        }
      }
      var c := s[|s| - 1] as int - '0' as int;
      assert 0 <= c < 10;
      assert n == Value(init) * 10 + c;
      DivWithRemainder(n, 10, Value(init), c);
      PadValue(init);
      assert ('0' as int + n % 10) as char == s[|s| - 1];
      assert s == init + [s[|s| - 1]];
    }
  }

  /** A two-digit field in range is read by its directive; the text after it is left over. */
  lemma TwoDigitsFront(v: string, rest: string, lo: int, hi: int)
    requires |v| == 2 && AllDigits(v) && lo <= Value(v) <= hi
    ensures TwoDigits(v + rest, lo, hi) == Some(Value(v))
    ensures (v + rest)[2..] == rest
  {
    assert (v + rest)[..2] == v;
  }

  /** Only the first three characters of a text are looked up as a name. */
  lemma NameAtPrefix(w: string, rest: string, names: seq<string>)
    requires |w| == 3
    ensures NameAt(w + rest, names) == NameAt(w, names)
    ensures (w + rest)[3..] == rest
  {
    assert (w + rest)[..3] == w && w[..3] == w;
  }

  /** A name of the table is found. */
  lemma NameFound(w: string, names: seq<string>)
    requires |w| == 3 && w in names
    ensures NameAt(w, names).Some?
  {
    assert w[..3] == w;
  }

  /** The month names are distinct, so a month name is found at its own position. */
  lemma MonthIndex(k: int)
    requires 0 <= k < 12
    ensures |MonthAbbreviations[k]| == 3 && NameAt(MonthAbbreviations[k], MonthAbbreviations) == Some(k)
  {
    var names := MonthAbbreviations;
    assert forall i, j :: 0 <= i < j < 12 ==> names[i] != names[j];
    assert |names[k]| == 3 && names[k][..3] == names[k];
    IndexOfDistinct(names, k);
  }

  lemma {:induction false} IndexOfDistinct(names: seq<string>, k: int)
    requires 0 <= k < |names|
    requires forall i, j :: 0 <= i < j < |names| ==> names[i] != names[j]
    ensures IndexOf(names, names[k]) == Some(k)
  {
    if k > 0 {
      assert names[0] != names[k];
      assert names[1..][k - 1] == names[k];
      IndexOfDistinct(names[1..], k - 1);
    }
  }

  /** `%a, %d `: the day part of the RFC 822 layout. */
  predicate DayPartLayout(fa: string) {
    |fa| == 7 && fa[0] == '%' && fa[1] == 'a' && fa[2] == ',' && fa[3] == ' '
    && fa[4] == '%' && fa[5] == 'd' && fa[6] == ' '
  }

  /** `%b %Y `: the month and year part of the RFC 822 layout. */
  predicate MonthYearLayout(fb: string) {
    |fb| == 6 && fb[0] == '%' && fb[1] == 'b' && fb[2] == ' ' && fb[3] == '%' && fb[4] == 'Y' && fb[5] == ' '
  }

  /** `%H:%M:%S %Z`: the time part of the RFC 822 layout. */
  predicate TimeLayout(ft: string) {
    |ft| == 11 && ft[0] == '%' && ft[1] == 'H' && ft[2] == ':' && ft[3] == '%' && ft[4] == 'M'
    && ft[5] == ':' && ft[6] == '%' && ft[7] == 'S' && ft[8] == ' ' && ft[9] == '%' && ft[10] == 'Z'
  }

  /** A directive, then the literal character `c` of the format. */
  lemma ScanThenLiteral(v: string, c: char, rest: string, fmt: string, f: Fields, f': Fields)
    requires |fmt| >= 3 && fmt[0] == '%' && fmt[2] == c && c != '%'
    requires ScanDirective(v + ([c] + rest), fmt[1], f) == Some(([c] + rest, f'))
    ensures Scan(v + ([c] + rest), fmt, f) == Scan(rest, fmt[3..], f')
  {
    ScanDirectiveStep(v + ([c] + rest), fmt, f, [c] + rest, f');
    assert ([c] + rest)[1..] == rest;
    assert fmt[2..][1..] == fmt[3..];
    ScanLiteralStep([c] + rest, fmt[2..], f');
  }

  lemma DayDirectiveFront(w: string, rest: string, f: Fields)
    requires |w| == 3 && NameAt(w, DayAbbreviations).Some?
    ensures ScanDirective(w + rest, 'a', f) == Some((rest, f))
  {
    NameAtPrefix(w, rest, DayAbbreviations);
  }

  lemma MonthDirectiveFront(mon: string, k: int, rest: string, f: Fields)
    requires |mon| == 3 && NameAt(mon, MonthAbbreviations) == Some(k)
    ensures ScanDirective(mon + rest, 'b', f) == Some((rest, f.(month := k + 1)))
  {
    NameAtPrefix(mon, rest, MonthAbbreviations);
  }

  lemma ZoneDirectiveFront(z: string, rest: string, f: Fields)
    requires |z| == 3 && NameAt(z, ZoneNames).Some?
    ensures ScanDirective(z + rest, 'Z', f) == Some((rest, f))
  {
    NameAtPrefix(z, rest, ZoneNames);
  }

  lemma YearDirectiveFront(y: string, rest: string, f: Fields)
    requires |y| == 4 && AllDigits(y)
    ensures ScanDirective(y + rest, 'Y', f) == Some((rest, f.(year := Value(y))))
  {
    assert (y + rest)[..4] == y && (y + rest)[4..] == rest;
  }

  lemma DayNumberDirectiveFront(v: string, rest: string, f: Fields)
    requires |v| == 2 && AllDigits(v) && 1 <= Value(v) <= 31
    ensures ScanDirective(v + rest, 'd', f) == Some((rest, f.(day := Value(v))))
  {
    TwoDigitsFront(v, rest, 1, 31);
  }

  lemma HourDirectiveFront(v: string, rest: string, f: Fields)
    requires |v| == 2 && AllDigits(v) && Value(v) <= 23
    ensures ScanDirective(v + rest, 'H', f) == Some((rest, f.(hour := Value(v))))
  {
    TwoDigitsFront(v, rest, 0, 23);
  }

  lemma MinuteDirectiveFront(v: string, rest: string, f: Fields)
    requires |v| == 2 && AllDigits(v) && Value(v) <= 59
    ensures ScanDirective(v + rest, 'M', f) == Some((rest, f.(minute := Value(v))))
  {
    TwoDigitsFront(v, rest, 0, 59);
  }

  lemma SecondDirectiveFront(v: string, rest: string, f: Fields)
    requires |v| == 2 && AllDigits(v) && Value(v) <= 61
    ensures ScanDirective(v + rest, 'S', f) == Some((rest, f.(second := Value(v))))
  {
    TwoDigitsFront(v, rest, 0, 61);
  }

  /** `%S %Z`: the seconds and the zone at the end of the RFC 822 layout. */
  predicate SecondZoneLayout(fmt: string) {
    |fmt| == 5 && fmt[0] == '%' && fmt[1] == 'S' && fmt[2] == ' ' && fmt[3] == '%' && fmt[4] == 'Z'
  }

  /** `%S %Z` at the end of a format: two-digit seconds, a space and a zone name. */
  lemma ScanSecondZone(ss: string, z: string, fmt: string, f: Fields)
    requires |ss| == 2 && AllDigits(ss) && Value(ss) <= 61
    requires |z| == 3 && NameAt(z, ZoneNames).Some?
    requires SecondZoneLayout(fmt)
    ensures Scan(ss + (" " + z), fmt, f) == Some(f.(second := Value(ss)))
  {
    var f1 := f.(second := Value(ss));
    SecondDirectiveFront(ss, " " + z, f);
    ScanThenLiteral(ss, ' ', z, fmt, f, f1);
    var zf := fmt[3..];
    assert zf[0] == '%' && zf[1] == 'Z' && zf[2..] == [];
    ZoneDirectiveFront(z, [], f1);
    assert z + [] == z;
    ScanDirectiveStep(z, zf, f1, [], f1);
  }

  /** `%H:%M:` and then the seconds and the zone. */
  lemma ScanTime(hh: string, mi: string, ss: string, z: string, fmt: string, f: Fields)
    requires |hh| == 2 && AllDigits(hh) && Value(hh) <= 23
    requires |mi| == 2 && AllDigits(mi) && Value(mi) <= 59
    requires |ss| == 2 && AllDigits(ss) && Value(ss) <= 61
    requires |z| == 3 && NameAt(z, ZoneNames).Some?
    requires TimeLayout(fmt)
    ensures Scan(TimeText(hh, mi, ss, z), fmt, f)
         == Some(f.(hour := Value(hh), minute := Value(mi), second := Value(ss)))
  {
    var tS := ss + (" " + z);
    var tM := mi + (":" + tS);
    var f1 := f.(hour := Value(hh));
    var f2 := f1.(minute := Value(mi));
    HourDirectiveFront(hh, ":" + tM, f);
    ScanThenLiteral(hh, ':', tM, fmt, f, f1);
    var fm := fmt[3..];
    MinuteDirectiveFront(mi, ":" + tS, f1);
    ScanThenLiteral(mi, ':', tS, fm, f1, f2);
    ScanSecondZone(ss, z, fm[3..], f2);
  }

  /** `%b %Y ` and then the time: a month name, a four-digit year and the time. */
  lemma ScanMonthYearTime(mon: string, k: int, y: string, tH: string, fb: string, ft: string, f: Fields)
    requires |mon| == 3 && NameAt(mon, MonthAbbreviations) == Some(k)
    requires |y| == 4 && AllDigits(y)
    requires MonthYearLayout(fb)
    ensures Scan(mon + (" " + (y + (" " + tH))), fb + ft, f)
         == Scan(tH, ft, f.(month := k + 1, year := Value(y)))
  {
    var fmt := fb + ft;
    var tY := y + (" " + tH);
    var f1 := f.(month := k + 1);
    MonthDirectiveFront(mon, k, " " + tY, f);
    ScanThenLiteral(mon, ' ', tY, fmt, f, f1);
    YearDirectiveFront(y, " " + tH, f1);
    ScanThenLiteral(y, ' ', tH, fmt[3..], f1, f1.(year := Value(y)));
    assert fmt[3..][3..] == ft;
  }

  /** `%a, %d ` and then the rest: a day name, a comma, a space, a two-digit day and a space. */
  lemma ScanDayNameDay(w: string, dd: string, tB: string, fa: string, fr: string, f: Fields)
    requires |w| == 3 && NameAt(w, DayAbbreviations).Some?
    requires |dd| == 2 && AllDigits(dd) && 1 <= Value(dd) <= 31
    requires DayPartLayout(fa)
    ensures Scan(w + ("," + (" " + (dd + (" " + tB)))), fa + fr, f) == Scan(tB, fr, f.(day := Value(dd)))
  {
    var fmt := fa + fr;
    var tD := dd + (" " + tB);
    DayDirectiveFront(w, "," + (" " + tD), f);
    ScanThenLiteral(w, ',', " " + tD, fmt, f, f);
    var f3 := fmt[3..];
    ScanLiteralStep(" " + tD, f3, f);
    assert (" " + tD)[1..] == tD;
    DayNumberDirectiveFront(dd, " " + tB, f);
    ScanThenLiteral(dd, ' ', tB, f3[1..], f, f.(day := Value(dd)));
    assert f3[1..][3..] == fr;
  }

  /** The fields of an RFC 822 date, each of the width and range its directive reads. */
  predicate RfcFields(w: string, dd: string, mon: string, k: int, y: string, hh: string, mi: string, ss: string, z: string) {
    && |w| == 3 && NameAt(w, DayAbbreviations).Some?
    && |dd| == 2 && AllDigits(dd) && 1 <= Value(dd) <= 31
    && |mon| == 3 && NameAt(mon, MonthAbbreviations) == Some(k)
    && |y| == 4 && AllDigits(y)
    && |hh| == 2 && AllDigits(hh) && Value(hh) <= 23
    && |mi| == 2 && AllDigits(mi) && Value(mi) <= 59
    && |ss| == 2 && AllDigits(ss) && Value(ss) <= 61
    && |z| == 3 && NameAt(z, ZoneNames).Some?
  }

  /** The whole RFC 822 layout, read part by part: the day, the month and year, the time. */
  lemma ScanRfc(w: string, dd: string, mon: string, k: int, y: string, hh: string, mi: string, ss: string, z: string,
                fa: string, fb: string, ft: string, f: Fields)
    requires RfcFields(w, dd, mon, k, y, hh, mi, ss, z)
    requires DayPartLayout(fa) && MonthYearLayout(fb) && TimeLayout(ft)
    ensures Scan(RfcText(w, dd, mon, y, hh, mi, ss, z), fa + (fb + ft), f)
         == Some(Fields(Value(y), k + 1, Value(dd), Value(hh), Value(mi), Value(ss)))
  {
    var tH := TimeText(hh, mi, ss, z);
    var tB := mon + (" " + (y + (" " + tH)));
    var text := RfcText(w, dd, mon, y, hh, mi, ss, z);
    assert text == w + ("," + (" " + (dd + (" " + tB))));
    var f1 := f.(day := Value(dd));
    var f2 := f1.(month := k + 1, year := Value(y));
    assert Scan(text, fa + (fb + ft), f) == Scan(tB, fb + ft, f1) by {
      ScanDayNameDay(w, dd, tB, fa, fb + ft, f);
    }
    assert Scan(tB, fb + ft, f1) == Scan(tH, ft, f2) by {
      ScanMonthYearTime(mon, k, y, tH, fb, ft, f1);
    }
    assert Scan(tH, ft, f2) == Some(f2.(hour := Value(hh), minute := Value(mi), second := Value(ss))) by {
      ScanTime(hh, mi, ss, z, ft, f2);
    }
  }

  /** strptime turns the fields a whole text matched into a datetime, when they form one. */
  lemma StrptimeOfScan(s: string, fmt: string, fl: Fields)
    requires Scan(s, fmt, DefaultFields) == Some(fl)
    requires ValidDateTime(DateTime(Date(fl.year, fl.month, fl.day), fl.hour, fl.minute, fl.second))
    ensures Strptime(s, fmt) == Some(DateTime(Date(fl.year, fl.month, fl.day), fl.hour, fl.minute, fl.second))
  {
  }

  /** The RFC 822 layout is its day part, its month and year part and its time part. */
  lemma RfcLayoutParts() returns (fa: string, fb: string, ft: string)
    ensures DayPartLayout(fa) && MonthYearLayout(fb) && TimeLayout(ft)
    ensures RfcFormat == fa + (fb + ft)
  {
    fa, fb, ft := "%a, %d ", "%b %Y ", "%H:%M:%S %Z";
  }

  /**
   * A well-formed RFC 822 date parses to the datetime its fields spell: the year, the number of
   * the month name, the day and the time. The day name and the zone name are checked but not
   * used, as in Python.
   */
  lemma RfcParses(w: string, dd: string, k: int, y: string, hh: string, mi: string, ss: string, z: string)
    requires |w| == 3 && w in DayAbbreviations
    requires 0 <= k < 12
    requires |y| == 4 && AllDigits(y) && |dd| == 2 && AllDigits(dd)
    requires ValidDate(Date(Value(y), k + 1, Value(dd)))
    requires |hh| == 2 && AllDigits(hh) && Value(hh) <= 23
    requires |mi| == 2 && AllDigits(mi) && Value(mi) <= 59
    requires |ss| == 2 && AllDigits(ss) && Value(ss) <= 59
    requires |z| == 3 && z in ZoneNames
    ensures Strptime(RfcText(w, dd, MonthAbbreviations[k], y, hh, mi, ss, z), RfcFormat)
         == Some(DateTime(Date(Value(y), k + 1, Value(dd)), Value(hh), Value(mi), Value(ss)))
  {
    var mon := MonthAbbreviations[k];
    var text := RfcText(w, dd, mon, y, hh, mi, ss, z);
    var fmt := RfcFormat;
    var fields := Fields(Value(y), k + 1, Value(dd), Value(hh), Value(mi), Value(ss));
    assert Scan(text, fmt, DefaultFields) == Some(fields) by {
      MonthIndex(k);
      NameFound(w, DayAbbreviations);
      NameFound(z, ZoneNames);
      var fa, fb, ft := RfcLayoutParts();
      ScanRfc(w, dd, mon, k, y, hh, mi, ss, z, fa, fb, ft, DefaultFields);
    }
    StrptimeOfScan(text, fmt, fields);
  }
}
