/** Gregorian calendar dates as Python's `datetime.date` holds them, their
    ordering and their ISO 8601 extended calendar-date text `YYYY-MM-DD`
    (`date.isoformat()`). */
module Calendar {

  import opened Options
  import opened Text

  /** A (year, month, day) triple; `IsValid` says when it is a real date. */
  datatype Date = Date(year: int, month: int, day: int)

  /** The outcome of matching the command-line text against the `%Y-%m-%d`
      pattern of `datetime.strptime`: the three numbers it read, or no match.
      Which texts match is the library's grammar and is not modelled here. */
  datatype DateText = Fields(year: int, month: int, day: int) | Unmatched

  /** `datetime.MINYEAR` and `datetime.MAXYEAR`. */
  const MIN_YEAR := 1
  const MAX_YEAR := 9999

  /** The Gregorian leap-year rule. */
  predicate IsLeapYear(y: int)
  {
    y % 4 == 0 && (y % 100 != 0 || y % 400 == 0)
  }

  function DaysInMonth(y: int, m: int): (n: int)
    requires 1 <= m <= 12
    ensures 28 <= n <= 31
    ensures m == 2 ==> (n == 29 <==> IsLeapYear(y))
  {
    if m == 2 then (if IsLeapYear(y) then 29 else 28)
    else if m == 4 || m == 6 || m == 9 || m == 11 then 30
    else 31
  }

  /** The triples `datetime.date(y, m, d)` accepts. */
  predicate IsCalendarDate(y: int, m: int, d: int)
  {
    MIN_YEAR <= y <= MAX_YEAR && 1 <= m <= 12 && 1 <= d <= DaysInMonth(y, m)
  }

  predicate IsValid(d: Date)
  {
    IsCalendarDate(d.year, d.month, d.day)
  }

  /** `a < b` on dates: Python compares dates as (year, month, day) tuples. */
  predicate Before(a: Date, b: Date)
  {
    a.year < b.year
    || (a.year == b.year && (a.month < b.month || (a.month == b.month && a.day < b.day)))
  }

  /** `d.isoformat()`: four-digit year, two-digit month and day, joined by
      hyphens. */
  function IsoFormat(d: Date): (s: string)
    requires IsValid(d)
    ensures |s| == 10 && s[4] == '-' && s[7] == '-'
    ensures AllDigits(s[..4]) && AllDigits(s[5..7]) && AllDigits(s[8..])
  {
    var s := Digits(d.year, 4) + "-" + Digits(d.month, 2) + "-" + Digits(d.day, 2);
    assert s[..4] == Digits(d.year, 4);
    assert s[5..7] == Digits(d.month, 2);
    assert s[8..] == Digits(d.day, 2);
    s
  }

  /** Reads exactly the ISO 8601 extended form `YYYY-MM-DD`, zero-padded, and
      only when it names a real date. */
  function ParseIso(s: string): (r: Option<Date>)
    ensures r.Some? ==> IsValid(r.value)
  {
    if |s| == 10 && s[4] == '-' && s[7] == '-'
       && AllDigits(s[..4]) && AllDigits(s[5..7]) && AllDigits(s[8..])
    then
      var d := Date(ReadNat(s[..4]), ReadNat(s[5..7]), ReadNat(s[8..]));
      if IsValid(d) then Some(d) else None
    else None
  }

  /** Every valid date reads back from its ISO text. */
  lemma IsoRoundTrip(d: Date)
    requires IsValid(d)
    ensures ParseIso(IsoFormat(d)) == Some(d)
  {
    var s := IsoFormat(d);
    assert s[..4] == Digits(d.year, 4);
    assert s[5..7] == Digits(d.month, 2);
    assert s[8..] == Digits(d.day, 2);
    ReadDigits(d.year, 4);
    ReadDigits(d.month, 2);
    ReadDigits(d.day, 2);
  }

  /** Any text `ParseIso` accepts is the ISO text of the date it reads, so
      the ISO text is canonical. */
  lemma IsoCanonical(s: string)
    requires ParseIso(s).Some?
    ensures IsoFormat(ParseIso(s).value) == s
  {
    DigitsOfRead(s[..4]);
    DigitsOfRead(s[5..7]);
    DigitsOfRead(s[8..]);
    assert s == s[..4] + "-" + s[5..7] + "-" + s[8..];
  }

  /** Distinct dates have distinct ISO texts. */
  lemma IsoFormatInjective(a: Date, b: Date)
    requires IsValid(a) && IsValid(b) && IsoFormat(a) == IsoFormat(b)
    ensures a == b
  {
    IsoRoundTrip(a);
    IsoRoundTrip(b);
  }

  lemma IsoExample()
    ensures IsoFormat(Date(2025, 3, 10)) == "2025-03-10"
  {
    assert Digits(2025, 4) == "2025";
    assert Digits(3, 2) == "03";
    assert Digits(10, 2) == "10";
  }
}
