/** Input validation: currency codes (`validate_currency`), the date text
    (`parse_date`) and the dataset's date window (`check_range`). */
module Validators {

  import opened Options
  import opened Json
  import opened Text
  import opened Calendar
  import opened Failures

  // ---------------------------------------------------------------------
  // Currency codes
  // ---------------------------------------------------------------------

  /** Exactly three Latin capitals: the pattern `[A-Z]{3}` matched in full. */
  predicate IsCurrencyCode(s: string)
  {
    |s| == 3 && forall i :: 0 <= i < 3 ==> 'A' <= s[i] <= 'Z'
  }

  /** The string members of an allowed set. */
  function Strings(allowed: set<Json>): (r: set<string>)
    ensures forall x :: x in r <==> JStr(x) in allowed
  {
    set j | j in allowed && j.JStr? :: j.s
  }

  /** The error raised for a well-formed code missing from a non-empty
      allowed set: the message lists the allowed codes in ascending order,
      which Python can only build when every member is a string. */
  function UnknownCodeError(code: string, allowed: set<Json>): (e: Error)
    ensures e.UnknownCurrency? <==> forall j :: j in allowed ==> j.JStr?
    ensures e.UnknownCurrency? ==> e.code == code && Ascending(e.allowed)
                                   && forall x :: x in e.allowed <==> JStr(x) in allowed
    ensures !(forall j :: j in allowed ==> j.JStr?) ==> e == UnlistableAllowedSet(code)
  {
    if forall j :: j in allowed ==> j.JStr? then UnknownCurrency(code, SortedListing(Strings(allowed)))
    else UnlistableAllowedSet(code)
  }

  /** `validate_currency(code, allowed)`. The input (`None` read as `''`) is
      upper-cased; a result that is not three letters A-Z is a format error
      whatever the allowed set; an empty allowed set accepts every
      well-formed code, a non-empty one only its members. */
  function ValidateCurrency(raw: Option<string>, allowed: set<Json>): (r: Result<string>)
    ensures var code := Upper(raw.GetOr(""));
      && (r.Success? <==> IsCurrencyCode(code) && (allowed == {} || JStr(code) in allowed))
      && (r.Success? ==> r.value == code)
      && (!IsCurrencyCode(code) ==> r == Failure(InvalidCurrencyFormat(code)))
      && (IsCurrencyCode(code) && r.Failure? ==> r.error == UnknownCodeError(code, allowed))
  {
    var code := Upper(raw.GetOr(""));
    if !IsCurrencyCode(code) then Failure(InvalidCurrencyFormat(code))
    else if allowed != {} && JStr(code) !in allowed then Failure(UnknownCodeError(code, allowed))
    else Success(code)
  }

  lemma ValidateAccepts(raw: string, allowed: set<Json>)
    requires IsCurrencyCode(Upper(raw)) && (allowed == {} || JStr(Upper(raw)) in allowed)
    ensures ValidateCurrency(Some(raw), allowed) == Success(Upper(raw))
  {
  }

  /** A well-formed code is its own upper-case form. */
  lemma UpperOfCode(c: string)
    requires IsCurrencyCode(c)
    ensures Upper(c) == c
  {
    assert c == [c[0]] + [c[1]] + [c[2]];
    UpperAppend([c[0]] + [c[1]], [c[2]]);
    UpperAppend([c[0]], [c[1]]);
  }

  /** Validating an accepted code again, against the same set, returns it
      unchanged. */
  lemma ValidateIdempotent(raw: Option<string>, allowed: set<Json>)
    requires ValidateCurrency(raw, allowed).Success?
    ensures ValidateCurrency(Some(ValidateCurrency(raw, allowed).value), allowed)
            == ValidateCurrency(raw, allowed)
  {
    UpperIdempotent(raw.GetOr(""));
  }

  /** For a code already written in capitals: accepted exactly when the
      allowed set is empty or holds it, rejected as unknown otherwise. */
  lemma ValidateCapitalCode(c: string, allowed: set<Json>)
    requires IsCurrencyCode(c)
    ensures ValidateCurrency(Some(c), allowed).Success? <==> allowed == {} || JStr(c) in allowed
    ensures ValidateCurrency(Some(c), allowed).Success? ==> ValidateCurrency(Some(c), allowed).value == c
    ensures ValidateCurrency(Some(c), allowed).Failure? ==>
              ValidateCurrency(Some(c), allowed).error == UnknownCodeError(c, allowed)
  {
    UpperOfCode(c);
  }

  /** Upper-casing applies before the pattern: `usd` is accepted as `USD`,
      and `ßa` becomes `SSA` under Python's full case mapping. */
  lemma ValidateLowerCase()
    ensures ValidateCurrency(Some("usd"), {}) == Success("USD")
    ensures ValidateCurrency(Some("\U{DF}a"), {}) == Success("SSA")
  {
    assert "usd" == ['u'] + "sd" && "sd" == ['s'] + "d";
    assert Upper("d") == "D";
    assert Upper("usd") == "USD";
    assert "\U{DF}a" == ['\U{DF}'] + "a";
    assert Upper("a") == "A";
    assert Upper("\U{DF}a") == "SSA";
  }

  lemma ValidateMalformed()
    ensures ValidateCurrency(Some("US1"), {}) == Failure(InvalidCurrencyFormat("US1"))
    ensures ValidateCurrency(None, {JStr("USD")}) == Failure(InvalidCurrencyFormat(""))
  {
    assert "US1" == "US" + "1";
    UpperAppend("US", "1");
    UpperOfCodePrefix();
  }

  lemma UpperOfCodePrefix()
    ensures Upper("US") == "US" && Upper("1") == "1"
  {
    assert "US" == ['U'] + "S";
    assert Upper("S") == "S";
  }

  /** The unknown-code message lists the allowed codes in ascending order. */
  lemma ValidateUnknown()
    ensures ValidateCurrency(Some("GBP"), {JStr("USD"), JStr("EUR")})
            == Failure(UnknownCurrency("GBP", ["EUR", "USD"]))
  {
    var allowed := {JStr("USD"), JStr("EUR")};
    UpperOfCode("GBP");
    assert JStr("GBP") !in allowed;
    assert Strings(allowed) == {"EUR", "USD"};
    SortedPair("EUR", "USD");
  }

  lemma SortedPair(a: string, b: string)
    requires Less(a, b)
    ensures SortedListing({a, b}) == [a, b]
  {
    LessIrreflexive(a);
    var listing := SortedListing({a, b});
    assert |listing| == 2 && a in listing && b in listing;
    assert Less(listing[0], listing[1]);
    if listing[0] == b {
      LessTransitive(a, b, a);
    }
  }

  // ---------------------------------------------------------------------
  // Dates
  // ---------------------------------------------------------------------

  /** `parse_date(s)`: the date the text names, or `InvalidDate` when the
      text does not match the pattern or its numbers are not a real date
      (month 1-12, day within the month, the leap-year rule, year 1-9999). */
  function ParseDate(t: DateText): (r: Result<Date>)
    ensures r.Success? <==> t.Fields? && IsCalendarDate(t.year, t.month, t.day)
    ensures r.Success? ==> r.value == Date(t.year, t.month, t.day) && IsValid(r.value)
    ensures r.Failure? ==> r.error == InvalidDate
  {
    match t
    case Unmatched => Failure(InvalidDate)
    case Fields(y, m, d) => if IsCalendarDate(y, m, d) then Success(Date(y, m, d)) else Failure(InvalidDate)
  }

  /** February 29 is accepted exactly in leap years. */
  lemma LeapDay(y: int)
    requires MIN_YEAR <= y <= MAX_YEAR
    ensures ParseDate(Fields(y, 2, 29)).Success? <==> IsLeapYear(y)
  {
  }

  lemma ParseDateExamples()
    ensures ParseDate(Fields(2025, 13, 1)) == Failure(InvalidDate)
    ensures ParseDate(Fields(2025, 2, 30)) == Failure(InvalidDate)
    ensures ParseDate(Fields(2025, 2, 29)) == Failure(InvalidDate)
    ensures ParseDate(Fields(2024, 2, 29)) == Success(Date(2024, 2, 29))
    ensures ParseDate(Fields(1900, 2, 29)) == Failure(InvalidDate)
    ensures ParseDate(Fields(2000, 2, 29)) == Success(Date(2000, 2, 29))
    ensures ParseDate(Fields(2025, 4, 31)) == Failure(InvalidDate)
    ensures ParseDate(Fields(0, 1, 1)) == Failure(InvalidDate)
  {
  }

  /** The dataset window, both ends included. */
  const WINDOW_START := Date(2025, 1, 1)
  const WINDOW_END := Date(2025, 9, 15)

  /** `check_range(d)`: `d` unchanged when it lies in the window, else
      `DateOutOfRange`. */
  function CheckRange(d: Date): (r: Result<Date>)
    requires IsValid(d)
    ensures r.Success? <==> !Before(d, WINDOW_START) && !Before(WINDOW_END, d)
    ensures r.Success? ==> r.value == d
    ensures r.Failure? ==> r.error == DateOutOfRange(d)
  {
    if Before(d, WINDOW_START) || Before(WINDOW_END, d) then Failure(DateOutOfRange(d)) else Success(d)
  }

  /** The window, read field by field: the dates of 2025 up to September 15. */
  lemma CheckRangeByFields(d: Date)
    requires IsValid(d)
    ensures CheckRange(d).Success? <==> d.year == 2025 && (d.month < 9 || (d.month == 9 && d.day <= 15))
  {
  }

  lemma CheckRangeBoundaries()
    ensures CheckRange(Date(2025, 1, 1)) == Success(Date(2025, 1, 1))
    ensures CheckRange(Date(2025, 9, 15)) == Success(Date(2025, 9, 15))
    ensures CheckRange(Date(2024, 12, 31)) == Failure(DateOutOfRange(Date(2024, 12, 31)))
    ensures CheckRange(Date(2025, 9, 16)) == Failure(DateOutOfRange(Date(2025, 9, 16)))
    ensures CheckRange(Date(2025, 10, 1)) == Failure(DateOutOfRange(Date(2025, 10, 1)))
  {
  }
}
