/** The two calls of Python's `datetime` that the date of a reference goes
    through: `datetime.strptime(text, "%Y-%m")` and
    `strftime('<date month="%B" year="%Y"/>')` in the C locale. */
module Dates {
  import opened Values

  /** What `%B` prints for months 1 to 12. */
  const MonthNames: seq<string> := [
    "January", "February", "March", "April", "May", "June",
    "July", "August", "September", "October", "November", "December"
  ]

  /** A parsed year and month; the year is kept as the four digits written. */
  datatype YearMonth = YearMonth(year: string, month: nat)

  predicate IsDigit(c: char)
  {
    '0' <= c <= '9'
  }

  function DigitValue(c: char): nat
    requires IsDigit(c)
  {
    c as int - '0' as int
  }

  /** Four ASCII digits that are not all zero: `datetime` has no year 0. */
  predicate ValidYear(year: string)
  {
    |year| == 4 && (forall i | 0 <= i < 4 :: IsDigit(year[i])) && year != "0000"
  }

  predicate ValidYearMonth(ym: YearMonth)
  {
    ValidYear(ym.year) && 1 <= ym.month <= 12
  }

  /** The month written with two digits, as `%m` prints it. */
  function MonthText(month: nat): string
    requires month < 100
  {
    [DigitChar(month / 10), DigitChar(month % 10)]
  }

  /** How many characters strptime's month pattern `1[0-2]|0[1-9]|[1-9]`
      takes from the front of `t`, its alternatives tried in this order;
      0 when none of them matches. */
  function MonthFieldLength(t: string): (n: nat)
    ensures n <= |t| && n <= 2
  {
    if |t| >= 2 && t[0] == '1' && '0' <= t[1] <= '2' then 2
    else if |t| >= 2 && t[0] == '0' && '1' <= t[1] <= '9' then 2
    else if |t| >= 1 && '1' <= t[0] <= '9' then 1
    else 0
  }

  /** `datetime.strptime(text, "%Y-%m")`: four digits, a hyphen and a month
      field that must end the text, and a year other than 0; anything else
      raises `ValueError`. */
  function ParseYearMonth(text: string): (r: Outcome<YearMonth>)
    ensures r.Raise? ==> r.exc == ValueError
    ensures r.Ok? ==> ValidYearMonth(r.value)
    ensures r.Ok? ==> text == r.value.year + "-" + MonthText(r.value.month)
                      || (r.value.month < 10 && text == r.value.year + "-" + [DigitChar(r.value.month)])
  {
    if |text| < 5 || !(forall i | 0 <= i < 4 :: IsDigit(text[i])) || text[4] != '-' then
      Raise(ValueError)
    else
      var field := text[5..];
      var n := MonthFieldLength(field);
      if n == 0 || n != |field| || text[..4] == "0000" then
        Raise(ValueError)
      else
        var month := if n == 1 then DigitValue(field[0]) else 10 * DigitValue(field[0]) + DigitValue(field[1]);
        assert text == text[..4] + "-" + field;
        Ok(YearMonth(text[..4], month))
  }

  /** The canonical `YYYY-MM` text of every valid year and month parses back
      to that year and month. */
  lemma ParseCanonical(ym: YearMonth)
    requires ValidYearMonth(ym)
    ensures ParseYearMonth(ym.year + "-" + MonthText(ym.month)) == Ok(ym)
  {
    var text := ym.year + "-" + MonthText(ym.month);
    assert text[..4] == ym.year && text[5..] == MonthText(ym.month);
  }

  /** A month from 1 to 9 may also be written with one digit. */
  lemma ParseOneDigitMonth(year: string, month: nat)
    requires ValidYear(year) && 1 <= month <= 9
    ensures ParseYearMonth(year + "-" + [DigitChar(month)]) == Ok(YearMonth(year, month))
  {
    var text := year + "-" + [DigitChar(month)];
    assert text[..4] == year && text[5..] == [DigitChar(month)];
  }

  /** A two-digit month outside 1..12 is refused. */
  lemma MonthOutOfRange(year: string, month: nat)
    requires ValidYear(year) && (month == 0 || 13 <= month <= 99)
    ensures ParseYearMonth(year + "-" + MonthText(month)) == Raise(ValueError)
  {
    var text := year + "-" + MonthText(month);
    assert text[5..] == MonthText(month);
  }

  /** strftime('<date month="%B" year="%Y"/>') of a parsed date. */
  function DateElement(ym: YearMonth): string
    requires ValidYearMonth(ym)
  {
    "<date month=\"" + MonthNames[ym.month - 1] + "\" year=\"" + ym.year + "\"/>"
  }
}
