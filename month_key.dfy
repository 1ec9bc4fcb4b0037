/**
 * The month key of a training event: the event's start timestamp truncated
 * to its calendar month and written `YYYY-MM` (pandas `dt.to_period('M')`
 * followed by `astype(str)`), or the text `NaT` when the timestamp could not
 * be parsed.
 */
module MonthKey {
  import opened Options

  /** Years of a pandas nanosecond timestamp, whose range runs from
      1677-09-21 to 2262-04-11; a date outside it is coerced to NaT by
      `to_datetime(errors='coerce')`. The type admits all of 1677 and 2262,
      so it slightly over-approximates at the two end years. */
  type Year = y: int | 1677 <= y <= 2262 witness 2025
  type MonthOfYear = m: int | 1 <= m <= 12 witness 1

  datatype YearMonth = YearMonth(year: Year, month: MonthOfYear)

  /** The text pandas gives a missing timestamp's period. */
  const NotATime: string := "NaT"

  predicate IsDigit(c: char) {
    '0' <= c <= '9'
  }

  function Digit(d: int): (c: char)
    requires 0 <= d <= 9
    ensures IsDigit(c)
  {
    ('0' as int + d) as char
  }

  function DigitValue(c: char): int {
    c as int - '0' as int
  }

  /** Writes a calendar month as `YYYY-MM`, zero-padded. */
  function Format(ym: YearMonth): (s: string)
    ensures |s| == 7 && s[4] == '-'
    ensures IsDigit(s[0]) && IsDigit(s[1]) && IsDigit(s[2]) && IsDigit(s[3])
    ensures IsDigit(s[5]) && IsDigit(s[6])
  {
    var y, m := ym.year, ym.month;
    [Digit(y / 1000), Digit(y / 100 % 10), Digit(y / 10 % 10), Digit(y % 10), '-',
     Digit(m / 10), Digit(m % 10)]
  }

  /** Reads a `YYYY-MM` key back; `None` for anything Format cannot produce. */
  function Parse(s: string): Option<YearMonth> {
    if |s| == 7 && s[4] == '-'
       && IsDigit(s[0]) && IsDigit(s[1]) && IsDigit(s[2]) && IsDigit(s[3])
       && IsDigit(s[5]) && IsDigit(s[6])
    then
      var y := DigitValue(s[0]) * 1000 + DigitValue(s[1]) * 100
               + DigitValue(s[2]) * 10 + DigitValue(s[3]);
      var m := DigitValue(s[5]) * 10 + DigitValue(s[6]);
      if 1677 <= y <= 2262 && 1 <= m <= 12 then Some(YearMonth(y, m)) else None
    else None
  }

  /** The key of an optional timestamp: `YYYY-MM`, or `NaT` when absent. */
  function Key(t: Option<YearMonth>): (s: string)
    ensures s == NotATime <==> t.None?
  {
    match t
    case None => NotATime
    case Some(ym) => Format(ym)
  }

  /** Joining the four digits Format writes gives back the number. */
  lemma JoinDigits(y: int)
    requires 0 <= y <= 9999
    ensures y / 1000 * 1000 + y / 100 % 10 * 100 + y / 10 % 10 * 10 + y % 10 == y
  {
    var a, b, c := y / 10, y / 100, y / 1000;
    assert y == a * 10 + y % 10;
    assert a / 10 == b;
    assert a == b * 10 + a % 10;
    assert b / 10 == c;
    assert b == c * 10 + b % 10;
  }

  lemma ParseFormat(ym: YearMonth)
    ensures Parse(Format(ym)) == Some(ym)
  {
    var s := Format(ym);
    var y: int, m: int := ym.year, ym.month;
    assert DigitValue(s[0]) == y / 1000 && DigitValue(s[1]) == y / 100 % 10;
    assert DigitValue(s[2]) == y / 10 % 10 && DigitValue(s[3]) == y % 10;
    assert DigitValue(s[5]) == m / 10 && DigitValue(s[6]) == m % 10;
    JoinDigits(y);
    JoinDigits(m);
  }

  lemma DigitRoundTrip(c: char)
    requires IsDigit(c)
    ensures 0 <= DigitValue(c) <= 9 && Digit(DigitValue(c)) == c
  {
  }

  /** Splitting a four-digit number back into its digits. */
  lemma SplitDigits(d0: int, d1: int, d2: int, d3: int)
    requires 0 <= d0 <= 9 && 0 <= d1 <= 9 && 0 <= d2 <= 9 && 0 <= d3 <= 9
    ensures var y := d0 * 1000 + d1 * 100 + d2 * 10 + d3;
      y / 1000 == d0 && y / 100 % 10 == d1 && y / 10 % 10 == d2 && y % 10 == d3
  {
    var y := d0 * 1000 + d1 * 100 + d2 * 10 + d3;
    assert y / 10 == d0 * 100 + d1 * 10 + d2;
    assert y / 100 == d0 * 10 + d1;
  }

  lemma FormatParse(s: string, ym: YearMonth)
    requires Parse(s) == Some(ym)
    ensures Format(ym) == s
  {
    DigitRoundTrip(s[0]); DigitRoundTrip(s[1]); DigitRoundTrip(s[2]); DigitRoundTrip(s[3]);
    DigitRoundTrip(s[5]); DigitRoundTrip(s[6]);
    SplitDigits(DigitValue(s[0]), DigitValue(s[1]), DigitValue(s[2]), DigitValue(s[3]));
    SplitDigits(0, 0, DigitValue(s[5]), DigitValue(s[6]));
    var t := Format(ym);
    assert t == [s[0], s[1], s[2], s[3], s[4], s[5], s[6]];
  }

  /** Two different months never share a key, so counting distinct keys
      counts distinct months. */
  lemma FormatInjective(a: YearMonth, b: YearMonth)
    requires Format(a) == Format(b)
    ensures a == b
  {
    ParseFormat(a);
    ParseFormat(b);
  }
}
