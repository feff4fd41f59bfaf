/**
 * The calendar dates that the date parser accepts for the pattern `yyyy/MM/dd`:
 * four digits, a slash, two digits, a slash, two digits, naming a day that
 * exists in the proleptic Gregorian calendar.
 */
module Dates {

  predicate IsDigit(c: char) {
    '0' <= c <= '9'
  }

  function DigitValue(c: char): (n: nat)
    requires IsDigit(c)
    ensures n < 10
  {
    (c as int) - ('0' as int)
  }

  function DigitChar(n: nat): (c: char)
    requires n < 10
    ensures IsDigit(c) && DigitValue(c) == n
  {
    (('0' as int) + n) as char
  }

  /** Gregorian leap years: divisible by 4, except centuries not divisible by 400. */
  predicate IsLeapYear(y: int) {
    y % 4 == 0 && (y % 100 != 0 || y % 400 == 0)
  }

  function DaysInMonth(y: int, m: int): (d: nat)
    requires 1 <= m <= 12
    ensures 28 <= d <= 31
    ensures m == 2 ==> (d == 29 <==> IsLeapYear(y))
  {
    if m == 2 then (if IsLeapYear(y) then 29 else 28)
    else if m == 4 || m == 6 || m == 9 || m == 11 then 30
    else 31
  }

  /** A year of four digits, a month from 1 to 12 and a day that month has. */
  predicate ValidYmd(y: int, m: int, d: int) {
    0 <= y <= 9999 && 1 <= m <= 12 && 1 <= d <= DaysInMonth(y, m)
  }

  /** The shape `dddd/dd/dd`, with no other character before, between or after. */
  predicate HasDateShape(s: string) {
    && |s| == 10
    && IsDigit(s[0]) && IsDigit(s[1]) && IsDigit(s[2]) && IsDigit(s[3])
    && s[4] == '/'
    && IsDigit(s[5]) && IsDigit(s[6])
    && s[7] == '/'
    && IsDigit(s[8]) && IsDigit(s[9])
  }

  function YearOf(s: string): (y: nat)
    requires HasDateShape(s)
    ensures y <= 9999
  {
    1000 * DigitValue(s[0]) + 100 * DigitValue(s[1]) + 10 * DigitValue(s[2]) + DigitValue(s[3])
  }

  function MonthOf(s: string): (m: nat)
    requires HasDateShape(s)
    ensures m <= 99
  {
    10 * DigitValue(s[5]) + DigitValue(s[6])
  }

  function DayOf(s: string): (d: nat)
    requires HasDateShape(s)
    ensures d <= 99
  {
    10 * DigitValue(s[8]) + DigitValue(s[9])
  }

  /**
   * The strings the parser accepts for `yyyy/MM/dd`. This is what the model
   * assumes of the date library, whose code is not part of this model.
   */
  predicate IsCalendarDate(s: string) {
    HasDateShape(s) && ValidYmd(YearOf(s), MonthOf(s), DayOf(s))
  }

  /** Writes `n` as two zero-padded digits. */
  function Pad2(n: nat): (r: string)
    requires n <= 99
    ensures |r| == 2 && IsDigit(r[0]) && IsDigit(r[1])
    ensures 10 * DigitValue(r[0]) + DigitValue(r[1]) == n
  {
    [DigitChar(n / 10), DigitChar(n % 10)]
  }

  /** Writes `n` as four zero-padded digits. */
  function Pad4(n: nat): (r: string)
    requires n <= 9999
    ensures |r| == 4 && IsDigit(r[0]) && IsDigit(r[1]) && IsDigit(r[2]) && IsDigit(r[3])
    ensures 1000 * DigitValue(r[0]) + 100 * DigitValue(r[1]) + 10 * DigitValue(r[2]) + DigitValue(r[3]) == n
  {
    Pad2(n / 100) + Pad2(n % 100)
  }

  /** Writes a date as `yyyy/MM/dd`, zero-padded. */
  function FormatDate(y: nat, m: nat, d: nat): (s: string)
    requires y <= 9999 && m <= 99 && d <= 99
    ensures HasDateShape(s)
    ensures YearOf(s) == y && MonthOf(s) == m && DayOf(s) == d
    ensures IsCalendarDate(s) <==> ValidYmd(y, m, d)
  {
    Pad4(y) + "/" + Pad2(m) + "/" + Pad2(d)
  }

  lemma DivMod10(q: nat, r: nat)
    requires r < 10
    ensures (10 * q + r) / 10 == q && (10 * q + r) % 10 == r
  {
  }

  lemma DivMod100(q: nat, r: nat)
    requires r < 100
    ensures (100 * q + r) / 100 == q && (100 * q + r) % 100 == r
  {
  }

  /** Two digits read and written again are the same two digits. */
  lemma Pad2Digits(a: char, b: char)
    requires IsDigit(a) && IsDigit(b)
    ensures Pad2(10 * DigitValue(a) + DigitValue(b)) == [a, b]
  {
    DivMod10(DigitValue(a), DigitValue(b));
  }

  /** Every accepted string is the zero-padded writing of the date it names. */
  lemma ParseThenFormat(s: string)
    requires HasDateShape(s)
    ensures s == FormatDate(YearOf(s), MonthOf(s), DayOf(s))
  {
    var hi := 10 * DigitValue(s[0]) + DigitValue(s[1]);
    var lo := 10 * DigitValue(s[2]) + DigitValue(s[3]);
    assert YearOf(s) == 100 * hi + lo;
    DivMod100(hi, lo);
    Pad2Digits(s[0], s[1]);
    Pad2Digits(s[2], s[3]);
    Pad2Digits(s[5], s[6]);
    Pad2Digits(s[8], s[9]);
    assert Pad4(YearOf(s)) == s[..4];
    assert s == s[..4] + "/" + s[5..7] + "/" + s[8..];
  }

  /** Dates the format accepts and refuses: a leap day only in a leap year, slashes only. */
  lemma CalendarDateExamples()
    ensures IsCalendarDate("1990/01/01")
    ensures IsCalendarDate("2000/02/29")
    ensures !IsCalendarDate("1900/02/29")
    ensures !IsCalendarDate("1990/13/01")
    ensures !IsCalendarDate("1990-01-01")
  {
    assert YearOf("1900/02/29") == 1900 && !IsLeapYear(1900);
    assert YearOf("2000/02/29") == 2000 && IsLeapYear(2000);
    assert MonthOf("1990/13/01") == 13;
    assert "1990-01-01"[4] == '-';
  }
}
