/**
 * Naive date-times of second precision, their order, and the two textual
 * shapes the server reads and writes: `YYYY-MM-DD` (a query parameter,
 * denoting midnight of that day) and `YYYY-MM-DD HH:MM:SS` (a stored
 * `Timestamp`).
 */
module Timestamps {
  import opened Wrappers

  datatype DateTime = DateTime(year: int, month: int, day: int, hour: int, minute: int, second: int)

  predicate IsLeapYear(year: int)
  {
    year % 4 == 0 && (year % 100 != 0 || year % 400 == 0)
  }

  function DaysInMonth(year: int, month: int): int
  {
    if month == 2 then (if IsLeapYear(year) then 29 else 28)
    else if month == 4 || month == 6 || month == 9 || month == 11 then 30
    else 31
  }

  /** The values a `datetime` can hold: years 1 to 9999, real calendar days. */
  predicate ValidDateTime(t: DateTime)
  {
    && 1 <= t.year <= 9999
    && 1 <= t.month <= 12
    && 1 <= t.day <= DaysInMonth(t.year, t.month)
    && 0 <= t.hour < 24
    && 0 <= t.minute < 60
    && 0 <= t.second < 60
  }

  predicate IsMidnight(t: DateTime)
  {
    t.hour == 0 && t.minute == 0 && t.second == 0
  }

  /** A count of the instant in mixed radix (31-day months), which orders
      valid instants chronologically. */
  function Rank(t: DateTime): int
  {
    t.second + 60 * (t.minute + 60 * (t.hour + 24 * ((t.day - 1) + 31 * ((t.month - 1) + 12 * t.year))))
  }

  /** `a <= b` on naive datetimes: field by field, most significant first,
      which on valid instants is the order of their ranks. */
  predicate LessEq(a: DateTime, b: DateTime)
    ensures ValidDateTime(a) && ValidDateTime(b) ==> (LessEq(a, b) <==> Rank(a) <= Rank(b))
  {
    var le :=
      if a.year != b.year then a.year < b.year
      else if a.month != b.month then a.month < b.month
      else if a.day != b.day then a.day < b.day
      else if a.hour != b.hour then a.hour < b.hour
      else if a.minute != b.minute then a.minute < b.minute
      else a.second <= b.second;
    if ValidDateTime(a) && ValidDateTime(b) then RankOrder(a, b); le else le
  }

  /** The rank is decided by the most significant field that differs. */
  lemma RankOrder(a: DateTime, b: DateTime)
    requires ValidDateTime(a) && ValidDateTime(b)
    ensures a.year != b.year ==> (Rank(a) < Rank(b) <==> a.year < b.year)
    ensures a.year == b.year && a.month != b.month ==> (Rank(a) < Rank(b) <==> a.month < b.month)
    ensures a.year == b.year && a.month == b.month && a.day != b.day ==> (Rank(a) < Rank(b) <==> a.day < b.day)
    ensures a.year == b.year && a.month == b.month && a.day == b.day && a.hour != b.hour ==>
              (Rank(a) < Rank(b) <==> a.hour < b.hour)
    ensures a.year == b.year && a.month == b.month && a.day == b.day && a.hour == b.hour ==>
              Rank(a) - Rank(b) == 60 * (a.minute - b.minute) + (a.second - b.second)
  {
  }

  lemma LessEqTransitive(a: DateTime, b: DateTime, c: DateTime)
    requires LessEq(a, b) && LessEq(b, c)
    ensures LessEq(a, c)
  {
  }

  lemma LessEqTotal(a: DateTime, b: DateTime)
    ensures LessEq(a, b) || LessEq(b, a)
    ensures LessEq(a, b) && LessEq(b, a) ==> a == b
  {
  }

  // ---------------------------------------------------------------- digits

  predicate IsDigit(c: char)
  {
    '0' <= c <= '9'
  }

  function DigitValue(c: char): int
    requires IsDigit(c)
  {
    c as int - '0' as int
  }

  function DigitChar(n: int): char
    requires 0 <= n <= 9
  {
    ('0' as int + n) as char
  }

  predicate DigitsAt(s: string, from: int, count: int)
  {
    0 <= from && from + count <= |s| && forall k :: from <= k < from + count ==> IsDigit(s[k])
  }

  function Number2(s: string, at: int): int
    requires DigitsAt(s, at, 2)
  {
    10 * DigitValue(s[at]) + DigitValue(s[at + 1])
  }

  function Number4(s: string, at: int): int
    requires DigitsAt(s, at, 4)
  {
    100 * Number2(s, at) + Number2(s, at + 2)
  }

  // --------------------------------------------------------------- parsing

  /** The `%Y-%m-%d` shape: four, two and two digits separated by dashes. */
  predicate HasDateShape(s: string)
  {
    && DigitsAt(s, 0, 4) && |s| >= 10 && s[4] == '-'
    && DigitsAt(s, 5, 2) && s[7] == '-' && DigitsAt(s, 8, 2)
  }

  /** The `%Y-%m-%d %H:%M:%S` shape. */
  predicate HasDateTimeShape(s: string)
  {
    && |s| == 19 && HasDateShape(s) && s[10] == ' '
    && DigitsAt(s, 11, 2) && s[13] == ':' && DigitsAt(s, 14, 2) && s[16] == ':' && DigitsAt(s, 17, 2)
  }

  function CalendarDate(s: string): DateTime
    requires HasDateShape(s)
  {
    DateTime(Number4(s, 0), Number2(s, 5), Number2(s, 8), 0, 0, 0)
  }

  /** `datetime.strptime(s, "%Y-%m-%d")`: `None` where Python raises `ValueError`. */
  function ParseDate(s: string): (r: Option<DateTime>)
    ensures r.Some? ==> ValidDateTime(r.value) && IsMidnight(r.value)
  {
    if |s| == 10 && HasDateShape(s) && ValidDateTime(CalendarDate(s)) then Some(CalendarDate(s)) else None
  }

  /** `datetime.strptime(s, "%Y-%m-%d %H:%M:%S")`: `None` where Python raises `ValueError`. */
  function ParseDateTime(s: string): (r: Option<DateTime>)
    ensures r.Some? ==> ValidDateTime(r.value)
  {
    if HasDateTimeShape(s) then
      var t := CalendarDate(s).(hour := Number2(s, 11), minute := Number2(s, 14), second := Number2(s, 17));
      if ValidDateTime(t) then Some(t) else None
    else None
  }

  // ------------------------------------------------------------ formatting

  /** `t.strftime("%Y-%m-%d %H:%M:%S")`, every field zero-padded. */
  function FormatDateTime(t: DateTime): (r: string)
    requires ValidDateTime(t)
    ensures HasDateTimeShape(r)
    ensures Number4(r, 0) == t.year && Number2(r, 5) == t.month && Number2(r, 8) == t.day
    ensures Number2(r, 11) == t.hour && Number2(r, 14) == t.minute && Number2(r, 17) == t.second
  {
    Digits4(t.year);
    Digits2(t.year / 100);
    Digits2(t.year % 100);
    Digits2(t.month);
    Digits2(t.day);
    Digits2(t.hour);
    Digits2(t.minute);
    Digits2(t.second);
    var century, yearOfCentury := t.year / 100, t.year % 100;
    [ DigitChar(century / 10), DigitChar(century % 10), DigitChar(yearOfCentury / 10), DigitChar(yearOfCentury % 10),
      '-', DigitChar(t.month / 10), DigitChar(t.month % 10),
      '-', DigitChar(t.day / 10), DigitChar(t.day % 10),
      ' ', DigitChar(t.hour / 10), DigitChar(t.hour % 10),
      ':', DigitChar(t.minute / 10), DigitChar(t.minute % 10),
      ':', DigitChar(t.second / 10), DigitChar(t.second % 10) ]
  }

  lemma Digits2(n: int)
    requires 0 <= n < 100
    ensures 0 <= n / 10 <= 9 && 10 * (n / 10) + n % 10 == n
  {
  }

  lemma Digits4(n: int)
    requires 0 <= n < 10000
    ensures 0 <= n / 100 < 100 && 0 <= n % 100 < 100 && 100 * (n / 100) + n % 100 == n
  {
  }

  /** Reading back what the server writes gives the same instant. */
  lemma ParseFormat(t: DateTime)
    requires ValidDateTime(t)
    ensures ParseDateTime(FormatDateTime(t)) == Some(t)
  {
    var s := FormatDateTime(t);
    Digits4(t.year);
    Digits2(t.month);
    Digits2(t.day);
    Digits2(t.hour);
    Digits2(t.minute);
    Digits2(t.second);
    assert HasDateTimeShape(s);
    assert Number4(s, 0) == t.year;
  }

  /** The fixed-width text is the only spelling of an instant: whatever
      parses is re-spelt exactly by formatting its value. */
  lemma FormatParse(s: string)
    requires ParseDateTime(s).Some?
    ensures FormatDateTime(ParseDateTime(s).value) == s
  {
    var t := ParseDateTime(s).value;
    Respell2(s, 5);
    Respell2(s, 8);
    Respell2(s, 11);
    Respell2(s, 14);
    Respell2(s, 17);
    Respell4(s);
    var f := FormatDateTime(t);
    assert forall k :: 0 <= k < 19 ==> f[k] == s[k];
  }

  lemma Respell2(s: string, at: int)
    requires DigitsAt(s, at, 2)
    ensures var n := Number2(s, at); DigitChar(n / 10) == s[at] && DigitChar(n % 10) == s[at + 1]
  {
    var a, b := DigitValue(s[at]), DigitValue(s[at + 1]);
    assert (10 * a + b) / 10 == a && (10 * a + b) % 10 == b;
  }

  lemma Respell4(s: string)
    requires DigitsAt(s, 0, 4)
    ensures var n := Number4(s, 0);
      && DigitChar(n / 100 / 10) == s[0] && DigitChar(n / 100 % 10) == s[1]
      && DigitChar(n % 100 / 10) == s[2] && DigitChar(n % 100 % 10) == s[3]
  {
    var hi, lo := Number2(s, 0), Number2(s, 2);
    assert 0 <= lo < 100;
    assert (100 * hi + lo) / 100 == hi && (100 * hi + lo) % 100 == lo;
    Respell2(s, 0);
    Respell2(s, 2);
  }

  /** A date parameter denotes midnight at the start of that day. */
  lemma ParseDateIsMidnight(d: string)
    ensures ParseDate(d) == ParseDateTime(d + " 00:00:00")
  {
    var s := d + " 00:00:00";
    if |d| == 10 {
      assert forall k :: 0 <= k < 10 ==> s[k] == d[k];
      if HasDateShape(d) {
        assert HasDateTimeShape(s);
      }
    }
  }
}
