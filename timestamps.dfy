/**
 * Timestamps as the bot writes and reads them: datetime.strftime and datetime.strptime with the
 * format "%Y-%m-%d %H:%M:%S", and the date part used for the daily quota.
 */
module Timestamps {
  import opened Wrappers
  import opened Text

  datatype DateTime = DateTime(year: int, month: int, day: int, hour: int, minute: int, second: int)

  /** The value of datetime.date(): what the daily quota compares. */
  datatype Date = Date(year: int, month: int, day: int)

  predicate IsLeapYear(y: int) {
    (y % 4 == 0 && y % 100 != 0) || y % 400 == 0
  }

  function DaysInMonth(y: int, m: int): (d: int)
    requires 1 <= m <= 12
    ensures 28 <= d <= 31
  {
    if m == 2 then (if IsLeapYear(y) then 29 else 28)
    else if m == 4 || m == 6 || m == 9 || m == 11 then 30
    else 31
  }

  /** The field values Python's datetime accepts (it rejects a 30th of February or a 60th second). */
  predicate Valid(t: DateTime) {
    && 1 <= t.year <= 9999
    && 1 <= t.month <= 12
    && 1 <= t.day <= DaysInMonth(t.year, t.month)
    && 0 <= t.hour <= 23
    && 0 <= t.minute <= 59
    && 0 <= t.second <= 59
  }

  /** A value that datetime.now() can return. */
  type Timestamp = t: DateTime | Valid(t) witness DateTime(2000, 1, 1, 0, 0, 0)

  function DateOf(t: DateTime): Date {
    Date(t.year, t.month, t.day)
  }

  function Pad2(n: nat): (s: string)
    requires n < 100
    ensures |s| == 2 && IsDigit(s[0]) && IsDigit(s[1])
  {
    [DigitChar(n / 10), DigitChar(n % 10)]
  }

  function Pad4(n: nat): (s: string)
    requires n < 10000
    ensures |s| == 4 && IsDigit(s[0]) && IsDigit(s[1]) && IsDigit(s[2]) && IsDigit(s[3])
  {
    Pad2(n / 100) + Pad2(n % 100)
  }

  /** The characters strftime("%Y-%m-%d %H:%M:%S") can produce. */
  predicate IsStampChar(c: char) {
    IsDigit(c) || c == '-' || c == ' ' || c == ':'
  }

  /** strftime("%Y-%m-%d %H:%M:%S"): four-digit year, two-digit other fields, zero-padded. */
  function Format(t: Timestamp): (s: string)
    ensures |s| == 19
    ensures forall k :: 0 <= k < |s| ==> IsStampChar(s[k])
  {
    Pad4(t.year) + "-" + Pad2(t.month) + "-" + Pad2(t.day) + " "
      + Pad2(t.hour) + ":" + Pad2(t.minute) + ":" + Pad2(t.second)
  }

  function Num2(a: char, b: char): (n: nat)
    requires IsDigit(a) && IsDigit(b)
    ensures n < 100
  {
    10 * DigitValue(a) + DigitValue(b)
  }

  /** The layout "DDDD-DD-DD DD:DD:DD", with D a decimal digit. */
  predicate Shaped(s: string) {
    && |s| == 19
    && IsDigit(s[0]) && IsDigit(s[1]) && IsDigit(s[2]) && IsDigit(s[3])
    && s[4] == '-' && IsDigit(s[5]) && IsDigit(s[6])
    && s[7] == '-' && IsDigit(s[8]) && IsDigit(s[9])
    && s[10] == ' ' && IsDigit(s[11]) && IsDigit(s[12])
    && s[13] == ':' && IsDigit(s[14]) && IsDigit(s[15])
    && s[16] == ':' && IsDigit(s[17]) && IsDigit(s[18])
  }

  /** The fields a shaped string spells out. */
  function Fields(s: string): DateTime
    requires Shaped(s)
  {
    DateTime(100 * Num2(s[0], s[1]) + Num2(s[2], s[3]), Num2(s[5], s[6]), Num2(s[8], s[9]),
             Num2(s[11], s[12]), Num2(s[14], s[15]), Num2(s[17], s[18]))
  }

  /**
   * datetime.strptime(s, "%Y-%m-%d %H:%M:%S"), None standing for the ValueError it raises:
   * only the zero-padded layout, and only field values datetime accepts.
   */
  function Parse(s: string): (r: Option<Timestamp>)
    ensures r.Some? ==> Format(r.value) == s
    ensures r.Some? <==> Shaped(s) && Valid(Fields(s))
  {
    if Shaped(s) && Valid(Fields(s)) then
      var t := Fields(s);
      FormatFields(s);
      Some(t)
    else None
  }

  lemma Pad2Num2(a: char, b: char)
    requires IsDigit(a) && IsDigit(b)
    ensures Pad2(Num2(a, b)) == [a, b]
  {
    var n := Num2(a, b);
    assert n / 10 == DigitValue(a) && n % 10 == DigitValue(b);
  }

  lemma Num2Pad2(n: nat)
    requires n < 100
    ensures Num2(Pad2(n)[0], Pad2(n)[1]) == n
  {
  }

  /** Formatting the fields a shaped string spells out gives back that string. */
  lemma FormatFields(s: string)
    requires Shaped(s) && Valid(Fields(s))
    ensures Format(Fields(s)) == s
  {
    var t := Fields(s);
    var hi, lo := Num2(s[0], s[1]), Num2(s[2], s[3]);
    assert t.year / 100 == hi && t.year % 100 == lo;
    Pad2Num2(s[0], s[1]);
    Pad2Num2(s[2], s[3]);
    Pad2Num2(s[5], s[6]);
    Pad2Num2(s[8], s[9]);
    Pad2Num2(s[11], s[12]);
    Pad2Num2(s[14], s[15]);
    Pad2Num2(s[17], s[18]);
    var f := Format(t);
    assert f[0..4] == Pad4(t.year) == s[0..2] + s[2..4];
    forall k | 0 <= k < 19 ensures f[k] == s[k] {
      if k < 4 {
        assert f[k] == f[0..4][k];
      }
    }
  }

  /** Parsing what strftime wrote gives back the timestamp. */
  lemma {:induction false} ParseFormat(t: Timestamp)
    ensures Parse(Format(t)) == Some(t)
  {
    var s := Format(t);
    Num2Pad2(t.month);
    Num2Pad2(t.day);
    Num2Pad2(t.hour);
    Num2Pad2(t.minute);
    Num2Pad2(t.second);
    Num2Pad2(t.year / 100);
    Num2Pad2(t.year % 100);
    assert s[0..4] == Pad4(t.year);
    assert s[0..2] == Pad2(t.year / 100) && s[2..4] == Pad2(t.year % 100);
    assert Shaped(s);
    assert Fields(s) == t;
  }
}
