/**
 * Calendar dates and clock times as `datetime.strptime` reads them with the
 * formats the logbook uses ("%Y%m%d", "%H%M", "%H%M%S") and as `strftime`
 * writes them. Fields are fixed-width ASCII digits; the value must be a real
 * calendar day (years 1..9999, leap years by the Gregorian rule) or a real
 * clock time (seconds 0..59).
 */
module Calendar {
  import opened Wrappers
  import opened Text

  datatype Date = Date(year: int, month: int, day: int)

  datatype Time = Time(hour: int, minute: int, second: int)

  predicate IsLeapYear(y: int) {
    y % 4 == 0 && (y % 100 != 0 || y % 400 == 0)
  }

  function DaysInMonth(y: int, m: int): int
    requires 1 <= m <= 12
  {
    if m == 2 then (if IsLeapYear(y) then 29 else 28)
    else if m == 4 || m == 6 || m == 9 || m == 11 then 30
    else 31
  }

  /** What `datetime.date` accepts. */
  predicate ValidDate(d: Date) {
    1 <= d.year <= 9999 && 1 <= d.month <= 12 && 1 <= d.day <= DaysInMonth(d.year, d.month)
  }

  /** What `datetime.time` accepts (no fractions, no leap second). */
  predicate ValidTime(t: Time) {
    0 <= t.hour < 24 && 0 <= t.minute < 60 && 0 <= t.second < 60
  }

  /** `strptime(s, "%Y%m%d")`; `None` where Python raises. */
  function ParseYmd(s: string): (r: Option<Date>)
    ensures r.Some? ==> ValidDate(r.value)
  {
    if |s| == 8 && AllDigits(s) then
      var d := Date(DigitsValue(s[..4]), DigitsValue(s[4..6]), DigitsValue(s[6..]));
      if ValidDate(d) then Some(d) else None
    else None
  }

  /** `strptime(s, "%H%M")`: seconds are 0. */
  function ParseHm(s: string): (r: Option<Time>)
    ensures r.Some? ==> ValidTime(r.value)
  {
    if |s| == 4 && AllDigits(s) then
      var t := Time(DigitsValue(s[..2]), DigitsValue(s[2..]), 0);
      if ValidTime(t) then Some(t) else None
    else None
  }

  /** `strptime(s, "%H%M%S")` */
  function ParseHms(s: string): (r: Option<Time>)
    ensures r.Some? ==> ValidTime(r.value)
  {
    if |s| == 6 && AllDigits(s) then
      var t := Time(DigitsValue(s[..2]), DigitsValue(s[2..4]), DigitsValue(s[4..]));
      if ValidTime(t) then Some(t) else None
    else None
  }

  function Pad2(n: nat): string
    requires n < 100
  {
    [DigitChar(n / 10), DigitChar(n % 10)]
  }

  function Pad4(n: nat): string
    requires n < 10000
  {
    Pad2(n / 100) + Pad2(n % 100)
  }

  /** `date.strftime("%Y%m%d")` */
  function FormatYmd(d: Date): string
    requires ValidDate(d)
  {
    Pad4(d.year) + Pad2(d.month) + Pad2(d.day)
  }

  /** `time.strftime("%H%M%S")` */
  function FormatHms(t: Time): string
    requires ValidTime(t)
  {
    Pad2(t.hour) + Pad2(t.minute) + Pad2(t.second)
  }

  lemma Pad2Value(n: nat)
    requires n < 100
    ensures AllDigits(Pad2(n)) && DigitsValue(Pad2(n)) == n
  {
    var s := Pad2(n);
    assert s[..1] == [DigitChar(n / 10)];
    assert DigitsValue(s[..1][..0]) == 0;
  }

  lemma Pad4Value(n: nat)
    requires n < 10000
    ensures AllDigits(Pad4(n)) && DigitsValue(Pad4(n)) == n
  {
    var s := Pad4(n);
    Pad2Value(n / 100);
    Pad2Value(n % 100);
    var h := Pad2(n / 100);
    assert s[..3] == h + [s[2]];
    assert s[..2] == h;
    assert DigitsValue(s[..3]) == DigitsValue(h) * 10 + DigitValue(s[2]);
  }

  lemma DigitCharOfValue(c: char)
    requires IsDigit(c)
    ensures DigitChar(DigitValue(c)) == c
  {
  }

  lemma Pad2OfDigits(s: string)
    requires |s| == 2 && AllDigits(s)
    ensures DigitsValue(s) < 100 && Pad2(DigitsValue(s)) == s
  {
    var a, b := DigitValue(s[0]), DigitValue(s[1]);
    assert s[..1][..0] == [];
    assert s[..1] == [s[0]];
    assert DigitsValue(s[..1]) == a;
    assert DigitsValue(s) == a * 10 + b;
    assert (a * 10 + b) / 10 == a && (a * 10 + b) % 10 == b;
    DigitCharOfValue(s[0]);
    DigitCharOfValue(s[1]);
  }

  lemma Pad4OfDigits(s: string)
    requires |s| == 4 && AllDigits(s)
    ensures DigitsValue(s) < 10000 && Pad4(DigitsValue(s)) == s
  {
    var hi, lo := s[..2], s[2..];
    Pad2OfDigits(hi);
    Pad2OfDigits(lo);
    assert s == hi + lo;
    DigitsValueConcat(hi, lo);
    assert Pow10(2) == 100;
    var h, l := DigitsValue(hi), DigitsValue(lo);
    assert (h * 100 + l) / 100 == h && (h * 100 + l) % 100 == l;
  }

  /** Reading back what strftime("%Y%m%d") wrote gives the same day. */
  lemma YmdRoundTrip(d: Date)
    requires ValidDate(d)
    ensures ParseYmd(FormatYmd(d)) == Some(d)
  {
    var s := FormatYmd(d);
    Pad4Value(d.year);
    Pad2Value(d.month);
    Pad2Value(d.day);
    assert s[..4] == Pad4(d.year) && s[4..6] == Pad2(d.month) && s[6..] == Pad2(d.day);
  }

  /** A string strptime("%Y%m%d") accepts is already in the form strftime writes. */
  lemma YmdCanonical(s: string)
    requires ParseYmd(s).Some?
    ensures FormatYmd(ParseYmd(s).value) == s
  {
    Pad4OfDigits(s[..4]);
    Pad2OfDigits(s[4..6]);
    Pad2OfDigits(s[6..]);
    assert s == s[..4] + s[4..6] + s[6..];
  }

  lemma HmsRoundTrip(t: Time)
    requires ValidTime(t)
    ensures ParseHms(FormatHms(t)) == Some(t)
  {
    var s := FormatHms(t);
    Pad2Value(t.hour);
    Pad2Value(t.minute);
    Pad2Value(t.second);
    assert s[..2] == Pad2(t.hour) && s[2..4] == Pad2(t.minute) && s[4..] == Pad2(t.second);
  }

  lemma HmsCanonical(s: string)
    requires ParseHms(s).Some?
    ensures FormatHms(ParseHms(s).value) == s
  {
    Pad2OfDigits(s[..2]);
    Pad2OfDigits(s[2..4]);
    Pad2OfDigits(s[4..]);
    assert s == s[..2] + s[2..4] + s[4..];
  }

  /** "%H%M" reads a 4-character string exactly as "%H%M%S" reads it padded with "00". */
  lemma HmPadded(s: string)
    requires |s| == 4
    ensures ParseHms(s + "00") == ParseHm(s)
    ensures ParseHm(s).Some? ==> FormatHms(ParseHm(s).value) == s + "00"
  {
    var u := s + "00";
    assert u[..2] == s[..2] && u[2..4] == s[2..] && u[4..] == "00";
    if AllDigits(s) {
      Pad2OfDigits(s[..2]);
      Pad2OfDigits(s[2..]);
      assert DigitsValue(u[4..]) == 0 by {
        assert u[4..][..1] == "0";
        assert u[4..][..1][..0] == "";
      }
      assert s == s[..2] + s[2..];
    } else {
      var i :| 0 <= i < |s| && !IsDigit(s[i]);
      assert u[i] == s[i];
    }
  }
}
