/** Python's `datetime` reduced to the fields that `strftime('%Y%m%dT%H%M%S')`
    renders, and that rendering: the basic date-time form of section 3.3.5 of
    RFC 5545, `YYYYMMDD` `T` `HHMMSS`, without a zone suffix. */
module DateTimes {
  import opened Wrappers

  datatype DateTimeFields = DateTimeFields(year: int, month: int, day: int, hour: int, minute: int, second: int)

  predicate IsLeapYear(y: int)
  {
    y % 4 == 0 && (y % 100 != 0 || y % 400 == 0)
  }

  function DaysInMonth(y: int, m: int): int
    requires 1 <= m <= 12
  {
    if m == 2 then (if IsLeapYear(y) then 29 else 28)
    else if m == 4 || m == 6 || m == 9 || m == 11 then 30
    else 31
  }

  /** The ranges a Python `datetime` enforces on construction. */
  predicate Valid(d: DateTimeFields)
  {
    && 1 <= d.year <= 9999
    && 1 <= d.month <= 12
    && 1 <= d.day <= DaysInMonth(d.year, d.month)
    && 0 <= d.hour <= 23
    && 0 <= d.minute <= 59
    && 0 <= d.second <= 59
  }

  type DateTime = d: DateTimeFields | Valid(d) witness DateTimeFields(1, 1, 1, 0, 0, 0)

  // ------------------------------------------------------- decimal digits

  predicate IsDigit(c: char)
  {
    '0' <= c <= '9'
  }

  predicate AllDigits(s: string)
  {
    forall i :: 0 <= i < |s| ==> IsDigit(s[i])
  }

  function DigitChar(n: int): (c: char)
    requires 0 <= n < 10
    ensures IsDigit(c)
  {
    ('0' as int + n) as char
  }

  function Pow10(w: nat): (r: nat)
    ensures r >= 1
  {
    if w == 0 then 1 else 10 * Pow10(w - 1)
  }

  /** `n` in decimal, zero-padded on the left to exactly `w` digits
      (the `%Y` of four digits, the `%m`, `%d`, `%H`, `%M`, `%S` of two). */
  function Digits(n: nat, w: nat): (r: string)
    ensures |r| == w && AllDigits(r)
  {
    if w == 0 then "" else Digits(n / 10, w - 1) + [DigitChar(n % 10)]
  }

  /** The value of a string of decimal digits: the inverse of `Digits`. */
  function Number(s: string): nat
    requires AllDigits(s)
  {
    if s == [] then 0 else 10 * Number(s[..|s| - 1]) + (s[|s| - 1] as int - '0' as int)
  }

  lemma {:induction false} NumberOfDigits(n: nat, w: nat)
    requires n < Pow10(w)
    ensures Number(Digits(n, w)) == n
  {
    if w > 0 {
      var s := Digits(n, w);
      assert s[..w - 1] == Digits(n / 10, w - 1);
      assert n / 10 < Pow10(w - 1);
      NumberOfDigits(n / 10, w - 1);
      assert s[w - 1] == DigitChar(n % 10);
    }
  }

  // --------------------------------------------------------- the stamp

  /** `strftime('%Y%m%dT%H%M%S')` */
  function Stamp(d: DateTime): (r: string)
    ensures |r| == 15 && r[8] == 'T'
    ensures AllDigits(r[..8]) && AllDigits(r[9..])
  {
    var r := Digits(d.year, 4) + Digits(d.month, 2) + Digits(d.day, 2) + "T"
             + Digits(d.hour, 2) + Digits(d.minute, 2) + Digits(d.second, 2);
    assert r[..8] == Digits(d.year, 4) + Digits(d.month, 2) + Digits(d.day, 2);
    assert r[9..] == Digits(d.hour, 2) + Digits(d.minute, 2) + Digits(d.second, 2);
    r
  }

  lemma {:induction false} DigitsOfNumber(s: string)
    requires AllDigits(s)
    ensures Digits(Number(s), |s|) == s
  {
    if s != [] {
      var n := Number(s);
      var init := s[..|s| - 1];
      assert n / 10 == Number(init) && n % 10 == s[|s| - 1] as int - '0' as int;
      DigitsOfNumber(init);
      assert init + [s[|s| - 1]] == s;
    }
  }

  /** Reads a 15-character basic date-time back, rejecting anything that is
      not of the form or names no valid date and time. */
  function ParseStamp(s: string): Option<DateTime>
  {
    if |s| == 15 && s[8] == 'T'
       && AllDigits(s[0..4]) && AllDigits(s[4..6]) && AllDigits(s[6..8])
       && AllDigits(s[9..11]) && AllDigits(s[11..13]) && AllDigits(s[13..15])
    then
      var f := DateTimeFields(Number(s[0..4]), Number(s[4..6]), Number(s[6..8]),
                              Number(s[9..11]), Number(s[11..13]), Number(s[13..15]));
      if Valid(f) then Some(f) else None
    else None
  }

  /** Whatever is read back renders as the text it was read from. */
  lemma ParseStampSound(s: string)
    ensures ParseStamp(s).Some? ==> Stamp(ParseStamp(s).value) == s
  {
    if ParseStamp(s).Some? {
      DigitsOfNumber(s[0..4]);
      DigitsOfNumber(s[4..6]);
      DigitsOfNumber(s[6..8]);
      DigitsOfNumber(s[9..11]);
      DigitsOfNumber(s[11..13]);
      DigitsOfNumber(s[13..15]);
      assert s == s[0..4] + s[4..6] + s[6..8] + "T" + s[9..11] + s[11..13] + s[13..15];
    }
  }

  /** The rendering loses nothing: every date-time is read back as itself. */
  lemma StampRoundTrip(d: DateTime)
    ensures ParseStamp(Stamp(d)) == Some(d)
  {
    var s := Stamp(d);
    assert s[..8] == s[0..4] + s[4..6] + s[6..8];
    assert s[9..] == s[9..11] + s[11..13] + s[13..15];
    assert s[0..4] == Digits(d.year, 4);
    assert s[4..6] == Digits(d.month, 2);
    assert s[6..8] == Digits(d.day, 2);
    assert s[9..11] == Digits(d.hour, 2);
    assert s[11..13] == Digits(d.minute, 2);
    assert s[13..15] == Digits(d.second, 2);
    assert Pow10(2) == 100 && Pow10(4) == 10000;
    NumberOfDigits(d.year, 4);
    NumberOfDigits(d.month, 2);
    NumberOfDigits(d.day, 2);
    NumberOfDigits(d.hour, 2);
    NumberOfDigits(d.minute, 2);
    NumberOfDigits(d.second, 2);
  }

  /** Distinct date-times get distinct stamps. */
  lemma StampInjective(d: DateTime, e: DateTime)
    requires Stamp(d) == Stamp(e)
    ensures d == e
  {
    StampRoundTrip(d);
    StampRoundTrip(e);
  }
}
