/** The two library parsers the EDIGEO field accessors rely on, stated over
    strings: `Integer.parseInt` in radix 10 and `LocalDate.parse` with the
    pattern "yyyyMMdd" under the default (smart) resolver. Each comes with the
    formatter it inverts and the round-trip lemma that ties the two. */
module EdigeoValues {

  datatype Option<T> = None | Some(value: T)

  /** The bounds of a Java `int`. */
  const MinInt: int := -0x8000_0000
  const MaxInt: int := 0x7fff_ffff

  predicate IsDigit(c: char) {
    '0' <= c <= '9'
  }

  predicate AllDigits(s: string) {
    forall i :: 0 <= i < |s| ==> IsDigit(s[i])
  }

  function DigitValue(c: char): (d: nat)
    requires IsDigit(c)
    ensures d < 10
  {
    (c as int - '0' as int) as nat
  }

  function DigitChar(d: nat): (c: char)
    requires d < 10
    ensures IsDigit(c) && DigitValue(c) == d
  {
    ('0' as int + d) as char
  }

  function Pow10(n: nat): (p: nat)
    ensures p >= 1
  {
    if n == 0 then 1 else 10 * Pow10(n - 1)
  }

  /** The value of a run of decimal digits, most significant digit first. */
  function DigitsValue(s: string): nat
    requires AllDigits(s)
  {
    if s == [] then 0 else DigitsValue(s[..|s| - 1]) * 10 + DigitValue(s[|s| - 1])
  }

  /** `n` written with exactly `w` digits, zero-padded on the left. */
  function PaddedDigits(n: nat, w: nat): (s: string)
    ensures |s| == w && AllDigits(s)
  {
    if w == 0 then [] else PaddedDigits(n / 10, w - 1) + [DigitChar(n % 10)]
  }

  /** `n` in decimal without leading zeros, as `Integer.toString` writes it. */
  function NatToDecimal(n: nat): (s: string)
    ensures |s| > 0 && AllDigits(s)
  {
    if n < 10 then [DigitChar(n)] else NatToDecimal(n / 10) + [DigitChar(n % 10)]
  }

  function IntToDecimal(n: int): string {
    if n < 0 then "-" + NatToDecimal(-n) else NatToDecimal(n)
  }

  /** `Integer.parseInt(s)`: an optional '+' or '-', at least one ASCII digit,
      and a value within the range of `int`. `None` stands for the
      NumberFormatException Java throws otherwise. */
  function ParseInt(s: string): (r: Option<int>)
    ensures r.Some? ==> MinInt <= r.value <= MaxInt
    ensures r.Some? ==> |s| > 0 && (r.value < 0 ==> s[0] == '-')
  {
    if |s| == 0 then None
    else
      var digits := if s[0] == '-' || s[0] == '+' then s[1..] else s;
      if |digits| == 0 || !AllDigits(digits) then None
      else
        var m: int := if s[0] == '-' then -(DigitsValue(digits) as int) else DigitsValue(digits);
        if MinInt <= m <= MaxInt then Some(m) else None
  }

  lemma {:induction false} DigitsValueBound(s: string)
    requires AllDigits(s)
    ensures DigitsValue(s) < Pow10(|s|)
  {
    if s != [] {
      DigitsValueBound(s[..|s| - 1]);
    }
  }

  lemma {:induction false} PaddedDigitsValue(n: nat, w: nat)
    requires n < Pow10(w)
    ensures DigitsValue(PaddedDigits(n, w)) == n
  {
    if w > 0 {
      var s := PaddedDigits(n, w);
      assert s[..|s| - 1] == PaddedDigits(n / 10, w - 1);
      PaddedDigitsValue(n / 10, w - 1);
    }
  }

  /** Writing back the value of a digit run with as many digits gives the run. */
  lemma {:induction false} DigitsValuePadded(s: string)
    requires AllDigits(s)
    ensures PaddedDigits(DigitsValue(s), |s|) == s
  {
    if s != [] {
      var init := s[..|s| - 1];
      DigitsValuePadded(init);
      var n := DigitsValue(s);
      assert n / 10 == DigitsValue(init) && n % 10 == DigitValue(s[|s| - 1]);
      assert s == init + [s[|s| - 1]];
    }
  }

  lemma {:induction false} NatToDecimalValue(n: nat)
    ensures DigitsValue(NatToDecimal(n)) == n
  {
    if n >= 10 {
      var s := NatToDecimal(n);
      assert s[..|s| - 1] == NatToDecimal(n / 10);
      NatToDecimalValue(n / 10);
    }
  }

  /** `Integer.parseInt` reads back every `int` that `Integer.toString` writes. */
  lemma ParseIntRoundTrip(n: int)
    requires MinInt <= n <= MaxInt
    ensures ParseInt(IntToDecimal(n)) == Some(n)
  {
    var s := IntToDecimal(n);
    if n < 0 {
      var digits := NatToDecimal(-n);
      assert s[0] == '-' && s[1..] == digits;
      NatToDecimalValue(-n);
      assert -(DigitsValue(digits) as int) == n;
    } else {
      assert IsDigit(s[0]);
      NatToDecimalValue(n);
      assert DigitsValue(s) == n;
    }
  }

  function Abs(n: int): nat {
    if n < 0 then -n else n
  }

  function Zeros(k: nat): (s: string)
    ensures |s| == k && AllDigits(s)
  {
    if k == 0 then [] else Zeros(k - 1) + ['0']
  }

  /** The length of the sign `Integer.parseInt` allows in front of the digits. */
  function SignLength(s: string): (k: nat)
    ensures k <= |s|
  {
    if |s| > 0 && (s[0] == '-' || s[0] == '+') then 1 else 0
  }

  lemma {:induction false} PowMonotone(a: nat, b: nat)
    requires a <= b
    ensures Pow10(a) <= Pow10(b)
    decreases b
  {
    if a < b {
      PowMonotone(a, b - 1);
    }
  }

  lemma {:induction false} PaddedZero(k: nat)
    ensures PaddedDigits(0, k) == Zeros(k)
  {
    if k > 0 {
      PaddedZero(k - 1);
    }
  }

  /** A value below 10^w needs at most w digits. */
  lemma {:induction false} DecimalLength(v: nat, w: nat)
    requires w >= 1 && v < Pow10(w)
    ensures |NatToDecimal(v)| <= w
    decreases w
  {
    assert Pow10(1) == 10;
    if v >= 10 {
      assert Pow10(w) == 10 * Pow10(w - 1);
      DecimalLength(v / 10, w - 1);
    }
  }

  /** The decimal digits of a value are enough to hold it. */
  lemma {:induction false} DecimalBound(v: nat)
    ensures v < Pow10(|NatToDecimal(v)|)
  {
    if v >= 10 {
      DecimalBound(v / 10);
      var k := |NatToDecimal(v / 10)|;
      assert |NatToDecimal(v)| == k + 1;
      assert Pow10(k + 1) == 10 * Pow10(k);
    } else {
      assert Pow10(1) == 10;
    }
  }

  /** Padding a value to w digits is leading zeros, then its decimal digits. */
  lemma {:induction false} PaddedIsZerosThenDecimal(v: nat, w: nat)
    requires |NatToDecimal(v)| <= w
    ensures PaddedDigits(v, w) == Zeros(w - |NatToDecimal(v)|) + NatToDecimal(v)
    decreases w
  {
    if v < 10 {
      PaddedZero(w - 1);
    } else {
      PaddedIsZerosThenDecimal(v / 10, w - 1);
    }
  }

  /** A non-empty run of digits is leading zeros, then the decimal digits of its value. */
  lemma DigitsAreZerosThenDecimal(d: string)
    requires |d| > 0 && AllDigits(d)
    ensures |NatToDecimal(DigitsValue(d))| <= |d|
    ensures d == Zeros(|d| - |NatToDecimal(DigitsValue(d))|) + NatToDecimal(DigitsValue(d))
  {
    DigitsValueBound(d);
    DecimalLength(DigitsValue(d), |d|);
    DigitsValuePadded(d);
    PaddedIsZerosThenDecimal(DigitsValue(d), |d|);
  }

  /** The digits after the sign, as `Integer.parseInt` sees them. */
  function Unsigned(s: string): string {
    s[SignLength(s)..]
  }

  /** What `Integer.parseInt` accepts is an optional sign, leading zeros and the
      decimal digits of the value, with '-' for every negative value and never
      for a positive one. So text such as "abc", "", "-", "1a" or "1 2" is
      rejected. */
  lemma ParseIntAcceptsOnlyNumerals(s: string)
    requires ParseInt(s).Some?
    ensures |NatToDecimal(Abs(ParseInt(s).value))| <= |Unsigned(s)|
    ensures Unsigned(s) == Zeros(|Unsigned(s)| - |NatToDecimal(Abs(ParseInt(s).value))|)
                           + NatToDecimal(Abs(ParseInt(s).value))
    ensures ParseInt(s).value < 0 ==> s[..SignLength(s)] == "-"
    ensures ParseInt(s).value > 0 ==> s[..SignLength(s)] == "" || s[..SignLength(s)] == "+"
  {
    var d := Unsigned(s);
    assert d == (if s[0] == '-' || s[0] == '+' then s[1..] else s);
    assert Abs(ParseInt(s).value) == DigitsValue(d);
    DigitsAreZerosThenDecimal(d);
  }

  /** Leading zeros do not change the value of a run of digits. */
  lemma ZerosThenDecimalValue(zeros: nat, v: nat)
    ensures AllDigits(Zeros(zeros) + NatToDecimal(v))
    ensures DigitsValue(Zeros(zeros) + NatToDecimal(v)) == v
  {
    var d := NatToDecimal(v);
    var w := zeros + |d|;
    PaddedIsZerosThenDecimal(v, w);
    DecimalBound(v);
    PowMonotone(|d|, w);
    PaddedDigitsValue(v, w);
  }

  /** `Integer.parseInt` of a sign followed by a run of digits. */
  lemma ParseSignedDigits(sign: string, t: string)
    requires sign == "" || sign == "+" || sign == "-"
    requires |t| > 0 && AllDigits(t)
    requires (if sign == "-" then -(DigitsValue(t) as int) else DigitsValue(t)) >= MinInt
    requires (if sign == "-" then -(DigitsValue(t) as int) else DigitsValue(t)) <= MaxInt
    ensures ParseInt(sign + t) == Some(if sign == "-" then -(DigitsValue(t) as int) else DigitsValue(t))
  {
    var s := sign + t;
    if sign == "" {
      assert s == t && IsDigit(t[0]);
    } else {
      assert s[0] == sign[0] && s[1..] == t;
    }
  }

  /** Conversely, every optional sign, leading zeros and the decimal digits of
      an `int` is accepted, with that value: "+5", "007" and "-0" included. */
  lemma ParseIntAcceptsNumerals(sign: string, zeros: nat, n: int)
    requires sign == "" || sign == "+" || sign == "-"
    requires MinInt <= n <= MaxInt
    requires sign == "-" ==> n <= 0
    requires sign != "-" ==> n >= 0
    ensures ParseInt(sign + (Zeros(zeros) + NatToDecimal(Abs(n)))) == Some(n)
  {
    var t := Zeros(zeros) + NatToDecimal(Abs(n));
    ZerosThenDecimalValue(zeros, Abs(n));
    assert DigitsValue(t) == Abs(n);
    assert (if sign == "-" then -(DigitsValue(t) as int) else DigitsValue(t)) == n;
    ParseSignedDigits(sign, t);
  }

  /** A calendar date; `LocalDate` of the ISO calendar. */
  datatype Date = Date(year: int, month: int, day: int)

  predicate IsLeapYear(y: int) {
    y % 4 == 0 && (y % 100 != 0 || y % 400 == 0)
  }

  function DaysInMonth(y: int, m: int): (n: int)
    requires 1 <= m <= 12
    ensures 28 <= n <= 31
  {
    if m == 2 then (if IsLeapYear(y) then 29 else 28)
    else if m == 4 || m == 6 || m == 9 || m == 11 then 30
    else 31
  }

  predicate ValidDate(d: Date) {
    1 <= d.month <= 12 && 1 <= d.day <= DaysInMonth(d.year, d.month)
  }

  /** A date that four year digits can express. */
  predicate FourDigitYear(d: Date) {
    1 <= d.year <= 9999
  }

  /** `LocalDate.parse(s, ofPattern("yyyyMMdd"))` on eight ASCII digits. The
      smart resolver rejects a year-of-era of 0, a month outside 1..12 and a
      day outside 1..31, and moves a day past the end of its month back to the
      month's last day. `None` stands for DateTimeParseException. */
  function ParseDate(s: string): (r: Option<Date>)
    ensures r.Some? ==> ValidDate(r.value) && FourDigitYear(r.value)
  {
    if |s| != 8 || !AllDigits(s) then None
    else
      var y, m, d := DigitsValue(s[..4]), DigitsValue(s[4..6]), DigitsValue(s[6..]);
      DigitsValueBound(s[..4]);
      if y < 1 || m < 1 || 12 < m || d < 1 || 31 < d then None
      else Some(Date(y, m, if d <= DaysInMonth(y, m) then d else DaysInMonth(y, m)))
  }

  /** The date as the "yyyyMMdd" formatter writes it. */
  function FormatBasic(d: Date): (s: string)
    requires ValidDate(d) && FourDigitYear(d)
    ensures |s| == 8 && AllDigits(s)
  {
    PaddedDigits(d.year, 4) + PaddedDigits(d.month, 2) + PaddedDigits(d.day, 2)
  }

  /** The date as `LocalDate.toString` writes a four-digit year: yyyy-MM-dd. */
  function IsoString(d: Date): (s: string)
    requires ValidDate(d) && FourDigitYear(d)
    ensures |s| == 10 && s[4] == '-' && s[7] == '-'
  {
    PaddedDigits(d.year, 4) + "-" + PaddedDigits(d.month, 2) + "-" + PaddedDigits(d.day, 2)
  }

  /** Parsing reads back every date the same pattern formats. */
  lemma ParseDateRoundTrip(d: Date)
    requires ValidDate(d) && FourDigitYear(d)
    ensures ParseDate(FormatBasic(d)) == Some(d)
  {
    var s := FormatBasic(d);
    assert s[..4] == PaddedDigits(d.year, 4);
    assert s[4..6] == PaddedDigits(d.month, 2);
    assert s[6..] == PaddedDigits(d.day, 2);
    PaddedDigitsValue(d.year, 4);
    PaddedDigitsValue(d.month, 2);
    PaddedDigitsValue(d.day, 2);
  }

  /** The smart resolver's leniency: a day field past the end of the month,
      up to 31, is accepted and gives the month's last day ("20230231" is
      2023-02-28). */
  lemma ParseDateClampsDay(d: Date, day: nat)
    requires ValidDate(d) && FourDigitYear(d)
    requires d.day == DaysInMonth(d.year, d.month) < day <= 31
    ensures ParseDate(FormatBasic(d)[..6] + PaddedDigits(day, 2)) == Some(d)
  {
    var s := FormatBasic(d)[..6] + PaddedDigits(day, 2);
    assert s[..4] == PaddedDigits(d.year, 4);
    assert s[4..6] == PaddedDigits(d.month, 2);
    assert s[6..] == PaddedDigits(day, 2);
    PaddedDigitsValue(d.year, 4);
    PaddedDigitsValue(d.month, 2);
    PaddedDigitsValue(day, 2);
  }

  /** A parsed date formats back to the very same text, except where the smart
      resolver moved a day past the month's end to the month's last day. */
  lemma ParseDateCanonical(s: string)
    requires ParseDate(s).Some?
    ensures |s| == 8 && AllDigits(s)
    ensures var d := ParseDate(s).value;
      FormatBasic(d) == s
      || (DaysInMonth(d.year, d.month) < DigitsValue(s[6..]) <= 31
          && d.day == DaysInMonth(d.year, d.month)
          && FormatBasic(d)[..6] == s[..6])
  {
    var d := ParseDate(s).value;
    DigitsValuePadded(s[..4]);
    DigitsValuePadded(s[4..6]);
    DigitsValuePadded(s[6..]);
    var f := FormatBasic(d);
    assert f[..6] == PaddedDigits(d.year, 4) + PaddedDigits(d.month, 2);
    assert s[..6] == s[..4] + s[4..6];
    if DigitsValue(s[6..]) <= DaysInMonth(d.year, d.month) {
      assert s == s[..4] + s[4..6] + s[6..];
    }
  }
}
