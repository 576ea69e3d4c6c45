/** The `YYYY-MM-DD` strings of web/lib/dates.ts. */
module DateText {
  import opened Common
  import opened Decimals

  datatype DateParts = DateParts(year: int, month: int, day: int)

  function Zeros(n: nat): string {
    seq(n, _ => '0')
  }

  /** `String(value).padStart(width, "0")` */
  function Pad(value: int, width: nat): string {
    var s := ToString(value);
    if |s| < width then Zeros(width - |s|) + s else s
  }

  function FormatDate(year: int, month: int, day: int): string {
    Pad(year, 4) + "-" + Pad(month, 2) + "-" + Pad(day, 2)
  }

  function Format(p: DateParts): string {
    FormatDate(p.year, p.month, p.day)
  }

  function DigitAt(s: string, i: int): int
    requires 0 <= i < |s|
  {
    s[i] as int - '0' as int
  }

  /** The pattern `^(\d{4})-(\d{2})-(\d{2})$`; `None` is the thrown error. */
  function ParseDate(value: string): Option<DateParts> {
    if |value| == 10
       && IsDigit(value[0]) && IsDigit(value[1]) && IsDigit(value[2]) && IsDigit(value[3]) && value[4] == '-'
       && IsDigit(value[5]) && IsDigit(value[6]) && value[7] == '-' && IsDigit(value[8]) && IsDigit(value[9])
    then Some(DateParts(
                1000 * DigitAt(value, 0) + 100 * DigitAt(value, 1) + 10 * DigitAt(value, 2) + DigitAt(value, 3),
                10 * DigitAt(value, 5) + DigitAt(value, 6),
                10 * DigitAt(value, 8) + DigitAt(value, 9)))
    else None
  }

  // ----- decimals ----------------------------------------------------------------------

  function Power10(n: nat): nat {
    if n == 0 then 1 else 10 * Power10(n - 1)
  }

  lemma {:induction false} DecimalLength(n: nat, width: nat)
    requires width > 0
    ensures |Decimal(n)| <= width <==> n < Power10(width)
  {
    if n >= 10 {
      if width == 1 {
        assert Power10(1) == 10;
        DecimalOf(n / 10);
      } else {
        DecimalLength(n / 10, width - 1);
      }
    } else {
      PowerAtLeastTen(width);
    }
  }

  lemma {:induction false} PowerAtLeastTen(width: nat)
    requires width > 0
    ensures Power10(width) >= 10
  {
    if width > 1 {
      PowerAtLeastTen(width - 1);
    }
  }

  lemma {:induction false} LeadingZeros(n: nat, s: string)
    requires AllDigits(s)
    ensures AllDigits(Zeros(n) + s) && Number(Zeros(n) + s) == Number(s)
  {
    var z := Zeros(n) + s;
    if s == [] {
      if n > 0 {
        LeadingZeros(n - 1, []);
        assert z[..n - 1] == Zeros(n - 1) + [];
      }
    } else {
      assert z[..|z| - 1] == Zeros(n) + s[..|s| - 1];
      LeadingZeros(n, s[..|s| - 1]);
    }
  }

  /** Padding yields exactly `width` digits for the numbers that have at most that many. */
  lemma PadIsDigits(v: int, width: nat)
    requires width > 0
    ensures |Pad(v, width)| >= width
    ensures |Pad(v, width)| == width && AllDigits(Pad(v, width)) <==> 0 <= v < Power10(width)
    ensures v >= 0 ==> AllDigits(Pad(v, width)) && Number(Pad(v, width)) == v
  {
    if v < 0 {
      DecimalOf(-v);
      var p := Pad(v, width);
      assert p[|p| - |ToString(v)|] == '-';
    } else {
      DecimalOf(v);
      DecimalLength(v, width);
      if |Decimal(v)| < width {
        LeadingZeros(width - |Decimal(v)|, Decimal(v));
      }
    }
  }

  lemma {:induction false} NumberBound(s: string)
    requires AllDigits(s)
    ensures Number(s) < Power10(|s|)
  {
    if s != [] {
      NumberBound(s[..|s| - 1]);
    }
  }

  /** Digits are determined by their number and their count. */
  lemma {:induction false} NumberInjective(a: string, b: string)
    requires AllDigits(a) && AllDigits(b) && |a| == |b| && Number(a) == Number(b)
    ensures a == b
  {
    if a != [] {
      var n := |a| - 1;
      LastDigit(Number(a[..n]), DigitAt(a, n), Number(b[..n]), DigitAt(b, n));
      NumberInjective(a[..n], b[..n]);
      SameEnds(a, b);
    }
  }

  lemma LastDigit(x: int, d: int, y: int, e: int)
    requires 0 <= d < 10 && 0 <= e < 10 && 10 * x + d == 10 * y + e
    ensures x == y && d == e
  {
  }

  lemma SameEnds(a: string, b: string)
    requires |a| == |b| > 0 && a[..|a| - 1] == b[..|b| - 1] && a[|a| - 1] == b[|b| - 1]
    ensures a == b
  {
    assert a == a[..|a| - 1] + [a[|a| - 1]] && b == b[..|b| - 1] + [b[|b| - 1]];
  }

  lemma TwoDigits(s: string)
    requires |s| == 2 && AllDigits(s)
    ensures Number(s) == 10 * DigitAt(s, 0) + DigitAt(s, 1)
  {
    assert s[..1][..0] == [] && Number(s[..1]) == DigitAt(s, 0);
  }

  lemma FourDigits(s: string)
    requires |s| == 4 && AllDigits(s)
    ensures Number(s) == 1000 * DigitAt(s, 0) + 100 * DigitAt(s, 1) + 10 * DigitAt(s, 2) + DigitAt(s, 3)
  {
    assert s[..3][..2] == s[..2];
    TwoDigits(s[..2]);
    assert Number(s[..3]) == 10 * Number(s[..2]) + DigitAt(s, 2);
  }

  // ----- round trips -----------------------------------------------------------------------

  predicate FourTwoTwo(p: DateParts) {
    0 <= p.year <= 9999 && 0 <= p.month <= 99 && 0 <= p.day <= 99
  }

  lemma Powers()
    ensures Power10(4) == 10000 && Power10(2) == 100
  {
    assert Power10(2) == 10 * Power10(1) && Power10(4) == 10 * Power10(3);
  }

  /** Fields of four, two and two characters stand at fixed places. */
  lemma FieldsStand(y: string, m: string, d: string)
    requires |y| == 4 && |m| == 2 && |d| == 2
    ensures var s := y + "-" + m + "-" + d;
            && |s| == 10 && s[4] == '-' && s[7] == '-'
            && s[0] == y[0] && s[1] == y[1] && s[2] == y[2] && s[3] == y[3]
            && s[5] == m[0] && s[6] == m[1] && s[8] == d[0] && s[9] == d[1]
  {
  }

  lemma ParseOfFields(y: string, m: string, d: string)
    requires |y| == 4 && |m| == 2 && |d| == 2
    ensures ParseDate(y + "-" + m + "-" + d)
            == if AllDigits(y) && AllDigits(m) && AllDigits(d) then Some(DateParts(Number(y), Number(m), Number(d))) else None
  {
    FieldsStand(y, m, d);
    if AllDigits(y) && AllDigits(m) && AllDigits(d) {
      FourDigits(y);
      TwoDigits(m);
      TwoDigits(d);
    } else {
      assert AllDigits(y) <==> IsDigit(y[0]) && IsDigit(y[1]) && IsDigit(y[2]) && IsDigit(y[3]);
      assert AllDigits(m) <==> IsDigit(m[0]) && IsDigit(m[1]);
      assert AllDigits(d) <==> IsDigit(d[0]) && IsDigit(d[1]);
    }
  }

  /** Formatting can be read back exactly for the parts that fit four, two and two digits. */
  lemma ParseOfFormat(p: DateParts)
    ensures ParseDate(Format(p)) == if FourTwoTwo(p) then Some(p) else None
  {
    Powers();
    PadIsDigits(p.year, 4);
    PadIsDigits(p.month, 2);
    PadIsDigits(p.day, 2);
    var y, m, d := Pad(p.year, 4), Pad(p.month, 2), Pad(p.day, 2);
    if |y| == 4 && |m| == 2 && |d| == 2 {
      ParseOfFields(y, m, d);
    } else {
      assert |Format(p)| > 10;
    }
  }

  lemma FieldRead(s: string, v: int)
    requires |s| == 2 || |s| == 4
    requires AllDigits(s) && Number(s) == v
    ensures Pad(v, |s|) == s && 0 <= v < Power10(|s|)
  {
    NumberBound(s);
    PadIsDigits(v, |s|);
    NumberInjective(Pad(v, |s|), s);
  }

  /** And parsing loses nothing: the canonical form of a parsed date is the string itself. */
  lemma FormatOfParse(s: string)
    requires ParseDate(s).Some?
    ensures Format(ParseDate(s).value) == s && FourTwoTwo(ParseDate(s).value)
  {
    var p := ParseDate(s).value;
    Powers();
    FourDigits(s[..4]);
    TwoDigits(s[5..7]);
    TwoDigits(s[8..]);
    FieldRead(s[..4], p.year);
    FieldRead(s[5..7], p.month);
    FieldRead(s[8..], p.day);
    assert s == s[..4] + "-" + s[5..7] + "-" + s[8..];
  }
}
