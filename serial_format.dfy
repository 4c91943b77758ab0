/** The serial-number text of marker_script.rb, `"AGK%03d" % sn`: the prefix
    "AGK" followed by the decimal digits of sn, zero-padded to at least three. */
module SerialFormat {

  datatype Option<T> = None | Some(value: T)

  predicate IsDigit(ch: char) {
    '0' <= ch <= '9'
  }

  predicate AllDigits(s: string) {
    forall i :: 0 <= i < |s| ==> IsDigit(s[i])
  }

  function DigitChar(d: nat): (ch: char)
    requires d < 10
    ensures IsDigit(ch)
  {
    ('0' as int + d) as char
  }

  function DigitValue(ch: char): nat
    requires IsDigit(ch)
  {
    ch as int - '0' as int
  }

  /** The decimal digits of n, most significant first, without leading zeros. */
  function Decimal(n: nat): (s: string)
    ensures |s| >= 1 && AllDigits(s)
  {
    if n < 10 then [DigitChar(n)] else Decimal(n / 10) + [DigitChar(n % 10)]
  }

  /** s with zeros prepended up to the given width (`%0<width>d`). */
  function ZeroPad(s: string, width: nat): (r: string)
    decreases width - |s|
  {
    if |s| >= width then s else ZeroPad("0" + s, width)
  }

  /** `"%03d" % n`. */
  function Pad3(n: nat): string {
    ZeroPad(Decimal(n), 3)
  }

  /** `"AGK%03d" % n`. */
  function SerialText(n: nat): string {
    "AGK" + Pad3(n)
  }

  /** The value of a string of decimal digits; leading zeros count for nothing. */
  function ParseDecimal(s: string): nat
    requires AllDigits(s)
  {
    if s == [] then 0 else 10 * ParseDecimal(s[..|s| - 1]) + DigitValue(s[|s| - 1])
  }

  /** Reads a serial back: "AGK" followed by at least three digits. */
  function ParseSerial(s: string): Option<nat> {
    if |s| >= 6 && s[..3] == "AGK" && AllDigits(s[3..]) then Some(ParseDecimal(s[3..])) else None
  }

  lemma {:induction false} DecimalRoundTrip(n: nat)
    ensures ParseDecimal(Decimal(n)) == n
  {
    if n >= 10 {
      var s := Decimal(n);
      assert s[..|s| - 1] == Decimal(n / 10);
      DecimalRoundTrip(n / 10);
    }
  }

  lemma {:induction false} LeadingZeroIgnored(s: string)
    requires AllDigits(s)
    ensures AllDigits("0" + s) && ParseDecimal("0" + s) == ParseDecimal(s)
  {
    if s != [] {
      assert ("0" + s)[..|"0" + s| - 1] == "0" + s[..|s| - 1];
      LeadingZeroIgnored(s[..|s| - 1]);
    }
  }

  /** Zero padding reaches exactly the requested width (or keeps a longer string
      as it is), adds only digits and keeps the value. */
  lemma {:induction false} ZeroPadKeepsValue(s: string, width: nat)
    requires AllDigits(s)
    ensures |ZeroPad(s, width)| == if |s| >= width then |s| else width
    ensures AllDigits(ZeroPad(s, width))
    ensures ParseDecimal(ZeroPad(s, width)) == ParseDecimal(s)
    decreases width - |s|
  {
    if |s| < width {
      LeadingZeroIgnored(s);
      ZeroPadKeepsValue("0" + s, width);
    }
  }

  function Pow10(k: nat): nat {
    if k == 0 then 1 else 10 * Pow10(k - 1)
  }

  /** n has at most k + 1 decimal digits exactly when n < 10^(k+1). */
  lemma {:induction false} DecimalLength(n: nat, k: nat)
    ensures |Decimal(n)| <= k + 1 <==> n < Pow10(k + 1)
  {
    if n >= 10 {
      assert |Decimal(n)| == |Decimal(n / 10)| + 1;
      if k == 0 {
        assert Pow10(1) == 10;
      } else {
        DecimalLength(n / 10, k - 1);
        assert Pow10(k + 1) == 10 * Pow10(k);
        assert n / 10 < Pow10(k) <==> n < 10 * Pow10(k);
      }
    } else {
      assert Pow10(k + 1) >= 10 by { Pow10AtLeast10(k); }
    }
  }

  lemma {:induction false} Pow10AtLeast10(k: nat)
    ensures Pow10(k + 1) >= 10
  {
    if k > 0 {
      Pow10AtLeast10(k - 1);
    }
  }

  /** A number of two or more digits has no leading zero. */
  lemma {:induction false} DecimalNoLeadingZero(n: nat)
    requires n >= 10
    ensures Decimal(n)[0] != '0'
  {
    assert Decimal(n)[0] == Decimal(n / 10)[0];
    if n / 10 >= 10 {
      DecimalNoLeadingZero(n / 10);
    }
  }

  /** `"%03d"`: exactly three digits below 1000, otherwise the plain digits with no
      leading zero; it always reads back as n. */
  lemma Pad3RoundTrip(n: nat)
    ensures |Pad3(n)| >= 3 && AllDigits(Pad3(n))
    ensures |Pad3(n)| == 3 <==> n < 1000
    ensures |Pad3(n)| > 3 ==> Pad3(n)[0] != '0'
    ensures ParseDecimal(Pad3(n)) == n
  {
    DecimalRoundTrip(n);
    ZeroPadKeepsValue(Decimal(n), 3);
    DecimalLength(n, 2);
    assert Pow10(3) == 1000;
    if |Pad3(n)| > 3 {
      assert Pad3(n) == Decimal(n);
      DecimalNoLeadingZero(n);
    }
  }

  /** Every serial text reads back as the number it was made from. */
  lemma SerialRoundTrip(n: nat)
    ensures ParseSerial(SerialText(n)) == Some(n)
  {
    Pad3RoundTrip(n);
    var s := SerialText(n);
    assert s[..3] == "AGK" && s[3..] == Pad3(n);
  }

  /** Distinct serial numbers give distinct texts. */
  lemma SerialTextInjective(m: nat, n: nat)
    requires m != n
    ensures SerialText(m) != SerialText(n)
  {
    SerialRoundTrip(m);
    SerialRoundTrip(n);
  }

  lemma SerialTextExamples()
    ensures SerialText(1) == "AGK001"
    ensures SerialText(42) == "AGK042"
    ensures SerialText(123) == "AGK123"
    ensures SerialText(1000) == "AGK1000"
  {
    assert Decimal(1) == "1";
    assert ZeroPad("1", 3) == "001";
    assert Decimal(42) == "42";
    assert Decimal(123) == "123";
    assert Decimal(1000) == "1000";
  }
}
