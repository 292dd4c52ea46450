/** Decimal rendering of non-negative integers, with and without the
    thousands separator that Python's `{:,}` format specifier inserts.
    The payment handler embeds a limit rendered this way in its denial
    message, and every generated identifier ends in a plain decimal
    timestamp. */
module Numerals {

  predicate IsDigit(c: char) {
    '0' <= c <= '9'
  }

  predicate AllDigits(s: string) {
    forall i :: 0 <= i < |s| ==> IsDigit(s[i])
  }

  function DigitChar(d: nat): (c: char)
    requires d < 10
    ensures IsDigit(c) && c as int - '0' as int == d
  {
    ('0' as int + d) as char
  }

  function DigitValue(c: char): nat
    requires IsDigit(c)
  {
    c as int - '0' as int
  }

  /** The shortest decimal numeral of `n`, as `str(n)` gives it. */
  function Decimal(n: nat): (s: string)
    ensures 0 < |s| && AllDigits(s)
    ensures s[0] == '0' ==> n == 0
    ensures n < 10 <==> |s| == 1
    decreases n
  {
    if n < 10 then [DigitChar(n)] else Decimal(n / 10) + [DigitChar(n % 10)]
  }

  /** The value of a numeral read from left to right. */
  function ParseDecimal(s: string): nat
    requires AllDigits(s)
    decreases |s|
  {
    if s == [] then 0 else 10 * ParseDecimal(s[..|s| - 1]) + DigitValue(s[|s| - 1])
  }

  /** Three digits, zero-padded, of a number below one thousand. */
  function ThreeDigits(m: nat): (s: string)
    requires m < 1000
    ensures |s| == 3 && AllDigits(s)
  {
    [DigitChar(m / 100), DigitChar(m / 10 % 10), DigitChar(m % 10)]
  }

  /** `n` rendered as Python's `f"{n:,}"` does: digits in groups of three
      counted from the right, separated by commas. */
  function Grouped(n: nat): (r: string)
    ensures |r| == |Decimal(n)| + (|Decimal(n)| - 1) / 3
    ensures IsDigit(r[0]) && r[|r| - 1] == Decimal(n)[|Decimal(n)| - 1]
    decreases n
  {
    if n < 1000 then
      DecimalBelowThousand(n);
      Decimal(n)
    else
      DecimalSplit(n);
      Grouped(n / 1000) + "," + ThreeDigits(n % 1000)
  }

  /** `s` with every comma removed. */
  function StripSeparators(s: string): (r: string)
    ensures forall i :: 0 <= i < |r| ==> r[i] != ','
  {
    if s == [] then []
    else (if s[0] == ',' then [] else [s[0]]) + StripSeparators(s[1..])
  }

  lemma {:induction false} DecimalRoundTrip(n: nat)
    ensures ParseDecimal(Decimal(n)) == n
    decreases n
  {
    if n >= 10 {
      var s := Decimal(n);
      assert s[..|s| - 1] == Decimal(n / 10);
      DecimalRoundTrip(n / 10);
    }
  }

  lemma DecimalBelowThousand(n: nat)
    requires n < 1000
    ensures |Decimal(n)| <= 3
  {
    if n >= 10 {
      assert Decimal(n) == Decimal(n / 10) + [DigitChar(n % 10)];
      if n / 10 >= 10 {
        assert Decimal(n / 10) == Decimal(n / 100) + [DigitChar(n / 10 % 10)];
      }
    }
  }

  /** Splitting off the last three digits of a numeral of at least four digits. */
  lemma DecimalSplit(n: nat)
    requires n >= 1000
    ensures Decimal(n) == Decimal(n / 1000) + ThreeDigits(n % 1000)
  {
    var q, r := n / 1000, n % 1000;
    assert n / 10 / 10 == n / 100 && n / 100 / 10 == q;
    assert r / 100 == n / 100 % 10;
    assert r / 10 % 10 == n / 10 % 10;
    assert r % 10 == n % 10;
    calc {
      Decimal(n);
      Decimal(n / 10) + [DigitChar(n % 10)];
      Decimal(n / 100) + [DigitChar(n / 10 % 10)] + [DigitChar(n % 10)];
      Decimal(q) + [DigitChar(n / 100 % 10)] + [DigitChar(n / 10 % 10)] + [DigitChar(n % 10)];
      Decimal(q) + ThreeDigits(r);
    }
  }

  lemma {:induction false} StripAppend(a: string, b: string)
    ensures StripSeparators(a + b) == StripSeparators(a) + StripSeparators(b)
    decreases |a|
  {
    if a == [] {
      assert a + b == b;
    } else {
      assert (a + b)[0] == a[0];
      assert (a + b)[1..] == a[1..] + b;
      StripAppend(a[1..], b);
    }
  }

  lemma {:induction false} StripDigits(s: string)
    requires AllDigits(s)
    ensures StripSeparators(s) == s
    decreases |s|
  {
    if s != [] {
      StripDigits(s[1..]);
    }
  }

  /** Removing the separators from the grouped rendering leaves the plain
      numeral. */
  lemma {:induction false} StripGrouped(n: nat)
    ensures StripSeparators(Grouped(n)) == Decimal(n)
    decreases n
  {
    if n < 1000 {
      StripDigits(Decimal(n));
    } else {
      var g, t := Grouped(n / 1000), ThreeDigits(n % 1000);
      StripAppend(g + ",", t);
      StripAppend(g, ",");
      StripGrouped(n / 1000);
      StripDigits(t);
      DecimalSplit(n);
    }
  }

  /** Reading back the grouped rendering, ignoring separators, gives `n`. */
  lemma GroupedRoundTrip(n: nat)
    ensures AllDigits(StripSeparators(Grouped(n)))
    ensures ParseDecimal(StripSeparators(Grouped(n))) == n
  {
    StripGrouped(n);
    DecimalRoundTrip(n);
  }

  /** Commas exactly at every fourth position from the right end, digits
      everywhere else, and no comma in front. */
  ghost predicate WellGrouped(s: string) {
    && |s| % 4 != 0
    && (forall i :: 0 <= i < |s| ==> (s[i] == ',' <==> (|s| - i) % 4 == 0))
    && (forall i :: 0 <= i < |s| ==> (s[i] == ',' || IsDigit(s[i])))
  }

  /** Appending a comma and three digits to a well-grouped string keeps it
      well grouped. */
  lemma AppendGroup(g: string, t: string)
    requires WellGrouped(g)
    requires |t| == 3 && AllDigits(t)
    ensures WellGrouped(g + "," + t)
  {
    var s := g + "," + t;
    forall i | 0 <= i < |s|
      ensures (s[i] == ',' <==> (|s| - i) % 4 == 0)
      ensures s[i] == ',' || IsDigit(s[i])
    {
      if i < |g| {
        assert s[i] == g[i];
        assert |s| - i == (|g| - i) + 4;
      } else if i > |g| {
        assert s[i] == t[i - |g| - 1];
      }
    }
  }

  /** The grouped rendering puts a comma before every complete group of
      three digits and nowhere else. */
  lemma {:induction false} GroupedShape(n: nat)
    ensures WellGrouped(Grouped(n))
    decreases n
  {
    if n < 1000 {
      DecimalBelowThousand(n);
    } else {
      GroupedShape(n / 1000);
      AppendGroup(Grouped(n / 1000), ThreeDigits(n % 1000));
    }
  }

  lemma GroupedThousands(q: nat)
    requires 0 < q
    ensures Grouped(1000 * q) == Grouped(q) + ",000"
  {
    assert (1000 * q) / 1000 == q && (1000 * q) % 1000 == 0;
    assert ThreeDigits(0) == "000";
  }

  lemma GroupedLimits()
    ensures Grouped(2000000) == "2,000,000"
    ensures Grouped(20000000) == "20,000,000"
  {
    GroupedThousands(2);
    GroupedThousands(2000);
    GroupedThousands(20);
    GroupedThousands(20000);
  }
}
