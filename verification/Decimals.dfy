/** Decimal numerals as JavaScript and SQL print them, and what they determine. */
module Decimals {

  function Digit(d: int): (c: char)
    requires 0 <= d < 10
    ensures IsDigit(c) && DigitValue(c) == d
  {
    (d + '0' as int) as char
  }

  predicate IsDigit(c: char) {
    '0' <= c <= '9'
  }

  function DigitValue(c: char): int {
    c as int - '0' as int
  }

  function Decimal(n: nat): (s: string)
    ensures s != []
    ensures forall i :: 0 <= i < |s| ==> IsDigit(s[i])
  {
    if n < 10 then [Digit(n)] else Decimal(n / 10) + [Digit(n % 10)]
  }

  /** What a run of digits stands for. */
  function Value(s: string): int {
    if s == [] then 0 else Value(s[..|s| - 1]) * 10 + DigitValue(s[|s| - 1])
  }

  lemma {:induction false} ValueOfDecimal(n: nat)
    ensures Value(Decimal(n)) == n
  {
    if n < 10 {
      assert Decimal(n)[..0] == [];
    } else {
      ValueOfDecimal(n / 10);
      assert Decimal(n)[..|Decimal(n)| - 1] == Decimal(n / 10);
    }
  }

  /** Digits, with no zero in front that could be left out. */
  predicate IsNumeral(s: string) {
    s != [] && (forall i :: 0 <= i < |s| ==> IsDigit(s[i])) && (s[0] == '0' ==> |s| == 1)
  }

  /** The numerals are exactly what numbers print as. */
  lemma {:induction false} DecimalIsNumeral(n: nat)
    ensures IsNumeral(Decimal(n)) && (Decimal(n)[0] == '0' <==> n == 0)
  {
    if n >= 10 {
      DecimalIsNumeral(n / 10);
      assert Decimal(n)[0] == Decimal(n / 10)[0];
    }
  }

  lemma {:induction false} NumeralIsDecimal(s: string)
    requires IsNumeral(s)
    ensures Value(s) >= 0 && Decimal(Value(s)) == s && (s[0] != '0' ==> Value(s) >= 1)
  {
    var most, last := s[..|s| - 1], s[|s| - 1];
    if most == [] {
      assert Value(s) == DigitValue(last);
      assert s == [last];
    } else {
      NumeralIsDecimal(most);
      assert Value(s) / 10 == Value(most) && Value(s) % 10 == DigitValue(last);
      assert Decimal(Value(s)) == Decimal(Value(most)) + [Digit(DigitValue(last))];
      assert s == most + [last];
    }
  }

  function Power10(n: nat): nat {
    if n == 0 then 1 else 10 * Power10(n - 1)
  }

  predicate AreDigits(s: string) {
    forall i :: 0 <= i < |s| ==> IsDigit(s[i])
  }

  lemma {:induction false} ValueInRange(s: string)
    requires AreDigits(s)
    ensures 0 <= Value(s) < Power10(|s|)
  {
    if s != [] { ValueInRange(s[..|s| - 1]); }
  }

  lemma TenTimes(d: int, p: int)
    ensures d * (10 * p) == 10 * (d * p)
  {
  }

  /** The first digit counts most. */
  lemma {:induction false} FirstDigit(s: string)
    requires s != []
    ensures Value(s) == DigitValue(s[0]) * Power10(|s| - 1) + Value(s[1..])
  {
    if |s| == 1 {
      assert s[..0] == [] && s[1..] == [];
    } else {
      var most := s[..|s| - 1];
      FirstDigit(most);
      assert s[1..][..|s| - 2] == most[1..];
      TenTimes(DigitValue(s[0]), Power10(|s| - 2));
    }
  }

  lemma {:induction false} PowersGrow(m: nat, n: nat)
    requires m <= n
    ensures 1 <= Power10(m) <= Power10(n)
  {
    if m < n { PowersGrow(m, n - 1); } else if m > 0 { PowersGrow(m - 1, n - 1); }
  }

  /** A longer numeral is a larger number. */
  lemma NumeralSize(s: string)
    requires IsNumeral(s)
    ensures Value(s) < Power10(|s|)
    ensures |s| > 1 ==> Value(s) >= Power10(|s| - 1)
  {
    ValueInRange(s);
    if |s| > 1 {
      FirstDigit(s);
      ValueInRange(s[1..]);
      AtLeastOnce(DigitValue(s[0]), Power10(|s| - 1));
    }
  }

  lemma AtLeastOnce(d: int, p: nat)
    requires d >= 1
    ensures d * p >= p
  {
  }

  lemma {:induction false} ValueOfJoined(a: string, b: string)
    ensures Value(a + b) == Value(a) * Power10(|b|) + Value(b)
    decreases |b|
  {
    if b == [] {
      assert a + b == a;
    } else {
      var most := b[..|b| - 1];
      ValueOfJoined(a, most);
      assert (a + b)[..|a + b| - 1] == a + most;
      TenTimes(Value(a), Power10(|most|));
    }
  }
}
