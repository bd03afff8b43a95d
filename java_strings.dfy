/** The pieces of Java's string library the core relies on:
    rendering a possibly-null string inside a concatenation, printing an int
    in decimal (Integer.toString), and reading a string of decimal digits back
    as a number (Long.parseLong on an all-digit string). */
module JavaStrings {
  import opened Wrappers

  /** `"..." + s` in Java renders a null reference as the four letters "null". */
  function Show(s: Option<string>): string {
    match s
    case None => "null"
    case Some(v) => v
  }

  /** Java's default (ASCII) regular-expression class `\d`. */
  predicate IsDigit(c: char) {
    '0' <= c <= '9'
  }

  predicate AllDigits(s: string) {
    forall i :: 0 <= i < |s| ==> IsDigit(s[i])
  }

  function DigitValue(c: char): (d: nat)
    requires IsDigit(c)
    ensures d < 10
  {
    c as int - '0' as int
  }

  function DigitChar(d: nat): (c: char)
    requires d < 10
    ensures IsDigit(c) && DigitValue(c) == d
  {
    (d + '0' as int) as char
  }

  function Pow10(n: nat): (p: nat)
    ensures p >= 1
  {
    if n == 0 then 1 else 10 * Pow10(n - 1)
  }

  /** The number a string of decimal digits denotes, most significant digit
      first (what Long.parseLong returns for such a string when it fits). */
  function DigitsValue(s: string): (v: nat)
    requires AllDigits(s)
    ensures v < Pow10(|s|)
  {
    if |s| == 0 then 0 else DigitsValue(s[..|s| - 1]) * 10 + DigitValue(s[|s| - 1])
  }

  /** Decimal text of a natural number, without leading zeros. */
  function NatToString(n: nat): (s: string)
    ensures |s| >= 1 && AllDigits(s)
    ensures DigitsValue(s) == n
    ensures |s| > 1 ==> s[0] != '0'
  {
    if n < 10 then [DigitChar(n)]
    else
      var prefix := NatToString(n / 10);
      var s := prefix + [DigitChar(n % 10)];
      assert s[..|s| - 1] == prefix;
      s
  }

  /** Integer.toString: a minus sign before the magnitude of a negative value. */
  function IntToString(i: int): (s: string)
    ensures i >= 0 ==> |s| >= 1 && AllDigits(s) && DigitsValue(s) == i && (|s| > 1 ==> s[0] != '0')
    ensures i < 0 ==> && |s| >= 2 && s[0] == '-' && s[1] != '0'
                      && AllDigits(s[1..]) && DigitsValue(s[1..]) == -i
  {
    if i < 0 then
      var magnitude := NatToString(-i);
      assert DigitsValue("0") == 0;
      var s := "-" + magnitude;
      assert s[1..] == magnitude;
      s
    else NatToString(i)
  }

  /** Reads the decimal text back: the inverse of IntToString. */
  function ParseInt(s: string): Option<int> {
    if |s| > 0 && s[0] == '-' && AllDigits(s[1..]) && |s| > 1 then Some(-(DigitsValue(s[1..]) as int))
    else if |s| > 0 && AllDigits(s) then Some(DigitsValue(s))
    else None
  }

  lemma IntToStringRoundTrip(i: int)
    ensures ParseInt(IntToString(i)) == Some(i)
  {
  }

  /** The decimal text of the magnitude of Integer.MIN_VALUE, built one digit
      at a time; it includes the text of 21474836. */
  lemma MinValueMagnitudeText()
    ensures NatToString(21474836) == "21474836"
    ensures NatToString(2147483648) == "2147483648"
  {
    assert NatToString(2) == "2";
    assert NatToString(21) == NatToString(2) + "1";
    assert NatToString(214) == NatToString(21) + "4";
    assert NatToString(2147) == NatToString(214) + "7";
    assert NatToString(21474) == NatToString(2147) + "4";
    assert NatToString(214748) == NatToString(21474) + "8";
    assert NatToString(2147483) == NatToString(214748) + "3";
    assert NatToString(21474836) == NatToString(2147483) + "6";
    assert NatToString(214748364) == NatToString(21474836) + "4";
    assert NatToString(2147483648) == NatToString(214748364) + "8";
  }

  /** Integer.MIN_VALUE prints with its sign and all ten digits. */
  lemma IntToStringMinValue()
    ensures IntToString(-2147483648) == "-2147483648"
  {
    MinValueMagnitudeText();
    assert IntToString(-2147483648) == "-" + NatToString(2147483648);
  }

  lemma {:induction false} DigitsValueAppend(a: string, b: string)
    requires AllDigits(a) && AllDigits(b)
    ensures AllDigits(a + b)
    ensures DigitsValue(a + b) == DigitsValue(a) * Pow10(|b|) + DigitsValue(b)
  {
    var ab := a + b;
    if |b| == 0 {
      assert ab == a;
    } else {
      var b' := b[..|b| - 1];
      assert ab[..|ab| - 1] == a + b';
      assert ab[|ab| - 1] == b[|b| - 1];
      DigitsValueAppend(a, b');
      var x, y, d, p := DigitsValue(a), DigitsValue(b'), DigitValue(b[|b| - 1]), Pow10(|b'|);
      calc {
        DigitsValue(ab);
        DigitsValue(a + b') * 10 + d;
        (x * p + y) * 10 + d;
        { ShiftLeftDecimal(x, p, y); }
        x * (10 * p) + (y * 10 + d);
        x * Pow10(|b|) + DigitsValue(b);
      }
    }
  }

  lemma ShiftLeftDecimal(x: int, p: int, y: int)
    ensures (x * p + y) * 10 == x * (10 * p) + y * 10
  {
  }

  /** A non-empty digit string that starts with a non-zero digit denotes a
      positive number. */
  lemma {:induction false} LeadingNonZeroIsPositive(s: string)
    requires AllDigits(s) && |s| >= 1 && s[0] != '0'
    ensures DigitsValue(s) >= 1
  {
    if |s| > 1 {
      LeadingNonZeroIsPositive(s[..|s| - 1]);
    }
  }

  /** Decimal text without leading zeros is unique: it is the text
      NatToString prints for the number it denotes. */
  lemma {:induction false} CanonicalDigitsAreNatToString(s: string)
    requires AllDigits(s) && |s| >= 1 && (|s| > 1 ==> s[0] != '0')
    ensures s == NatToString(DigitsValue(s))
  {
    var n := DigitsValue(s);
    if |s| == 1 {
      assert s[..0] == [];
      assert n == DigitValue(s[0]);
      assert DigitChar(n) == s[0];
    } else {
      var prefix := s[..|s| - 1];
      LeadingNonZeroIsPositive(prefix);
      CanonicalDigitsAreNatToString(prefix);
      assert n / 10 == DigitsValue(prefix) && n % 10 == DigitValue(s[|s| - 1]);
      assert DigitChar(n % 10) == s[|s| - 1];
      assert s == prefix + [s[|s| - 1]];
    }
  }

  /** A string of `n` copies of the character `c`. */
  function Repeat(c: char, n: nat): (s: string)
    ensures |s| == n && forall i :: 0 <= i < n ==> s[i] == c
  {
    if n == 0 then [] else Repeat(c, n - 1) + [c]
  }

  lemma {:induction false} ZerosValue(n: nat)
    ensures AllDigits(Repeat('0', n)) && DigitsValue(Repeat('0', n)) == 0
  {
    if n > 0 {
      var s := Repeat('0', n);
      assert s[..n - 1] == Repeat('0', n - 1);
      ZerosValue(n - 1);
    }
  }

  lemma {:induction false} NinesValue(n: nat)
    ensures AllDigits(Repeat('9', n)) && DigitsValue(Repeat('9', n)) == Pow10(n) - 1
  {
    if n > 0 {
      var s := Repeat('9', n);
      assert s[..n - 1] == Repeat('9', n - 1);
      NinesValue(n - 1);
    }
  }

  /** A digit followed by `n` zeros denotes that digit times ten to the `n`. */
  lemma DigitThenZerosValue(c: char, n: nat)
    requires IsDigit(c)
    ensures AllDigits([c] + Repeat('0', n))
    ensures DigitsValue([c] + Repeat('0', n)) == DigitValue(c) * Pow10(n)
  {
    assert [c][..0] == [];
    assert DigitsValue([c]) == DigitValue(c);
    ZerosValue(n);
    DigitsValueAppend([c], Repeat('0', n));
    assert DigitsValue([c] + Repeat('0', n)) == DigitValue(c) * Pow10(n) + 0;
  }
}
