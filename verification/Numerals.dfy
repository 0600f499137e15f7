/** Unsigned numerals as strconv writes them, in the two bases used here. */
module Numerals {
  import opened Text

  type Base = b: nat | b == 10 || b == 36 witness 10

  function Digit(d: nat): char
    requires d < 36
  {
    if d < 10 then '0' + d as char else 'a' + (d - 10) as char
  }

  function FormatUint(n: nat, base: Base): string
    decreases n
  {
    if n < base then [Digit(n)] else FormatUint(n / base, base) + [Digit(n % base)]
  }

  predicate IsNumeralChar(c: char) {
    '0' <= c <= '9' || 'a' <= c <= 'z'
  }

  lemma {:induction false} NumeralChars(n: nat, base: Base)
    ensures FormatUint(n, base) != ""
    ensures forall c :: c in FormatUint(n, base) ==> IsNumeralChar(c)
    decreases n
  {
    if n >= base {
      NumeralChars(n / base, base);
    }
  }

  lemma DivModDetermine(n: nat, m: nat, base: Base)
    requires n / base == m / base && n % base == m % base
    ensures n == m
  {
    if base == 10 {
      assert n == 10 * (n / 10) + n % 10 && m == 10 * (m / 10) + m % 10;
    } else {
      assert n == 36 * (n / 36) + n % 36 && m == 36 * (m / 36) + m % 36;
    }
  }

  lemma DigitsDiffer(d: nat, e: nat)
    requires d < 36 && e < 36 && Digit(d) == Digit(e)
    ensures d == e
  {
  }

  lemma NumeralLength(n: nat, base: Base)
    ensures |FormatUint(n, base)| == 1 <==> n < base
  {
    if n >= base {
      NumeralChars(n / base, base);
    }
  }

  lemma DigitsAlone(n: nat, m: nat, base: Base)
    requires n < base && FormatUint(n, base) == FormatUint(m, base)
    ensures n == m
  {
    NumeralLength(n, base);
    NumeralLength(m, base);
    assert FormatUint(n, base)[0] == Digit(n) && FormatUint(m, base)[0] == Digit(m);
    DigitsDiffer(n, m);
  }

  /** Distinct numbers have distinct numerals. */
  lemma {:induction false} NumeralsDiffer(n: nat, m: nat, base: Base)
    requires FormatUint(n, base) == FormatUint(m, base)
    ensures n == m
    decreases n
  {
    if n < base {
      DigitsAlone(n, m, base);
    } else if m < base {
      DigitsAlone(m, n, base);
    } else {
      SameHeadAndTail(FormatUint(n / base, base), Digit(n % base), FormatUint(m / base, base), Digit(m % base));
      DigitsDiffer(n % base, m % base);
      NumeralsDiffer(n / base, m / base, base);
      DivModDetermine(n, m, base);
    }
  }

  lemma SameHeadAndTail(a: string, x: char, b: string, y: char)
    requires a + [x] == b + [y]
    ensures a == b && x == y
  {
    assert (a + [x])[..|a|] == a && (b + [y])[..|b|] == b;
    assert (a + [x])[|a|] == x && (b + [y])[|b|] == y;
  }

  /** Reading a decimal numeral gives back the number, and leading zeros do not change it. */
  lemma {:induction false} ReadNumeral(n: nat)
    ensures IsDigits(FormatUint(n, 10)) && ToNat(FormatUint(n, 10)) == n
    decreases n
  {
    if n >= 10 {
      ReadNumeral(n / 10);
      var s, d := FormatUint(n / 10, 10), Digit(n % 10);
      assert FormatUint(n, 10) == s + [d] && (s + [d])[..|s|] == s && (s + [d])[|s|] == d;
    } else {
      assert [Digit(n)][..0] == "";
    }
  }

  lemma {:induction false} LeadingZero(s: string)
    requires AllDigits(s)
    ensures AllDigits(['0'] + s) && ToNat(['0'] + s) == ToNat(s)
  {
    if s == "" {
      assert (['0'] + s)[..0] == "";
    } else {
      var n := |s| - 1;
      LeadingZero(s[..n]);
      assert (['0'] + s)[..|s|] == ['0'] + s[..n];
    }
  }
}
