/** Canonical decimal numerals: no leading zeros, no plus sign, no negative zero. */
module Decimal {
  import opened Prelude

  const MINUS: Byte := 45
  const ZERO: Byte := 48
  const I64_MIN: int := -0x8000_0000_0000_0000
  const I64_MAX: int := 0x7FFF_FFFF_FFFF_FFFF

  predicate IsDigit(b: Byte) {
    48 <= b <= 57
  }

  predicate AllDigits(s: seq<Byte>) {
    forall i | 0 <= i < |s| :: IsDigit(s[i])
  }

  function Digits(n: nat): (s: seq<Byte>)
    ensures |s| > 0 && AllDigits(s)
    ensures |s| > 1 ==> s[0] != ZERO
    ensures n == 0 <==> s[0] == ZERO
  {
    if n < 10 then [48 + n] else Digits(n / 10) + [48 + n % 10]
  }

  function Numeral(n: int): (s: seq<Byte>)
    ensures |s| > 0
    ensures forall i | 0 <= i < |s| :: IsDigit(s[i]) || s[i] == MINUS
  {
    if n < 0 then [MINUS] + Digits(-n) else Digits(n)
  }

  /** The value of a digit string, leading zeros allowed. */
  function ValueOf(s: seq<Byte>): nat
    requires AllDigits(s)
  {
    if s == [] then 0 else 10 * ValueOf(s[..|s| - 1]) + (s[|s| - 1] - 48)
  }

  predicate CanonicalDigits(s: seq<Byte>) {
    |s| > 0 && AllDigits(s) && (s[0] == ZERO ==> |s| == 1)
  }

  lemma {:induction false} ValueOfDigits(n: nat)
    ensures ValueOf(Digits(n)) == n
  {
    if n >= 10 {
      ValueOfDigits(n / 10);
      assert Digits(n)[..|Digits(n)| - 1] == Digits(n / 10);
    } else {
      assert Digits(n)[..0] == [];
    }
  }

  /** A canonical digit string is the numeral of its value. */
  lemma {:induction false} DigitsOfValue(s: seq<Byte>)
    requires CanonicalDigits(s)
    ensures Digits(ValueOf(s)) == s
  {
    var n := |s| - 1;
    if n > 0 {
      DigitsOfValue(s[..n]);
      assert ValueOf(s[..n]) > 0 by {
        assert Digits(0) == [ZERO];
        assert s[..n][0] == s[0];
      }
      assert ValueOf(s) / 10 == ValueOf(s[..n]) && ValueOf(s) % 10 == s[n] - 48;
      assert s == s[..n] + [s[n]];
    } else {
      assert s[..0] == [];
    }
  }

  lemma {:induction false} NumeralInjective(a: int, b: int)
    requires Numeral(a) == Numeral(b)
    ensures a == b
  {
    if a < 0 && b < 0 {
      assert Numeral(a)[1..] == Digits(-a) && Numeral(b)[1..] == Digits(-b);
      ValueOfDigits(-a);
      ValueOfDigits(-b);
    } else if a >= 0 && b >= 0 {
      ValueOfDigits(a);
      ValueOfDigits(b);
    }
  }

  /** The checks made on an integer's text before it is converted. */
  predicate CanonicalInteger(s: seq<Byte>) {
    && s != []
    && s != [MINUS, ZERO]
    && !(s[0] == ZERO && |s| > 1)
    && !([MINUS, ZERO] <= s && |s| > 2)
    && !(s[0] == MINUS && |s| == 1)
    && forall i | 0 <= i < |s| :: IsDigit(s[i]) || (i == 0 && s[i] == MINUS)
  }

  /** `str::parse::<i64>` on text that passed those checks. */
  function ParseI64(s: seq<Byte>): Option<int>
    requires CanonicalInteger(s)
  {
    var n: int := if s[0] == MINUS then 0 - ValueOf(s[1..]) else ValueOf(s);
    if I64_MIN <= n <= I64_MAX then Some(n) else None
  }

  lemma {:induction false} AcceptedIsNumeral(s: seq<Byte>)
    requires CanonicalInteger(s) && ParseI64(s).Some?
    ensures s == Numeral(ParseI64(s).value)
  {
    if s[0] == MINUS {
      assert s[1] != ZERO;
      DigitsOfValue(s[1..]);
      assert s == [MINUS] + s[1..];
    } else {
      DigitsOfValue(s);
    }
  }

  lemma {:induction false} NumeralIsAccepted(n: int)
    requires I64_MIN <= n <= I64_MAX
    ensures CanonicalInteger(Numeral(n)) && ParseI64(Numeral(n)) == Some(n)
  {
    if n < 0 {
      assert Numeral(n)[1..] == Digits(-n);
      assert Digits(-n)[0] != ZERO;
      ValueOfDigits(-n);
    } else {
      ValueOfDigits(n);
    }
  }
}
