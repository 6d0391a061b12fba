/** The XOR metric on node identifiers: distances, bucket positions and common prefixes. */
module XorMetric {
  import opened Prelude

  /** Bitwise exclusive or. */
  function Xor(a: nat, b: nat): (d: nat)
    decreases a + b
  {
    if a == 0 && b == 0 then 0 else 2 * Xor(a / 2, b / 2) + (if a % 2 == b % 2 then 0 else 1)
  }

  /** Significant bits: 64 minus `leading_zeros` for a 64-bit word. */
  function Bits(n: nat): (k: nat) {
    if n == 0 then 0 else 1 + Bits(n / 2)
  }

  lemma {:induction false} BitsFit(n: nat, k: nat)
    ensures Bits(n) <= k <==> n < Pow2(k)
  {
    if n > 0 && k > 0 {
      BitsFit(n / 2, k - 1);
    }
  }

  lemma {:induction false} XorHalves(a: nat, b: nat)
    ensures Xor(a, b) / 2 == Xor(a / 2, b / 2)
    ensures Xor(a, b) % 2 == if a % 2 == b % 2 then 0 else 1
  {
  }

  lemma {:induction false} XorSymmetric(a: nat, b: nat)
    ensures Xor(a, b) == Xor(b, a)
    decreases a + b
  {
    if a + b > 0 {
      XorSymmetric(a / 2, b / 2);
    }
  }

  lemma {:induction false} XorZero(a: nat, b: nat)
    ensures Xor(a, b) == 0 <==> a == b
    decreases a + b
  {
    if a + b > 0 {
      XorZero(a / 2, b / 2);
    }
  }

  lemma {:induction false} XorWord(a: nat, b: nat, width: nat)
    requires a < Pow2(width) && b < Pow2(width)
    ensures Xor(a, b) < Pow2(width)
  {
    if width > 0 {
      XorWord(a / 2, b / 2, width - 1);
    }
  }

  /** Distances to one target tell identifiers apart. */
  lemma {:induction false} XorInjective(a: nat, b: nat, t: nat)
    requires Xor(a, t) == Xor(b, t)
    ensures a == b
    decreases a + b + t
  {
    if a + b + t > 0 {
      XorHalves(a, t);
      XorHalves(b, t);
      XorInjective(a / 2, b / 2, t / 2);
    }
  }

  /**
   * The step of every iterative lookup. If `c` is closer to `t` than `b`, then anything in the same
   * bucket of `b` as `c` shares a longer prefix with `c` than `b` does, and is closer to `t` than `b`.
   */
  lemma {:induction false} SameBucketIsCloser(b: nat, c: nat, y: nat, t: nat)
    requires Xor(c, t) < Xor(b, t)
    requires Bits(Xor(b, y)) == Bits(Xor(b, c))
    ensures Bits(Xor(y, c)) < Bits(Xor(b, c))
    ensures Xor(y, t) < Xor(b, t)
    decreases b + c + y + t
  {
    XorZero(b, c);
    XorZero(b, y);
    XorZero(y, c);
    XorZero(b / 2, c / 2);
    XorZero(b / 2, y / 2);
    XorHalves(b, c);
    XorHalves(b, y);
    XorHalves(y, c);
    XorHalves(c, t);
    XorHalves(b, t);
    XorHalves(y, t);
    if b / 2 != c / 2 {
      XorInjectiveHalf(b / 2, c / 2, t / 2);
      SameBucketIsCloser(b / 2, c / 2, y / 2, t / 2);
    } else {
      assert y == c;
    }
  }

  lemma {:induction false} XorInjectiveHalf(a: nat, b: nat, t: nat)
    requires a != b
    ensures Xor(a, t) != Xor(b, t)
  {
    if Xor(a, t) == Xor(b, t) {
      XorInjective(a, b, t);
    }
  }

  /** Whatever lies between `c` and `y` in distance to `t` shares at least as long a prefix with `c` as `y` does. */
  lemma {:induction false} BetweenSharesPrefix(c: nat, x: nat, y: nat, t: nat)
    requires Xor(c, t) <= Xor(x, t) <= Xor(y, t)
    ensures Bits(Xor(x, c)) <= Bits(Xor(y, c))
    decreases c + x + y + t
  {
    XorZero(y, c);
    XorZero(x, c);
    if y == c {
      XorInjective(x, c, t);
    } else {
      XorHalves(c, t);
      XorHalves(x, t);
      XorHalves(y, t);
      XorHalves(x, c);
      XorHalves(y, c);
      BetweenSharesPrefix(c / 2, x / 2, y / 2, t / 2);
    }
  }
}
