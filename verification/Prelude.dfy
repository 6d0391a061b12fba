/** Shared value types: optional values, results, bytes and machine-integer bounds. */
module Prelude {
  datatype Option<+T> = None | Some(value: T)

  datatype Result<+T, +E> = Ok(value: T) | Err(error: E) {
    predicate IsFailure() {
      Err?
    }

    function PropagateFailure<U>(): Result<U, E>
      requires Err?
    {
      Err(error)
    }

    function Extract(): T
      requires Ok?
    {
      value
    }
  }

  type Byte = b: int | 0 <= b < 256

  const U16_MAX: nat := 0xFFFF
  const U32_MAX: nat := 0xFFFF_FFFF
  const U64_MAX: nat := 0xFFFF_FFFF_FFFF_FFFF

  /** `u64::div_ceil` and friends. */
  function CeilDiv(a: nat, b: nat): nat
    requires b > 0
  {
    (a + b - 1) / b
  }

  function Min(a: int, b: int): int {
    if a <= b then a else b
  }

  function Max(a: int, b: int): int {
    if a <= b then b else a
  }

  /** The bytes of an ASCII literal. */
  function Ascii(s: string): seq<Byte> {
    seq(|s|, i requires 0 <= i < |s| => (s[i] as int) % 128)
  }

  /** `u64::saturating_add`. */
  function SaturatingAdd(a: nat, b: nat): nat {
    Min(a + b, U64_MAX)
  }

  /** `1 << k`. */
  function Pow2(k: nat): (p: nat)
    ensures p > 0
  {
    if k == 0 then 1 else 2 * Pow2(k - 1)
  }

  /** `n & (1 << k) != 0`. */
  predicate BitSet(n: nat, k: nat) {
    if k == 0 then n % 2 == 1 else BitSet(n / 2, k - 1)
  }

  /** `n | (1 << k)`. */
  function WithBit(n: nat, k: nat): (r: nat)
    ensures forall j: nat :: BitSet(r, j) <==> j == k || BitSet(n, j)
  {
    if k == 0 then n / 2 * 2 + 1 else
      var r := 2 * WithBit(n / 2, k - 1) + n % 2;
      assert r / 2 == WithBit(n / 2, k - 1);
      r
  }

  /** `n & ((1 << k) - 1)`. */
  function LowBits(n: nat, k: nat): (r: nat)
    ensures r < Pow2(k)
    ensures forall j: nat :: BitSet(r, j) <==> j < k && BitSet(n, j)
  {
    if k == 0 then
      assert forall j: nat :: !BitSet(0, j) by { ZeroHasNoBits(); }
      0
    else
      var r := 2 * LowBits(n / 2, k - 1) + n % 2;
      assert r / 2 == LowBits(n / 2, k - 1);
      r
  }

  lemma ZeroHasNoBits()
    ensures forall j: nat :: !BitSet(0, j)
  {
    forall j: nat ensures !BitSet(0, j) { ZeroBit(j); }
  }

  lemma {:induction false} ZeroBit(j: nat)
    ensures !BitSet(0, j)
  {
    if j > 0 {
      ZeroBit(j - 1);
    }
  }

  /** A number below `1 << width` is its `width` low bits. */
  lemma {:induction false} BitsDetermine(a: nat, b: nat, width: nat)
    requires a < Pow2(width) && b < Pow2(width)
    requires forall k: nat | k < width :: BitSet(a, k) <==> BitSet(b, k)
    ensures a == b
  {
    if width > 0 {
      assert BitSet(a, 0) <==> BitSet(b, 0);
      forall k: nat | k < width - 1 ensures BitSet(a / 2, k) <==> BitSet(b / 2, k) {
        assert BitSet(a, k + 1) <==> BitSet(b, k + 1);
      }
      BitsDetermine(a / 2, b / 2, width - 1);
    }
  }

  /** Setting a bit inside the width stays inside the width. */
  lemma {:induction false} WithBitBound(n: nat, k: nat, width: nat)
    requires n < Pow2(width) && k < width
    ensures WithBit(n, k) < Pow2(width)
  {
    if k > 0 {
      WithBitBound(n / 2, k - 1, width - 1);
    }
  }

  /** A number with no bit at or above `k` is below `1 << k`, and the other way round. */
  lemma {:induction false} HighBitsClear(n: nat, k: nat, width: nat)
    requires n < Pow2(width) && k <= width
    ensures n < Pow2(k) ==> forall j: nat | k <= j :: !BitSet(n, j)
    ensures (forall j: nat | k <= j < width :: !BitSet(n, j)) ==> n < Pow2(k)
  {
    var low := LowBits(n, k);
    Pow2Monotone(k, width);
    if n < Pow2(k) {
      BitsDetermine(n, low, k);
    }
    if forall j: nat | k <= j < width :: !BitSet(n, j) {
      BitsDetermine(n, low, width);
    }
  }

  lemma {:induction false} Pow2Monotone(a: nat, b: nat)
    requires a <= b
    ensures Pow2(a) <= Pow2(b)
    decreases b
  {
    if a < b {
      Pow2Monotone(a, b - 1);
    }
  }

  lemma {:induction false} ScaleMonotone(c: nat, a: nat, b: nat)
    requires a <= b
    ensures c * a <= c * b
  {
    if c > 0 {
      ScaleMonotone(c - 1, a, b);
      assert c * a == (c - 1) * a + a && c * b == (c - 1) * b + b;
    }
  }
}
