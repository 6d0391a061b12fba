/** Numbers as big-endian byte strings. */
module BigEndian {
  import opened Prelude

  function Value(bytes: seq<Byte>): nat {
    if bytes == [] then 0 else 256 * Value(bytes[..|bytes| - 1]) + bytes[|bytes| - 1]
  }

  /** The `n` low bytes of a number. */
  function Bytes(v: nat, n: nat): (r: seq<Byte>)
    ensures |r| == n
  {
    if n == 0 then [] else Bytes(v / 256, n - 1) + [v % 256]
  }

  lemma {:induction false} BytesOfValue(bytes: seq<Byte>)
    ensures Bytes(Value(bytes), |bytes|) == bytes
    ensures Value(bytes) < Pow2(8 * |bytes|)
  {
    if bytes != [] {
      BytesOfValue(bytes[..|bytes| - 1]);
      EightMore(8 * |bytes| - 8);
    }
  }

  lemma {:induction false} ValueOfBytes(v: nat, n: nat)
    requires v < Pow2(8 * n)
    ensures Value(Bytes(v, n)) == v
  {
    if n > 0 {
      EightMore(8 * n - 8);
      ValueOfBytes(v / 256, n - 1);
      assert Bytes(v, n)[..n - 1] == Bytes(v / 256, n - 1);
    }
  }

  lemma {:induction false} EightMore(k: nat)
    ensures Pow2(k + 8) == 256 * Pow2(k) && Pow2(k + 5) == 32 * Pow2(k)
  {
    assert Pow2(k + 2) == 4 * Pow2(k);
    assert Pow2(k + 4) == 4 * Pow2(k + 2);
    assert Pow2(k + 6) == 4 * Pow2(k + 4);
  }

  lemma Widths()
    ensures Pow2(8) == 256 && Pow2(16) == U16_MAX + 1 && Pow2(32) == U32_MAX + 1 && Pow2(64) == U64_MAX + 1
  {
    assert Pow2(0) == 1;
    hide Pow2;
    EightMore(0);
    EightMore(8);
    EightMore(16);
    EightMore(24);
    EightMore(32);
    EightMore(40);
    EightMore(48);
    EightMore(56);
  }
}
