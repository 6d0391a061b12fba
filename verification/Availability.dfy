/**
 * Piece-availability bitfields: least-significant-bit-first bits, one per chunk,
 * with zero padding in the last byte.
 */
module Availability {
  import opened Prelude

  datatype PieceAvailability = PieceAvailability(chunkCount: nat, bits: seq<Byte>)

  /** Right length, and no bit set past the last chunk. */
  predicate IsValid(a: PieceAvailability) {
    && |a.bits| == CeilDiv(a.chunkCount, 8)
    && (a.chunkCount % 8 == 0 || a.bits == [] || a.bits[|a.bits| - 1] < Pow2(a.chunkCount % 8))
  }

  predicate Contains(a: PieceAvailability, index: nat) {
    IsValid(a) && index < a.chunkCount && BitSet(a.bits[index / 8], index % 8)
  }

  ghost function Members(a: PieceAvailability): set<nat> {
    set i: nat | 0 <= i < a.chunkCount && Contains(a, i)
  }

  lemma ByteWidth()
    ensures Pow2(8) == 256
  {
    assert Pow2(4) == 16;
  }

  lemma {:induction false} AllOnes(k: nat)
    requires k < 8
    ensures BitSet(255, k)
  {
    assert BitSet(255, 0) && BitSet(127, 0) && BitSet(63, 0) && BitSet(31, 0);
    assert BitSet(15, 0) && BitSet(7, 0) && BitSet(3, 0) && BitSet(1, 0);
    assert BitSet(15, 1) && BitSet(15, 2) && BitSet(15, 3);
    assert BitSet(255, k) by {
      if k >= 4 {
        assert BitSet(255, k) == BitSet(127, k - 1) == BitSet(63, k - 2) == BitSet(31, k - 3) == BitSet(15, k - 4);
      } else if k == 3 {
        assert BitSet(255, 3) == BitSet(127, 2) == BitSet(63, 1) == BitSet(31, 0);
      } else if k == 2 {
        assert BitSet(255, 2) == BitSet(127, 1) == BitSet(63, 0);
      } else if k == 1 {
        assert BitSet(255, 1) == BitSet(127, 0);
      }
    }
  }

  /** No stored bit lies past the last chunk. */
  ghost predicate PaddingClear(a: PieceAvailability) {
    forall q, k | 0 <= q < |a.bits| && 0 <= k < 8 :: BitSet(a.bits[q], k) ==> 8 * q + k < a.chunkCount
  }

  /** Validity, bit by bit. */
  lemma {:induction false} ValidBitwise(a: PieceAvailability)
    requires |a.bits| == CeilDiv(a.chunkCount, 8)
    ensures IsValid(a) <==> PaddingClear(a)
  {
    var r := a.chunkCount % 8;
    if r != 0 {
      var last := |a.bits| - 1;
      assert 8 * last + r == a.chunkCount;
      ByteWidth();
      HighBitsClear(a.bits[last], r, 8);
      if PaddingClear(a) {
        forall j: nat | r <= j < 8 ensures !BitSet(a.bits[last], j) {
          assert 0 <= last < |a.bits|;
        }
      }
    }
  }

  /** Setting one chunk's bit keeps the bitfield valid and adds exactly that member. */
  lemma {:induction false} SetOne(a: PieceAvailability, index: nat, b: PieceAvailability)
    requires IsValid(a) && index < a.chunkCount
    requires WithBit(a.bits[index / 8], index % 8) < 256
    requires b == a.(bits := a.bits[index / 8 := WithBit(a.bits[index / 8], index % 8)])
    ensures IsValid(b)
    ensures forall i: nat :: Contains(b, i) <==> i == index || Contains(a, i)
  {
    ValidBitwise(a);
    ValidBitwise(b);
    var q0 := index / 8;
    assert index == 8 * q0 + index % 8;
    assert PaddingClear(b) by {
      forall q, k | 0 <= q < |b.bits| && 0 <= k < 8 && BitSet(b.bits[q], k)
        ensures 8 * q + k < b.chunkCount
      {
        if q != q0 || k != index % 8 {
          assert BitSet(a.bits[q], k);
        }
      }
    }
    forall i: nat ensures Contains(b, i) <==> i == index || Contains(a, i) {
      assert i == 8 * (i / 8) + i % 8;
    }
  }

  /** Two valid bitfields over the same chunks with the same members are the same bytes. */
  lemma {:induction false} MembersDetermineBytes(a: PieceAvailability, b: PieceAvailability)
    requires IsValid(a) && IsValid(b)
    requires a.chunkCount == b.chunkCount && Members(a) == Members(b)
    ensures a == b
  {
    ValidBitwise(a);
    ValidBitwise(b);
    forall q | 0 <= q < |a.bits| ensures a.bits[q] == b.bits[q] {
      forall k | 0 <= k < 8 ensures BitSet(a.bits[q], k) <==> BitSet(b.bits[q], k) {
        var i := 8 * q + k;
        assert i / 8 == q && i % 8 == k;
        if i < a.chunkCount {
          assert i in Members(a) <==> i in Members(b);
        }
      }
      ByteWidth();
      BitsDetermine(a.bits[q], b.bits[q], 8);
    }
  }

  method FromIndices(chunkCount: nat, indices: seq<nat>) returns (a: PieceAvailability)
    ensures a.chunkCount == chunkCount && IsValid(a)
    ensures Members(a) == set i | i in indices && i < chunkCount
  {
    var bits: seq<Byte> := seq(CeilDiv(chunkCount, 8), _ => 0);
    a := PieceAvailability(chunkCount, bits);
    ValidBitwise(a);
    ZeroHasNoBits();
    for n := 0 to |indices|
      invariant a.chunkCount == chunkCount && IsValid(a)
      invariant forall i: nat | i < chunkCount :: Contains(a, i) <==> i in indices[..n]
    {
      var index := indices[n];
      if index < chunkCount {
        ghost var before := a;
        ByteWidth();
        WithBitBound(a.bits[index / 8], index % 8, 8);
        a := a.(bits := a.bits[index / 8 := WithBit(a.bits[index / 8], index % 8)]);
        SetOne(before, index, a);
      }
    }
    assert indices[..|indices|] == indices;
  }

  method All(chunkCount: nat) returns (a: PieceAvailability)
    ensures a.chunkCount == chunkCount && IsValid(a)
    ensures forall i: nat :: i in Members(a) <==> i < chunkCount
  {
    var bits: seq<Byte> := seq(CeilDiv(chunkCount, 8), _ => 255);
    var remainder := chunkCount % 8;
    if remainder != 0 && bits != [] {
      ByteWidth();
      Pow2Monotone(remainder, 8);
      bits := bits[|bits| - 1 := LowBits(bits[|bits| - 1], remainder)];
    }
    a := PieceAvailability(chunkCount, bits);
    hide BitSet, LowBits;
    forall i: nat | i < chunkCount ensures Contains(a, i) {
      FullByte(bits, chunkCount, i);
    }
  }

  lemma {:induction false} FullByte(bits: seq<Byte>, chunkCount: nat, i: nat)
    requires i < chunkCount && |bits| == CeilDiv(chunkCount, 8)
    requires forall q | 0 <= q < |bits| - 1 :: bits[q] == 255
    requires bits[|bits| - 1] == if chunkCount % 8 == 0 then 255 else LowBits(255, chunkCount % 8)
    ensures i / 8 < |bits| && BitSet(bits[i / 8], i % 8)
  {
    hide BitSet, LowBits;
    AllOnes(i % 8);
    LastByte(chunkCount, i);
  }

  lemma {:induction false} LastByte(chunkCount: nat, i: nat)
    requires i < chunkCount
    ensures i / 8 < CeilDiv(chunkCount, 8)
    ensures i / 8 == CeilDiv(chunkCount, 8) - 1 && chunkCount % 8 != 0 ==> i % 8 < chunkCount % 8
  {
  }

  /** `all(n)` is byte for byte the bitfield of the indices `0..n`. */
  method AllEqualsFromIndices(chunkCount: nat) returns (a: PieceAvailability, b: PieceAvailability)
    ensures a == b
    ensures forall i: nat :: i in Members(a) <==> i < chunkCount
  {
    a := All(chunkCount);
    var range := seq(chunkCount, i => i);
    b := FromIndices(chunkCount, range);
    assert Members(b) == Members(a) by {
      forall i: nat | i < chunkCount ensures i in range {
        assert range[i] == i;
      }
    }
    MembersDetermineBytes(a, b);
  }
}
