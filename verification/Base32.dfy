/** Base32 and hexadecimal hashes, as magnet links spell them. Text is a sequence of bytes. */
module Base32 {
  import opened Prelude
  import opened BigEndian

  datatype MagnetError = InvalidExactTopic

  // ----- The alphabet: a to z, then 2 to 7 -----

  predicate IsSymbol(b: Byte) {
    97 <= b <= 122 || 50 <= b <= 55
  }

  predicate AllSymbols(s: seq<Byte>) {
    forall i | 0 <= i < |s| :: IsSymbol(s[i])
  }

  function SymbolValue(b: Byte): (v: nat)
    requires IsSymbol(b)
    ensures v < 32
  {
    if b >= 97 then b - 97 else b - 50 + 26
  }

  function SymbolOf(v: nat): (b: Byte)
    requires v < 32
    ensures IsSymbol(b) && SymbolValue(b) == v
  {
    if v < 26 then 97 + v else 50 + v - 26
  }

  function Value32(s: seq<Byte>): nat
    requires AllSymbols(s)
  {
    if s == [] then 0 else 32 * Value32(s[..|s| - 1]) + SymbolValue(s[|s| - 1])
  }

  lemma {:induction false} Value32Bound(s: seq<Byte>)
    requires AllSymbols(s)
    ensures Value32(s) < Pow2(5 * |s|)
  {
    if s != [] {
      Value32Bound(s[..|s| - 1]);
      EightMore(5 * |s| - 5);
    }
  }

  lemma {:induction false} Value32Injective(s: seq<Byte>, t: seq<Byte>)
    requires AllSymbols(s) && AllSymbols(t) && |s| == |t| && Value32(s) == Value32(t)
    ensures s == t
  {
    if s != [] {
      var n := |s| - 1;
      Value32Injective(s[..n], t[..n]);
      assert s == s[..n] + [s[n]] && t == t[..n] + [t[n]];
    }
  }

  // ----- Decoding -----

  /** What a text stands for: its bits in whole bytes, the bits left over all zero. */
  function Decoded(s: seq<Byte>): Option<seq<Byte>> {
    if !AllSymbols(s) || Value32(s) % Pow2(5 * |s| % 8) != 0 then None
    else Some(Bytes(Value32(s) / Pow2(5 * |s| % 8), 5 * |s| / 8))
  }

  /** `total` is `v` whole bytes followed by the `bits` pending bits `acc`. */
  ghost predicate Pending(v: nat, acc: nat, bits: nat, total: nat) {
    bits < 8 && acc < Pow2(bits) && total == v * Pow2(bits) + acc
  }

  lemma SmallPowers()
    ensures Pow2(0) == 1 && Pow2(1) == 2 && Pow2(2) == 4 && Pow2(3) == 8
    ensures Pow2(4) == 16 && Pow2(5) == 32 && Pow2(6) == 64 && Pow2(7) == 128
  {
    assert Pow2(2) == 4;
    assert Pow2(4) == 16;
    assert Pow2(6) == 64;
  }

  /** Five bits more do not complete a byte. */
  lemma {:induction false} AbsorbShort(v: nat, acc: nat, bits: nat, total: nat, symbol: nat)
    requires Pending(v, acc, bits, total) && symbol < 32 && bits + 5 < 8
    ensures Pending(v, 32 * acc + symbol, bits + 5, 32 * total + symbol)
  {
    SmallPowers();
    hide Pow2;
    assert bits == 0 || bits == 1 || bits == 2;
  }

  /** `n >> k`. */
  function ShiftedRight(n: nat, k: nat): int {
    n / Pow2(k)
  }

  /** `n & ((1 << k) - 1)`. */
  function Masked(n: nat, k: nat): int {
    n % Pow2(k)
  }

  lemma {:induction false} Quotient(a: nat, p: nat)
    requires 0 < p && a < 256 * p
    ensures a == a / p * p + a % p && 0 <= a / p < 256
  {
    if a / p >= 256 {
      ScaleMonotone(p, 256, a / p);
    }
  }

  lemma {:induction false} Distribute(v: nat, q: nat, p: nat)
    ensures (256 * v + q) * p == 32 * (v * (8 * p)) + q * p
  {
  }

  /** Five bits more complete a byte and leave the rest pending. */
  lemma {:induction false} AbsorbByte(v: nat, acc: nat, bits: nat, total: nat, symbol: nat)
    requires Pending(v, acc, bits, total) && symbol < 32 && bits + 5 >= 8
    ensures var a, left := 32 * acc + symbol, bits - 3;
            && 0 <= ShiftedRight(a, left) < 256 && 0 <= Masked(a, left)
            && Pending(256 * v + ShiftedRight(a, left), Masked(a, left), left, 32 * total + symbol)
  {
    var p, a := Pow2(bits - 3), 32 * acc + symbol;
    assert Pow2(bits - 1) == 4 * p && Pow2(bits) == 8 * p;
    hide Pow2;
    Quotient(a, p);
    Distribute(v, a / p, p);
  }

  method Push(acc: nat, bits: nat, decoded: seq<Byte>, symbol: nat, ghost total: nat)
    returns (acc': nat, bits': nat, decoded': seq<Byte>)
    requires Pending(Value(decoded), acc, bits, total) && bits < 8 && symbol < 32
    ensures Pending(Value(decoded'), acc', bits', 32 * total + symbol)
    ensures bits' < 8 && 8 * |decoded'| + bits' == 8 * |decoded| + bits + 5
  {
    hide Pending, ShiftedRight, Masked, Value;
    acc', bits', decoded' := 32 * acc + symbol, bits + 5, decoded;
    if bits' >= 8 {
      AbsorbByte(Value(decoded), acc, bits, total, symbol);
      bits' := bits' - 8;
      var byte := ShiftedRight(acc', bits');
      NextByte(decoded, byte);
      decoded' := decoded + [byte % 256];
      acc' := Masked(acc', bits');
    } else {
      AbsorbShort(Value(decoded), acc, bits, total, symbol);
    }
  }

  method DecodeBase32(value: seq<Byte>) returns (r: Result<seq<Byte>, MagnetError>)
    ensures r == if Decoded(value).Some? then Ok(Decoded(value).value) else Err(InvalidExactTopic)
  {
    hide Pow2, Pending, Decoded;
    var accumulator: nat, bits: nat, decoded: seq<Byte> := 0, 0, [];
    assert Pending(0, 0, 0, 0) by {
      NothingPending();
    }
    for i := 0 to |value|
      invariant AllSymbols(value[..i])
      invariant bits < 8 && 8 * |decoded| + bits == 5 * i
      invariant Pending(Value(decoded), accumulator, bits, Value32(value[..i]))
    {
      if !IsSymbol(value[i]) {
        StraySymbol(value, i);
        return Err(InvalidExactTopic);
      }
      var symbol := SymbolValue(value[i]);
      NextSymbol(value, i);
      accumulator, bits, decoded := Push(accumulator, bits, decoded, symbol, Value32(value[..i]));
    }
    assert value[..|value|] == value;
    Finish(value, decoded, accumulator, bits);
    if bits != 0 && accumulator != 0 {
      return Err(InvalidExactTopic);
    }
    r := Ok(decoded);
  }

  lemma {:induction false} Finish(value: seq<Byte>, decoded: seq<Byte>, acc: nat, bits: nat)
    requires AllSymbols(value) && bits < 8 && 8 * |decoded| + bits == 5 * |value|
    requires Pending(Value(decoded), acc, bits, Value32(value))
    ensures bits == 0 ==> acc == 0
    ensures Decoded(value) == if acc == 0 then Some(decoded) else None
  {
    hide Pow2, Value, Value32, Bytes;
    Remainder(Value(decoded), acc, bits, Value32(value));
    BytesOfValue(decoded);
    WholeBytes(|value|, |decoded|, bits);
  }

  lemma {:induction false} NextSymbol(value: seq<Byte>, i: nat)
    requires i < |value| && AllSymbols(value[..i]) && IsSymbol(value[i])
    ensures AllSymbols(value[..i + 1]) && Value32(value[..i + 1]) == 32 * Value32(value[..i]) + SymbolValue(value[i])
  {
    assert value[..i + 1][..i] == value[..i];
  }

  lemma {:induction false} NextByte(decoded: seq<Byte>, b: Byte)
    ensures Value(decoded + [b]) == 256 * Value(decoded) + b
  {
    assert (decoded + [b])[..|decoded|] == decoded;
  }

  lemma {:induction false} StraySymbol(value: seq<Byte>, i: nat)
    requires i < |value| && !IsSymbol(value[i])
    ensures Decoded(value) == None
  {
  }

  lemma {:induction false} WholeBytes(symbols: nat, bytes: nat, bits: nat)
    requires bits < 8 && 8 * bytes + bits == 5 * symbols
    ensures 5 * symbols % 8 == bits && 5 * symbols / 8 == bytes
  {
  }

  lemma NothingPending()
    ensures Pending(0, 0, 0, 0)
  {
  }

  lemma {:induction false} Remainder(v: nat, acc: nat, bits: nat, total: nat)
    requires Pending(v, acc, bits, total)
    ensures total / Pow2(bits) == v && total % Pow2(bits) == acc && (bits == 0 ==> acc == 0)
  {
    SmallPowers();
    hide Pow2;
    assert bits == 0 || bits == 1 || bits == 2 || bits == 3 || bits == 4 || bits == 5 || bits == 6 || bits == 7;
  }

  // ----- The encoder of section 6 of RFC 4648, on whole groups -----

  /** The `n` low five-bit digits of a number, as symbols. */
  function SymbolsOf(v: nat, n: nat): (r: seq<Byte>)
    ensures |r| == n && AllSymbols(r)
  {
    if n == 0 then [] else SymbolsOf(v / 32, n - 1) + [SymbolOf(v % 32)]
  }

  /** Forty bits, five bytes in, eight symbols out, one group after another. */
  function Encoded(bytes: seq<Byte>): (r: seq<Byte>)
    requires |bytes| % 5 == 0
    ensures 5 * |r| == 8 * |bytes| && AllSymbols(r)
  {
    if bytes == [] then []
    else
      var n := |bytes| - 5;
      Encoded(bytes[..n]) + SymbolsOf(Value(bytes[n..]), 8)
  }

  lemma {:induction false} Rescale(v: nat, p: nat)
    ensures 32 * (v * p) == v * (32 * p) && 256 * (v * p) == v * (256 * p)
  {
  }

  lemma {:induction false} Value32Append(s: seq<Byte>, v: nat, n: nat)
    requires AllSymbols(s) && v < Pow2(5 * n)
    ensures Value32(s + SymbolsOf(v, n)) == Value32(s) * Pow2(5 * n) + v
    decreases n
  {
    if n == 0 {
      assert s + SymbolsOf(v, n) == s;
    } else {
      EightMore(5 * n - 5);
      hide Pow2;
      Value32Append(s, v / 32, n - 1);
      var t := s + SymbolsOf(v, n);
      assert t[..|t| - 1] == s + SymbolsOf(v / 32, n - 1);
      Rescale(Value32(s), Pow2(5 * n - 5));
    }
  }

  lemma {:induction false} ValueAppend(a: seq<Byte>, b: seq<Byte>)
    ensures Value(a + b) == Value(a) * Pow2(8 * |b|) + Value(b)
    ensures Value(b) < Pow2(8 * |b|)
  {
    if b == [] {
      assert a + b == a;
    } else {
      var n := |b| - 1;
      EightMore(8 * n);
      hide Pow2;
      ValueAppend(a, b[..n]);
      assert (a + b)[..|a + b| - 1] == a + b[..n];
      Rescale(Value(a), Pow2(8 * n));
    }
  }

  lemma {:induction false} SameNumber(bytes: seq<Byte>)
    requires |bytes| % 5 == 0
    ensures Value32(Encoded(bytes)) == Value(bytes)
  {
    if bytes != [] {
      var n := |bytes| - 5;
      SameNumber(bytes[..n]);
      ValueAppend(bytes[..n], bytes[n..]);
      Value32Append(Encoded(bytes[..n]), Value(bytes[n..]), 8);
      assert bytes == bytes[..n] + bytes[n..];
    }
  }

  lemma {:induction false} EncodedDecodes(bytes: seq<Byte>)
    requires |bytes| % 5 == 0
    ensures Decoded(Encoded(bytes)) == Some(bytes)
  {
    SameNumber(bytes);
    Finish(Encoded(bytes), bytes, 0, 0);
  }

  lemma {:induction false} DecodedEncodes(s: seq<Byte>)
    requires |s| % 8 == 0 && AllSymbols(s)
    ensures Decoded(s).Some? && |Decoded(s).value| % 5 == 0 && Encoded(Decoded(s).value) == s
  {
    hide Bytes, Value32, Encoded, Value;
    Value32Bound(s);
    var bytes := Bytes(Value32(s), 5 * |s| / 8);
    SmallPowers();
    hide Pow2;
    ValueOfBytes(Value32(s), |bytes|);
    SameNumber(bytes);
    Value32Injective(Encoded(bytes), s);
  }
}
