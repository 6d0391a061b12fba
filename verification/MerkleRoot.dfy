/** The BEP 52 per-file Merkle root over 16 KiB blocks. The digest function is a parameter. */
module MerkleRoot {
  import opened Prelude
  import opened Content

  const ZERO: Digest := seq(32, _ => 0)

  datatype MerkleError = EmptyFile

  // ----- The layers -----

  /** The `i`-th 16 KiB block. */
  function Block(payload: seq<Byte>, i: nat): seq<Byte>
    requires i < CeilDiv(|payload|, 16384)
  {
    payload[16384 * i..Min(16384 * i + 16384, |payload|)]
  }

  function BlockDigests(h: Hash, payload: seq<Byte>): seq<Digest> {
    var n := CeilDiv(|payload|, 16384);
    seq<Digest>(n, i requires 0 <= i < n => h(Block(payload, i)))
  }

  /** The exponent of `n.next_power_of_two()`. */
  function Height(n: nat): (k: nat)
    requires n > 0
    ensures n <= Pow2(k) && (k > 0 ==> Pow2(k - 1) < n)
  {
    if n == 1 then 0 else 1 + Height((n + 1) / 2)
  }

  function Padded(layer: seq<Digest>): (r: seq<Digest>)
    requires layer != []
    ensures |r| == Pow2(Height(|layer|)) && layer <= r
  {
    layer + seq(Pow2(Height(|layer|)) - |layer|, _ => ZERO)
  }

  function Join(a: seq<Byte>, b: seq<Byte>): seq<Byte> {
    a + b
  }

  function Paired(h: Hash, layer: seq<Digest>): (r: seq<Digest>)
    ensures |r| == |layer| / 2
  {
    seq<Digest>(|layer| / 2, i requires 0 <= i < |layer| / 2 => h(Join(layer[2 * i], layer[2 * i + 1])))
  }

  // ----- The perfect binary tree -----

  function Root(h: Hash, leaves: seq<Digest>, height: nat): Digest
    requires |leaves| == Pow2(height)
  {
    if height == 0 then leaves[0]
    else
      var half := Pow2(height - 1);
      h(Join(Root(h, leaves[..half], height - 1), Root(h, leaves[half..], height - 1)))
  }

  lemma {:induction false} PairedSplits(h: Hash, layer: seq<Digest>, half: nat)
    requires |layer| == 2 * half && half % 2 == 0
    ensures Paired(h, layer)[..half / 2] == Paired(h, layer[..half])
    ensures Paired(h, layer)[half / 2..] == Paired(h, layer[half..])
  {
  }

  lemma {:induction false} RootUnfolds(h: Hash, leaves: seq<Digest>, height: nat, half: nat)
    requires height > 0 && |leaves| == Pow2(height) && half == Pow2(height - 1)
    ensures |leaves| == 2 * half
    ensures Root(h, leaves, height) == h(Join(Root(h, leaves[..half], height - 1), Root(h, leaves[half..], height - 1)))
  {
  }

  lemma {:induction false} PairRoot(h: Hash, layer: seq<Digest>)
    requires |layer| == Pow2(1)
    ensures |Paired(h, layer)| == Pow2(0) && Root(h, Paired(h, layer), 0) == Root(h, layer, 1)
  {
    assert layer[..1][0] == layer[0] && layer[1..][0] == layer[1];
  }

  /** Hashing one layer in pairs leaves the root alone. */
  lemma {:induction false} PairedKeepsRoot(h: Hash, layer: seq<Digest>, height: nat)
    requires height > 0 && |layer| == Pow2(height)
    ensures |Paired(h, layer)| == Pow2(height - 1)
    ensures Root(h, Paired(h, layer), height - 1) == Root(h, layer, height)
  {
    hide *;
    if height == 1 {
      PairRoot(h, layer);
    } else {
      var half, quarter := Pow2(height - 1), Pow2(height - 2);
      Halves(height);
      PairedSplits(h, layer, half);
      RootUnfolds(h, layer, height, half);
      RootUnfolds(h, Paired(h, layer), height - 1, quarter);
      PairedKeepsRoot(h, layer[..half], height - 1);
      PairedKeepsRoot(h, layer[half..], height - 1);
    }
  }

  lemma {:induction false} Halves(height: nat)
    requires height > 1
    ensures Pow2(height) == 2 * Pow2(height - 1) && Pow2(height - 1) == 2 * Pow2(height - 2)
  {
  }

  function FileRoot(h: Hash, payload: seq<Byte>): Digest
    requires payload != []
  {
    var leaves := BlockDigests(h, payload);
    Root(h, Padded(leaves), Height(|leaves|))
  }

  // ----- Everything that is hashed, by its place -----

  /** How many rounds of pairing the file takes. */
  function Top(length: nat): nat
    requires length > 0
  {
    Height(CeilDiv(length, 16384))
  }

  /** The layer after `level` rounds of pairing; the last one holds the root alone. */
  function Layer(h: Hash, payload: seq<Byte>, level: nat): (r: seq<Digest>)
    requires payload != [] && level <= Top(|payload|)
    ensures |r| == Pow2(Top(|payload|) - level)
  {
    if level == 0 then Padded(BlockDigests(h, payload)) else Paired(h, Layer(h, payload, level - 1))
  }

  /** A block of the file, or the `i`-th pair of a layer. */
  datatype Place = BlockPlace(i: nat) | PairPlace(level: nat, i: nat)

  /** The places in the tree over a file of the given length. */
  predicate InTree(length: nat, place: Place)
    requires length > 0
  {
    match place
    case BlockPlace(i) => i < CeilDiv(length, 16384)
    case PairPlace(level, i) =>
      level < Top(length) && i < Pow2(Top(length) - level - 1)
  }

  /** What is hashed there. */
  function InputAt(h: Hash, payload: seq<Byte>, place: Place): seq<Byte>
    requires payload != [] && InTree(|payload|, place)
  {
    match place
    case BlockPlace(i) => Block(payload, i)
    case PairPlace(level, i) =>
      var layer := Layer(h, payload, level);
      Join(layer[2 * i], layer[2 * i + 1])
  }

  lemma {:induction false} LayerUnfolds(h: Hash, payload: seq<Byte>, level: nat)
    requires payload != [] && level < Top(|payload|)
    ensures Layer(h, payload, level + 1) == Paired(h, Layer(h, payload, level))
    ensures |Layer(h, payload, level)| == 2 * Pow2(Top(|payload|) - level - 1)
  {
    hide Padded, BlockDigests, Paired, Height;
  }

  lemma {:induction false} FirstLayer(h: Hash, payload: seq<Byte>)
    requires payload != []
    ensures Root(h, Layer(h, payload, 0), Top(|payload|)) == FileRoot(h, payload)
  {
    assert |BlockDigests(h, payload)| == CeilDiv(|payload|, 16384);
    hide Padded, Root, Height, Pow2, CeilDiv;
  }

  /** The layers lead to the root. */
  lemma {:induction false} LayersKeepRoot(h: Hash, payload: seq<Byte>, level: nat)
    requires payload != [] && level <= Top(|payload|)
    ensures Root(h, Layer(h, payload, level), Top(|payload|) - level) == FileRoot(h, payload)
  {
    hide *;
    if level == 0 {
      FirstLayer(h, payload);
    } else {
      LayerUnfolds(h, payload, level - 1);
      LayersKeepRoot(h, payload, level - 1);
      PairedKeepsRoot(h, Layer(h, payload, level - 1), Top(|payload|) - level + 1);
    }
  }

  lemma {:induction false} LastLayer(h: Hash, payload: seq<Byte>, level: nat)
    requires payload != [] && level <= Top(|payload|)
    ensures |Layer(h, payload, level)| > 1 <==> level < Top(|payload|)
    ensures level == Top(|payload|) ==> Layer(h, payload, level) == [FileRoot(h, payload)]
  {
    Levels(Top(|payload|) - level);
    LayersKeepRoot(h, payload, level);
    hide Layer, Top, Height, FileRoot;
  }

  lemma {:induction false} Levels(height: nat)
    ensures Pow2(height) > 0 && (Pow2(height) == 1 <==> height == 0)
  {
  }

  /** Replaces a layer by the digests of its pairs until one digest is left. */
  method V2FileRoot(h: Hash, payload: seq<Byte>) returns (r: Result<Digest, MerkleError>)
    ensures r == if payload == [] then Err(EmptyFile) else Ok(FileRoot(h, payload))
  {
    if payload == [] {
      return Err(EmptyFile);
    }
    var layer := Padded(BlockDigests(h, payload));
    ghost var level: nat := 0;
    assert layer == Layer(h, payload, 0);
    hide *;
    LastLayer(h, payload, 0);
    while |layer| > 1
      invariant level <= Top(|payload|) && layer == Layer(h, payload, level)
      invariant |layer| > 1 <==> level < Top(|payload|)
      decreases Top(|payload|) - level
    {
      LayerUnfolds(h, payload, level);
      layer := Paired(h, layer);
      level := level + 1;
      LastLayer(h, payload, level);
    }
    LastLayer(h, payload, level);
    r := Ok(layer[0]);
  }

  // ----- The root pins the file down -----

  ghost predicate Collide(h: Hash, x: seq<Byte>, y: seq<Byte>) {
    x != y && h(x) == h(y)
  }

  /** At one place of the two trees, two different inputs have one digest. */
  ghost predicate CollideAt(h: Hash, p: seq<Byte>, q: seq<Byte>, place: Place)
    requires |p| == |q| > 0 && InTree(|p|, place)
  {
    Collide(h, InputAt(h, p, place), InputAt(h, q, place))
  }

  lemma {:induction false} DifferentBlock(p: seq<Byte>, q: seq<Byte>) returns (i: nat)
    requires |p| == |q| && p != q
    ensures i < CeilDiv(|p|, 16384) && Block(p, i) != Block(q, i)
  {
    var k :| 0 <= k < |p| && p[k] != q[k];
    i := k / 16384;
    assert Block(p, i)[k - 16384 * i] == p[k] && Block(q, i)[k - 16384 * i] == q[k];
  }

  /** Where two layers differ and the digests of their pairs do not, a pair collides. */
  lemma {:induction false} PairCollision(h: Hash, a: seq<Digest>, b: seq<Digest>) returns (i: nat)
    requires |a| == |b| && |a| % 2 == 0 && a != b && Paired(h, a) == Paired(h, b)
    ensures i < |a| / 2 && Collide(h, Join(a[2 * i], a[2 * i + 1]), Join(b[2 * i], b[2 * i + 1]))
  {
    var k :| 0 <= k < |a| && a[k] != b[k];
    i := k / 2;
    var x, y := Join(a[2 * i], a[2 * i + 1]), Join(b[2 * i], b[2 * i + 1]);
    assert Paired(h, a)[i] == Paired(h, b)[i];
    assert x[..32] == a[2 * i] && x[32..] == a[2 * i + 1] && y[..32] == b[2 * i] && y[32..] == b[2 * i + 1];
  }

  lemma {:induction false} LayerCollision(h: Hash, p: seq<Byte>, q: seq<Byte>, level: nat) returns (place: Place)
    requires |p| == |q| > 0 && level < Top(|p|)
    requires Layer(h, p, level) != Layer(h, q, level) && Layer(h, p, level + 1) == Layer(h, q, level + 1)
    ensures InTree(|p|, place) && CollideAt(h, p, q, place)
  {
    LayerUnfolds(h, p, level);
    LayerUnfolds(h, q, level);
    hide *;
    var i := PairCollision(h, Layer(h, p, level), Layer(h, q, level));
    place := PairPlace(level, i);
    PairIsPlace(h, p, q, level, i);
  }

  lemma {:induction false} PairIsPlace(h: Hash, p: seq<Byte>, q: seq<Byte>, level: nat, i: nat)
    requires |p| == |q| > 0 && level < Top(|p|) && i < Pow2(Top(|p|) - level - 1)
    requires |Layer(h, p, level)| == |Layer(h, q, level)| == 2 * Pow2(Top(|p|) - level - 1)
    requires var a, b := Layer(h, p, level), Layer(h, q, level);
             Collide(h, Join(a[2 * i], a[2 * i + 1]), Join(b[2 * i], b[2 * i + 1]))
    ensures InTree(|p|, PairPlace(level, i)) && CollideAt(h, p, q, PairPlace(level, i))
  {
    hide Layer, Join, Collide, Top, Pow2;
  }

  lemma {:induction false} LeafCollision(h: Hash, p: seq<Byte>, q: seq<Byte>) returns (place: Place)
    requires |p| == |q| > 0 && p != q && Layer(h, p, 0) == Layer(h, q, 0)
    ensures InTree(|p|, place) && CollideAt(h, p, q, place)
  {
    var i := DifferentBlock(p, q);
    place := BlockPlace(i);
    hide Height, Pow2, CeilDiv, Block, Padded;
    assert BlockDigests(h, p)[i] == Layer(h, p, 0)[i] == Layer(h, q, 0)[i] == BlockDigests(h, q)[i];
  }

  /** From a layer on which the trees agree, walking down finds the collision. */
  lemma {:induction false} WalkDown(h: Hash, p: seq<Byte>, q: seq<Byte>, level: nat) returns (place: Place)
    requires |p| == |q| > 0 && p != q && level <= Top(|p|)
    requires Layer(h, p, level) == Layer(h, q, level)
    ensures InTree(|p|, place) && CollideAt(h, p, q, place)
  {
    hide Layer, Height, InTree, CollideAt;
    if level == 0 {
      place := LeafCollision(h, p, q);
    } else if Layer(h, p, level - 1) == Layer(h, q, level - 1) {
      place := WalkDown(h, p, q, level - 1);
    } else {
      place := LayerCollision(h, p, q, level - 1);
    }
  }

  /** Two files of one size and one root are the same file, or their trees collide at one and the same place. */
  lemma {:induction false} RootBinds(h: Hash, p: seq<Byte>, q: seq<Byte>) returns (place: Place)
    requires |p| == |q| > 0 && p != q && FileRoot(h, p) == FileRoot(h, q)
    ensures InTree(|p|, place) && CollideAt(h, p, q, place)
  {
    hide *;
    LastLayer(h, p, Top(|p|));
    LastLayer(h, q, Top(|q|));
    place := WalkDown(h, p, q, Top(|p|));
  }
}
