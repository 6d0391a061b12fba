/**
 * Content manifests: fixed-size chunking, digest verification, reconstruction and
 * verified-progress accounting. The digest function is a parameter of every
 * operation that hashes.
 */
module Content {
  import opened Prelude

  type Digest = d: seq<Byte> | |d| == 32 witness seq(32, _ => 0)

  type Hash = seq<Byte> -> Digest

  const CHUNK_SIZE: nat := 32768
  const MAX_MANIFEST_CHUNKS: nat := 1_048_576
  const MAX_CONTENT_LENGTH: nat := 34_359_738_368

  datatype Manifest = Manifest(contentId: Digest, length: nat, chunkSize: nat, chunks: seq<Digest>)

  datatype Chunk = Chunk(index: nat, id: Digest, data: seq<Byte>)

  datatype ContentError =
    | InvalidIndex(index: nat)
    | InvalidChunk(index: nat)
    | WrongChunkCount(expected: nat, actual: nat)
    | InvalidContent
    | InvalidChunkSize
    | InvalidManifestShape
    | ContentTooLarge

  // ----- Building and checking manifests -----

  /** The `i`-th block of `bytes.chunks(CHUNK_SIZE)`. */
  function Slice(bytes: seq<Byte>, i: nat): seq<Byte>
    requires i < CeilDiv(|bytes|, 32768)
  {
    bytes[32768 * i..Min(32768 * i + 32768, |bytes|)]
  }

  function Slices(h: Hash, bytes: seq<Byte>): seq<Chunk> {
    seq(CeilDiv(|bytes|, 32768), i requires 0 <= i < CeilDiv(|bytes|, 32768) =>
      Chunk(i, h(Slice(bytes, i)), Slice(bytes, i)))
  }

  function Ids(chunks: seq<Chunk>): seq<Digest> {
    seq(|chunks|, i requires 0 <= i < |chunks| => chunks[i].id)
  }

  function FromBytes(h: Hash, bytes: seq<Byte>): Result<(Manifest, seq<Chunk>), ContentError> {
    if |bytes| > MAX_CONTENT_LENGTH then Err(ContentTooLarge) else
      var chunks := Slices(h, bytes);
      Ok((Manifest(h(bytes), |bytes|, CHUNK_SIZE, Ids(chunks)), chunks))
  }

  function ValidateShape(m: Manifest): Result<(), ContentError> {
    if m.chunkSize != CHUNK_SIZE then Err(InvalidChunkSize)
    else if m.length > MAX_CONTENT_LENGTH || |m.chunks| > MAX_MANIFEST_CHUNKS then Err(ContentTooLarge)
    else if CeilDiv(m.length, m.chunkSize) != |m.chunks| then Err(InvalidManifestShape)
    else Ok(())
  }

  /** At most 32 GiB, cut into blocks of 32 KiB of which only the last may be shorter. */
  predicate WellShaped(m: Manifest) {
    && m.chunkSize == 32_768 && m.length <= 34_359_738_368
    && m.length <= 32_768 * |m.chunks| && (m.chunks != [] ==> 32_768 * (|m.chunks| - 1) < m.length)
  }

  lemma {:induction false} ShapeExactly(m: Manifest)
    ensures ValidateShape(m).Ok? <==> WellShaped(m)
  {
  }

  /** Index in range, claimed digest and computed digest both as listed; the length is not looked at. */
  function VerifyChunk(h: Hash, m: Manifest, c: Chunk): Result<(), ContentError> {
    if c.index >= |m.chunks| then Err(InvalidIndex(c.index))
    else if c.id != m.chunks[c.index] || h(c.data) != m.chunks[c.index] then Err(InvalidChunk(c.index))
    else Ok(())
  }

  function Concat(chunks: seq<Chunk>): seq<Byte> {
    if chunks == [] then [] else Concat(chunks[..|chunks| - 1]) + chunks[|chunks| - 1].data
  }

  ghost predicate InOrderAndVerified(h: Hash, m: Manifest, chunks: seq<Chunk>) {
    forall i | 0 <= i < |chunks| :: chunks[i].index == i && VerifyChunk(h, m, chunks[i]).Ok?
  }

  /** Checks order, digests, total length and whole-content digest before handing back any bytes. */
  method Reconstruct(h: Hash, m: Manifest, chunks: seq<Chunk>) returns (r: Result<seq<Byte>, ContentError>)
    ensures r.Ok? <==>
            && |chunks| == |m.chunks|
            && InOrderAndVerified(h, m, chunks)
            && |Concat(chunks)| == m.length
            && h(Concat(chunks)) == m.contentId
    ensures r.Ok? ==> r.value == Concat(chunks)
  {
    if |chunks| != |m.chunks| {
      return Err(WrongChunkCount(|m.chunks|, |chunks|));
    }
    var bytes: seq<Byte> := [];
    for i := 0 to |chunks|
      invariant InOrderAndVerified(h, m, chunks[..i])
      invariant bytes == Concat(chunks[..i])
    {
      assert chunks[..i + 1][..i] == chunks[..i];
      if chunks[i].index != i {
        return Err(InvalidIndex(chunks[i].index));
      }
      var verified := VerifyChunk(h, m, chunks[i]);
      if verified.Err? {
        return Err(verified.error);
      }
      bytes := bytes + chunks[i].data;
    }
    assert chunks[..|chunks|] == chunks;
    if |bytes| != m.length || h(bytes) != m.contentId {
      return Err(InvalidContent);
    }
    r := Ok(bytes);
  }

  // ----- Chunking loses nothing -----

  /** The first `k` blocks are the first `k * CHUNK_SIZE` bytes. */
  lemma {:induction false} SlicesConcat(h: Hash, bytes: seq<Byte>, k: nat)
    requires k <= CeilDiv(|bytes|, 32768)
    ensures Concat(Slices(h, bytes)[..k]) == bytes[..Min(32768 * k, |bytes|)]
  {
    if k > 0 {
      SlicesConcat(h, bytes, k - 1);
      assert Slices(h, bytes)[..k][..k - 1] == Slices(h, bytes)[..k - 1];
      assert bytes[..32768 * (k - 1)] + Slice(bytes, k - 1) == bytes[..Min(32768 * k, |bytes|)];
    }
  }

  /** Every accepted file yields a well-shaped manifest whose own chunks pass every check and rebuild the file. */
  lemma {:induction false} FromBytesReconstructs(h: Hash, bytes: seq<Byte>)
    ensures FromBytes(h, bytes).Ok? <==> |bytes| <= MAX_CONTENT_LENGTH
    ensures FromBytes(h, bytes).Ok? ==>
              var (m, chunks) := FromBytes(h, bytes).value;
              && ValidateShape(m).Ok?
              && |chunks| == |m.chunks| && InOrderAndVerified(h, m, chunks)
              && Concat(chunks) == bytes
              && |Concat(chunks)| == m.length && h(Concat(chunks)) == m.contentId
  {
    if |bytes| <= MAX_CONTENT_LENGTH {
      var n := CeilDiv(|bytes|, 32768);
      SlicesConcat(h, bytes, n);
      assert Slices(h, bytes)[..n] == Slices(h, bytes);
      assert bytes[..|bytes|] == bytes;
    }
  }

  // ----- Expected lengths and progress -----

  function ExpectedChunkLength(m: Manifest, index: nat): Result<nat, ContentError> {
    if index >= |m.chunks| then Err(InvalidIndex(index))
    else if index * m.chunkSize > m.length then Err(InvalidManifestShape)
    else Ok(Min(m.length - index * m.chunkSize, m.chunkSize))
  }

  /** Verified bytes of the first `k` chunks. */
  ghost function DoneBytes(m: Manifest, completed: seq<bool>, k: nat): nat
    requires ValidateShape(m).Ok? && k <= |completed| == |m.chunks|
  {
    if k == 0 then 0 else
      ExpectedLength(m, k - 1);
      DoneBytes(m, completed, k - 1) + if completed[k - 1] then ExpectedChunkLength(m, k - 1).value else 0
  }

  ghost function CountTrue(flags: seq<bool>): nat {
    if flags == [] then 0 else CountTrue(flags[..|flags| - 1]) + if flags[|flags| - 1] then 1 else 0
  }

  lemma {:induction false} ExpectedLength(m: Manifest, i: nat)
    requires ValidateShape(m).Ok? && i < |m.chunks|
    ensures ExpectedChunkLength(m, i).Ok?
    ensures 0 < ExpectedChunkLength(m, i).value <= 32768
    ensures 32768 * i + ExpectedChunkLength(m, i).value == Min(32768 * i + 32768, m.length)
  {
  }

  /** Done bytes never pass the covered prefix, and reach it only when every chunk of it is done. */
  lemma {:induction false} DoneBytesBound(m: Manifest, completed: seq<bool>, k: nat)
    requires ValidateShape(m).Ok? && k <= |completed| == |m.chunks|
    ensures DoneBytes(m, completed, k) <= Min(32768 * k, m.length)
    ensures DoneBytes(m, completed, k) == Min(32768 * k, m.length) <==> forall i | 0 <= i < k :: completed[i]
  {
    if k > 0 {
      DoneBytesBound(m, completed, k - 1);
      ExpectedLength(m, k - 1);
    }
  }

  datatype Progress = Progress(bytesTotal: nat, verifiedBytes: nat, totalChunks: nat, verifiedChunks: nat)

  /** The progress report of a well-shaped transfer: never over the total, and equal to it exactly at the end. */
  method ReportVerifiedProgress(m: Manifest, completed: seq<bool>) returns (r: Result<Progress, ContentError>)
    ensures r.Ok? ==> r.value.bytesTotal == m.length && r.value.totalChunks == |m.chunks|
    ensures r.Ok? ==> r.value.verifiedChunks == CountTrue(completed)
    ensures ValidateShape(m).Ok? && |completed| == |m.chunks| ==>
              && r.Ok?
              && r.value.verifiedBytes == DoneBytes(m, completed, |completed|) <= m.length
              && (r.value.verifiedBytes == m.length <==> forall i | 0 <= i < |completed| :: completed[i])
  {
    ghost var shaped := ValidateShape(m).Ok? && |completed| == |m.chunks|;
    var verifiedBytes, verifiedChunks := 0, 0;
    for i := 0 to |completed|
      invariant shaped ==> verifiedBytes == DoneBytes(m, completed, i)
      invariant verifiedChunks == CountTrue(completed[..i])
    {
      assert completed[..i + 1][..i] == completed[..i];
      if shaped {
        DoneBytesBound(m, completed, i + 1);
        ExpectedLength(m, i);
      }
      if completed[i] {
        verifiedChunks := verifiedChunks + 1;
        var length := ExpectedChunkLength(m, i);
        if length.Err? {
          return Err(length.error);
        }
        verifiedBytes := SaturatingAdd(verifiedBytes, length.value);
      }
    }
    assert completed[..|completed|] == completed;
    if shaped {
      DoneBytesBound(m, completed, |completed|);
    }
    r := Ok(Progress(m.length, verifiedBytes, |m.chunks|, verifiedChunks));
  }
}
