/**
 * The crash-resumable download: a fixed-length partial file, a saved completion
 * record, and the published output.
 *
 * For each operation a function lists the disks it passes through, one per write, and
 * the method is proved to pass through exactly those: they are the disks a crash can
 * leave behind. Chunk data is written one byte at a time, so a crash may tear a chunk
 * at any byte. The temporary file that a record is written to before the rename is not
 * part of the disk: nothing ever reads it.
 */
module Resume {
  import opened Prelude
  import opened Content

  const RESUME_VERSION: nat := 0
  const MAX_RESUME_STATE_BYTES: nat := 41_943_040

  datatype Record = Record(version: nat, manifest: Manifest, completed: seq<bool>)

  /** A state file on disk: its size, and what deserialising it yields. */
  datatype StateFile = StateFile(size: nat, decoded: Option<Record>)

  datatype Disk = Disk(part: Option<seq<Byte>>, state: Option<StateFile>, output: Option<seq<Byte>>)

  datatype ResumeError =
    | MalformedManifest
    | IncompleteResumeData
    | StateTooLarge
    | MalformedState
    | StateMismatch
    | WrongFlagCount
    | WrongPartialLength
    | CorruptResumedChunk(index: nat)
    | ChunkRejected
    | ContentMismatch

  // ----- Serialised size of a record (variable-length integers, one byte per flag) -----

  function VarintLength(n: nat): (l: nat) {
    if n < 128 then 1 else 1 + VarintLength(n / 128)
  }

  function EncodedSize(r: Record): nat {
    VarintLength(r.version) + 32 + VarintLength(r.manifest.length) + VarintLength(r.manifest.chunkSize)
    + VarintLength(|r.manifest.chunks|) + 32 * |r.manifest.chunks| + VarintLength(|r.completed|) + |r.completed|
  }

  /** `128^k`: a `k`-byte variable-length integer holds anything below it. */
  function VarintCapacity(k: nat): nat {
    if k == 0 then 1 else 128 * VarintCapacity(k - 1)
  }

  lemma {:induction false} VarintFits(n: nat, k: nat)
    requires 0 < k && n < VarintCapacity(k)
    ensures VarintLength(n) <= k
  {
    if n >= 128 {
      VarintFits(n / 128, k - 1);
    }
  }

  lemma {:induction false} VarintBound(n: nat)
    requires n <= U64_MAX
    ensures VarintLength(n) <= 10
  {
    assert VarintCapacity(2) == 0x4000;
    assert VarintCapacity(4) == 0x4000 * 0x4000;
    assert VarintCapacity(6) == 0x4000 * 0x4000 * 0x4000;
    assert VarintCapacity(8) == 0x4000 * 0x4000 * 0x4000 * 0x4000;
    assert VarintCapacity(10) == 0x4000 * 0x4000 * 0x4000 * 0x4000 * 0x4000;
    VarintFits(n, 10);
  }

  /** The program never writes a state file it would later refuse for its size. */
  lemma {:induction false} SavedStateFits(r: Record)
    requires ValidateShape(r.manifest).Ok? && |r.completed| == |r.manifest.chunks| && r.version == RESUME_VERSION
    ensures EncodedSize(r) <= MAX_RESUME_STATE_BYTES
  {
    VarintBound(r.manifest.length);
    VarintBound(r.manifest.chunkSize);
    VarintBound(|r.manifest.chunks|);
  }

  // ----- Partial-file contents -----

  /** Writing one byte at `pos`, extending the file with zeros if it is shorter. */
  function WriteByte(file: seq<Byte>, pos: nat, b: Byte): (r: seq<Byte>) {
    if pos < |file| then file[pos := b] else file + Zeros(pos - |file|) + [b]
  }

  function WriteAll(file: seq<Byte>, pos: nat, data: seq<Byte>): seq<Byte> {
    if data == [] then file else
      var n := |data| - 1;
      WriteByte(WriteAll(file, pos, data[..n]), pos + n, data[n])
  }

  function Zeros(n: nat): seq<Byte> {
    seq(n, _ => 0)
  }

  /** The manifest that the content itself gives. */
  ghost predicate Built(h: Hash, content: seq<Byte>, m: Manifest) {
    |content| <= MAX_CONTENT_LENGTH && m == FromBytes(h, content).value.0
  }

  /** Other data that passes for chunk `i` of the content. */
  ghost predicate ForgedChunk(h: Hash, content: seq<Byte>, i: nat, data: seq<Byte>) {
    i < CeilDiv(|content|, 32768) && data != Slice(content, i) && h(data) == h(Slice(content, i))
  }

  /** Another file that passes for the content. */
  ghost predicate ForgedFile(h: Hash, content: seq<Byte>, file: seq<Byte>) {
    file != content && h(file) == h(content)
  }

  /** A partial file with such data in a chunk that the record beside it claims. */
  ghost predicate ForgedDisk(h: Hash, content: seq<Byte>, m: Manifest, d: Disk) {
    && d.part.Some? && |d.part.value| == |content| && d.state.Some? && d.state.value.decoded.Some?
    && var r := d.state.value.decoded.value;
       && r.version == RESUME_VERSION && r.manifest == m && |r.completed| == CeilDiv(|content|, 32768)
       && exists i | 0 <= i < |r.completed| && r.completed[i] :: ForgedChunk(h, content, i, Slice(d.part.value, i))
  }

  /** The file has the content's length and agrees with it on every chunk marked complete. */
  ghost predicate Agrees(content: seq<Byte>, file: seq<Byte>, completed: seq<bool>) {
    && |file| == |content|
    && |completed| == CeilDiv(|content|, 32768)
    && forall i | 0 <= i < |completed| && completed[i] :: Slice(file, i) == Slice(content, i)
  }

  /** A saved record for this manifest never claims a chunk the partial file does not hold. */
  ghost predicate DiskOk(content: seq<Byte>, m: Manifest, d: Disk) {
    d.part.Some? && d.state.Some? && d.state.value.decoded.Some? ==>
      var r := d.state.value.decoded.value;
      r.version == RESUME_VERSION && r.manifest == m ==> Agrees(content, d.part.value, r.completed)
  }

  /** The disks `open` works on: nothing there yet, or a matching record all of whose chunks verify. */
  ghost predicate Openable(h: Hash, m: Manifest, d: Disk) {
    && ValidateShape(m).Ok?
    && d.part.Some? == d.state.Some?
    && (d.state.Some? ==>
          && d.state.value.size <= MAX_RESUME_STATE_BYTES
          && d.state.value.decoded.Some?
          && var r := d.state.value.decoded.value;
             && r.version == RESUME_VERSION && r.manifest == m
             && |r.completed| == |m.chunks| && |d.part.value| == m.length
             && forall i | 0 <= i < |r.completed| && r.completed[i] :: h(Slice(d.part.value, i)) == m.chunks[i])
  }

  /** A record for this manifest that claims only what the partial file holds, and that is small enough to read back. */
  ghost predicate Kept(content: seq<Byte>, m: Manifest, d: Disk) {
    d.part.Some? && d.state.Some? ==>
      && d.state.value.size <= MAX_RESUME_STATE_BYTES && d.state.value.decoded.Some?
      && var r := d.state.value.decoded.value;
         r.version == RESUME_VERSION && r.manifest == m && Agrees(content, d.part.value, r.completed)
  }

  /** Such a disk opens exactly when it holds both files or neither. */
  lemma {:induction false} KeptOpens(h: Hash, content: seq<Byte>, m: Manifest, d: Disk)
    requires Built(h, content, m) && Kept(content, m, d)
    ensures Openable(h, m, d) <==> d.part.Some? == d.state.Some?
  {
    FromBytesReconstructs(h, content);
  }

  /** And a disk that opens is such a disk, unless it holds other data under the digest of a chunk. */
  lemma {:induction false} OpenableIsKept(h: Hash, content: seq<Byte>, m: Manifest, d: Disk)
    requires Built(h, content, m) && Openable(h, m, d) && !ForgedDisk(h, content, m, d)
    ensures Kept(content, m, d)
  {
    if d.state.Some? {
      VerifiedRecordAgrees(h, content, m, d);
    }
  }

  /** Every chunk complete means every byte is in place. */
  lemma {:induction false} AllCompleteIsContent(content: seq<Byte>, file: seq<Byte>, completed: seq<bool>)
    requires Agrees(content, file, completed)
    requires forall i | 0 <= i < |completed| :: completed[i]
    ensures file == content
  {
    forall k | 0 <= k < |content| ensures file[k] == content[k] {
      var i := k / 32768;
      assert i < |completed|;
      assert Slice(file, i)[k - 32768 * i] == Slice(content, i)[k - 32768 * i];
    }
  }

  /** Data that passes verification against the content's manifest is the content's own chunk, unless forged. */
  lemma {:induction false} VerifiedIsGenuine(h: Hash, content: seq<Byte>, m: Manifest, c: Chunk)
    requires Built(h, content, m) && VerifyChunk(h, m, c).Ok? && !ForgedChunk(h, content, c.index, c.data)
    ensures c.index < CeilDiv(|content|, 32768) && c.data == Slice(content, c.index)
  {
  }

  lemma {:induction false} VerifiedRecordAgrees(h: Hash, content: seq<Byte>, m: Manifest, d: Disk)
    requires Built(h, content, m) && Openable(h, m, d) && d.state.Some? && !ForgedDisk(h, content, m, d)
    ensures Agrees(content, d.part.value, d.state.value.decoded.value.completed)
  {
    var completed := d.state.value.decoded.value.completed;
    forall i | 0 <= i < |completed| && completed[i] ensures Slice(d.part.value, i) == Slice(content, i) {
      assert !ForgedChunk(h, content, i, Slice(d.part.value, i));
    }
  }

  /** After `k` bytes of chunk `i` have been written over `file`. */
  ghost predicate Torn(content: seq<Byte>, file: seq<Byte>, i: nat, k: nat, file': seq<Byte>)
    requires i < CeilDiv(|content|, 32768) && |file| == |content|
  {
    && |file'| == |file|
    && forall p | 0 <= p < |file| :: file'[p] == if 32768 * i <= p < 32768 * i + k then content[p] else file[p]
  }

  lemma {:induction false} WriteAllTorn(content: seq<Byte>, file: seq<Byte>, i: nat, k: nat)
    requires i < CeilDiv(|content|, 32768) && |file| == |content| && k <= |Slice(content, i)|
    ensures Torn(content, file, i, k, WriteAll(file, 32768 * i, Slice(content, i)[..k]))
  {
    if k > 0 {
      WriteAllTorn(content, file, i, k - 1);
      assert Slice(content, i)[..k][..k - 1] == Slice(content, i)[..k - 1];
    }
  }

  /** A torn write of a genuine chunk never disturbs a completed one. */
  lemma {:induction false} TornAgrees(
    content: seq<Byte>, file: seq<Byte>, completed: seq<bool>, i: nat, k: nat, file': seq<Byte>)
    requires Agrees(content, file, completed) && i < |completed| && k <= |Slice(content, i)|
    requires Torn(content, file, i, k, file')
    ensures Agrees(content, file', completed)
    ensures k == |Slice(content, i)| ==> Agrees(content, file', completed[i := true])
  {
    forall j | 0 <= j < |completed| && (completed[j] || (j == i && k == |Slice(content, i)|))
      ensures Slice(file', j) == Slice(content, j)
    {
      forall p | 32768 * j <= p < 32768 * j + |Slice(content, j)| ensures file'[p] == content[p] {
        if completed[j] {
          assert Slice(file, j)[p - 32768 * j] == Slice(content, j)[p - 32768 * j];
        }
      }
    }
  }

  lemma {:induction false} NoneDone(completed: seq<bool>)
    requires forall i | 0 <= i < |completed| :: !completed[i]
    ensures CountTrue(completed) == 0
  {
    if completed != [] {
      NoneDone(completed[..|completed| - 1]);
    }
  }

  /** With every chunk complete, the final check passes and what is published is the content. */
  lemma {:induction false} CompletePublishes(
    h: Hash, content: seq<Byte>, m: Manifest, file: seq<Byte>, completed: seq<bool>)
    requires Built(h, content, m) && Agrees(content, file, completed)
    requires forall i | 0 <= i < |completed| :: completed[i]
    ensures file == content && |file| == m.length && h(file) == m.contentId
  {
    AllCompleteIsContent(content, file, completed);
  }

  // ----- The disks each operation passes through -----

  function SavedFile(r: Record): StateFile {
    StateFile(EncodedSize(r), Some(r))
  }

  function FreshRecord(m: Manifest): Record {
    Record(RESUME_VERSION, m, seq(|m.chunks|, _ => false))
  }

  function Marked(r: Record, i: nat): Record
    requires i < |r.completed|
  {
    r.(completed := r.completed[i := true])
  }

  /** Where the rename cannot replace a file, the old state file is removed first. */
  function SavePoints(d: Disk, r: Record, atomicRename: bool): seq<Disk> {
    (if !atomicRename && d.state.Some? then [d.(state := None)] else []) + [d.(state := Some(SavedFile(r)))]
  }

  /** The partial file is created empty, then given its length, and only then a record is saved. */
  function CreatePoints(d: Disk, m: Manifest, atomicRename: bool): seq<Disk> {
    var sized := d.(part := Some(Zeros(m.length)));
    [d.(part := Some([])), sized] + SavePoints(sized, FreshRecord(m), atomicRename)
  }

  /** One disk per byte of data. */
  function WritePoints(d: Disk, offset: nat, data: seq<Byte>): seq<Disk>
    requires d.part.Some?
  {
    seq(|data|, k requires 0 <= k < |data| => Written(d, offset, data[..k + 1]))
  }

  function Written(d: Disk, offset: nat, data: seq<Byte>): Disk
    requires d.part.Some?
  {
    d.(part := Some(WriteAll(d.part.value, offset, data)))
  }

  /** The data first, then the record that claims it. */
  function ChunkPoints(d: Disk, r: Record, m: Manifest, c: Chunk, atomicRename: bool): seq<Disk>
    requires d.part.Some? && c.index < |r.completed|
  {
    var offset := c.index * m.chunkSize;
    WritePoints(d, offset, c.data) + SavePoints(Written(d, offset, c.data), Marked(r, c.index), atomicRename)
  }

  /** The partial file becomes the output, over an older output if there is one, and then the record goes. */
  function PublishPoints(d: Disk, atomicRename: bool): seq<Disk> {
    (if !atomicRename && d.output.Some? then [d.(output := None)] else [])
    + [Disk(None, d.state, d.part), Disk(None, None, d.part)]
  }

  /** What the final check asks of the partial file. */
  predicate Passes(h: Hash, file: seq<Byte>, length: nat, contentId: Digest) {
    |file| == length && h(file) == contentId
  }

  // ----- The program -----

  class ResumeDownload {
    var part: Option<seq<Byte>>
    var state: Option<StateFile>
    var output: Option<seq<Byte>>
    /** The in-memory record; meaningful while a download is open. */
    var record: Record
    /** Every disk this process has left, oldest first. */
    var points: seq<Disk>

    function OnDisk(): Disk
      reads this
    {
      Disk(part, state, output)
    }

    /** A process starting on an existing disk, before it has looked at anything. */
    constructor (d: Disk, m: Manifest)
      ensures OnDisk() == d && points == []
    {
      part, state, output := d.part, d.state, d.output;
      record := Record(RESUME_VERSION, m, []);
      points := [];
    }

    method PutPart(file: seq<Byte>)
      modifies `part, `points
      ensures part == Some(file) && points == old(points) + [OnDisk()]
    {
      part := Some(file);
      points := points + [OnDisk()];
    }

    /** Writes the record beside the state file and renames it over; some platforms remove the old file first. */
    method SaveState(atomicRename: bool)
      modifies `state, `points
      ensures state == Some(SavedFile(record))
      ensures points == old(points) + SavePoints(old(OnDisk()), record, atomicRename)
    {
      if !atomicRename && state.Some? {
        state := None;
        points := points + [OnDisk()];
      }
      state := Some(SavedFile(record));
      points := points + [OnDisk()];
    }

    method ValidateResumedChunks(h: Hash, m: Manifest, completed: seq<bool>) returns (r: Result<(), ResumeError>)
      requires part.Some? && |part.value| == m.length && ValidateShape(m).Ok? && |completed| == |m.chunks|
      ensures r.Ok? <==> forall i | 0 <= i < |completed| && completed[i] :: h(Slice(part.value, i)) == m.chunks[i]
    {
      for index := 0 to |completed|
        invariant forall i | 0 <= i < index && completed[i] :: h(Slice(part.value, i)) == m.chunks[i]
      {
        if completed[index] {
          ExpectedLength(m, index);
          var length := ExpectedChunkLength(m, index).value;
          var offset := 32768 * index;
          var chunk := Chunk(index, m.chunks[index], part.value[offset..offset + length]);
          assert chunk.data == Slice(part.value, index);
          if VerifyChunk(h, m, chunk).Err? {
            return Err(CorruptResumedChunk(index));
          }
        }
      }
      r := Ok(());
    }

    /** Opens on any disk: either refuses and touches nothing, or holds a record whose completed chunks all verify. */
    method Open(h: Hash, m: Manifest, atomicRename: bool) returns (r: Result<nat, ResumeError>)
      modifies this
      ensures r.Ok? <==> Openable(h, m, old(OnDisk()))
      ensures r.Ok? ==> r.value == CountTrue(record.completed)
      ensures r.Err? || old(state).Some? ==> OnDisk() == old(OnDisk()) && points == old(points)
      ensures r.Ok? && old(state).Some? ==> old(state).value.decoded == Some(record)
      ensures r.Ok? && old(state).None? ==>
                && record == FreshRecord(m) && part == Some(Zeros(m.length)) && state == Some(SavedFile(record))
                && output == old(output) && points == old(points) + CreatePoints(old(OnDisk()), m, atomicRename)
    {
      if ValidateShape(m).Err? {
        return Err(MalformedManifest);
      }
      if state.Some? != part.Some? {
        return Err(IncompleteResumeData);
      }
      if state.Some? {
        if state.value.size > MAX_RESUME_STATE_BYTES {
          return Err(StateTooLarge);
        }
        if state.value.decoded.None? {
          return Err(MalformedState);
        }
        var saved := state.value.decoded.value;
        if saved.version != RESUME_VERSION || saved.manifest != m {
          return Err(StateMismatch);
        }
        if |saved.completed| != |m.chunks| {
          return Err(WrongFlagCount);
        }
        if |part.value| != m.length {
          return Err(WrongPartialLength);
        }
        var valid := ValidateResumedChunks(h, m, saved.completed);
        if valid.Err? {
          return Err(valid.error);
        }
        record := saved;
        var resumed := CountDone(saved.completed);
        r := Ok(resumed);
      } else {
        CreateFresh(m, atomicRename);
        NoneDone(record.completed);
        r := Ok(0);
      }
    }

    /** Creates an empty partial file, gives it its length, and only then saves a record claiming nothing. */
    method CreateFresh(m: Manifest, atomicRename: bool)
      requires part.None? && state.None?
      modifies this
      ensures record == FreshRecord(m) && part == Some(Zeros(m.length)) && state == Some(SavedFile(record))
      ensures output == old(output) && points == old(points) + CreatePoints(old(OnDisk()), m, atomicRename)
    {
      PutPart([]);
      PutPart(Zeros(m.length));
      record := FreshRecord(m);
      SaveState(atomicRename);
    }

    /** Writes chunk data byte by byte. */
    method WriteData(offset: nat, data: seq<Byte>)
      requires part.Some?
      modifies `part, `points
      ensures part == Some(WriteAll(old(part.value), offset, data))
      ensures points == old(points) + WritePoints(old(OnDisk()), offset, data)
    {
      for k := 0 to |data|
        invariant part == Some(WriteAll(old(part.value), offset, data[..k]))
        invariant points == old(points) + WritePoints(old(OnDisk()), offset, data)[..k]
      {
        assert data[..k + 1][..k] == data[..k];
        PutPart(WriteByte(part.value, offset + k, data[k]));
      }
      assert data[..|data|] == data;
    }

    /** Re-verifies, writes the data in place, then marks the chunk and saves the record, in that order. */
    method WriteVerifiedChunk(
      h: Hash, m: Manifest, chunk: Chunk, atomicRename: bool) returns (r: Result<(), ResumeError>)
      requires part.Some? && |record.completed| == |m.chunks|
      modifies this
      ensures r.Ok? <==> VerifyChunk(h, m, chunk).Ok?
      ensures r.Err? ==> OnDisk() == old(OnDisk()) && points == old(points) && record == old(record)
      ensures r.Ok? ==>
                && record == Marked(old(record), chunk.index)
                && state == Some(SavedFile(record)) && output == old(output)
                && part == Some(WriteAll(old(part.value), chunk.index * m.chunkSize, chunk.data))
                && points == old(points) + ChunkPoints(old(OnDisk()), old(record), m, chunk, atomicRename)
    {
      if VerifyChunk(h, m, chunk).Err? {
        return Err(ChunkRejected);
      }
      WriteData(chunk.index * m.chunkSize, chunk.data);
      record := Marked(record, chunk.index);
      SaveState(atomicRename);
      r := Ok(());
    }

    /** Publishes the partial file only if its length and digest are the requested ones. */
    method Finish(h: Hash, contentId: Digest, atomicRename: bool) returns (r: Result<(), ResumeError>)
      requires part.Some?
      modifies `part, `state, `output, `points
      ensures r.Ok? <==> Passes(h, old(part.value), record.manifest.length, contentId)
      ensures r.Ok? ==> OnDisk() == Disk(None, None, old(part))
      ensures r.Ok? ==> points == old(points) + PublishPoints(old(OnDisk()), atomicRename)
      ensures r.Err? ==> OnDisk() == old(OnDisk()) && points == old(points)
    {
      var total: seq<Byte> := [];
      while |total| < |part.value|
        invariant |total| <= |part.value| && total == part.value[..|total|]
      {
        var read := Min(32768, |part.value| - |total|);
        total := total + part.value[|total|..|total| + read];
      }
      assert total == part.value;
      if |total| != record.manifest.length || h(total) != contentId {
        return Err(ContentMismatch);
      }
      if !atomicRename && output.Some? {
        output := None;
        points := points + [OnDisk()];
      }
      part, output := None, part;
      points := points + [OnDisk()];
      state := None;
      points := points + [OnDisk()];
      r := Ok(());
    }

    method CountDone(completed: seq<bool>) returns (n: nat)
      ensures n == CountTrue(completed)
    {
      n := 0;
      for i := 0 to |completed|
        invariant n == CountTrue(completed[..i])
      {
        assert completed[..i + 1][..i] == completed[..i];
        if completed[i] {
          n := n + 1;
        }
      }
      assert completed[..|completed|] == completed;
    }
  }
}
