/**
 * Whole histories of a crash-resumable download: any openings, deliveries and publications, and a
 * crash at any disk that any of them passes through.
 */
module ResumeHistory {
  import opened Prelude
  import opened Content
  import opened Resume

  /** A disk and, while a download is open on it, the record in memory. */
  datatype Process = Process(disk: Disk, record: Option<Record>)

  datatype Action = OpenAction | Deliver(chunk: Chunk) | Publish

  /** One thing a process does; `crashAt` = Some(k) loses the process after the first `k` writes of that action. */
  datatype Event = Event(action: Action, atomicRename: bool, crashAt: Option<nat>)

  /** While a download is open, both files are there and the saved record is the one in memory. */
  ghost predicate Tracking(m: Manifest, p: Process) {
    p.record.Some? ==>
      && p.disk.part.Some? && p.disk.state.Some? && p.disk.state.value.decoded == p.record
      && p.record.value.version == RESUME_VERSION && p.record.value.manifest == m
      && |p.record.value.completed| == |m.chunks|
  }

  /** The disks an action passes through, if it gets that far. */
  ghost function Points(h: Hash, m: Manifest, p: Process, e: Event): seq<Disk>
    requires Tracking(m, p)
  {
    match e.action
    case OpenAction =>
      if p.record.None? && Openable(h, m, p.disk) && p.disk.state.None? then
        CreatePoints(p.disk, m, e.atomicRename)
      else []
    case Deliver(c) =>
      if p.record.Some? && VerifyChunk(h, m, c).Ok? then
        ChunkPoints(p.disk, p.record.value, m, c, e.atomicRename)
      else []
    case Publish =>
      if p.record.Some? && Passes(h, p.disk.part.value, m.length, m.contentId) then
        PublishPoints(p.disk, e.atomicRename)
      else []
  }

  function Last(d: Disk, points: seq<Disk>): Disk {
    if points == [] then d else points[|points| - 1]
  }

  /** What an action leaves when the process lives on. Publishing ends the download either way. */
  ghost function Done(h: Hash, m: Manifest, p: Process, e: Event): (q: Process)
    requires Tracking(m, p)
    ensures Tracking(m, q)
  {
    var left := Last(p.disk, Points(h, m, p, e));
    match e.action
    case OpenAction =>
      if p.record.None? && Openable(h, m, p.disk) then
        Process(left, if p.disk.state.None? then Some(FreshRecord(m)) else p.disk.state.value.decoded)
      else p
    case Deliver(c) =>
      if p.record.Some? && VerifyChunk(h, m, c).Ok? then Process(left, Some(Marked(p.record.value, c.index))) else p
    case Publish => Process(left, None)
  }

  ghost function Next(h: Hash, m: Manifest, p: Process, e: Event): (q: Process)
    requires Tracking(m, p)
    ensures Tracking(m, q)
  {
    if e.crashAt.None? then Done(h, m, p, e)
    else
      var disks := [p.disk] + Points(h, m, p, e);
      Process(disks[Min(e.crashAt.value, |disks| - 1)], None)
  }

  ghost predicate StepAt(h: Hash, m: Manifest, history: seq<Process>, events: seq<Event>, i: nat)
    requires |history| == |events| + 1 && i < |events| && Tracking(m, history[i])
  {
    history[i + 1] == Next(h, m, history[i], events[i])
  }

  ghost predicate IsHistory(h: Hash, m: Manifest, history: seq<Process>, events: seq<Event>) {
    && |history| == |events| + 1 && history[0].record.None?
    && (forall i | 0 <= i < |history| :: Tracking(m, history[i]))
    && forall i | 0 <= i < |events| :: StepAt(h, m, history, events, i)
  }

  lemma {:induction false} Extended(h: Hash, m: Manifest, history: seq<Process>, events: seq<Event>, e: Event)
    requires IsHistory(h, m, history, events)
    ensures IsHistory(h, m, history + [Next(h, m, history[|events|], e)], events + [e])
  {
    var q := Next(h, m, history[|events|], e);
    hide Next, Tracking;
    forall i | 0 <= i <= |events| ensures StepAt(h, m, history + [q], events + [e], i) {
      assert i < |events| ==> StepAt(h, m, history, events, i);
    }
  }

  // ----- The program does exactly that -----

  method Play(h: Hash, m: Manifest, start: Disk, events: seq<Event>) returns (history: seq<Process>)
    ensures IsHistory(h, m, history, events) && history[0].disk == start
  {
    hide Next, StepAt;
    var process := new ResumeDownload(start, m);
    history := [Process(start, None)];
    for n := 0 to |events|
      invariant fresh(process)
      invariant IsHistory(h, m, history, events[..n]) && history[0].disk == start
      invariant history[n].disk == process.OnDisk()
      invariant history[n].record.Some? ==> history[n].record.value == process.record
    {
      var next := Act(process, h, m, events[n], history[n]);
      if events[n].crashAt.Some? {
        process := new ResumeDownload(next.disk, m);
      }
      assert events[..n] + [events[n]] == events[..n + 1];
      Extended(h, m, history, events[..n], events[n]);
      history := history + [next];
    }
    assert events[..|events|] == events;
  }

  /** Carries out one event, and hands back what is left of it. */
  method Act(process: ResumeDownload, h: Hash, m: Manifest, e: Event, p: Process) returns (q: Process)
    requires Tracking(m, p) && process.OnDisk() == p.disk && (p.record.Some? ==> process.record == p.record.value)
    modifies process
    ensures q == Next(h, m, p, e)
    ensures e.crashAt.Some? ==> q.record.None?
    ensures e.crashAt.None? ==> process.OnDisk() == q.disk && (q.record.Some? ==> process.record == q.record.value)
  {
    var before := process.points;
    var open := p.record.Some?;
    match e.action {
      case OpenAction =>
        if !open {
          var r := process.Open(h, m, e.atomicRename);
          open := r.Ok?;
        }
      case Deliver(chunk) =>
        if open {
          var r := process.WriteVerifiedChunk(h, m, chunk, e.atomicRename);
        }
      case Publish =>
        if open {
          var r := process.Finish(h, m.contentId, e.atomicRename);
          open := false;
        }
    }
    assert process.points == before + Points(h, m, p, e);
    if e.crashAt.Some? {
      var disks := [p.disk] + process.points[|before|..];
      q := Process(disks[Min(e.crashAt.value, |disks| - 1)], None);
    } else {
      q := Process(process.OnDisk(), if open then Some(process.record) else None);
    }
  }

  // ----- What every disk of a history holds -----

  /** What a crash may leave: a truthful record, and the earlier output, none, or the content. */
  ghost predicate SafeDisk(content: seq<Byte>, m: Manifest, start: Disk, d: Disk) {
    DiskOk(content, m, d) && OutputOk(content, start, d)
  }

  ghost predicate OutputOk(content: seq<Byte>, start: Disk, d: Disk) {
    d.output == start.output || d.output.None? || d.output.value == content
  }

  /** The action accepts other data for a chunk or for the whole content. */
  ghost predicate ForgedBy(h: Hash, content: seq<Byte>, m: Manifest, p: Process, e: Event)
    requires Tracking(m, p)
  {
    && p.record.Some?
    && match e.action
       case OpenAction => false
       case Deliver(c) => VerifyChunk(h, m, c).Ok? && ForgedChunk(h, content, c.index, c.data)
       case Publish => Passes(h, p.disk.part.value, m.length, m.contentId) && ForgedFile(h, content, p.disk.part.value)
  }

  /** One of the first `n` events does so. */
  ghost predicate ForgedIn(h: Hash, content: seq<Byte>, m: Manifest, history: seq<Process>, events: seq<Event>, n: nat)
    requires IsHistory(h, m, history, events) && n <= |events|
  {
    exists i | 0 <= i < n :: ForgedBy(h, content, m, history[i], events[i])
  }

  /** Data other than the content's met one of the content's digests: on the first disk, or in the first `n` events. */
  ghost predicate Forged(h: Hash, content: seq<Byte>, m: Manifest, history: seq<Process>, events: seq<Event>, n: nat)
    requires IsHistory(h, m, history, events) && n <= |events|
  {
    ForgedDisk(h, content, m, history[0].disk) || ForgedIn(h, content, m, history, events, n)
  }

  lemma {:induction false} CreateKept(h: Hash, content: seq<Byte>, m: Manifest, d: Disk, atomicRename: bool)
    requires Built(h, content, m) && d.part.None? && d.state.None?
    ensures forall c <- CreatePoints(d, m, atomicRename) :: Kept(content, m, c) && c.output == d.output
  {
    FromBytesReconstructs(h, content);
    SavedStateFits(FreshRecord(m));
  }

  lemma {:induction false} SaveKept(content: seq<Byte>, m: Manifest, d: Disk, r: Record, atomicRename: bool)
    requires ValidateShape(m).Ok? && r.version == RESUME_VERSION && r.manifest == m && |r.completed| == |m.chunks|
    requires d.part.Some? && Agrees(content, d.part.value, r.completed)
    ensures forall c <- SavePoints(d, r, atomicRename) :: Kept(content, m, c) && c.output == d.output
  {
    hide EncodedSize;
    SavedStateFits(r);
  }

  lemma {:induction false} ChunkKept(h: Hash, content: seq<Byte>, m: Manifest, p: Process, c: Chunk, atomicRename: bool)
    requires Built(h, content, m) && Tracking(m, p) && Kept(content, m, p.disk)
    requires p.record.Some? && VerifyChunk(h, m, c).Ok? && !ForgedChunk(h, content, c.index, c.data)
    ensures forall d <- ChunkPoints(p.disk, p.record.value, m, c, atomicRename) ::
              Kept(content, m, d) && d.output == p.disk.output
  {
    var d, r := p.disk, p.record.value;
    assert ValidateShape(m).Ok? && m.chunkSize == 32768 && |r.completed| == |m.chunks| by {
      FromBytesReconstructs(h, content);
    }
    VerifiedIsGenuine(h, content, m, c);
    WritesKept(content, m, d, r, c);
    WrittenAgrees(content, d, r.completed, c.index, |c.data|);
    assert c.data[..|c.data|] == c.data;
    hide Built, VerifyChunk, ValidateShape, Agrees, Kept, Slice, CeilDiv, Written, WritePoints, SavePoints;
    SaveKept(content, m, Written(d, c.index * 32768, c.data), Marked(r, c.index), atomicRename);
    assert Written(d, c.index * 32768, c.data).output == d.output by {
      WrittenOutput(d, c.index * 32768, c.data);
    }
  }

  lemma {:induction false} WrittenOutput(d: Disk, offset: nat, data: seq<Byte>)
    requires d.part.Some?
    ensures Written(d, offset, data).output == d.output && Written(d, offset, data).state == d.state
  {
  }

  lemma {:induction false} WritesKept(content: seq<Byte>, m: Manifest, d: Disk, r: Record, c: Chunk)
    requires d.part.Some? && d.state.Some? && d.state.value.decoded == Some(r) && Kept(content, m, d)
    requires c.index < CeilDiv(|content|, 32768) && c.data == Slice(content, c.index)
    ensures forall w <- WritePoints(d, c.index * 32768, c.data) :: Kept(content, m, w) && w.output == d.output
  {
    var points := WritePoints(d, c.index * 32768, c.data);
    forall k | 0 <= k < |points| ensures Kept(content, m, points[k]) && points[k].output == d.output {
      WrittenAgrees(content, d, r.completed, c.index, k + 1);
      hide Agrees, Slice, CeilDiv;
    }
  }

  lemma {:induction false} WrittenAgrees(content: seq<Byte>, d: Disk, completed: seq<bool>, i: nat, k: nat)
    requires d.part.Some? && Agrees(content, d.part.value, completed)
    requires i < |completed| == CeilDiv(|content|, 32768) && k <= |Slice(content, i)|
    ensures var file := Written(d, i * 32768, Slice(content, i)[..k]).part.value;
            && Agrees(content, file, completed)
            && (k == |Slice(content, i)| ==> Agrees(content, file, completed[i := true]))
  {
    WriteAllTorn(content, d.part.value, i, k);
    TornAgrees(content, d.part.value, completed, i, k, Written(d, i * 32768, Slice(content, i)[..k]).part.value);
  }

  lemma {:induction false} PublishKept(h: Hash, content: seq<Byte>, m: Manifest, p: Process, atomicRename: bool)
    requires Built(h, content, m) && Tracking(m, p) && Kept(content, m, p.disk)
    requires p.record.Some? && Passes(h, p.disk.part.value, m.length, m.contentId)
    requires !ForgedFile(h, content, p.disk.part.value)
    ensures forall d <- PublishPoints(p.disk, atomicRename) :: Kept(content, m, d) && OutputOk(content, p.disk, d)
  {
    FromBytesReconstructs(h, content);
  }

  /** Every disk an action passes through holds a truthful, readable record or lacks one of the two files. */
  lemma {:induction false} PointsKept(h: Hash, content: seq<Byte>, m: Manifest, p: Process, e: Event)
    requires Built(h, content, m) && Tracking(m, p) && (p.record.Some? ==> Kept(content, m, p.disk))
    requires !ForgedBy(h, content, m, p, e)
    ensures forall d <- Points(h, m, p, e) :: Kept(content, m, d) && OutputOk(content, p.disk, d)
  {
    match e.action {
      case OpenAction =>
        if Points(h, m, p, e) != [] {
          CreateKept(h, content, m, p.disk, e.atomicRename);
        }
      case Deliver(c) =>
        if Points(h, m, p, e) != [] {
          ChunkKept(h, content, m, p, c, e.atomicRename);
        }
      case Publish =>
        if Points(h, m, p, e) != [] {
          PublishKept(h, content, m, p, e.atomicRename);
        }
    }
  }

  /** Nothing has been touched since the start, or the disk holds what the program put there. */
  ghost predicate Inv(content: seq<Byte>, m: Manifest, start: Disk, p: Process) {
    && (p.disk == start || Kept(content, m, p.disk))
    && (p.record.Some? ==> Kept(content, m, p.disk))
    && OutputOk(content, start, p.disk)
  }

  lemma {:induction false} NextInv(h: Hash, content: seq<Byte>, m: Manifest, start: Disk, p: Process, e: Event)
    requires Built(h, content, m) && Tracking(m, p) && Inv(content, m, start, p)
    requires !ForgedDisk(h, content, m, start) && !ForgedBy(h, content, m, p, e)
    ensures Inv(content, m, start, Next(h, m, p, e))
  {
    PointsKept(h, content, m, p, e);
    if e.crashAt.None? && e.action.OpenAction? && p.record.None? && Openable(h, m, p.disk) && p.disk == start {
      OpenableIsKept(h, content, m, p.disk);
    }
  }

  lemma {:induction false} HistoryInv(
    h: Hash, content: seq<Byte>, m: Manifest, history: seq<Process>, events: seq<Event>, i: nat)
    requires Built(h, content, m) && IsHistory(h, m, history, events) && i <= |events|
    requires !Forged(h, content, m, history, events, i)
    ensures Inv(content, m, history[0].disk, history[i])
  {
    if i > 0 {
      hide Next, Inv, ForgedBy, ForgedDisk;
      assert !ForgedBy(h, content, m, history[i - 1], events[i - 1]);
      HistoryInv(h, content, m, history, events, i - 1);
      assert StepAt(h, m, history, events, i - 1);
      NextInv(h, content, m, history[0].disk, history[i - 1], events[i - 1]);
    }
  }

  /**
   * Whatever happens and wherever it crashes, until other data has been accepted under one of the content's digests,
   * no disk claims a chunk it does not hold, and none publishes anything but the content.
   */
  lemma {:induction false} HistorySafe(
    h: Hash, content: seq<Byte>, m: Manifest, history: seq<Process>, events: seq<Event>, i: nat)
    requires Built(h, content, m) && IsHistory(h, m, history, events) && i <= |events|
    requires DiskOk(content, m, history[0].disk)
    ensures SafeDisk(content, m, history[0].disk, history[i].disk) || ForgedIn(h, content, m, history, events, i)
  {
    TruthfulNotForged(h, content, m, history[0].disk);
    if !ForgedIn(h, content, m, history, events, i) {
      HistoryInv(h, content, m, history, events, i);
    }
  }

  lemma {:induction false} TruthfulNotForged(h: Hash, content: seq<Byte>, m: Manifest, d: Disk)
    requires DiskOk(content, m, d)
    ensures !ForgedDisk(h, content, m, d)
  {
  }

  // ----- Which crashes leave a disk that no later process opens -----

  /** One file is there without the other. */
  predicate OneSided(d: Disk) {
    d.part.Some? != d.state.Some?
  }

  /** From a disk that opens, a disk is left that opens exactly while it holds both files or neither. */
  lemma {:induction false} OpensExactlyWithBoth(
    h: Hash, content: seq<Byte>, m: Manifest, history: seq<Process>, events: seq<Event>, i: nat)
    requires Built(h, content, m) && IsHistory(h, m, history, events) && i <= |events|
    requires Openable(h, m, history[0].disk)
    ensures (Openable(h, m, history[i].disk) <==> !OneSided(history[i].disk))
            || Forged(h, content, m, history, events, i)
  {
    if !Forged(h, content, m, history, events, i) {
      HistoryInv(h, content, m, history, events, i);
      OpenableIsKept(h, content, m, history[0].disk);
      KeptOpens(h, content, m, history[i].disk);
    }
  }

  /** The crashes that leave one file without the other, by how many writes the action got to make. */
  ghost predicate Strands(h: Hash, m: Manifest, p: Process, e: Event)
    requires Tracking(m, p)
  {
    && e.crashAt.Some? && Points(h, m, p, e) != []
    && match e.action
       case OpenAction => 1 <= e.crashAt.value <= 2
       case Deliver(c) => !e.atomicRename && e.crashAt.value == |c.data| + 1
       case Publish => e.crashAt.value == |Points(h, m, p, e)| - 1
  }

  lemma {:induction false} CreateStrands(d: Disk, m: Manifest, atomicRename: bool, k: nat)
    requires d.part.None? && d.state.None? && k <= |CreatePoints(d, m, atomicRename)|
    ensures |CreatePoints(d, m, atomicRename)| == 3
    ensures OneSided(([d] + CreatePoints(d, m, atomicRename))[k]) <==> 1 <= k <= 2
  {
  }

  lemma {:induction false} ChunkStrands(d: Disk, r: Record, m: Manifest, c: Chunk, atomicRename: bool, k: nat)
    requires d.part.Some? && d.state.Some? && c.index < |r.completed|
    requires k <= |ChunkPoints(d, r, m, c, atomicRename)|
    ensures |ChunkPoints(d, r, m, c, atomicRename)| == |c.data| + if atomicRename then 1 else 2
    ensures OneSided(([d] + ChunkPoints(d, r, m, c, atomicRename))[k]) <==> !atomicRename && k == |c.data| + 1
  {
    hide WriteAll, SavedFile, Marked;
  }

  lemma {:induction false} PublishStrands(d: Disk, atomicRename: bool, k: nat)
    requires d.part.Some? && d.state.Some? && k <= |PublishPoints(d, atomicRename)|
    ensures |PublishPoints(d, atomicRename)| >= 2
    ensures OneSided(([d] + PublishPoints(d, atomicRename))[k]) <==> k == |PublishPoints(d, atomicRename)| - 1
  {
  }

  /** One action leaves one file without the other exactly when it found it so or crashed at such a point. */
  lemma {:induction false} StrandsExactly(h: Hash, m: Manifest, p: Process, e: Event)
    requires Tracking(m, p)
    ensures OneSided(Next(h, m, p, e).disk) <==> OneSided(p.disk) || Strands(h, m, p, e)
  {
    if Points(h, m, p, e) != [] {
      var n := |Points(h, m, p, e)|;
      var k := if e.crashAt.None? then n else Min(e.crashAt.value, n);
      match e.action {
        case OpenAction => CreateStrands(p.disk, m, e.atomicRename, k);
        case Deliver(c) => ChunkStrands(p.disk, p.record.value, m, c, e.atomicRename, k);
        case Publish => PublishStrands(p.disk, e.atomicRename, k);
      }
      hide CreatePoints, ChunkPoints, PublishPoints, OneSided;
      assert Next(h, m, p, e).disk == ([p.disk] + Points(h, m, p, e))[k];
    }
  }

  /** A disk that fails to open is left as it is by everything that follows. */
  lemma {:induction false} StrandedStays(
    h: Hash, m: Manifest, history: seq<Process>, events: seq<Event>, i: nat, j: nat)
    requires IsHistory(h, m, history, events) && i <= j < |history|
    requires OneSided(history[i].disk)
    ensures history[j] == Process(history[i].disk, None) && !Openable(h, m, history[j].disk)
  {
    if i < j {
      hide Next, OneSided;
      StrandedStays(h, m, history, events, i, j - 1);
      assert StepAt(h, m, history, events, j - 1);
      StrandedKept(h, m, history[j - 1], events[j - 1]);
    }
  }

  lemma {:induction false} StrandedKept(h: Hash, m: Manifest, p: Process, e: Event)
    requires Tracking(m, p) && OneSided(p.disk)
    ensures Next(h, m, p, e) == Process(p.disk, None)
  {
  }

  /** Some event before `j` was such a crash. */
  ghost predicate StrandedBy(h: Hash, m: Manifest, history: seq<Process>, events: seq<Event>, j: nat)
    requires IsHistory(h, m, history, events) && j <= |events|
  {
    exists i | 0 <= i < j :: Strands(h, m, history[i], events[i])
  }

  /** Whatever the data, one file is left without the other exactly when that was so at first or one has happened. */
  lemma {:induction false} OneSidedExactly(h: Hash, m: Manifest, history: seq<Process>, events: seq<Event>, j: nat)
    requires IsHistory(h, m, history, events) && j <= |events|
    ensures OneSided(history[j].disk) <==> OneSided(history[0].disk) || StrandedBy(h, m, history, events, j)
  {
    hide Next, OneSided, Strands;
    if j > 0 {
      OneSidedExactly(h, m, history, events, j - 1);
      assert StepAt(h, m, history, events, j - 1);
      StrandsExactly(h, m, history[j - 1], events[j - 1]);
    }
  }

  /** From a disk that opens, the download is locked out exactly when one of those crashes has happened. */
  lemma {:induction false} LockedOutExactly(
    h: Hash, content: seq<Byte>, m: Manifest, history: seq<Process>, events: seq<Event>, j: nat)
    requires Built(h, content, m) && IsHistory(h, m, history, events) && j <= |events|
    requires Openable(h, m, history[0].disk)
    ensures || (!Openable(h, m, history[j].disk) <==> StrandedBy(h, m, history, events, j))
            || Forged(h, content, m, history, events, j)
  {
    OpensExactlyWithBoth(h, content, m, history, events, j);
    OneSidedExactly(h, m, history, events, j);
    hide Forged, StrandedBy, IsHistory;
  }

  /** On an empty disk, a crash after the very first write leaves such a disk. */
  lemma {:induction false} FirstWriteStrands(h: Hash, content: seq<Byte>, m: Manifest)
    requires Built(h, content, m)
    ensures var empty := Process(Disk(None, None, None), None);
      var left := Next(h, m, empty, Event(OpenAction, true, Some(1)));
      && Openable(h, m, empty.disk) && DiskOk(content, m, left.disk)
      && left == Process(Disk(Some([]), None, None), None) && !Openable(h, m, left.disk)
  {
    FromBytesReconstructs(h, content);
  }

  /** Both files are there, and the record claims chunk `i`. */
  predicate Holds(d: Disk, i: nat) {
    && d.part.Some? && d.state.Some? && d.state.value.decoded.Some?
    && i < |d.state.value.decoded.value.completed| && d.state.value.decoded.value.completed[i]
  }

  lemma {:induction false} ChunkPointHolds(
    d: Disk, r: Record, m: Manifest, c: Chunk, atomicRename: bool, i: nat, k: nat)
    requires d.part.Some? && d.state.Some? && d.state.value.decoded == Some(r) && c.index < |r.completed|
    requires Holds(d, i) && k < |ChunkPoints(d, r, m, c, atomicRename)|
    ensures var left := ChunkPoints(d, r, m, c, atomicRename)[k];
            OneSided(left) || Holds(left, i)
  {
    hide WriteAll, EncodedSize;
  }

  lemma {:induction false} HoldsStep(h: Hash, m: Manifest, p: Process, e: Event, i: nat)
    requires Tracking(m, p) && Holds(p.disk, i) && !e.action.Publish?
    ensures OneSided(Next(h, m, p, e).disk) || Holds(Next(h, m, p, e).disk, i)
  {
    if e.action.Deliver? && Points(h, m, p, e) != [] {
      var points := Points(h, m, p, e);
      forall k | 0 <= k < |points| ensures OneSided(points[k]) || Holds(points[k], i) {
        ChunkPointHolds(p.disk, p.record.value, m, e.action.chunk, e.atomicRename, i, k);
      }
      hide ChunkPoints, OneSided, Holds;
    }
  }

  /** Until a publication, a chunk once recorded stays recorded, through every crash that leaves both files. */
  lemma {:induction false} ChunksNeverLost(
    h: Hash, m: Manifest, history: seq<Process>, events: seq<Event>, i: nat, j: nat, chunk: nat)
    requires IsHistory(h, m, history, events) && i <= j <= |events| && Holds(history[i].disk, chunk)
    requires forall k | i <= k < j :: !events[k].action.Publish?
    ensures OneSided(history[j].disk) || Holds(history[j].disk, chunk)
  {
    if i < j {
      hide Next, OneSided, Holds;
      ChunksNeverLost(h, m, history, events, i, j - 1, chunk);
      assert StepAt(h, m, history, events, j - 1);
      if OneSided(history[j - 1].disk) {
        StrandedKept(h, m, history[j - 1], events[j - 1]);
      } else {
        HoldsStep(h, m, history[j - 1], events[j - 1], chunk);
      }
    }
  }

  /** An output is never missing in between where a rename replaces it. */
  lemma {:induction false} OutputNeverLost(h: Hash, m: Manifest, history: seq<Process>, events: seq<Event>, i: nat)
    requires IsHistory(h, m, history, events) && i < |history| && history[0].disk.output.Some?
    requires forall e <- events :: e.atomicRename
    ensures history[i].disk.output.Some?
  {
    if i > 0 {
      hide Next;
      OutputNeverLost(h, m, history, events, i - 1);
      assert StepAt(h, m, history, events, i - 1);
      OutputKept(h, m, history[i - 1], events[i - 1]);
    }
  }

  lemma {:induction false} OutputKept(h: Hash, m: Manifest, p: Process, e: Event)
    requires Tracking(m, p) && p.disk.output.Some? && e.atomicRename
    ensures Next(h, m, p, e).disk.output.Some?
  {
    hide WriteAll;
  }

  // ----- A download that is left alone completes -----

  ghost predicate Delivers(h: Hash, m: Manifest, e: Event, i: nat) {
    e.action.Deliver? && e.action.chunk.index == i && VerifyChunk(h, m, e.action.chunk).Ok?
  }

  /** Opened first, then nothing but deliveries, and no crash in the first `n` events. */
  ghost predicate LeftAlone(h: Hash, m: Manifest, history: seq<Process>, events: seq<Event>, n: nat)
    requires |history| == |events| + 1 && 0 < n <= |events|
  {
    && Openable(h, m, history[0].disk) && events[0].action.OpenAction?
    && forall j | 0 <= j < n :: events[j].crashAt.None? && (j > 0 ==> events[j].action.Deliver?)
  }

  /** The record found on opening already has the chunk, or one of the first `n` events brings it. */
  ghost predicate Supplied(h: Hash, m: Manifest, history: seq<Process>, events: seq<Event>, n: nat, i: nat)
    requires IsHistory(h, m, history, events) && 0 < n <= |events| && i < |m.chunks|
  {
    || (history[1].record.Some? && history[1].record.value.completed[i])
    || exists j | 0 < j < n :: Delivers(h, m, events[j], i)
  }

  /** While the process lives, it marks exactly the chunks it found or was given. */
  lemma {:induction false} CompletedExactly(
    h: Hash, m: Manifest, history: seq<Process>, events: seq<Event>, n: nat, i: nat)
    requires IsHistory(h, m, history, events) && 0 < n <= |events| && i < |m.chunks|
             && LeftAlone(h, m, history, events, n)
    ensures history[n].record.Some?
    ensures history[n].record.value.completed[i] <==> Supplied(h, m, history, events, n, i)
  {
    if n > 1 {
      hide Next;
      CompletedExactly(h, m, history, events, n - 1, i);
      assert StepAt(h, m, history, events, n - 1);
      DeliveryMarks(h, m, history[n - 1], events[n - 1], i);
    } else {
      assert StepAt(h, m, history, events, 0);
    }
  }

  lemma {:induction false} DeliveryMarks(h: Hash, m: Manifest, p: Process, e: Event, i: nat)
    requires Tracking(m, p) && p.record.Some? && e.action.Deliver? && e.crashAt.None? && i < |m.chunks|
    ensures var r := Next(h, m, p, e).record;
            r.Some? && (r.value.completed[i] <==> p.record.value.completed[i] || Delivers(h, m, e, i))
  {
    hide ChunkPoints;
  }

  lemma {:induction false} StaysOpen(h: Hash, m: Manifest, history: seq<Process>, events: seq<Event>, n: nat)
    requires IsHistory(h, m, history, events) && 0 < n <= |events| && LeftAlone(h, m, history, events, n)
    ensures history[n].record.Some?
  {
    assert StepAt(h, m, history, events, n - 1);
    if n > 1 {
      hide ChunkPoints;
      StaysOpen(h, m, history, events, n - 1);
    }
  }

  /**
   * Opened on any disk that opens, given the chunks it lacks in any order, and left alone, it publishes the
   * content and tidies up.
   */
  lemma {:induction false} ResumedCompletes(h: Hash, content: seq<Byte>, m: Manifest, history: seq<Process>,
                                            events: seq<Event>, n: nat)
    requires Built(h, content, m) && IsHistory(h, m, history, events) && 0 < n == |events| - 1
    requires LeftAlone(h, m, history, events, n) && events[n].action.Publish? && events[n].crashAt.None?
    requires forall i: nat | i < |m.chunks| :: Supplied(h, m, history, events, n, i)
    ensures history[n + 1] == Process(Disk(None, None, Some(content)), None)
            || Forged(h, content, m, history, events, n)
  {
    if Forged(h, content, m, history, events, n) {
      return;
    }
    StaysOpen(h, m, history, events, n);
    var p := history[n];
    HistoryInv(h, content, m, history, events, n);
    forall i: nat | i < |m.chunks| ensures p.record.value.completed[i] {
      CompletedExactly(h, m, history, events, n, i);
    }
    CompletePublishes(h, content, m, p.disk.part.value, p.record.value.completed);
    assert Passes(h, p.disk.part.value, m.length, m.contentId);
    assert StepAt(h, m, history, events, n);
    PublishDone(h, m, p, events[n]);
  }

  lemma {:induction false} PublishDone(h: Hash, m: Manifest, p: Process, e: Event)
    requires Tracking(m, p) && p.record.Some? && Passes(h, p.disk.part.value, m.length, m.contentId)
    requires e.action.Publish? && e.crashAt.None?
    ensures Next(h, m, p, e) == Process(Disk(None, None, p.disk.part), None)
  {
  }
}
