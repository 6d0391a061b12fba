/**
 * One whole fetch: the resume files are opened, the receiver's loop runs, and the result is published.
 * Every run of the loop, however its threads interleave, is a history of the disk.
 */
module SwarmSession {
  import opened Prelude
  import opened Availability
  import opened Content
  import opened Scheduling
  import opened Resume
  import opened ResumeHistory
  import opened Download

  // ----- Histories, from their events -----

  ghost function After(h: Hash, m: Manifest, p: Process, events: seq<Event>): (q: Process)
    requires Tracking(m, p)
    ensures Tracking(m, q)
  {
    if events == [] then p
    else Next(h, m, After(h, m, p, events[..|events| - 1]), events[|events| - 1])
  }

  /** Every disk written on the way, in order. */
  ghost function Disks(h: Hash, m: Manifest, p: Process, events: seq<Event>): seq<Disk>
    requires Tracking(m, p)
  {
    if events == [] then []
    else
      var front, last := events[..|events| - 1], events[|events| - 1];
      Disks(h, m, p, front) + Points(h, m, After(h, m, p, front), last)
  }

  /** The process at each event, the start included. */
  ghost function Trace(h: Hash, m: Manifest, p: Process, events: seq<Event>): (history: seq<Process>)
    requires Tracking(m, p)
    ensures |history| == |events| + 1
  {
    seq(|events| + 1, i requires 0 <= i <= |events| => After(h, m, p, events[..i]))
  }

  lemma {:induction false} TraceIsHistory(h: Hash, m: Manifest, p: Process, events: seq<Event>)
    requires Tracking(m, p) && p.record.None?
    ensures IsHistory(h, m, Trace(h, m, p, events), events)
    ensures Trace(h, m, p, events)[0] == p && Trace(h, m, p, events)[|events|] == After(h, m, p, events)
  {
    var history := Trace(h, m, p, events);
    hide Next, Tracking;
    assert events[..|events|] == events;
    forall i | 0 <= i < |events| ensures StepAt(h, m, history, events, i) {
      assert events[..i + 1][..i] == events[..i];
    }
  }

  lemma {:induction false} AfterAppend(h: Hash, m: Manifest, p: Process, a: seq<Event>, b: seq<Event>)
    requires Tracking(m, p)
    ensures After(h, m, p, a + b) == After(h, m, After(h, m, p, a), b)
  {
    hide Next, Tracking;
    if b == [] {
      assert a + b == a;
    } else {
      var n := |b| - 1;
      assert (a + b)[..|a + b| - 1] == a + b[..n];
      AfterAppend(h, m, p, a, b[..n]);
    }
  }

  lemma {:induction false} DisksAppend(h: Hash, m: Manifest, p: Process, a: seq<Event>, b: seq<Event>)
    requires Tracking(m, p)
    ensures Disks(h, m, p, a + b) == Disks(h, m, p, a) + Disks(h, m, After(h, m, p, a), b)
  {
    hide Next, Tracking, Points;
    if b == [] {
      assert a + b == a;
    } else {
      var n := |b| - 1;
      assert (a + b)[..|a + b| - 1] == a + b[..n];
      DisksAppend(h, m, p, a, b[..n]);
      AfterAppend(h, m, p, a, b[..n]);
    }
  }

  // ----- What the loop asks of the disk -----

  /** A good chunk is delivered; the disk failing on it is a delivery cut short. */
  ghost function EventsOf(h: Hash, m: Manifest, s: System, l: Label, atomicRename: bool): seq<Event> {
    if (l.Receive? || l.DiskFailure?) && s.results != []
      && Good(h, m, s.results[0].requested, s.results[0].response) then
      [Event(Deliver(s.results[0].response.chunk), atomicRename, if l.DiskFailure? then Some(l.writes) else None)]
    else []
  }

  ghost function Events(
    h: Hash, m: Manifest, states: seq<System>, labels: seq<Label>, atomicRename: bool, n: nat): seq<Event>
    requires |states| == |labels| + 1 && n <= |labels|
  {
    if n == 0 then []
    else Events(h, m, states, labels, atomicRename, n - 1) + EventsOf(h, m, states[n - 1], labels[n - 1], atomicRename)
  }

  lemma {:induction false} EventsPrefix(
    h: Hash, m: Manifest, states: seq<System>, labels: seq<Label>, s: System, l: Label, atomicRename: bool, n: nat)
    requires |states| == |labels| + 1 && n <= |labels|
    ensures Events(h, m, states + [s], labels + [l], atomicRename, n) == Events(h, m, states, labels, atomicRename, n)
  {
    hide EventsOf;
    if n > 0 {
      EventsPrefix(h, m, states, labels, s, l, atomicRename, n - 1);
    }
  }

  lemma {:induction false} EventsExtend(
    h: Hash, m: Manifest, states: seq<System>, labels: seq<Label>, s: System, l: Label, atomicRename: bool)
    requires |states| == |labels| + 1
    ensures Events(h, m, states + [s], labels + [l], atomicRename, |labels| + 1) ==
            Events(h, m, states, labels, atomicRename, |labels|)
            + EventsOf(h, m, states[|labels|], l, atomicRename)
  {
    hide EventsOf;
    EventsPrefix(h, m, states, labels, s, l, atomicRename, |labels|);
  }

  /** The receiver's file and record are the ones on the disk; after a disk failure the process is lost. */
  ghost predicate Mirrors(s: System, p: Process) {
    && p.disk.part == Some(s.file)
    && (if s.main == Ended(DiskFailed) then p.record.None?
        else p.record.Some? && p.record.value.completed == s.completed)
  }

  /** The file with the first `n` bytes of the chunk in place. */
  ghost function Placed(file: seq<Byte>, m: Manifest, c: Chunk, n: nat): seq<Byte>
    requires n <= |c.data|
  {
    WriteAll(file, c.index * m.chunkSize, c.data[..n])
  }

  /** After `k` writes of a delivery the file holds that many bytes of the chunk, or all of them. */
  lemma {:induction false} ChunkPointAt(d: Disk, r: Record, m: Manifest, c: Chunk, atomicRename: bool, k: nat)
    requires d.part.Some? && c.index < |r.completed| && k <= |ChunkPoints(d, r, m, c, atomicRename)|
    ensures |ChunkPoints(d, r, m, c, atomicRename)| > |c.data|
    ensures var left := ([d] + ChunkPoints(d, r, m, c, atomicRename))[k];
            left.part == Some(Placed(d.part.value, m, c, Min(k, |c.data|))) && left.output == d.output
  {
    var offset := c.index * m.chunkSize;
    assert c.data[..|c.data|] == c.data && c.data[..0] == [];
    assert WriteAll(d.part.value, offset, []) == d.part.value;
    hide WriteAll, SavedFile, Marked;
    if 0 < k <= |c.data| {
      assert ([d] + ChunkPoints(d, r, m, c, atomicRename))[k] == WritePoints(d, offset, c.data)[k - 1];
    } else if k > |c.data| {
      var saved := SavePoints(Written(d, offset, c.data), Marked(r, c.index), atomicRename);
      assert ([d] + ChunkPoints(d, r, m, c, atomicRename))[k] == saved[k - |c.data| - 1];
    }
  }

  /** How far a delivery gets, and what is left of it. */
  lemma {:induction false} DeliveryNext(
    h: Hash, m: Manifest, p: Process, c: Chunk, atomicRename: bool, crashAt: Option<nat>)
    requires Tracking(m, p) && p.record.Some? && VerifyChunk(h, m, c).Ok? && c.index < |m.chunks|
    requires ChunkPoints(p.disk, p.record.value, m, c, atomicRename) != []
    ensures var q := Next(h, m, p, Event(Deliver(c), atomicRename, crashAt));
            var disks := [p.disk] + ChunkPoints(p.disk, p.record.value, m, c, atomicRename);
            && q.disk == disks[if crashAt.None? then |disks| - 1 else Min(crashAt.value, |disks| - 1)]
            && q.record == if crashAt.None? then Some(Marked(p.record.value, c.index)) else None
  {
    hide ChunkPoints, VerifyChunk, Openable, Marked;
  }

  lemma {:induction false} DeliveryLeaves(
    h: Hash, m: Manifest, p: Process, c: Chunk, atomicRename: bool, crashAt: Option<nat>)
    requires Tracking(m, p) && p.record.Some? && VerifyChunk(h, m, c).Ok? && c.index < |m.chunks|
    ensures var q := Next(h, m, p, Event(Deliver(c), atomicRename, crashAt));
            var n := if crashAt.None? then |c.data| else Min(crashAt.value, |c.data|);
            && q.disk.part == Some(Placed(p.disk.part.value, m, c, n)) && q.disk.output == p.disk.output
            && q.record == if crashAt.None? then Some(Marked(p.record.value, c.index)) else None
  {
    hide ChunkPoints, VerifyChunk, Next, Marked, Placed;
    var n := |ChunkPoints(p.disk, p.record.value, m, c, atomicRename)|;
    ChunkPointAt(p.disk, p.record.value, m, c, atomicRename, n);
    if crashAt.Some? {
      ChunkPointAt(p.disk, p.record.value, m, c, atomicRename, Min(crashAt.value, n));
    }
    DeliveryNext(h, m, p, c, atomicRename, crashAt);
  }

  lemma {:induction false} StepMirrors(
    h: Hash, m: Manifest, s: System, l: Label, s': System, p: Process, atomicRename: bool)
    requires Tracking(m, p) && Mirrors(s, p) && Step(h, m, s, l, s') && |s.completed| == |m.chunks|
    ensures var q := After(h, m, p, EventsOf(h, m, s, l, atomicRename));
            Mirrors(s', q) && q.disk.output == p.disk.output && |s'.completed| == |m.chunks|
  {
    var events := EventsOf(h, m, s, l, atomicRename);
    if events == [] {
      hide AssignStep;
      assert s'.file == s.file && s'.completed == s.completed;
    } else {
      AfterOne(h, m, p, events[0]);
      var chunk := s.results[0].response.chunk;
      assert chunk.data[..|chunk.data|] == chunk.data;
      hide Next, WriteAll, After;
      DeliveryLeaves(h, m, p, chunk, atomicRename, events[0].crashAt);
    }
  }

  /** In every state of every run, the receiver's file and record are those of the history its steps make. */
  lemma {:induction false} RunMirrors(
    h: Hash, m: Manifest, states: seq<System>, labels: seq<Label>, p: Process, atomicRename: bool, k: nat)
    requires IsRun(h, m, states, labels) && Tracking(m, p) && Mirrors(states[0], p) && k <= |labels|
    requires |states[0].completed| == |m.chunks|
    ensures var q := After(h, m, p, Events(h, m, states, labels, atomicRename, k));
            Mirrors(states[k], q) && q.disk.output == p.disk.output && |states[k].completed| == |m.chunks|
  {
    if k > 0 {
      RunStep(h, m, states, labels, k);
      hide Step, Mirrors, EventsOf, Tracking, After;
      RunMirrors(h, m, states, labels, p, atomicRename, k - 1);
      var before := Events(h, m, states, labels, atomicRename, k - 1);
      var events := EventsOf(h, m, states[k - 1], labels[k - 1], atomicRename);
      StepMirrors(h, m, states[k - 1], labels[k - 1], states[k], After(h, m, p, before), atomicRename);
      AfterAppend(h, m, p, before, events);
    } else {
      AfterNothing(h, m, p);
    }
  }

  lemma {:induction false} AfterOne(h: Hash, m: Manifest, p: Process, e: Event)
    requires Tracking(m, p)
    ensures After(h, m, p, [e]) == Next(h, m, p, e) && Disks(h, m, p, [e]) == Points(h, m, p, e)
  {
    assert [e][..0] == [];
    hide Next, Points;
  }

  lemma {:induction false} AfterNothing(h: Hash, m: Manifest, p: Process)
    requires Tracking(m, p)
    ensures After(h, m, p, []) == p && Disks(h, m, p, []) == []
  {
  }

  // ----- A process that keeps up with a run -----

  /** It is where the deliveries of the run take it, and it has written the disks that they write. */
  ghost predicate Follows(
    h: Hash, m: Manifest, begin: Process, states: seq<System>, labels: seq<Label>, atomicRename: bool,
    now: Process, written: seq<Disk>)
  {
    && Tracking(m, begin) && Tracking(m, now) && |states| == |labels| + 1
    && var events := Events(h, m, states, labels, atomicRename, |labels|);
       now == After(h, m, begin, events) && written == Disks(h, m, begin, events)
  }

  lemma {:induction false} FollowsStart(h: Hash, m: Manifest, begin: Process, s: System, atomicRename: bool)
    requires Tracking(m, begin)
    ensures Follows(h, m, begin, [s], [], atomicRename, begin, [])
  {
    AfterNothing(h, m, begin);
  }

  lemma {:induction false} FollowsStep(
    h: Hash, m: Manifest, begin: Process, states: seq<System>, labels: seq<Label>, atomicRename: bool,
    p: Process, written: seq<Disk>, s: System, l: Label)
    requires Follows(h, m, begin, states, labels, atomicRename, p, written)
    ensures var events := EventsOf(h, m, states[|labels|], l, atomicRename);
            Follows(h, m, begin, states + [s], labels + [l], atomicRename,
                    After(h, m, p, events), written + Disks(h, m, p, events))
  {
    hide After, Disks, EventsOf, Events, Tracking;
    var before := Events(h, m, states, labels, atomicRename, |labels|);
    var events := EventsOf(h, m, states[|labels|], l, atomicRename);
    var states', labels' := states + [s], labels + [l];
    EventsExtend(h, m, states, labels, s, l, atomicRename);
    assert Events(h, m, states', labels', atomicRename, |labels'|) == before + events;
    AfterAppend(h, m, begin, before, events);
    DisksAppend(h, m, begin, before, events);
  }

  lemma {:induction false} QuietStep(h: Hash, m: Manifest, s: System, l: Label, atomicRename: bool)
    requires !l.DiskFailure?
    requires l.Receive? ==> s.results != [] && !Good(h, m, s.results[0].requested, s.results[0].response)
    ensures EventsOf(h, m, s, l, atomicRename) == []
  {
  }

  /** A step that asks nothing of the disk. */
  lemma {:induction false} FollowsQuietly(
    h: Hash, m: Manifest, begin: Process, states: seq<System>, labels: seq<Label>, atomicRename: bool,
    p: Process, written: seq<Disk>, s: System, l: Label)
    requires Follows(h, m, begin, states, labels, atomicRename, p, written)
    requires EventsOf(h, m, states[|labels|], l, atomicRename) == []
    ensures Follows(h, m, begin, states + [s], labels + [l], atomicRename, p, written)
  {
    assert Tracking(m, p);
    hide Follows, After, Disks, EventsOf, Tracking;
    FollowsStep(h, m, begin, states, labels, atomicRename, p, written, s, l);
    AfterNothing(h, m, p);
    assert written + [] == written;
  }

  /** A step that delivers a chunk. */
  lemma {:induction false} FollowsDelivery(
    h: Hash, m: Manifest, begin: Process, states: seq<System>, labels: seq<Label>, atomicRename: bool,
    p: Process, written: seq<Disk>, s: System, l: Label, e: Event)
    requires Follows(h, m, begin, states, labels, atomicRename, p, written)
    requires EventsOf(h, m, states[|labels|], l, atomicRename) == [e]
    ensures Follows(h, m, begin, states + [s], labels + [l], atomicRename,
                    Next(h, m, p, e), written + Points(h, m, p, e))
  {
    assert Tracking(m, p);
    hide Follows, After, Disks, EventsOf, Next, Points, Tracking;
    FollowsStep(h, m, begin, states, labels, atomicRename, p, written, s, l);
    AfterOne(h, m, p, e);
  }

  /** What a stored chunk leaves is what the history of the disk says. */
  lemma {:induction false} Delivered(h: Hash, m: Manifest, p: Process, c: Chunk, atomicRename: bool, q: Process)
    requires Tracking(m, p) && p.record.Some? && VerifyChunk(h, m, c).Ok? && c.index < |m.chunks|
    requires StoredBy(m, p, c, q)
    ensures var e := Event(Deliver(c), atomicRename, None);
            && q == Next(h, m, p, e)
            && Points(h, m, p, e) == ChunkPoints(p.disk, p.record.value, m, c, atomicRename)
  {
    var e := Event(Deliver(c), atomicRename, None);
    hide WriteAll, SavedFile, VerifyChunk, Marked;
    assert Last(p.disk, Points(h, m, p, e)) == q.disk;
  }

  /** A good chunk is taken, stored and recorded. */
  lemma {:induction false} FollowsReceive(
    h: Hash, m: Manifest, begin: Process, states: seq<System>, labels: seq<Label>, atomicRename: bool,
    p: Process, written: seq<Disk>, s: System, q: Process)
    requires Follows(h, m, begin, states, labels, atomicRename, p, written) && IsRun(h, m, states, labels)
    requires TakesGood(h, m, states[|labels|]) && s == ReceiveStep(h, m, states[|labels|])
    requires p.record.Some? && p.disk.part.Some? && |p.record.value.completed| == |m.chunks|
    requires StoredBy(m, p, states[|labels|].results[0].response.chunk, q)
    ensures IsRun(h, m, states + [s], labels + [Receive]) && |states| == |labels| + 1
    ensures var c := states[|labels|].results[0].response.chunk;
            Follows(h, m, begin, states + [s], labels + [Receive], atomicRename, q,
                    written + ChunkPoints(p.disk, p.record.value, m, c, atomicRename))
  {
    var before := states[|labels|];
    var c := before.results[0].response.chunk;
    var e := Event(Deliver(c), atomicRename, None);
    assert EventsOf(h, m, before, Receive, atomicRename) == [e];
    assert Step(h, m, before, Receive, s);
    assert Tracking(m, p) && VerifyChunk(h, m, c).Ok? && |states| == |labels| + 1;
    hide *;
    RunExtends(h, m, states, labels, s, Receive);
    FollowsDelivery(h, m, begin, states, labels, atomicRename, p, written, s, Receive, e);
    Delivered(h, m, p, c, atomicRename, q);
  }

  ghost predicate TakesGood(h: Hash, m: Manifest, s: System) {
    && s.main.Waiting? && s.results != [] && |s.completed| == |m.chunks|
    && Good(h, m, s.results[0].requested, s.results[0].response) && s.results[0].response.chunk.index < |m.chunks|
  }

  /** The chunk is in the file and in the record, in memory and on disk. */
  ghost predicate StoredBy(m: Manifest, p: Process, c: Chunk, q: Process)
    requires p.record.Some? && p.disk.part.Some? && c.index < |p.record.value.completed|
  {
    && q.record == Some(Marked(p.record.value, c.index)) && q.disk.state == Some(SavedFile(q.record.value))
    && q.disk.output == p.disk.output
    && q.disk.part == Some(WriteAll(p.disk.part.value, c.index * m.chunkSize, c.data))
  }

  lemma {:induction false} RunExtends(
    h: Hash, m: Manifest, states: seq<System>, labels: seq<Label>, s: System, l: Label)
    requires IsRun(h, m, states, labels) && Step(h, m, states[|labels|], l, s)
    ensures IsRun(h, m, states + [s], labels + [l]) && |states| == |labels| + 1
  {
    hide Step;
  }

  lemma {:induction false} Tails(a: seq<Disk>, b: seq<Disk>, c: seq<Disk>)
    requires a <= b
    ensures (b + c)[|a|..] == b[|a|..] + c && a <= b + c
  {
  }

  // ----- The whole fetch -----

  function Opening(atomicRename: bool): Event {
    Event(OpenAction, atomicRename, None)
  }

  function Publishing(atomicRename: bool): Event {
    Event(Publish, atomicRename, None)
  }

  /** A run of the loop on a disk that opens, starting from the file and the record found or made there. */
  ghost predicate IsSession(
    h: Hash, m: Manifest, availability: seq<PieceAvailability>, disk: Disk,
    states: seq<System>, labels: seq<Label>, atomicRename: bool)
  {
    && Openable(h, m, disk) && IsRun(h, m, states, labels) && Initial(m, availability, states[0])
    && Mirrors(states[0], Next(h, m, Process(disk, None), Opening(atomicRename)))
  }

  /** Up to the given step of the loop. */
  ghost function EventsBy(
    h: Hash, m: Manifest, states: seq<System>, labels: seq<Label>, atomicRename: bool, k: nat): seq<Event>
    requires |states| == |labels| + 1 && k <= |labels|
  {
    [Opening(atomicRename)] + Events(h, m, states, labels, atomicRename, k)
  }

  /** Opening, every delivery, and, if every chunk has come in, the publication. */
  ghost function SessionEvents(
    h: Hash, m: Manifest, states: seq<System>, labels: seq<Label>, atomicRename: bool): seq<Event>
    requires |states| == |labels| + 1
  {
    EventsBy(h, m, states, labels, atomicRename, |labels|)
    + if states[|labels|].main == Ended(Finished) then [Publishing(atomicRename)] else []
  }

  lemma {:induction false} SessionMirrors(
    h: Hash, m: Manifest, availability: seq<PieceAvailability>, disk: Disk,
    states: seq<System>, labels: seq<Label>, atomicRename: bool, k: nat)
    requires IsSession(h, m, availability, disk, states, labels, atomicRename) && k <= |labels|
    ensures var q := After(h, m, Process(disk, None), EventsBy(h, m, states, labels, atomicRename, k));
            Mirrors(states[k], q) && q.disk.output == disk.output
  {
    var start := Process(disk, None);
    var first := Next(h, m, start, Opening(atomicRename));
    OpeningOutput(h, m, disk, atomicRename);
    AfterOne(h, m, start, Opening(atomicRename));
    AfterAppend(h, m, start, [Opening(atomicRename)], Events(h, m, states, labels, atomicRename, k));
    hide Next, After, Mirrors, Events, Openable;
    RunMirrors(h, m, states, labels, first, atomicRename, k);
  }

  lemma {:induction false} OpeningOutput(h: Hash, m: Manifest, disk: Disk, atomicRename: bool)
    requires Openable(h, m, disk)
    ensures Next(h, m, Process(disk, None), Opening(atomicRename)).disk.output == disk.output
  {
    hide Zeros, EncodedSize;
  }

  /** Every chunk complete: the publication succeeds, and what it publishes is the content. */
  lemma {:induction false} PublishesContent(
    h: Hash, content: seq<Byte>, m: Manifest, p: Process, s: System, atomicRename: bool)
    requires Built(h, content, m) && Tracking(m, p) && Kept(content, m, p.disk) && Mirrors(s, p)
    requires s.main == Ended(Finished) && IsComplete(s.sched) && Recorded(s.sched, s.completed)
    ensures Next(h, m, p, Publishing(atomicRename)) == Process(Disk(None, None, Some(content)), None)
  {
    CompletePublishes(h, content, m, p.disk.part.value, p.record.value.completed);
    PublishDone(h, m, p, Publishing(atomicRename));
  }

  /** How a fetch that has ended leaves the disk. */
  ghost predicate LeftBy(h: Hash, content: seq<Byte>, m: Manifest, disk: Disk, last: System, final: Process) {
    if last.main == Ended(Finished) then final == Process(Disk(None, None, Some(content)), None)
    else
      && final.disk.output == disk.output && Mirrors(last, final)
      && (last.main != Ended(DiskFailed) ==> Openable(h, m, final.disk))
  }

  /**
   * The whole fetch, however its threads interleave and however it ends. It is a history of the disk. If it
   * finishes, the content is published and both files are gone; otherwise the output is as it was, the disk
   * holds what the receiver held, and unless the disk itself failed it opens again. Data accepted under a
   * digest of the content that is not the content's is the one exception.
   */
  lemma {:induction false} SessionEnds(
    h: Hash, content: seq<Byte>, m: Manifest, availability: seq<PieceAvailability>, disk: Disk,
    states: seq<System>, labels: seq<Label>, atomicRename: bool)
    requires Built(h, content, m) && IsSession(h, m, availability, disk, states, labels, atomicRename)
    requires states[|labels|].main.Ended?
    ensures var events := SessionEvents(h, m, states, labels, atomicRename);
            var history := Trace(h, m, Process(disk, None), events);
            && IsHistory(h, m, history, events) && history[0] == Process(disk, None)
            && (|| LeftBy(h, content, m, disk, states[|labels|], history[|events|])
                || ResumeHistory.Forged(h, content, m, history, events, |events|))
  {
    var start, last := Process(disk, None), states[|labels|];
    var before := EventsBy(h, m, states, labels, atomicRename, |labels|);
    var events := SessionEvents(h, m, states, labels, atomicRename);
    var history := Trace(h, m, start, events);
    TraceIsHistory(h, m, start, events);
    SessionMirrors(h, m, availability, disk, states, labels, atomicRename, |labels|);
    RunInv(h, m, availability, states, labels, |labels|);
    assert events[..|before|] == before;
    var p := history[|before|];
    assert p == After(h, m, start, before);
    if !ResumeHistory.Forged(h, content, m, history, events, |events|) {
      LoopEndKept(h, content, m, history, events, |before|);
      hide Openable, Kept, Built, Next, IsRun, Initial, IsHistory, ResumeHistory.Forged, EventsBy, Trace, Mirrors;
      if last.main == Ended(Finished) {
        AfterAppend(h, m, start, before, [Publishing(atomicRename)]);
        AfterOne(h, m, p, Publishing(atomicRename));
        PublishesContent(h, content, m, p, last, atomicRename);
      } else {
        assert events == before;
        NotFinishedOpens(h, content, m, last, p);
      }
    }
  }

  lemma {:induction false} LoopEndKept(
    h: Hash, content: seq<Byte>, m: Manifest, history: seq<Process>, events: seq<Event>, n: nat)
    requires Built(h, content, m) && IsHistory(h, m, history, events) && n <= |events|
    requires Openable(h, m, history[0].disk) && !ResumeHistory.Forged(h, content, m, history, events, |events|)
    ensures Kept(content, m, history[n].disk)
  {
    HistoryInv(h, content, m, history, events, n);
    OpenableIsKept(h, content, m, history[0].disk);
  }

  lemma {:induction false} NotFinishedOpens(h: Hash, content: seq<Byte>, m: Manifest, last: System, p: Process)
    requires Built(h, content, m) && Kept(content, m, p.disk) && Tracking(m, p) && Mirrors(last, p)
    ensures last.main != Ended(DiskFailed) ==> Openable(h, m, p.disk)
  {
    KeptOpens(h, content, m, p.disk);
  }

  /**
   * The fetch delivers. On any disk that opens, if every missing chunk is held by some provider that always answers
   * correctly, whatever the others send, then an uninterrupted run of bounded length that cannot go on ends with the
   * content published and both files gone.
   */
  lemma {:induction false} SessionDelivers(
    h: Hash, content: seq<Byte>, m: Manifest, availability: seq<PieceAvailability>, disk: Disk,
    states: seq<System>, labels: seq<Label>, atomicRename: bool, honest: set<nat>)
    requires Built(h, content, m) && IsSession(h, m, availability, disk, states, labels, atomicRename)
    requires HonestRun(h, m, states, labels, honest) && Stuck(h, m, states[|labels|], honest)
    requires (forall p | p in honest :: p < |availability|) && Covers(states[0].sched, honest)
    ensures |labels| <= Measure(states[0])
    ensures var events := SessionEvents(h, m, states, labels, atomicRename);
            var history := Trace(h, m, Process(disk, None), events);
            && IsHistory(h, m, history, events)
            && (|| history[|events|] == Process(Disk(None, None, Some(content)), None)
                || ResumeHistory.Forged(h, content, m, history, events, |events|))
  {
    DownloadDelivers(h, m, content, availability, states, labels, honest);
    hide IsHistory, SessionEvents, Trace, Stuck, Covers, Measure, ResumeHistory.Forged, Step, Openable, Next;
    SessionEnds(h, content, m, availability, disk, states, labels, atomicRename);
  }
}
