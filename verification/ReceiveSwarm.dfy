/**
 * The whole fetch in its in-place form: check the manifests, open the resume files, set up the scheduler, run the
 * loop, publish. It is proved to be a session in the sense of `SwarmSession`.
 */
module ReceiveSwarm {
  import opened Prelude
  import opened Availability
  import opened Content
  import opened Scheduling
  import opened Resume
  import opened ResumeHistory
  import opened Download
  import opened SwarmSession
  import opened DownloadEnvironment
  import opened DownloadLoop

  datatype FetchError =
    | InconsistentManifests
    | OpenFailed(open: ResumeError)
    | SchedulerRefused(schedule: ScheduleError)
    | NotCovered
    | LoopEnded(outcome: Outcome)
    | FinishFailed(finish: ResumeError)

  datatype TransferStats = TransferStats(accepted: seq<nat>, rejected: seq<nat>, retries: nat, resumedChunks: nat)

  function Sum(s: seq<nat>): nat {
    if s == [] then 0 else Sum(s[..|s| - 1]) + s[|s| - 1]
  }

  function AcceptedBy(providers: seq<Provider>): seq<nat> {
    seq(|providers|, i requires 0 <= i < |providers| => providers[i].accepted)
  }

  function RejectedBy(providers: seq<Provider>): seq<nat> {
    seq(|providers|, i requires 0 <= i < |providers| => providers[i].rejected)
  }

  lemma {:induction false} SumIsAccepted(providers: seq<Provider>)
    ensures Sum(AcceptedBy(providers)) == SumAccepted(providers)
  {
    if providers != [] {
      var n := |providers| - 1;
      assert AcceptedBy(providers)[..n] == AcceptedBy(providers[..n]);
      SumIsAccepted(providers[..n]);
    }
  }

  lemma {:induction false} FreshCounts(completed: seq<bool>, chunks: seq<ChunkState>)
    requires |chunks| == |completed|
    requires forall i | 0 <= i < |chunks| :: chunks[i] == if completed[i] then Complete else Missing
    ensures CountComplete(chunks) == CountTrue(completed)
  {
    if chunks != [] {
      var n := |chunks| - 1;
      FreshCounts(completed[..n], chunks[..n]);
    }
  }

  // ----- The two ends of the session -----

  /** What opening leaves, as a process. */
  lemma {:induction false} OpenedIs(h: Hash, m: Manifest, disk: Disk, atomicRename: bool, q: Process)
    requires Openable(h, m, disk) && q.record.Some?
    requires disk.state.Some? ==> q.disk == disk && disk.state.value.decoded == q.record
    requires disk.state.None? ==>
               && q.record == Some(FreshRecord(m))
               && q.disk == Disk(Some(Zeros(m.length)), Some(SavedFile(FreshRecord(m))), disk.output)
    ensures q == Next(h, m, Process(disk, None), Opening(atomicRename)) && Tracking(m, q)
    ensures Points(h, m, Process(disk, None), Opening(atomicRename)) ==
            if disk.state.None? then CreatePoints(disk, m, atomicRename) else []
  {
    hide Zeros, EncodedSize;
  }

  /** What publishing leaves, as a process. */
  lemma {:induction false} FinishedIs(h: Hash, m: Manifest, p: Process, atomicRename: bool)
    requires Tracking(m, p) && p.record.Some?
    ensures var q, points := Next(h, m, p, Publishing(atomicRename)), Points(h, m, p, Publishing(atomicRename));
            if Passes(h, p.disk.part.value, m.length, m.contentId) then
              q.disk == Disk(None, None, p.disk.part) && points == PublishPoints(p.disk, atomicRename)
            else q.disk == p.disk && points == []
  {
  }

  /** A process that has followed the run has followed the session up to its publication. */
  lemma {:induction false} FollowsSession(
    h: Hash, m: Manifest, disk: Disk, states: seq<System>, labels: seq<Label>, atomicRename: bool,
    p: Process, written: seq<Disk>)
    requires var first := Next(h, m, Process(disk, None), Opening(atomicRename));
             Follows(h, m, first, states, labels, atomicRename, p, written)
    ensures |states| == |labels| + 1
    ensures var start, events := Process(disk, None), EventsBy(h, m, states, labels, atomicRename, |labels|);
            && After(h, m, start, events) == p
            && Disks(h, m, start, events) == Points(h, m, start, Opening(atomicRename)) + written
  {
    var start, open := Process(disk, None), [Opening(atomicRename)];
    var events := Events(h, m, states, labels, atomicRename, |labels|);
    AfterOne(h, m, start, open[0]);
    AfterAppend(h, m, start, open, events);
    DisksAppend(h, m, start, open, events);
    hide After, Disks, Events, Next, Points, Tracking;
  }

  /** And, once it has published, the whole session. */
  lemma {:induction false} FollowsToTheEnd(
    h: Hash, m: Manifest, disk: Disk, states: seq<System>, labels: seq<Label>, atomicRename: bool, p: Process)
    requires |states| == |labels| + 1 && Tracking(m, p)
    requires After(h, m, Process(disk, None), EventsBy(h, m, states, labels, atomicRename, |labels|)) == p
    ensures var start, before := Process(disk, None), EventsBy(h, m, states, labels, atomicRename, |labels|);
            var events := SessionEvents(h, m, states, labels, atomicRename);
            if states[|labels|].main == Ended(Finished) then
              && After(h, m, start, events) == Next(h, m, p, Publishing(atomicRename))
              && Disks(h, m, start, events) == Disks(h, m, start, before) + Points(h, m, p, Publishing(atomicRename))
            else events == before
  {
    var start, before := Process(disk, None), EventsBy(h, m, states, labels, atomicRename, |labels|);
    AfterAppend(h, m, start, before, [Publishing(atomicRename)]);
    DisksAppend(h, m, start, before, [Publishing(atomicRename)]);
    AfterOne(h, m, p, Publishing(atomicRename));
    hide After, Disks, EventsBy, Next, Points, Tracking;
  }

  // ----- The fetch -----

  /** The statistics add up: what was resumed and what the providers supplied is every chunk. */
  ghost predicate AddsUp(
    m: Manifest, availability: seq<PieceAvailability>, completed: seq<bool>, stats: TransferStats)
  {
    && stats.resumedChunks == CountTrue(completed) && |stats.accepted| == |stats.rejected| == |availability|
    && Sum(stats.accepted) + stats.resumedChunks == |m.chunks| && stats.retries <= |availability|
  }

  /** They are what happened: per provider the good and the other results taken from it, and the latter in all. */
  ghost predicate StatsTell(
    h: Hash, m: Manifest, states: seq<System>, labels: seq<Label>, stats: TransferStats)
  {
    && |states| == |labels| + 1 && stats.retries == Spoiled(h, m, states, labels, |labels|)
    && (forall p | 0 <= p < |stats.accepted| :: stats.accepted[p] == Taken(h, m, states, labels, |labels|, p, true))
    && (forall p | 0 <= p < |stats.rejected| :: stats.rejected[p] == Taken(h, m, states, labels, |labels|, p, false))
  }

  lemma {:induction false} StatsAddUp(
    h: Hash, m: Manifest, availability: seq<PieceAvailability>, states: seq<System>, labels: seq<Label>)
    requires IsRun(h, m, states, labels) && Initial(m, availability, states[0])
    requires IsComplete(states[|labels|].sched)
    ensures var sched := states[|labels|].sched;
            AddsUp(m, availability, states[0].completed,
                   TransferStats(AcceptedBy(sched.providers), RejectedBy(sched.providers), sched.retries,
                                 CountTrue(states[0].completed)))
  {
    var sched := states[|labels|].sched;
    RunInv(h, m, availability, states, labels, |labels|);
    FreshCounts(states[0].completed, states[0].sched.chunks);
    SumIsAccepted(sched.providers);
    CountBounds(sched);
  }

  /** The download is open on `disk`, with the scheduler set up from its record. */
  ghost predicate Ready(
    h: Hash, m: Manifest, availability: seq<PieceAvailability>, disk: Disk, atomicRename: bool, p: Process,
    sched: State)
  {
    && Openable(h, m, disk) && p.record.Some? && p == Next(h, m, Process(disk, None), Opening(atomicRename))
    && WellFormedInput(|m.chunks|, availability, p.record.value.completed)
    && sched == Fresh(availability, p.record.value.completed) && CanFinish(sched)
  }

  lemma {:induction false} ReadyIsTracking(
    h: Hash, m: Manifest, availability: seq<PieceAvailability>, disk: Disk, atomicRename: bool, p: Process,
    sched: State)
    requires Ready(h, m, availability, disk, atomicRename, p, sched)
    ensures Tracking(m, p) && ValidateShape(m).Ok? && |sched.providers| == |availability|
    ensures p == Next(h, m, Process(disk, None), Opening(atomicRename))
  {
    hide Next;
  }

  /** A process that is still alive has followed a session, and it was not a disk failure that ended it. */
  lemma {:induction false} LoopIsSession(
    h: Hash, m: Manifest, availability: seq<PieceAvailability>, disk: Disk, atomicRename: bool, first: Process,
    sched: State, states: seq<System>, labels: seq<Label>, p: Process, written: seq<Disk>)
    requires Ready(h, m, availability, disk, atomicRename, first, sched)
    requires IsRun(h, m, states, labels) && Initial(m, availability, states[0]) && Mirrors(states[0], first)
    requires Follows(h, m, first, states, labels, atomicRename, p, written) && p.record.Some?
    ensures IsSession(h, m, availability, disk, states, labels, atomicRename)
    ensures AtLoopEnd(h, m, disk, atomicRename, states, labels, p, written)
    ensures p.disk.output == disk.output && states[|labels|].main != Ended(DiskFailed)
  {
    FollowsSession(h, m, disk, states, labels, atomicRename, p, written);
    hide Next, After, Disks, EventsBy, Openable, Initial, IsRun, Points, Tracking;
    SessionMirrors(h, m, availability, disk, states, labels, atomicRename, |labels|);
  }

  /** Where the loop leaves the process, and the disks written by then, those of the opening included. */
  ghost predicate AtLoopEnd(
    h: Hash, m: Manifest, disk: Disk, atomicRename: bool, states: seq<System>, labels: seq<Label>,
    p: Process, written: seq<Disk>)
  {
    && |states| == |labels| + 1 && Tracking(m, p)
    && var start, events := Process(disk, None), EventsBy(h, m, states, labels, atomicRename, |labels|);
       && After(h, m, start, events) == p
       && Disks(h, m, start, events) == Points(h, m, start, Opening(atomicRename)) + written
  }

  /** Where the whole session leaves the disk, and the disks written by then. */
  ghost predicate AtEnd(
    h: Hash, m: Manifest, disk: Disk, atomicRename: bool, states: seq<System>, labels: seq<Label>,
    left: Disk, written: seq<Disk>)
  {
    && |states| == |labels| + 1
    && var start, events := Process(disk, None), SessionEvents(h, m, states, labels, atomicRename);
       && After(h, m, start, events).disk == left
       && Disks(h, m, start, events) == Points(h, m, start, Opening(atomicRename)) + written
  }

  lemma {:induction false} StoppedIsEnd(
    h: Hash, m: Manifest, disk: Disk, atomicRename: bool, states: seq<System>, labels: seq<Label>,
    p: Process, written: seq<Disk>)
    requires AtLoopEnd(h, m, disk, atomicRename, states, labels, p, written)
    requires states[|labels|].main != Ended(Finished)
    ensures AtEnd(h, m, disk, atomicRename, states, labels, p.disk, written)
  {
    hide After, Disks, Points, Tracking, SessionEvents, EventsBy;
    FollowsToTheEnd(h, m, disk, states, labels, atomicRename, p);
  }

  lemma {:induction false} PublishedIsEnd(
    h: Hash, m: Manifest, disk: Disk, atomicRename: bool, states: seq<System>, labels: seq<Label>,
    p: Process, written: seq<Disk>)
    requires AtLoopEnd(h, m, disk, atomicRename, states, labels, p, written) && p.record.Some?
    requires states[|labels|].main == Ended(Finished)
    ensures p.disk.part.Some? && p.record.value.manifest == m
    ensures if Passes(h, p.disk.part.value, m.length, m.contentId) then
              AtEnd(h, m, disk, atomicRename, states, labels,
                    Disk(None, None, p.disk.part), written + PublishPoints(p.disk, atomicRename))
            else AtEnd(h, m, disk, atomicRename, states, labels, p.disk, written)
  {
    FinishedIs(h, m, p, atomicRename);
    hide After, Disks, Points, Tracking, SessionEvents, EventsBy, Next, PublishPoints;
    FollowsToTheEnd(h, m, disk, states, labels, atomicRename, p);
    var start := Process(disk, None);
    var first, last := Points(h, m, start, Opening(atomicRename)), Points(h, m, p, Publishing(atomicRename));
    assert first + written + last == first + (written + last);
    assert written + [] == written;
  }

  /** The loop, on a download that has been opened on `disk`. */
  method RunLoop(
    h: Hash, m: Manifest, availability: seq<PieceAvailability>, resume: ResumeDownload, scheduler: Scheduler,
    environment: Environment, stopAt: Option<nat>, atomicRename: bool, ghost disk: Disk, ghost honest: set<nat>)
    returns (outcome: Outcome, ghost states: seq<System>, ghost labels: seq<Label>)
    requires Ready(h, m, availability, disk, atomicRename,
                   Process(resume.OnDisk(), Some(resume.record)), scheduler.View())
    modifies resume, scheduler
    ensures IsSession(h, m, availability, disk, states, labels, atomicRename)
    ensures states[0].completed == old(resume.record.completed) && states[|labels|].main == Ended(outcome)
    ensures states[|labels|].sched == scheduler.View() && (outcome == Finished ==> IsComplete(scheduler.View()))
    ensures outcome in {Finished, StoppedLocally, TimedOut, NoHonestProvider}
    ensures EndsAsPlayed(environment, stopAt, states, labels)
    ensures Reliable(h, m, availability, states[0].completed, environment, honest) ==>
              outcome == Finished || outcome == StoppedLocally
    ensures old(resume.points) <= resume.points && resume.output == old(resume.output) == disk.output
    ensures AtLoopEnd(h, m, disk, atomicRename, states, labels, Process(resume.OnDisk(), Some(resume.record)),
                      resume.points[|old(resume.points)|..])
  {
    ghost var first, sched := Process(resume.OnDisk(), Some(resume.record)), scheduler.View();
    ReadyIsTracking(h, m, availability, disk, atomicRename, first, sched);
    OpeningOutput(h, m, disk, atomicRename);
    hide Next, Follows, IsRun, Openable, AtLoopEnd, IsSession, WellFormedInput, CanFinish, EndsAsPlayed, Reliable;
    var receiver := new Receiver(h, m, scheduler, resume, atomicRename, environment, stopAt);
    outcome := receiver.DownloadChunks(availability, [], honest);
    states, labels := receiver.states, receiver.labels;
    LoopIsSession(h, m, availability, disk, atomicRename, first, sched, states, labels,
                  Process(resume.OnDisk(), Some(resume.record)), receiver.Written());
  }

  /** Everything after the scheduler has been set up. */
  method RunAndFinish(
    h: Hash, m: Manifest, availability: seq<PieceAvailability>, contentId: Digest, resume: ResumeDownload,
    scheduler: Scheduler, environment: Environment, stopAt: Option<nat>, atomicRename: bool, resumedChunks: nat,
    ghost disk: Disk, ghost honest: set<nat>)
    returns (r: Result<TransferStats, FetchError>, ghost states: seq<System>, ghost labels: seq<Label>)
    requires Ready(h, m, availability, disk, atomicRename,
                   Process(resume.OnDisk(), Some(resume.record)), scheduler.View())
    requires resumedChunks == CountTrue(resume.record.completed)
    modifies resume, scheduler
    ensures IsSession(h, m, availability, disk, states, labels, atomicRename)
    ensures Tells(states[|labels|].main, r)
    ensures EndsAsPlayed(environment, stopAt, states, labels)
    ensures states[0].completed == old(resume.record.completed)
    ensures Reliable(h, m, availability, states[0].completed, environment, honest) ==>
              states[|labels|].main == Ended(Finished) || states[|labels|].main == Ended(StoppedLocally)
    ensures old(resume.points) <= resume.points
    ensures contentId == m.contentId ==>
              AtEnd(h, m, disk, atomicRename, states, labels, resume.OnDisk(), resume.points[|old(resume.points)|..])
    ensures r.Err? ==> resume.output == old(resume.output) == disk.output
    ensures r.Err? && r.error.FinishFailed? ==> resume.part.Some?
    ensures r.Ok? ==>
              && resume.part.None? && resume.state.None? && resume.output.Some?
              && Passes(h, resume.output.value, m.length, contentId)
              && AddsUp(m, availability, old(resume.record.completed), r.value)
              && StatsTell(h, m, states, labels, r.value)
  {
    hide IsSession, AtEnd, AtLoopEnd, AddsUp, StatsTell, Ready, Passes, IsComplete, EndsAsPlayed, Reliable;
    var outcome;
    outcome, states, labels := RunLoop(
      h, m, availability, resume, scheduler, environment, stopAt, atomicRename, disk, honest);
    if outcome != Finished {
      StoppedIsEnd(h, m, disk, atomicRename, states, labels, Process(resume.OnDisk(), Some(resume.record)),
                   resume.points[|old(resume.points)|..]);
      return Err(LoopEnded(outcome)), states, labels;
    }
    var stats := TransferStats(
      AcceptedBy(scheduler.providers), RejectedBy(scheduler.providers), scheduler.retries, resumedChunks);
    SessionStats(h, m, availability, disk, states, labels, atomicRename, stats);
    var finished := FinishFetch(h, m, contentId, resume, atomicRename, disk, states, labels, old(resume.points));
    r := if finished.Err? then Err(FinishFailed(finished.error)) else Ok(stats);
  }

  lemma {:induction false} SessionStats(
    h: Hash, m: Manifest, availability: seq<PieceAvailability>, disk: Disk,
    states: seq<System>, labels: seq<Label>, atomicRename: bool, stats: TransferStats)
    requires IsSession(h, m, availability, disk, states, labels, atomicRename) && IsComplete(states[|labels|].sched)
    requires var sched := states[|labels|].sched;
             stats == TransferStats(AcceptedBy(sched.providers), RejectedBy(sched.providers), sched.retries,
                                    CountTrue(states[0].completed))
    ensures AddsUp(m, availability, states[0].completed, stats) && StatsTell(h, m, states, labels, stats)
  {
    StatsAddUp(h, m, availability, states, labels);
    CountersTell(h, m, availability, states, labels, |labels|);
  }

  /** The publication that ends a session. */
  method FinishFetch(
    h: Hash, m: Manifest, contentId: Digest, resume: ResumeDownload, atomicRename: bool,
    ghost disk: Disk, ghost states: seq<System>, ghost labels: seq<Label>, ghost before: seq<Disk>)
    returns (r: Result<(), ResumeError>)
    requires before <= resume.points
    requires AtLoopEnd(h, m, disk, atomicRename, states, labels, Process(resume.OnDisk(), Some(resume.record)),
                       resume.points[|before|..])
    requires states[|labels|].main == Ended(Finished)
    modifies resume
    ensures before <= resume.points
    ensures contentId == m.contentId ==>
              AtEnd(h, m, disk, atomicRename, states, labels, resume.OnDisk(), resume.points[|before|..])
    ensures r.Err? ==> resume.output == old(resume.output) && resume.part.Some?
    ensures r.Ok? ==>
              && resume.part.None? && resume.state.None? && resume.output.Some?
              && Passes(h, resume.output.value, m.length, contentId)
  {
    ghost var p, written := Process(resume.OnDisk(), Some(resume.record)), resume.points[|before|..];
    PublishedIsEnd(h, m, disk, atomicRename, states, labels, p, written);
    hide AtLoopEnd, AtEnd, PublishPoints, Passes;
    ghost var at := resume.points;
    r := resume.Finish(h, contentId, atomicRename);
    if r.Ok? {
      Tails(before, at, PublishPoints(p.disk, atomicRename));
    }
  }

  /** How the result tells what the loop came to. */
  predicate Tells(main: Main, r: Result<TransferStats, FetchError>) {
    if r.Ok? || r.error.FinishFailed? then main == Ended(Finished)
    else
      && r.error.LoopEnded? && main == Ended(r.error.outcome)
      && r.error.outcome in {StoppedLocally, TimedOut, NoHonestProvider}
  }

  // ----- From the very start -----

  ghost predicate Consistent(manifests: seq<Manifest>) {
    forall i | 0 <= i < |manifests| :: manifests[i] == manifests[0]
  }

  /** The record that opening finds or makes. */
  ghost function OpenedRecord(m: Manifest, disk: Disk): Record {
    if disk.state.Some? && disk.state.value.decoded.Some? then disk.state.value.decoded.value else FreshRecord(m)
  }

  /** The first of the checks to fail, if any does before the loop. */
  ghost function Refusal(
    h: Hash, manifests: seq<Manifest>, availability: seq<PieceAvailability>, disk: Disk): Option<Refused>
    requires manifests != []
  {
    var m := manifests[0];
    var completed := OpenedRecord(m, disk).completed;
    if !Consistent(manifests) then Some(BadManifests)
    else if !Openable(h, m, disk) then Some(BadDisk)
    else if !WellFormedInput(|m.chunks|, availability, completed) then Some(BadAvailability)
    else if !CanFinish(Fresh(availability, completed)) then Some(BadCoverage)
    else None
  }

  datatype Refused = BadManifests | BadDisk | BadAvailability | BadCoverage

  predicate Says(e: FetchError, refused: Refused) {
    match refused
    case BadManifests => e == InconsistentManifests
    case BadDisk => e.OpenFailed?
    case BadAvailability => e.SchedulerRefused?
    case BadCoverage => e == NotCovered
  }

  /** The disk is left where the events take it, and every disk on the way has been written, in order. */
  ghost predicate Ran(h: Hash, m: Manifest, disk: Disk, events: seq<Event>, left: Disk, written: seq<Disk>) {
    After(h, m, Process(disk, None), events).disk == left && Disks(h, m, Process(disk, None), events) == written
  }

  lemma {:induction false} EndIsRan(
    h: Hash, m: Manifest, disk: Disk, atomicRename: bool, states: seq<System>, labels: seq<Label>,
    left: Disk, written: seq<Disk>)
    requires AtEnd(h, m, disk, atomicRename, states, labels, left, written)
    ensures Ran(h, m, disk, SessionEvents(h, m, states, labels, atomicRename), left,
                Points(h, m, Process(disk, None), Opening(atomicRename)) + written)
  {
  }

  /** The history that the session makes. */
  ghost function History(
    h: Hash, m: Manifest, disk: Disk, states: seq<System>, labels: seq<Label>, atomicRename: bool): seq<Process>
    requires |states| == |labels| + 1
  {
    Trace(h, m, Process(disk, None), SessionEvents(h, m, states, labels, atomicRename))
  }

  /** What a caller finds afterwards. */
  ghost predicate FetchLeaves(
    h: Hash, content: seq<Byte>, m: Manifest, disk: Disk, r: Result<TransferStats, FetchError>, left: Disk)
  {
    if r.Ok? then left == Disk(None, None, Some(content))
    else r.error.LoopEnded? && left.output == disk.output && Openable(h, m, left)
  }

  ghost predicate SessionForged(
    h: Hash, content: seq<Byte>, m: Manifest, disk: Disk, states: seq<System>, labels: seq<Label>, atomicRename: bool)
    requires |states| == |labels| + 1
  {
    var events := SessionEvents(h, m, states, labels, atomicRename);
    var history := History(h, m, disk, states, labels, atomicRename);
    IsHistory(h, m, history, events) && ResumeHistory.Forged(h, content, m, history, events, |events|)
  }

  lemma {:induction false} FetchEnds(
    h: Hash, content: seq<Byte>, m: Manifest, availability: seq<PieceAvailability>, disk: Disk,
    states: seq<System>, labels: seq<Label>, atomicRename: bool, r: Result<TransferStats, FetchError>,
    left: Disk, written: seq<Disk>)
    requires Built(h, content, m) && IsSession(h, m, availability, disk, states, labels, atomicRename)
    requires Tells(states[|labels|].main, r) && (r.Err? ==> left.output == disk.output)
    requires r.Err? && r.error.FinishFailed? ==> left.part.Some?
    requires Ran(h, m, disk, SessionEvents(h, m, states, labels, atomicRename), left, written)
    ensures || FetchLeaves(h, content, m, disk, r, left)
            || SessionForged(h, content, m, disk, states, labels, atomicRename)
  {
    var events := SessionEvents(h, m, states, labels, atomicRename);
    SessionEnds(h, content, m, availability, disk, states, labels, atomicRename);
    TraceIsHistory(h, m, Process(disk, None), events);
    hide IsHistory, SessionEvents, Trace, ResumeHistory.Forged, Openable, After, Disks, Mirrors;
  }

  lemma {:induction false} RanNothing(h: Hash, m: Manifest, disk: Disk)
    ensures Ran(h, m, disk, [], disk, [])
  {
    AfterNothing(h, m, Process(disk, None));
  }

  lemma {:induction false} RanOpening(h: Hash, m: Manifest, disk: Disk, atomicRename: bool)
    ensures Ran(h, m, disk, [Opening(atomicRename)], Next(h, m, Process(disk, None), Opening(atomicRename)).disk,
                Points(h, m, Process(disk, None), Opening(atomicRename)))
  {
    AfterOne(h, m, Process(disk, None), Opening(atomicRename));
  }

  /** The download has just been opened on `disk`. */
  ghost predicate JustOpened(
    h: Hash, m: Manifest, disk: Disk, atomicRename: bool, p: Process, written: seq<Disk>)
  {
    && Openable(h, m, disk) && p == Next(h, m, Process(disk, None), Opening(atomicRename))
    && p.record == Some(OpenedRecord(m, disk))
    && written == Points(h, m, Process(disk, None), Opening(atomicRename))
  }

  /** What a session makes of the disk, once nothing has been refused. */
  ghost predicate Fetched(
    h: Hash, content: seq<Byte>, m: Manifest, availability: seq<PieceAvailability>, contentId: Digest, disk: Disk,
    states: seq<System>, labels: seq<Label>, atomicRename: bool,
    r: Result<TransferStats, FetchError>, left: Disk, written: seq<Disk>)
  {
    && IsSession(h, m, availability, disk, states, labels, atomicRename)
    && Tells(states[|labels|].main, r)
    && (contentId == m.contentId ==>
          && Ran(h, m, disk, SessionEvents(h, m, states, labels, atomicRename), left, written)
          && (Built(h, content, m) ==>
                || FetchLeaves(h, content, m, disk, r, left)
                || SessionForged(h, content, m, disk, states, labels, atomicRename)))
  }

  /**
   * What the environment has to do with it: every step of the session is one it asked for, and if it is reliable and
   * the caller does not stop the download, the content is published, unless other data was accepted for it.
   */
  ghost predicate Delivered(
    h: Hash, content: seq<Byte>, m: Manifest, availability: seq<PieceAvailability>, contentId: Digest, disk: Disk,
    environment: Environment, stopAt: Option<nat>, honest: set<nat>, states: seq<System>, labels: seq<Label>,
    atomicRename: bool, r: Result<TransferStats, FetchError>, left: Disk)
  {
    && EndsAsPlayed(environment, stopAt, states, labels)
    && (Reliable(h, m, availability, OpenedRecord(m, disk).completed, environment, honest) && stopAt.None?
        && contentId == m.contentId && Built(h, content, m) ==>
          || (r.Ok? && left == Disk(None, None, Some(content)))
          || SessionForged(h, content, m, disk, states, labels, atomicRename))
  }

  lemma {:induction false} ReliableDelivers(
    h: Hash, content: seq<Byte>, m: Manifest, availability: seq<PieceAvailability>, contentId: Digest, disk: Disk,
    environment: Environment, stopAt: Option<nat>, honest: set<nat>, states: seq<System>, labels: seq<Label>,
    atomicRename: bool, r: Result<TransferStats, FetchError>, left: Disk, written: seq<Disk>)
    requires Fetched(h, content, m, availability, contentId, disk, states, labels, atomicRename, r, left, written)
    requires EndsAsPlayed(environment, stopAt, states, labels)
    requires Reliable(h, m, availability, OpenedRecord(m, disk).completed, environment, honest) ==>
               states[|labels|].main == Ended(Finished) || states[|labels|].main == Ended(StoppedLocally)
    ensures Delivered(h, content, m, availability, contentId, disk, environment, stopAt, honest, states, labels,
                      atomicRename, r, left)
  {
    assert stopAt.None? ==> states[|labels|].main != Ended(StoppedLocally);
    hide IsSession, Ran, SessionForged, Reliable, PlayedBy, Silent, Built, OpenedRecord, Openable;
  }

  /** Everything after the opening. */
  method Schedule(
    h: Hash, m: Manifest, availability: seq<PieceAvailability>, contentId: Digest, resume: ResumeDownload,
    environment: Environment, stopAt: Option<nat>, atomicRename: bool, resumedChunks: nat,
    ghost disk: Disk, ghost before: seq<Disk>, ghost content: seq<Byte>, ghost honest: set<nat>)
    returns (r: Result<TransferStats, FetchError>, ghost states: seq<System>, ghost labels: seq<Label>)
    requires before <= resume.points && resumedChunks == CountTrue(resume.record.completed)
    requires JustOpened(h, m, disk, atomicRename,
                        Process(resume.OnDisk(), Some(resume.record)), resume.points[|before|..])
    modifies resume
    ensures before <= resume.points && (r.Err? ==> resume.output == disk.output)
    ensures var completed := OpenedRecord(m, disk).completed;
            if !WellFormedInput(|m.chunks|, availability, completed) then
              && r.Err? && r.error.SchedulerRefused?
              && Ran(h, m, disk, [Opening(atomicRename)], resume.OnDisk(), resume.points[|before|..])
            else if !CanFinish(Fresh(availability, completed)) then
              && r == Err(NotCovered)
              && Ran(h, m, disk, [Opening(atomicRename)], resume.OnDisk(), resume.points[|before|..])
            else
              && Fetched(h, content, m, availability, contentId, disk, states, labels, atomicRename, r,
                         resume.OnDisk(), resume.points[|before|..])
              && Delivered(h, content, m, availability, contentId, disk, environment, stopAt, honest, states, labels,
                           atomicRename, r, resume.OnDisk())
    ensures r.Ok? ==>
              && resume.part.None? && resume.state.None? && resume.output.Some?
              && Passes(h, resume.output.value, m.length, contentId)
              && AddsUp(m, availability, OpenedRecord(m, disk).completed, r.value)
              && StatsTell(h, m, states, labels, r.value)
  {
    RanOpening(h, m, disk, atomicRename);
    OpeningOutput(h, m, disk, atomicRename);
    states, labels := [], [];
    hide Ran, Fetched, Next, Points, Openable, WellFormedInput, CanFinish, AddsUp, Passes, OpenedRecord, Fresh,
      AtEnd, IsSession, Tells, StatsTell, EndsAsPlayed, Reliable, Delivered;
    var scheduler := Scheduler.New(|m.chunks|, availability, resume.record.completed);
    if scheduler.Err? {
      return Err(SchedulerRefused(scheduler.error)), states, labels;
    }
    if !CanFinish(scheduler.value.View()) {
      return Err(NotCovered), states, labels;
    }
    ghost var opening := resume.points;
    r, states, labels := RunAndFinish(
      h, m, availability, contentId, resume, scheduler.value, environment, stopAt, atomicRename, resumedChunks, disk,
      honest);
    ghost var written := resume.points[|opening|..];
    FetchedBy(h, content, m, availability, contentId, disk, states, labels, atomicRename, r, resume.OnDisk(), written);
    assert resume.points == opening + written;
    Tails(before, opening, written);
    ReliableDelivers(h, content, m, availability, contentId, disk, environment, stopAt, honest, states, labels,
                     atomicRename, r, resume.OnDisk(), resume.points[|before|..]);
  }

  lemma {:induction false} FetchedBy(
    h: Hash, content: seq<Byte>, m: Manifest, availability: seq<PieceAvailability>, contentId: Digest, disk: Disk,
    states: seq<System>, labels: seq<Label>, atomicRename: bool,
    r: Result<TransferStats, FetchError>, left: Disk, written: seq<Disk>)
    requires IsSession(h, m, availability, disk, states, labels, atomicRename)
    requires Tells(states[|labels|].main, r) && (r.Err? ==> left.output == disk.output)
    requires r.Err? && r.error.FinishFailed? ==> left.part.Some?
    requires contentId == m.contentId ==> AtEnd(h, m, disk, atomicRename, states, labels, left, written)
    ensures Fetched(h, content, m, availability, contentId, disk, states, labels, atomicRename, r, left,
                    Points(h, m, Process(disk, None), Opening(atomicRename)) + written)
  {
    hide Ran, AtEnd, IsSession, Tells, Points, SessionEvents, SessionForged, FetchLeaves;
    if contentId == m.contentId {
      EndIsRan(h, m, disk, atomicRename, states, labels, left, written);
      if Built(h, content, m) {
        FetchEnds(h, content, m, availability, disk, states, labels, atomicRename, r, left,
                  Points(h, m, Process(disk, None), Opening(atomicRename)) + written);
      }
    }
  }

  /**
   * `receive_swarm`. It refuses with the first check that fails; up to the opening a refusal touches nothing. Otherwise
   * it is a session: the disks it writes are those of the session's history, in order. For a manifest built from
   * `content` it ends with the content published and both files gone, or with the output as it was and a disk that
   * opens again, unless other data was accepted under a digest of the content. Every step is one that the environment
   * asked for; if it is reliable and the caller does not stop the download, the content is published.
   */
  method Receive(
    h: Hash, manifests: seq<Manifest>, availability: seq<PieceAvailability>, contentId: Digest, resume: ResumeDownload,
    environment: Environment, stopAt: Option<nat>, atomicRename: bool,
    ghost content: seq<Byte>, ghost honest: set<nat>)
    returns (r: Result<TransferStats, FetchError>, ghost states: seq<System>, ghost labels: seq<Label>)
    requires 0 < |manifests| == |availability|
    modifies resume
    ensures old(resume.points) <= resume.points
    ensures var refused := Refusal(h, manifests, availability, old(resume.OnDisk()));
            refused.Some? ==>
              && r.Err? && Says(r.error, refused.value)
              && Ran(h, manifests[0], old(resume.OnDisk()),
                     if refused.value in {BadManifests, BadDisk} then [] else [Opening(atomicRename)],
                     resume.OnDisk(), resume.points[|old(resume.points)|..])
    ensures Refusal(h, manifests, availability, old(resume.OnDisk())).None? ==>
              && Fetched(h, content, manifests[0], availability, contentId, old(resume.OnDisk()), states, labels,
                         atomicRename, r, resume.OnDisk(), resume.points[|old(resume.points)|..])
              && Delivered(h, content, manifests[0], availability, contentId, old(resume.OnDisk()), environment, stopAt,
                           honest, states, labels, atomicRename, r, resume.OnDisk())
    ensures r.Err? ==> resume.output == old(resume.output)
    ensures r.Ok? ==>
              && resume.part.None? && resume.state.None? && resume.output.Some?
              && Passes(h, resume.output.value, manifests[0].length, contentId)
              && AddsUp(manifests[0], availability, OpenedRecord(manifests[0], old(resume.OnDisk())).completed, r.value)
              && StatsTell(h, manifests[0], states, labels, r.value)
  {
    var m := manifests[0];
    ghost var disk, before := resume.OnDisk(), resume.points;
    states, labels := [], [];
    if exists i | 0 <= i < |manifests| :: manifests[i] != m {
      RanNothing(h, m, disk);
      return Err(InconsistentManifests), states, labels;
    }
    var resumed := resume.Open(h, m, atomicRename);
    if resumed.Err? {
      RanNothing(h, m, disk);
      return Err(OpenFailed(resumed.error)), states, labels;
    }
    OpenedIs(h, m, disk, atomicRename, Process(resume.OnDisk(), Some(resume.record)));
    hide Ran, Fetched, Next, Points, WellFormedInput, CanFinish, AddsUp, StatsTell, Passes, CreatePoints, Delivered;
    assert resume.points[|before|..] == Points(h, m, Process(disk, None), Opening(atomicRename));
    r, states, labels := Schedule(
      h, m, availability, contentId, resume, environment, stopAt, atomicRename, resumed.value, disk, before, content,
      honest);
  }
}
