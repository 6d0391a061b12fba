/**
 * The main loop of the swarm download in its in-place form, proved to take only steps of the protocol in `Download`,
 * and of those the ones that its environment asks for.
 */
module DownloadLoop {
  import opened Prelude
  import opened Availability
  import opened Content
  import opened Scheduling
  import opened Download
  import opened Resume
  import opened ResumeHistory
  import opened SwarmSession
  import opened DownloadEnvironment

  class Receiver {
    const h: Hash
    const m: Manifest
    const scheduler: Scheduler
    const resume: ResumeDownload
    const atomicRename: bool
    const environment: Environment
    const stopAt: Option<nat>
    var workers: seq<Worker>
    var results: seq<WorkerResult>
    var main: Main
    var iterations: nat
    var answered: nat
    ghost const begin: Process
    ghost const passed: seq<Disk>
    ghost var states: seq<System>
    ghost var labels: seq<Label>

    function Now(): System
      reads this, scheduler, resume
    {
      var file := if resume.part.Some? then resume.part.value else [];
      System(scheduler.View(), workers, results, main, iterations, resume.record.completed, file)
    }

    ghost function Written(): seq<Disk>
      reads this, resume
    {
      if passed <= resume.points then resume.points[|passed|..] else []
    }

    /** The disk has kept up with the deliveries of the run so far. */
    ghost predicate OnTrack()
      reads this, resume
    {
      && resume.part.Some? && passed <= resume.points
      && Follows(h, m, begin, states, labels, atomicRename, Process(resume.OnDisk(), Some(resume.record)), Written())
    }

    /** The environment has asked for what happened so far. */
    ghost predicate Played()
      reads this
    {
      PlayedBy(environment, stopAt, states, labels) && answered == Answers(labels)
    }

    /** Nobody answers before the next result is taken. */
    predicate Settled()
      reads this
    {
      var a := NextAnswer(environment, answered, workers);
      a.None? || (results != [] && !a.value.early)
    }

    /** What happened so far is a run of the protocol ending here, and the disk has kept up with it. */
    ghost predicate Traced()
      reads this, scheduler, resume
    {
      && IsRun(h, m, states, labels) && Played() && states[|labels|] == Now()
      && OnTrack() && |resume.record.completed| == |m.chunks|
    }

    constructor (
      h: Hash, m: Manifest, scheduler: Scheduler, resume: ResumeDownload, atomicRename: bool,
      environment: Environment, stopAt: Option<nat>)
      requires resume.part.Some? && Tracking(m, Process(resume.OnDisk(), Some(resume.record)))
      ensures this.h == h && this.m == m && this.scheduler == scheduler
      ensures this.resume == resume && this.atomicRename == atomicRename
      ensures this.environment == environment && this.stopAt == stopAt
      ensures begin == Process(resume.OnDisk(), Some(resume.record)) && passed == resume.points
      ensures Traced() && labels == []
      ensures results == [] && main == LoopHead && iterations == 0
      ensures |workers| == |scheduler.providers| && forall k | 0 <= k < |workers| :: workers[k] == Worker(true, [])
    {
      this.h, this.m, this.scheduler, this.resume, this.atomicRename := h, m, scheduler, resume, atomicRename;
      this.environment, this.stopAt := environment, stopAt;
      begin, passed := Process(resume.OnDisk(), Some(resume.record)), resume.points;
      workers := seq(|scheduler.providers|, _ => Worker(true, []));
      results, main, iterations, answered := [], LoopHead, 0, 0;
      labels := [];
      new;
      states := [Now()];
      FollowsStart(h, m, begin, Now(), atomicRename);
    }

    /** Offers work to every slot in turn. */
    method AssignAll()
      requires Traced() && main == Assigning(0, false)
      modifies this`workers, this`main, this`states, this`labels, scheduler
      ensures Traced() && old(labels) <= labels && old(states) <= states
      ensures main == Ended(InternalError) || (main.Assigning? && main.slot == |workers|)
    {
      hide IsRun, Follows, PlayedBy, Answers, NextAnswer, RarestFirst, IsRarest, Candidate, CountInFlight, InFlightTo;
      var sent := false;
      for slot := 0 to |workers|
        invariant Traced() && main == Assigning(slot, sent) && |workers| == old(|workers|)
        invariant old(labels) <= labels && old(states) <= states
      {
        ghost var before := Now();
        var choice := scheduler.Assign(slot);
        ghost var sched := scheduler.View();
        if choice.Some? {
          if ExpectedChunkLength(m, choice.value).Err? {
            main := Ended(InternalError);
            Took(before, AssignSlot);
            return;
          }
          if workers[slot].alive {
            workers := workers[slot := workers[slot].(inbox := workers[slot].inbox + [choice.value])];
            sent := true;
          } else {
            scheduler.Reject(slot);
          }
        }
        main := Assigning(slot + 1, sent);
        Took(before, AssignSlot);
      }
    }

    /** A step that leaves the disk alone. */
    ghost method Took(before: System, l: Label)
      requires IsRun(h, m, states, labels) && states[|labels|] == before && |resume.record.completed| == |m.chunks|
      requires OnTrack() && Step(h, m, before, l, Now()) && PlayedBy(environment, stopAt, states, labels)
      requires Plays(environment, stopAt, before, Answers(labels), l)
      requires answered == Answers(labels) + if l.Respond? then 1 else 0
      requires l.Receive? ==>
                 before.results != [] && !Good(h, m, before.results[0].requested, before.results[0].response)
      modifies this`states, this`labels
      ensures Traced() && labels == old(labels) + [l] && states == old(states) + [Now()]
      ensures |states| == |labels| + 1
    {
      hide Step, Follows, EventsOf, IsRun, Good, PlayedBy, Plays, Answers;
      PlayedFurther(environment, stopAt, states, labels, Now(), l);
      QuietStep(h, m, before, l, atomicRename);
      FollowsQuietly(h, m, begin, states, labels, atomicRename,
                     Process(resume.OnDisk(), Some(resume.record)), Written(), Now(), l);
      RunExtends(h, m, states, labels, Now(), l);
      states := states + [Now()];
      labels := labels + [l];
    }

    /** Lets workers answer, one after another, until a result is waiting and no other is early, or nobody answers. */
    method Wait()
      requires Traced() && main == Waiting
      modifies this`workers, this`results, this`answered, this`states, this`labels
      ensures Traced() && Settled() && old(labels) <= labels && old(states) <= states
    {
      hide IsRun, Follows, PlayedBy, Answers;
      var a := NextAnswer(environment, answered, workers);
      while a.Some? && (results == [] || a.value.early)
        invariant Traced() && main == Waiting && a == NextAnswer(environment, answered, workers)
        invariant old(labels) <= labels && old(states) <= states
        decreases Requests(workers)
      {
        ghost var before := Now();
        var slot, response := a.value.slot, a.value.response;
        RequestAnswered(workers, slot, response.Got?);
        results := results + [WorkerResult(slot, workers[slot].inbox[0], response)];
        workers := workers[slot := Worker(response.Got?, workers[slot].inbox[1..])];
        answered := answered + 1;
        Took(before, Respond(slot, response));
        a := NextAnswer(environment, answered, workers);
      }
    }

    /** Takes one result: stores and records a good chunk, drops the provider of anything else. */
    method TakeResult()
      requires Traced() && main == Waiting && results != [] && Settled()
      modifies this, scheduler, resume
      ensures Traced() && labels == old(labels) + [Receive] && old(states) <= states && iterations == old(iterations)
      ensures main == LoopHead || (main.Ended? && main != Ended(StoppedLocally) && main != Ended(TimedOut))
    {
      hide IsRun, Follows, VerifyChunk, PlayedBy, Answers;
      var result := results[0];
      if Good(h, m, result.requested, result.response) {
        TakeChunk();
      } else {
        ghost var before := Now();
        results := results[1..];
        scheduler.Reject(result.provider);
        main := if CanFinish(scheduler.View()) then LoopHead else Ended(NoHonestProvider);
        assert Now() == ReceiveStep(h, m, before);
        hide ReceiveStep, CanFinish, Rejected;
        Took(before, Receive);
      }
    }

    method TakeChunk()
      requires Traced() && main == Waiting && results != [] && Settled()
      requires Good(h, m, results[0].requested, results[0].response)
      modifies this, scheduler, resume
      ensures Traced() && labels == old(labels) + [Receive] && old(states) <= states && iterations == old(iterations)
      ensures main == LoopHead || main == Ended(InternalError)
    {
      ghost var chunk, points := results[0].response.chunk, resume.points;
      ghost var before, p, written := Now(), Process(resume.OnDisk(), Some(resume.record)), Written();
      assert TakesGood(h, m, before) && |states| == |labels| + 1;
      hide IsRun, Follows, ChunkPoints, ReceiveStep, StoredBy, TakesGood, Good, Marked;
      StoreChunk();
      Tails(passed, points, ChunkPoints(p.disk, p.record.value, m, chunk, atomicRename));
      TookChunk(p, written);
    }

    /** A step that has stored and recorded a chunk. */
    ghost method TookChunk(p: Process, written: seq<Disk>)
      requires IsRun(h, m, states, labels) && Follows(h, m, begin, states, labels, atomicRename, p, written)
      requires TakesGood(h, m, states[|labels|]) && Now() == ReceiveStep(h, m, states[|labels|])
      requires Played() && Plays(environment, stopAt, states[|labels|], Answers(labels), Receive)
      requires p.record.Some? && p.disk.part.Some? && |p.record.value.completed| == |m.chunks|
      requires |resume.record.completed| == |m.chunks| && resume.part.Some? && passed <= resume.points
      requires var chunk := states[|labels|].results[0].response.chunk;
               && StoredBy(m, p, chunk, Process(resume.OnDisk(), Some(resume.record)))
               && Written() == written + ChunkPoints(p.disk, p.record.value, m, chunk, atomicRename)
      modifies this`states, this`labels
      ensures Traced() && labels == old(labels) + [Receive] && states == old(states) + [Now()]
    {
      hide IsRun, Follows, ChunkPoints, ReceiveStep, StoredBy, Good, Marked, PlayedBy, Plays, Answers;
      PlayedFurther(environment, stopAt, states, labels, Now(), Receive);
      FollowsReceive(h, m, begin, states, labels, atomicRename, p, written, Now(),
                     Process(resume.OnDisk(), Some(resume.record)));
      states := states + [Now()];
      labels := labels + [Receive];
    }

    /** Stores and records the good chunk at the head of the results, and tells the scheduler. */
    method StoreChunk()
      requires main == Waiting && results != [] && resume.part.Some? && |resume.record.completed| == |m.chunks|
      requires Good(h, m, results[0].requested, results[0].response)
      modifies this`results, this`main, scheduler, resume
      ensures Now() == ReceiveStep(h, m, old(Now())) && (main == LoopHead || main == Ended(InternalError))
      ensures |resume.record.completed| == |m.chunks| && resume.part.Some?
      ensures var chunk, p := old(results)[0].response.chunk, old(Process(resume.OnDisk(), Some(resume.record)));
              && chunk.index < |m.chunks| && StoredBy(m, p, chunk, Process(resume.OnDisk(), Some(resume.record)))
              && resume.points == old(resume.points) + ChunkPoints(p.disk, p.record.value, m, chunk, atomicRename)
    {
      hide WriteAll, ChunkPoints, SavedFile;
      var result := results[0];
      results := results[1..];
      var chunk := result.response.chunk;
      var stored := resume.WriteVerifiedChunk(h, m, chunk, atomicRename);
      var accepted := scheduler.Accept(result.provider, chunk.index);
      main := if accepted.Ok? then LoopHead else Ended(InternalError);
    }

    /** First half of the loop body: offer work to every slot, then decide whether there is anything to wait for. */
    method AssignPhase()
      requires Traced() && main == LoopHead && !IsComplete(scheduler.View()) && stopAt != Some(iterations)
      modifies this, scheduler, resume
      ensures Traced() && old(states) <= states && |old(labels)| < |labels| && iterations == old(iterations) + 1
      ensures main == Waiting || (main.Ended? && main != Ended(StoppedLocally) && main != Ended(TimedOut))
    {
      hide IsRun, Follows, PlayedBy, Answers;
      ghost var before := Now();
      iterations := iterations + 1;
      main := Assigning(0, false);
      Took(before, Check);
      AssignAll();
      if main.Assigning? {
        before := Now();
        main := AfterAssignStep(Now()).main;
        Took(before, AfterAssign);
      }
    }

    /** The last thing that happened is a timeout. */
    ghost predicate EndsInTimeout()
      reads this, scheduler, resume
    {
      && |states| == |labels| + 1 >= 2 && labels[|labels| - 1] == Timeout
      && states[|labels| - 1].workers == workers && states[|labels| - 1].results == results
    }

    /** Second half of the loop body: wait for one result and take it. */
    method CollectPhase()
      requires Traced() && main == Waiting
      modifies this, scheduler, resume
      ensures Traced() && old(states) <= states && old(labels) <= labels && iterations == old(iterations)
      ensures main == LoopHead || (main.Ended? && main != Ended(StoppedLocally))
      ensures main == Ended(TimedOut) ==> EndsInTimeout()
    {
      hide IsRun, Follows, PlayedBy, Answers;
      Wait();
      if results == [] {
        ghost var before := Now();
        main := Ended(TimedOut);
        Took(before, Timeout);
      } else {
        TakeResult();
      }
    }

    method Stop()
      requires Traced() && main == LoopHead && !IsComplete(scheduler.View())
      requires stopAt == Some(iterations)
      modifies this
      ensures Traced() && main == Ended(StoppedLocally) && old(states) <= states && |old(labels)| < |labels|
      ensures iterations == old(iterations) + 1
    {
      hide IsRun, Follows, PlayedBy, Answers;
      ghost var before := Now();
      main := Ended(StoppedLocally);
      iterations := iterations + 1;
      Took(before, LocalStop);
    }

    /** Between iterations: it has been stopped exactly if it has gone past the iteration it is told to stop at. */
    ghost predicate Between(first: System)
      reads this, scheduler, resume
    {
      && Traced() && states != [] && states[0] == first && (main == LoopHead || main.Ended?)
      && (main == Ended(StoppedLocally) <==> stopAt.Some? && iterations == stopAt.value + 1)
      && (stopAt.Some? ==> iterations <= stopAt.value + 1)
      && (main == Ended(TimedOut) ==> EndsInTimeout())
    }

    method Iterate(ghost first: System)
      requires Between(first) && main == LoopHead && !IsComplete(scheduler.View())
      modifies this, scheduler, resume
      ensures Between(first) && |old(labels)| < |labels| && (main == LoopHead || main.Ended?)
    {
      hide IsRun, Follows, PlayedBy, Answers, IsComplete, EndsInTimeout, OnTrack, Played;
      if stopAt == Some(iterations) {
        Stop();
      } else {
        AssignPhase();
        if main == Waiting {
          CollectPhase();
        }
      }
    }

    method Conclude(ghost first: System)
      requires Between(first) && main == LoopHead && IsComplete(scheduler.View())
      modifies this
      ensures Between(first) && main == Ended(Finished)
    {
      hide IsRun, Follows, PlayedBy, Answers;
      ghost var before := Now();
      main := Ended(Finished);
      Took(before, Check);
    }

    /**
     * The whole loop. However the workers behave it ends, without internal error, within (missing chunks + providers)
     * iterations, and it claims success only with every chunk complete and, for genuine content, with the content
     * itself in the partial file. It stops exactly at the iteration it is told to, and times out only when nobody
     * answers, though somebody should. In a reliable environment it finishes, unless it is stopped.
     */
    method DownloadChunks(
      ghost availability: seq<PieceAvailability>, ghost content: seq<Byte>, ghost honest: set<nat>)
      returns (outcome: Outcome)
      requires Traced() && labels == [] && Initial(m, availability, Now())
      modifies this, scheduler, resume
      ensures Traced() && states[0] == old(Now()) && main == Ended(outcome)
      ensures outcome != InternalError && outcome != NoHealthyProvider
      ensures outcome == Finished ==> IsComplete(scheduler.View())
      ensures EndsAsPlayed(environment, stopAt, states, labels)
      ensures Reliable(h, m, availability, old(Now()).completed, environment, honest) ==>
                outcome == Finished || outcome == StoppedLocally
      ensures iterations <= |m.chunks| - CountComplete(old(scheduler.chunks)) + |availability|
      ensures outcome == Finished && Built(h, content, m) && Agrees(content, old(Now()).file, old(Now()).completed) ==>
                Now().file == content || Download.Forged(h, m, content, states, labels, |labels|)
    {
      ghost var first := Now();
      assert states == [first] && main == LoopHead && iterations == 0;
      assert Between(first);
      hide IsRun, Follows, PlayedBy, Answers, Initial, IsComplete, Reliable, Silent, Measure, Built, Agrees;
      hide Download.Forged, CountComplete, EndsInTimeout, OnTrack, Played, EndsAsPlayed, Between;
      LabelsBounded(first, availability);
      while main == LoopHead && !IsComplete(scheduler.View())
        invariant Between(first) && |labels| <= Measure(first) && (main == LoopHead || main.Ended?)
        decreases Measure(first) - |labels|
      {
        Iterate(first);
        LabelsBounded(first, availability);
      }
      if main == LoopHead {
        Conclude(first);
      }
      outcome := main.outcome;
      Closing(first, availability, content, honest);
    }

    lemma {:induction false} LabelsBounded(first: System, availability: seq<PieceAvailability>)
      requires Between(first) && Initial(m, availability, first)
      ensures |labels| <= Measure(first)
    {
      RunBounds(h, m, availability, states, labels);
    }

    lemma {:induction false} LastIsSilent(availability: seq<PieceAvailability>)
      requires Traced() && Initial(m, availability, states[0]) && EndsInTimeout()
      ensures Silent(environment, Now(), answered)
    {
      var j := |labels| - 1;
      PlayedStep(h, m, availability, environment, stopAt, states, labels, j);
      assert labels == labels[..j] + [Timeout];
      OneMoreLabel(labels[..j], Timeout);
      hide IsRun, Initial, Follows, PlayedBy, Answers;
    }

    lemma {:induction false} Closing(
      first: System, availability: seq<PieceAvailability>, content: seq<Byte>, honest: set<nat>)
      requires Between(first) && main.Ended? && Initial(m, availability, first)
      ensures Traced() && states[0] == first
      ensures main != Ended(InternalError) && main != Ended(NoHealthyProvider)
      ensures EndsAsPlayed(environment, stopAt, states, labels)
      ensures Reliable(h, m, availability, first.completed, environment, honest) ==>
                main == Ended(Finished) || main == Ended(StoppedLocally)
      ensures iterations <= |m.chunks| - CountComplete(first.sched.chunks) + |availability|
      ensures main == Ended(Finished) ==> IsComplete(scheduler.View())
      ensures main == Ended(Finished) && Built(h, content, m) && Agrees(content, first.file, first.completed) ==>
                Now().file == content || Download.Forged(h, m, content, states, labels, |labels|)
    {
      if main == Ended(TimedOut) {
        LastIsSilent(availability);
      }
      if Reliable(h, m, availability, first.completed, environment, honest) {
        ReliableFinishes(h, m, availability, environment, stopAt, honest, states, labels);
      }
      assert EndsAsPlayed(environment, stopAt, states, labels);
      hide PlayedBy, Reliable, Silent, Answers, EndsAsPlayed;
      RunBounds(h, m, availability, states, labels);
      RunInv(h, m, availability, states, labels, |labels|);
      if main == Ended(Finished) && Built(h, content, m) && Agrees(content, first.file, first.completed) {
        RunAgrees(h, m, content, states, labels, |labels|);
        if !Download.Forged(h, m, content, states, labels, |labels|) {
          AllCompleteIsContent(content, Now().file, resume.record.completed);
        }
      }
    }
  }
}
