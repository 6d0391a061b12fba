/**
 * The swarm download: the receiver's main loop, one worker per provider, and the
 * shared result channel, as a step relation over every interleaving. Providers may
 * answer with anything, in any order, or fail.
 */
module Download {
  import opened Prelude
  import opened Availability
  import opened Content
  import opened Scheduling
  import Resume

  datatype Response = Failed | Got(chunk: Chunk)

  /** A worker thread: the chunk indices queued for it, and whether it is still running. */
  datatype Worker = Worker(alive: bool, inbox: seq<nat>)

  datatype WorkerResult = WorkerResult(provider: nat, requested: nat, response: Response)

  datatype Outcome =
    | Finished
    | StoppedLocally
    | TimedOut
    | DiskFailed
    | NoHealthyProvider
    | NoHonestProvider
    | InternalError

  /** Where the main loop is. */
  datatype Main = LoopHead | Assigning(slot: nat, sent: bool) | Waiting | Ended(outcome: Outcome)

  datatype System = System(
    sched: State,
    workers: seq<Worker>,
    results: seq<WorkerResult>,
    main: Main,
    iterations: nat,
    completed: seq<bool>,
    file: seq<Byte>)

  /** One atomic step: of the main loop, of the environment that interrupts it, or of a worker. */
  datatype Label =
    | Check
    | AssignSlot
    | AfterAssign
    | Receive
    | LocalStop
    | Timeout
    | DiskFailure(writes: nat)
    | Respond(slot: nat, response: Response)

  predicate Interrupts(l: Label) {
    l.LocalStop? || l.Timeout? || l.DiskFailure?
  }

  // ----- Steps -----

  /** A usable answer: the requested chunk, passing verification. */
  predicate Good(h: Hash, m: Manifest, requested: nat, response: Response) {
    response.Got? && response.chunk.index == requested && VerifyChunk(h, m, response.chunk).Ok?
  }

  function CheckStep(s: System): System
    requires s.main.LoopHead?
  {
    if IsComplete(s.sched) then s.(main := Ended(Finished))
    else s.(main := Assigning(0, false), iterations := s.iterations + 1)
  }

  ghost predicate AssignStep(m: Manifest, s: System, s': System)
    requires s.main.Assigning? && s.main.slot < |s.workers|
  {
    var k := s.main.slot;
    || (Assigned(s.sched, k, None, s.sched) && s' == s.(main := Assigning(k + 1, s.main.sent)))
    || (exists i: nat, sched :: Assigned(s.sched, k, Some(i), sched) && s' == Dispatch(m, s, k, i, sched))
  }

  /** Hands chunk `i` to worker `k`; sending to a worker that has stopped fails and drops the provider. */
  function Dispatch(m: Manifest, s: System, k: nat, i: nat, sched: State): System
    requires s.main.Assigning? && k < |s.workers|
  {
    if ExpectedChunkLength(m, i).Err? then s.(sched := sched, main := Ended(InternalError))
    else if s.workers[k].alive then
      s.(sched := sched,
         workers := s.workers[k := s.workers[k].(inbox := s.workers[k].inbox + [i])],
         main := Assigning(k + 1, true))
    else s.(sched := Rejected(sched, k), main := Assigning(k + 1, s.main.sent))
  }

  function AfterAssignStep(s: System): System
    requires s.main.Assigning?
  {
    if IsComplete(s.sched) then s.(main := Ended(Finished))
    else if !HasInFlight(s.sched) && !s.main.sent then s.(main := Ended(NoHealthyProvider))
    else s.(main := Waiting)
  }

  function ReceiveStep(h: Hash, m: Manifest, s: System): System
    requires s.results != [] && |s.completed| == |m.chunks|
  {
    var result, rest := s.results[0], s.results[1..];
    if Good(h, m, result.requested, result.response) then
      var chunk := result.response.chunk;
      var (sched, accepted) := Accepted(s.sched, result.provider, chunk.index);
      s.(results := rest,
         file := Resume.WriteAll(s.file, chunk.index * m.chunkSize, chunk.data),
         completed := s.completed[chunk.index := true],
         sched := sched,
         main := if accepted.Ok? then LoopHead else Ended(InternalError))
    else
      var sched := Rejected(s.sched, result.provider);
      s.(results := rest,
         sched := sched,
         main := if CanFinish(sched) then LoopHead else Ended(NoHonestProvider))
  }

  /** The disk fails after some writes of a good chunk, so that part of its data may be in the file. */
  function DiskFailureStep(m: Manifest, s: System, writes: nat): System
    requires s.results != [] && s.results[0].response.Got?
  {
    var chunk := s.results[0].response.chunk;
    var data := chunk.data[..Min(writes, |chunk.data|)];
    s.(main := Ended(DiskFailed), file := Resume.WriteAll(s.file, chunk.index * m.chunkSize, data))
  }

  /** A worker answers the request at the head of its queue, and stops after a failure. */
  function RespondStep(s: System, k: nat, response: Response): System
    requires k < |s.workers| && s.workers[k].inbox != []
  {
    var w := s.workers[k];
    s.(workers := s.workers[k := Worker(response.Got?, w.inbox[1..])],
       results := s.results + [WorkerResult(k, w.inbox[0], response)])
  }

  ghost predicate Step(h: Hash, m: Manifest, s: System, l: Label, s': System) {
    match l
    case Check => s.main.LoopHead? && s' == CheckStep(s)
    case LocalStop =>
      && s.main.LoopHead? && !IsComplete(s.sched)
      && s' == s.(main := Ended(StoppedLocally), iterations := s.iterations + 1)
    case AssignSlot => s.main.Assigning? && s.main.slot < |s.workers| && AssignStep(m, s, s')
    case AfterAssign => s.main.Assigning? && s.main.slot >= |s.workers| && s' == AfterAssignStep(s)
    case Receive => s.main.Waiting? && s.results != [] && |s.completed| == |m.chunks| && s' == ReceiveStep(h, m, s)
    case Timeout => s.main.Waiting? && s.results == [] && s' == s.(main := Ended(TimedOut))
    case DiskFailure(writes) =>
      && s.main.Waiting? && s.results != [] && Good(h, m, s.results[0].requested, s.results[0].response)
      && s' == DiskFailureStep(m, s, writes)
    case Respond(k, response) =>
      k < |s.workers| && s.workers[k].alive && s.workers[k].inbox != [] && s' == RespondStep(s, k, response)
  }

  ghost predicate IsRun(h: Hash, m: Manifest, states: seq<System>, labels: seq<Label>) {
    |states| == |labels| + 1 && forall k | 0 <= k < |labels| :: Step(h, m, states[k], labels[k], states[k + 1])
  }

  /** What `receive_swarm` has set up when it enters the loop. */
  ghost predicate Initial(m: Manifest, availability: seq<PieceAvailability>, s: System) {
    && ValidateShape(m).Ok?
    && WellFormedInput(|m.chunks|, availability, s.completed)
    && s.sched == Fresh(availability, s.completed) && CanFinish(s.sched)
    && |s.workers| == |availability| && (forall k | 0 <= k < |s.workers| :: s.workers[k] == Worker(true, []))
    && s.results == [] && s.main == LoopHead && s.iterations == 0
  }

  // ----- The invariant -----

  /** Slot `k` has a command queued or a result not yet taken. */
  ghost predicate Pending(workers: seq<Worker>, results: seq<WorkerResult>, k: nat)
    requires k < |workers|
  {
    workers[k].inbox != [] || exists r :: 0 <= r < |results| && results[r].provider == k
  }

  /** Every queued command and every undelivered result belongs to the one request in flight for its slot. */
  ghost predicate Matched(sched: State, workers: seq<Worker>, results: seq<WorkerResult>) {
    && |workers| == |sched.providers|
    && (forall k | 0 <= k < |workers| && workers[k].inbox != [] ::
          var w := workers[k];
          |w.inbox| == 1 && w.alive && w.inbox[0] < |sched.chunks| && sched.chunks[w.inbox[0]] == InFlight(k))
    && (forall r | 0 <= r < |results| ::
          var x := results[r];
          && x.provider < |workers| && x.requested < |sched.chunks| && sched.chunks[x.requested] == InFlight(x.provider)
          && workers[x.provider] == Worker(x.response.Got?, []))
    && (forall r, t | 0 <= r < |results| && 0 <= t < |results| :: results[r].provider == results[t].provider ==> r == t)
    && (forall k | 0 <= k < |workers| && NeedsAnswer(sched, workers, k) :: Pending(workers, results, k))
  }

  /** A busy provider, or an active one whose worker has stopped, still owes the main loop a result. */
  ghost predicate NeedsAnswer(sched: State, workers: seq<Worker>, k: nat)
    requires k < |workers| == |sched.providers|
  {
    sched.providers[k].busy || (sched.providers[k].active && !workers[k].alive)
  }

  ghost predicate MainOk(s: System) {
    match s.main
    case LoopHead => CanFinish(s.sched)
    case Assigning(slot, sent) =>
      && CanFinish(s.sched) && !IsComplete(s.sched) && slot <= |s.workers|
      && (sent ==> HasInFlight(s.sched))
      && (!HasInFlight(s.sched) ==>
            forall p: nat, i: nat | p < slot && p < |s.sched.providers| && s.sched.providers[p].active ::
              !Candidate(s.sched, p, i))
    case Waiting => CanFinish(s.sched) && !IsComplete(s.sched) && HasInFlight(s.sched)
    case Ended(o) => o != NoHealthyProvider && o != InternalError && (o == Finished ==> IsComplete(s.sched))
  }

  /** Chunks still to fetch plus providers still in use: what an iteration uses up. */
  function Work(s: State): int {
    |s.chunks| - CountComplete(s.chunks) + |s.providers| - CountInactive(s.providers)
  }

  /** `budget` is the work there was at the start. */
  ghost predicate WithinBudget(s: System, budget: int) {
    match s.main
    case LoopHead => s.iterations + Work(s.sched) <= budget
    case Assigning(_, _) => s.iterations + Work(s.sched) <= budget + 1
    case Waiting => s.iterations + Work(s.sched) <= budget + 1
    case Ended(_) => s.iterations <= budget
  }

  ghost predicate SysInv(m: Manifest, s: System, resumed: nat, budget: int) {
    && ValidateShape(m).Ok?
    && |s.sched.chunks| == |m.chunks| == |s.completed|
    && Inv(s.sched, resumed)
    && Matched(s.sched, s.workers, s.results)
    && MainOk(s)
    && WithinBudget(s, budget)
    && Recorded(s.sched, s.completed)
  }

  /** The resume record and the scheduler agree on what is complete. */
  ghost predicate Recorded(sched: State, completed: seq<bool>) {
    |completed| == |sched.chunks| && forall i | 0 <= i < |completed| :: completed[i] <==> sched.chunks[i] == Complete
  }

  // ----- Counting lemmas -----

  lemma {:induction false} CountBounds(s: State)
    ensures CountComplete(s.chunks) <= |s.chunks| && CountInactive(s.providers) <= |s.providers|
    ensures CountComplete(s.chunks) == |s.chunks| <==> IsComplete(s)
  {
    CompleteBound(s.chunks);
    InactiveBound(s.providers);
  }

  lemma {:induction false} CompleteBound(chunks: seq<ChunkState>)
    ensures CountComplete(chunks) <= |chunks|
    ensures CountComplete(chunks) == |chunks| <==> forall i | 0 <= i < |chunks| :: chunks[i] == Complete
  {
    if chunks != [] {
      CompleteBound(chunks[..|chunks| - 1]);
    }
  }

  lemma {:induction false} InactiveBound(providers: seq<Provider>)
    ensures CountInactive(providers) <= |providers|
  {
    if providers != [] {
      InactiveBound(providers[..|providers| - 1]);
    }
  }

  lemma {:induction false} SourceExists(providers: seq<Provider>, i: nat)
    ensures CountSources(providers, i) > 0 <==> exists p :: 0 <= p < |providers| && IsSource(providers[p], i)
  {
    if providers != [] {
      var n := |providers| - 1;
      SourceExists(providers[..n], i);
      if exists p :: 0 <= p < |providers| && IsSource(providers[p], i) {
        var p :| 0 <= p < |providers| && IsSource(providers[p], i);
        if p < n {
          assert IsSource(providers[..n][p], i);
        }
      }
      if CountSources(providers[..n], i) > 0 {
        var p :| 0 <= p < n && IsSource(providers[..n][p], i);
        assert IsSource(providers[p], i);
      }
    }
  }

  /** Only being idle or busy, not being a source, changes when a chunk is claimed or completed. */
  lemma {:induction false} SameSources(a: seq<Provider>, b: seq<Provider>, i: nat)
    requires |a| == |b|
    requires forall p | 0 <= p < |a| :: a[p].active == b[p].active && a[p].availability == b[p].availability
    ensures CountSources(a, i) == CountSources(b, i)
  {
    if a != [] {
      SameSources(a[..|a| - 1], b[..|b| - 1], i);
    }
  }

  // ----- The invariant holds initially and along every step -----

  lemma {:induction false} InitialInv(m: Manifest, availability: seq<PieceAvailability>, s: System)
    requires Initial(m, availability, s)
    ensures SysInv(m, s, CountComplete(s.sched.chunks), Work(s.sched))
  {
    FreshInv(availability, s.completed);
  }

  lemma {:induction false} CheckInv(m: Manifest, s: System, resumed: nat, budget: int)
    requires SysInv(m, s, resumed, budget) && s.main.LoopHead?
    ensures SysInv(m, CheckStep(s), resumed, budget)
  {
    CountBounds(s.sched);
  }

  lemma {:induction false} AssignNoneInv(m: Manifest, s: System, s': System, resumed: nat, budget: int)
    requires SysInv(m, s, resumed, budget) && s.main.Assigning? && s.main.slot < |s.workers|
    requires Assigned(s.sched, s.main.slot, None, s.sched) && s' == s.(main := Assigning(s.main.slot + 1, s.main.sent))
    ensures SysInv(m, s', resumed, budget)
  {
    var k := s.main.slot;
    if !HasInFlight(s.sched) {
      assert !s.sched.providers[k].busy;
    }
  }

  lemma {:induction false} DispatchInv(
    m: Manifest, s: System, i: nat, sched: State, s': System, resumed: nat, budget: int)
    requires SysInv(m, s, resumed, budget) && s.main.Assigning? && s.main.slot < |s.workers|
    requires Assigned(s.sched, s.main.slot, Some(i), sched) && s' == Dispatch(m, s, s.main.slot, i, sched)
    ensures SysInv(m, s', resumed, budget)
    ensures s'.main == Assigning(s.main.slot + 1, true) && s'.sched == sched && Work(sched) == Work(s.sched)
    ensures SentTo(s.workers, s.main.slot, s'.workers)
  {
    hide Inv, Matched, CanFinish, Work, Contains;
    var k := s.main.slot;
    AssignInv(s.sched, k, Some(i), sched, resumed);
    IdleSlotQuiet(s, k, resumed);
    ExpectedLength(m, i);
    assert s.workers[k].inbox + [i] == [i];
    DispatchMatches(s.sched, s.workers, s.results, k, i);
    ClaimFacts(s.sched, k, i);
  }

  lemma {:induction false} ClaimFacts(s: State, p: nat, i: nat)
    requires p < |s.providers| && i < |s.chunks| && s.chunks[i] == Missing
    ensures CanFinish(s) ==> CanFinish(Claim(s, p, i))
    ensures HasInFlight(Claim(s, p, i)) && !IsComplete(Claim(s, p, i))
    ensures Work(Claim(s, p, i)) == Work(s)
  {
    var t := Claim(s, p, i);
    assert t.chunks[i].InFlight?;
    CompleteUpdate(s.chunks, i, InFlight(p));
    ProviderUpdate(s.providers, p, s.providers[p].(busy := true));
    forall j | 0 <= j < |t.chunks| && t.chunks[j] == Missing
      ensures CountSources(t.providers, j) == CountSources(s.providers, j)
    {
      SameSources(s.providers, t.providers, j);
    }
  }

  /** Exactly one command was queued, for slot `k`. */
  ghost predicate SentTo(workers: seq<Worker>, k: nat, workers': seq<Worker>)
    requires k < |workers|
  {
    |workers'| == |workers| && |workers'[k].inbox| == 1 && workers' == workers[k := workers'[k]]
  }

  lemma {:induction false} AssignSlotInv(m: Manifest, s: System, s': System, resumed: nat, budget: int)
    requires SysInv(m, s, resumed, budget) && s.main.Assigning? && s.main.slot < |s.workers| && AssignStep(m, s, s')
    ensures SysInv(m, s', resumed, budget)
    ensures s'.main.Assigning? && s'.main.slot == s.main.slot + 1 && Work(s'.sched) == Work(s.sched)
    ensures s'.workers == s.workers || SentTo(s.workers, s.main.slot, s'.workers)
  {
    hide SysInv, Assigned, Work;
    var k := s.main.slot;
    if Assigned(s.sched, k, None, s.sched) && s' == s.(main := Assigning(k + 1, s.main.sent)) {
      AssignNoneInv(m, s, s', resumed, budget);
    } else {
      var i: nat, sched :| Assigned(s.sched, k, Some(i), sched) && s' == Dispatch(m, s, k, i, sched);
      DispatchInv(m, s, i, sched, s', resumed, budget);
    }
  }

  /** An idle, active provider's worker is running and has nothing queued or undelivered. */
  lemma {:induction false} IdleSlotQuiet(s: System, k: nat, resumed: nat)
    requires Inv(s.sched, resumed) && Matched(s.sched, s.workers, s.results) && Idle(s.sched, k)
    ensures !Pending(s.workers, s.results, k) && s.workers[k] == Worker(true, [])
  {
    assert s.workers[k].inbox == [];
    forall r | 0 <= r < |s.results| ensures s.results[r].provider != k {
      assert s.sched.chunks[s.results[r].requested] == InFlight(s.results[r].provider);
    }
  }

  lemma {:induction false} DispatchMatches(
    sched: State, workers: seq<Worker>, results: seq<WorkerResult>, k: nat, i: nat)
    requires Matched(sched, workers, results) && Idle(sched, k) && i < |sched.chunks| && sched.chunks[i] == Missing
    requires !Pending(workers, results, k) && workers[k] == Worker(true, [])
    ensures Matched(Claim(sched, k, i), workers[k := Worker(true, [i])], results)
  {
    var workers' := workers[k := Worker(true, [i])];
    forall r | 0 <= r < |results| ensures results[r].provider != k {
      assert !Pending(workers, results, k);
    }
    forall q | 0 <= q < |workers'| && NeedsAnswer(Claim(sched, k, i), workers', q)
      ensures Pending(workers', results, q)
    {
      if q != k {
        assert NeedsAnswer(sched, workers, q);
      }
    }
  }

  lemma {:induction false} AfterAssignInv(m: Manifest, s: System, resumed: nat, budget: int)
    requires SysInv(m, s, resumed, budget) && s.main.Assigning? && s.main.slot >= |s.workers|
    ensures SysInv(m, AfterAssignStep(s), resumed, budget)
    ensures AfterAssignStep(s).main == Waiting
  {
    if !HasInFlight(s.sched) {
      var i :| 0 <= i < |s.sched.chunks| && s.sched.chunks[i] != Complete;
      assert s.sched.chunks[i] == Missing;
      SourceExists(s.sched.providers, i);
      var p :| 0 <= p < |s.sched.providers| && IsSource(s.sched.providers[p], i);
      assert Candidate(s.sched, p, i);
      assert false;
    }
  }

  /** Taking result 0 off the channel, when its request is over, leaves the other slots matched. */
  lemma {:induction false} DeliveredMatches(
    sched: State, sched': State, workers: seq<Worker>, results: seq<WorkerResult>)
    requires Matched(sched, workers, results) && results != []
    requires |sched'.chunks| == |sched.chunks| && |sched'.providers| == |sched.providers|
    requires var x := results[0];
             && !sched'.providers[x.provider].busy
             && (sched'.providers[x.provider].active ==> x.response.Got?)
             && (forall i | 0 <= i < |sched'.chunks| && sched.chunks[i] != InFlight(x.provider) ::
                   sched'.chunks[i] == sched.chunks[i])
             && (forall p | 0 <= p < |sched'.providers| && p != x.provider :: sched'.providers[p] == sched.providers[p])
    ensures Matched(sched', workers, results[1..])
  {
    var x, rest := results[0], results[1..];
    forall r | 0 <= r < |rest| ensures rest[r].provider != x.provider && rest[r] == results[r + 1] {
    }
    forall q | 0 <= q < |workers| && NeedsAnswer(sched', workers, q) ensures Pending(workers, rest, q) {
      assert q != x.provider;
      assert NeedsAnswer(sched, workers, q);
      assert Pending(workers, results, q);
      if workers[q].inbox == [] {
        var r :| 0 <= r < |results| && results[r].provider == q;
        assert rest[r - 1].provider == q;
      }
    }
  }

  /** A delivered result is for the one chunk in flight to its provider. */
  lemma {:induction false} DeliveredInFlight(s: System, resumed: nat)
    requires Inv(s.sched, resumed) && Matched(s.sched, s.workers, s.results) && s.results != []
    ensures var x := s.results[0];
            && x.provider < |s.sched.providers| && x.requested < |s.sched.chunks|
            && s.sched.chunks[x.requested] == InFlight(x.provider)
            && s.sched.providers[x.provider].active && s.sched.providers[x.provider].busy
  {
    assert s.results[0].provider < |s.workers|;
  }

  lemma {:induction false} AcceptedMatches(sched: State, workers: seq<Worker>, results: seq<WorkerResult>)
    requires Matched(sched, workers, results) && results != [] && results[0].response.Got?
    ensures results[0].provider < |sched.providers| && results[0].requested < |sched.chunks|
    ensures Matched(Accepted(sched, results[0].provider, results[0].requested).0, workers, results[1..])
  {
    DeliveredMatches(sched, Accepted(sched, results[0].provider, results[0].requested).0, workers, results);
  }

  /** Completing a chunk takes one unit of work and leaves every other chunk as fetchable as before. */
  lemma {:induction false} AcceptedWork(sched: State, p: nat, i: nat)
    requires p < |sched.providers| && i < |sched.chunks| && sched.chunks[i] == InFlight(p)
    ensures Work(Accepted(sched, p, i).0) == Work(sched) - 1
    ensures CanFinish(sched) ==> CanFinish(Accepted(sched, p, i).0)
  {
    var t := Accepted(sched, p, i).0;
    CompleteUpdate(sched.chunks, i, Complete);
    ProviderUpdate(sched.providers, p, t.providers[p]);
    forall j | 0 <= j < |t.chunks| && t.chunks[j] == Missing
      ensures CountSources(t.providers, j) == CountSources(sched.providers, j)
    {
      SameSources(sched.providers, t.providers, j);
    }
  }

  lemma {:induction false} ReceiveGoodInv(h: Hash, m: Manifest, s: System, resumed: nat, budget: int)
    requires SysInv(m, s, resumed, budget) && s.main.Waiting? && s.results != []
    requires Good(h, m, s.results[0].requested, s.results[0].response)
    ensures SysInv(m, ReceiveStep(h, m, s), resumed, budget)
    ensures ReceiveStep(h, m, s).main == LoopHead && Work(ReceiveStep(h, m, s).sched) == Work(s.sched) - 1
  {
    var x := s.results[0];
    DeliveredInFlight(s, resumed);
    AcceptInv(s.sched, x.provider, x.requested, resumed);
    AcceptedWork(s.sched, x.provider, x.requested);
    AcceptedMatches(s.sched, s.workers, s.results);
    assert Recorded(Accepted(s.sched, x.provider, x.requested).0, s.completed[x.requested := true]);
  }

  lemma {:induction false} RejectedMatches(sched: State, workers: seq<Worker>, results: seq<WorkerResult>)
    requires Matched(sched, workers, results) && results != [] && results[0].provider < |sched.providers|
    ensures Matched(Rejected(sched, results[0].provider), workers, results[1..])
  {
    DeliveredMatches(sched, Rejected(sched, results[0].provider), workers, results);
  }

  lemma {:induction false} WorkLeft(sched: State)
    ensures Work(sched) >= 0
  {
    CountBounds(sched);
  }

  lemma {:induction false} RejectedWork(sched: State, p: nat)
    requires p < |sched.providers| && sched.providers[p].active
    ensures Work(Rejected(sched, p)) == Work(sched) - 1 && Work(sched) >= 1
  {
    WorkLeft(Rejected(sched, p));
    ReleaseKeepsComplete(sched.chunks, p);
    ProviderUpdate(sched.providers, p, Rejected(sched, p).providers[p]);
  }

  lemma {:induction false} ReceiveBadInv(h: Hash, m: Manifest, s: System, resumed: nat, budget: int)
    requires SysInv(m, s, resumed, budget) && s.main.Waiting? && s.results != []
    requires !Good(h, m, s.results[0].requested, s.results[0].response)
    ensures SysInv(m, ReceiveStep(h, m, s), resumed, budget)
    ensures Work(ReceiveStep(h, m, s).sched) == Work(s.sched) - 1
  {
    hide Inv, Matched, Work, CanFinish, CountInFlight, Release;
    var p := s.results[0].provider;
    DeliveredInFlight(s, resumed);
    RejectInv(s.sched, p, resumed);
    RejectedWork(s.sched, p);
    RejectedMatches(s.sched, s.workers, s.results);
    assert Recorded(Rejected(s.sched, p), s.completed);
  }

  lemma {:induction false} RespondMatches(
    sched: State, workers: seq<Worker>, results: seq<WorkerResult>, k: nat, response: Response)
    requires Matched(sched, workers, results) && k < |workers| && workers[k].inbox != []
    ensures Matched(sched, workers[k := Worker(response.Got?, [])],
            results + [WorkerResult(k, workers[k].inbox[0], response)])
  {
    var workers' := workers[k := Worker(response.Got?, [])];
    var results' := results + [WorkerResult(k, workers[k].inbox[0], response)];
    assert results'[|results|].provider == k;
    forall r | 0 <= r < |results| ensures results[r].provider != k && results'[r] == results[r] {
    }
    forall q | 0 <= q < |workers'| && NeedsAnswer(sched, workers', q) ensures Pending(workers', results', q) {
      if q != k {
        assert NeedsAnswer(sched, workers, q);
        assert Pending(workers, results, q);
        if workers[q].inbox == [] {
          var r :| 0 <= r < |results| && results[r].provider == q;
          assert results'[r].provider == q;
        }
      }
    }
  }

  lemma {:induction false} RespondInv(m: Manifest, s: System, k: nat, response: Response, resumed: nat, budget: int)
    requires SysInv(m, s, resumed, budget) && k < |s.workers| && s.workers[k].alive && s.workers[k].inbox != []
    ensures SysInv(m, RespondStep(s, k, response), resumed, budget)
  {
    RespondMatches(s.sched, s.workers, s.results, k, response);
    assert s.workers[k].inbox[1..] == [];
  }

  lemma {:induction false} InterruptInv(
    h: Hash, m: Manifest, s: System, l: Label, s': System, resumed: nat, budget: int)
    requires SysInv(m, s, resumed, budget) && Step(h, m, s, l, s') && Interrupts(l)
    ensures SysInv(m, s', resumed, budget)
  {
    CountBounds(s.sched);
  }

  lemma {:induction false} StepInv(h: Hash, m: Manifest, s: System, l: Label, s': System, resumed: nat, budget: int)
    requires SysInv(m, s, resumed, budget) && Step(h, m, s, l, s')
    ensures SysInv(m, s', resumed, budget)
  {
    match l {
      case Check => CheckInv(m, s, resumed, budget);
      case AssignSlot => AssignSlotInv(m, s, s', resumed, budget);
      case AfterAssign => AfterAssignInv(m, s, resumed, budget);
      case Receive =>
        if Good(h, m, s.results[0].requested, s.results[0].response) {
          ReceiveGoodInv(h, m, s, resumed, budget);
        } else {
          ReceiveBadInv(h, m, s, resumed, budget);
        }
      case Respond(k, response) => RespondInv(m, s, k, response, resumed, budget);
      case LocalStop => InterruptInv(h, m, s, l, s', resumed, budget);
      case Timeout => InterruptInv(h, m, s, l, s', resumed, budget);
      case DiskFailure(_) => InterruptInv(h, m, s, l, s', resumed, budget);
    }
  }

  // ----- Every run is short -----

  ghost function Queued(workers: seq<Worker>): nat {
    if workers == [] then 0 else
      Queued(workers[..|workers| - 1]) + if workers[|workers| - 1].inbox != [] then 1 else 0
  }

  lemma {:induction false} QueuedUpdate(workers: seq<Worker>, k: nat, w: Worker)
    requires k < |workers|
    ensures Queued(workers) <= |workers|
    ensures Queued(workers[k := w]) ==
            Queued(workers) - (if workers[k].inbox != [] then 1 else 0) + (if w.inbox != [] then 1 else 0)
  {
    var n := |workers| - 1;
    QueuedBound(workers);
    if k < n {
      assert workers[k := w][..n] == workers[..n][k := w];
      QueuedUpdate(workers[..n], k, w);
    } else {
      assert workers[k := w][..n] == workers[..n];
    }
  }

  lemma {:induction false} QueuedBound(workers: seq<Worker>)
    ensures Queued(workers) <= |workers|
  {
    if workers != [] {
      QueuedBound(workers[..|workers| - 1]);
    }
  }

  /** Main-loop steps left in the current iteration. */
  ghost function Rank(s: System): nat {
    match s.main
    case LoopHead => |s.workers| + 3
    case Assigning(slot, _) => if slot <= |s.workers| then |s.workers| + 2 - slot else 0
    case Waiting => 1
    case Ended(_) => 0
  }

  /** An iteration's worth of work outweighs its main steps, a main step outweighs every queued command. */
  ghost function Measure(s: System): int {
    (Work(s.sched) * (|s.workers| + 4) + Rank(s)) * (|s.workers| + 1) + Queued(s.workers)
  }

  /** Less work, or fewer main steps left, or fewer queued commands: each may only spill into the ones after it. */
  ghost predicate Shrinks(s: System, s': System) {
    && |s'.workers| == |s.workers|
    && (|| (Work(s'.sched) == Work(s.sched) - 1 && Rank(s') <= Rank(s) + |s.workers| + 2 && s'.workers == s.workers)
        || (Work(s'.sched) == Work(s.sched) && Rank(s') < Rank(s) &&
            (s'.workers == s.workers || (|s.workers| > 0 && Queued(s'.workers) <= Queued(s.workers) + 1)))
        || (Work(s'.sched) == Work(s.sched) && Rank(s') == Rank(s) && Queued(s'.workers) < Queued(s.workers)))
  }

  lemma {:induction false} Outweighs(work: int, rank: int, queued: int, work': int, rank': int, queued': int, n: nat)
    requires queued' <= queued + 1 && (queued' <= queued || n > 0)
    requires (work' == work - 1 && rank' <= rank + n + 2) || (work' == work && rank' <= rank - 1)
    ensures (work' * (n + 4) + rank') * (n + 1) + queued' < (work * (n + 4) + rank) * (n + 1) + queued
  {
    var a, b := work * (n + 4) + rank, work' * (n + 4) + rank';
    assert b <= a - 1 by {
      if work' == work - 1 {
        ScaledGap(work', work, n + 4);
      }
    }
    ScaledGap(b, a, n + 1);
  }

  lemma {:induction false} ScaledGap(b: int, a: int, c: nat)
    requires b <= a - 1
    ensures b * c <= a * c - c
  {
    if c > 0 {
      ScaledGap(b, a, c - 1);
      assert b * c == b * (c - 1) + b && a * c == a * (c - 1) + a;
    }
  }

  lemma {:induction false} ShrinksMeasure(s: System, s': System)
    requires Shrinks(s, s')
    ensures Measure(s') < Measure(s)
  {
    if Rank(s') != Rank(s) || Work(s'.sched) != Work(s.sched) {
      Outweighs(Work(s.sched), Rank(s), Queued(s.workers), Work(s'.sched), Rank(s'), Queued(s'.workers), |s.workers|);
    }
  }

  lemma {:induction false} ReceiveWork(h: Hash, m: Manifest, s: System, resumed: nat, budget: int)
    requires SysInv(m, s, resumed, budget) && s.main.Waiting? && s.results != []
    ensures Work(ReceiveStep(h, m, s).sched) == Work(s.sched) - 1
    ensures Rank(ReceiveStep(h, m, s)) <= Rank(s) + |s.workers| + 2
  {
    if Good(h, m, s.results[0].requested, s.results[0].response) {
      ReceiveGoodInv(h, m, s, resumed, budget);
    } else {
      ReceiveBadInv(h, m, s, resumed, budget);
    }
  }

  lemma {:induction false} AssignShrinks(m: Manifest, s: System, s': System, resumed: nat, budget: int)
    requires SysInv(m, s, resumed, budget) && s.main.Assigning? && s.main.slot < |s.workers| && AssignStep(m, s, s')
    ensures Shrinks(s, s')
  {
    AssignSlotInv(m, s, s', resumed, budget);
    var k := s.main.slot;
    if s'.workers != s.workers {
      QueuedUpdate(s.workers, k, s'.workers[k]);
    }
  }

  lemma {:induction false} RespondShrinks(m: Manifest, s: System, k: nat, response: Response, resumed: nat, budget: int)
    requires SysInv(m, s, resumed, budget) && k < |s.workers| && s.workers[k].inbox != []
    ensures Shrinks(s, RespondStep(s, k, response))
  {
    assert s.workers[k].inbox[1..] == [];
    QueuedUpdate(s.workers, k, Worker(response.Got?, []));
  }

  /** Every step of every thread, interruptions included, uses up measure. */
  lemma {:induction false} StepShrinks(h: Hash, m: Manifest, s: System, l: Label, s': System, resumed: nat, budget: int)
    requires SysInv(m, s, resumed, budget) && Step(h, m, s, l, s')
    ensures Shrinks(s, s')
  {
    hide Matched, CanFinish, Inv, Work, Queued, IsComplete, HasInFlight;
    match l {
      case AssignSlot => AssignShrinks(m, s, s', resumed, budget);
      case Respond(k, response) => RespondShrinks(m, s, k, response, resumed, budget);
      case Receive => ReceiveWork(h, m, s, resumed, budget);
      case _ =>
    }
  }

  lemma {:induction false} MeasureNonNegative(s: System)
    ensures Measure(s) >= 0
  {
    CountBounds(s.sched);
    Product(Work(s.sched), |s.workers| + 4);
    Product(Work(s.sched) * (|s.workers| + 4) + Rank(s), |s.workers| + 1);
  }

  lemma {:induction false} Product(a: nat, b: nat)
    ensures a * b >= 0
  {
  }

  lemma {:induction false} RunStep(h: Hash, m: Manifest, states: seq<System>, labels: seq<Label>, k: nat)
    requires IsRun(h, m, states, labels) && k < |states|
    ensures |states| == |labels| + 1 && (k > 0 ==> Step(h, m, states[k - 1], labels[k - 1], states[k]))
  {
    hide Step;
  }

  lemma {:induction false} StepProgress(
    h: Hash, m: Manifest, s: System, l: Label, s': System, resumed: nat, budget: int)
    requires SysInv(m, s, resumed, budget) && Step(h, m, s, l, s')
    ensures SysInv(m, s', resumed, budget) && |s'.workers| == |s.workers| && Measure(s') < Measure(s)
  {
    hide SysInv, Step, Measure;
    StepInv(h, m, s, l, s', resumed, budget);
    StepShrinks(h, m, s, l, s', resumed, budget);
    ShrinksMeasure(s, s');
  }

  /**
   * Safety of every run, whatever the providers do: no internal error, never "no healthy provider",
   * at most (missing chunks + providers) iterations, and at most `Measure` steps in all.
   */
  lemma {:induction false} RunInv(
    h: Hash, m: Manifest, availability: seq<PieceAvailability>, states: seq<System>, labels: seq<Label>, k: nat)
    requires IsRun(h, m, states, labels) && Initial(m, availability, states[0]) && k < |states|
    ensures SysInv(m, states[k], CountComplete(states[0].sched.chunks), Work(states[0].sched))
    ensures |states[k].workers| == |states[0].workers|
    ensures k + Measure(states[k]) <= Measure(states[0])
  {
    hide *;
    RunStep(h, m, states, labels, k);
    var resumed, budget := CountComplete(states[0].sched.chunks), Work(states[0].sched);
    if k == 0 {
      InitialInv(m, availability, states[0]);
    } else {
      RunInv(h, m, availability, states, labels, k - 1);
      StepProgress(h, m, states[k - 1], labels[k - 1], states[k], resumed, budget);
    }
  }

  /** The two bounds of a run, in the caller's terms. */
  lemma {:induction false} RunBounds(
    h: Hash, m: Manifest, availability: seq<PieceAvailability>, states: seq<System>, labels: seq<Label>)
    requires IsRun(h, m, states, labels) && Initial(m, availability, states[0])
    ensures |labels| <= Measure(states[0])
    ensures forall k | 0 <= k < |states| ::
              && states[k].iterations <= (|m.chunks| - CountComplete(states[0].sched.chunks)) + |availability|
              && states[k].main != Ended(NoHealthyProvider) && states[k].main != Ended(InternalError)
              && (states[k].main == Ended(Finished) ==> IsComplete(states[k].sched))
  {
    var s := states[0];
    SumAcceptedZero(s.sched.providers);
    assert Work(s.sched) == |m.chunks| - CountComplete(s.sched.chunks) + |availability|;
    forall k | 0 <= k < |states|
      ensures && states[k].iterations <= Work(s.sched)
              && states[k].main != Ended(NoHealthyProvider) && states[k].main != Ended(InternalError)
              && (states[k].main == Ended(Finished) ==> IsComplete(states[k].sched))
    {
      RunInv(h, m, availability, states, labels, k);
      CountBounds(states[k].sched);
    }
    RunInv(h, m, availability, states, labels, |labels|);
    MeasureNonNegative(states[|labels|]);
  }

  // ----- What the counters count -----

  /** The step takes a result, good or not, as said. */
  ghost predicate Takes(h: Hash, m: Manifest, s: System, l: Label, good: bool) {
    l.Receive? && s.results != [] && (Good(h, m, s.results[0].requested, s.results[0].response) <==> good)
  }

  ghost predicate TakesFrom(h: Hash, m: Manifest, s: System, l: Label, p: nat, good: bool) {
    Takes(h, m, s, l, good) && s.results[0].provider == p
  }

  /** Results taken from provider `p` in the first `k` steps, good ones or others. */
  ghost function Taken(h: Hash, m: Manifest, states: seq<System>, labels: seq<Label>, k: nat, p: nat, good: bool): nat
    requires k <= |labels| < |states|
  {
    if k == 0 then 0
    else
      Taken(h, m, states, labels, k - 1, p, good)
      + if TakesFrom(h, m, states[k - 1], labels[k - 1], p, good) then 1 else 0
  }

  /** Results taken in the first `k` steps that were no good, from anybody. */
  ghost function Spoiled(h: Hash, m: Manifest, states: seq<System>, labels: seq<Label>, k: nat): nat
    requires k <= |labels| < |states|
  {
    if k == 0 then 0
    else Spoiled(h, m, states, labels, k - 1) + if Takes(h, m, states[k - 1], labels[k - 1], false) then 1 else 0
  }

  /** What a result taken from provider `p`, or none, adds to the counters. */
  ghost predicate Counts(a: State, b: State, p: Option<nat>, good: bool) {
    && |b.providers| == |a.providers| && b.retries == a.retries + (if p.Some? && !good then 1 else 0)
    && forall q: nat | q < |a.providers| ::
         && b.providers[q].accepted == a.providers[q].accepted + (if p == Some(q) && good then 1 else 0)
         && b.providers[q].rejected == a.providers[q].rejected + (if p == Some(q) && !good then 1 else 0)
  }

  lemma {:induction false} AcceptedCounts(sched: State, p: nat, i: nat)
    requires p < |sched.providers| && i < |sched.chunks| && sched.chunks[i] == InFlight(p)
    ensures Counts(sched, Accepted(sched, p, i).0, Some(p), true)
  {
  }

  lemma {:induction false} RejectedCounts(sched: State, p: nat, i: nat, resumed: nat)
    requires Inv(sched, resumed) && i < |sched.chunks| && sched.chunks[i] == InFlight(p) && p < |sched.providers|
    ensures Counts(sched, Rejected(sched, p), Some(p), false)
  {
    RejectsOnce(sched, p, i, resumed);
    hide Inv, CountInFlight, Release;
  }

  lemma {:induction false} RejectsOnce(sched: State, p: nat, i: nat, resumed: nat)
    requires Inv(sched, resumed) && i < |sched.chunks| && sched.chunks[i] == InFlight(p)
    ensures Rejected(sched, p).retries == sched.retries + 1
  {
    hide Inv, Rejected;
    RejectInv(sched, p, resumed);
  }

  lemma {:induction false} ReceiveCounts(h: Hash, m: Manifest, s: System, resumed: nat, budget: int)
    requires SysInv(m, s, resumed, budget) && s.main.Waiting? && s.results != []
    ensures var x := s.results[0];
            Counts(s.sched, ReceiveStep(h, m, s).sched, Some(x.provider), Good(h, m, x.requested, x.response))
  {
    var x := s.results[0];
    DeliveredInFlight(s, resumed);
    assert Inv(s.sched, resumed) && |s.completed| == |m.chunks|;
    hide SysInv, Inv, Matched, CanFinish, VerifyChunk, Resume.WriteAll, Counts;
    if Good(h, m, x.requested, x.response) {
      AcceptedCounts(s.sched, x.provider, x.requested);
    } else {
      RejectedCounts(s.sched, x.provider, x.requested, resumed);
    }
    hide Accepted, Rejected;
  }

  lemma {:induction false} AssignCounts(m: Manifest, s: System, s': System, resumed: nat, budget: int)
    requires SysInv(m, s, resumed, budget) && s.main.Assigning? && s.main.slot < |s.workers| && AssignStep(m, s, s')
    ensures Counts(s.sched, s'.sched, None, false)
  {
    hide SysInv, Dispatch, IsRarest;
    var k := s.main.slot;
    if s' != s.(main := Assigning(k + 1, s.main.sent)) {
      var i: nat, sched :| Assigned(s.sched, k, Some(i), sched) && s' == Dispatch(m, s, k, i, sched);
      DispatchInv(m, s, i, sched, s', resumed, budget);
    }
  }

  ghost function Source(s: System, l: Label): Option<nat> {
    if l.Receive? && s.results != [] then Some(s.results[0].provider) else None
  }

  lemma {:induction false} StepCounts(
    h: Hash, m: Manifest, s: System, l: Label, s': System, resumed: nat, budget: int)
    requires SysInv(m, s, resumed, budget) && Step(h, m, s, l, s')
    ensures Counts(s.sched, s'.sched, Source(s, l), Takes(h, m, s, l, true))
  {
    hide SysInv, Good, AssignStep, ReceiveStep, IsComplete, HasInFlight, Resume.WriteAll;
    match l {
      case Receive =>
        ReceiveCounts(h, m, s, resumed, budget);
        hide Counts;
      case AssignSlot => AssignCounts(m, s, s', resumed, budget);
      case _ =>
    }
  }

  /** The counters at `sched` are those of the first `k` steps. */
  ghost predicate Tallied(h: Hash, m: Manifest, states: seq<System>, labels: seq<Label>, k: nat, sched: State)
    requires k <= |labels| < |states|
  {
    && sched.retries == Spoiled(h, m, states, labels, k)
    && forall p: nat | p < |sched.providers| ::
         && sched.providers[p].accepted == Taken(h, m, states, labels, k, p, true)
         && sched.providers[p].rejected == Taken(h, m, states, labels, k, p, false)
  }

  lemma {:induction false} TallyStep(
    h: Hash, m: Manifest, states: seq<System>, labels: seq<Label>, k: nat, sched: State, sched': State)
    requires k < |labels| < |states| && Tallied(h, m, states, labels, k, sched)
    requires Counts(sched, sched', Source(states[k], labels[k]), Takes(h, m, states[k], labels[k], true))
    ensures Tallied(h, m, states, labels, k + 1, sched') && |sched'.providers| == |sched.providers|
  {
    hide Good;
    forall p: nat, good: bool
      ensures Taken(h, m, states, labels, k + 1, p, good) ==
              Taken(h, m, states, labels, k, p, good)
              + if TakesFrom(h, m, states[k], labels[k], p, good) then 1 else 0
    {
    }
    hide Taken;
  }

  /** A provider's counters are the good and the other results taken from it; every other result is one retry. */
  lemma {:induction false} CountersTell(
    h: Hash, m: Manifest, availability: seq<PieceAvailability>, states: seq<System>, labels: seq<Label>, k: nat)
    requires IsRun(h, m, states, labels) && Initial(m, availability, states[0]) && k <= |labels| < |states|
    ensures |states[k].sched.providers| == |availability| && Tallied(h, m, states, labels, k, states[k].sched)
  {
    hide *;
    RunStep(h, m, states, labels, k);
    if k == 0 {
      StartTallied(h, m, availability, states, labels);
    } else {
      CountersTell(h, m, availability, states, labels, k - 1);
      RunInv(h, m, availability, states, labels, k - 1);
      StepCounts(h, m, states[k - 1], labels[k - 1], states[k],
                 CountComplete(states[0].sched.chunks), Work(states[0].sched));
      TallyStep(h, m, states, labels, k - 1, states[k - 1].sched, states[k].sched);
    }
  }

  lemma {:induction false} StartTallied(
    h: Hash, m: Manifest, availability: seq<PieceAvailability>, states: seq<System>, labels: seq<Label>)
    requires |states| == |labels| + 1 && Initial(m, availability, states[0])
    ensures |states[0].sched.providers| == |availability| && Tallied(h, m, states, labels, 0, states[0].sched)
  {
    hide CanFinish, WellFormedInput, ValidateShape;
  }

  // ----- What is on disk -----

  /** The step takes from a provider other data under the digest of a chunk of the content. */
  ghost predicate TakesForged(h: Hash, m: Manifest, content: seq<Byte>, s: System, l: Label) {
    && (l.Receive? || l.DiskFailure?) && s.results != []
    && Good(h, m, s.results[0].requested, s.results[0].response)
    && Resume.ForgedChunk(h, content, s.results[0].response.chunk.index, s.results[0].response.chunk.data)
  }

  /** One of the first `n` steps of the run does so. */
  ghost predicate Forged(
    h: Hash, m: Manifest, content: seq<Byte>, states: seq<System>, labels: seq<Label>, n: nat)
    requires |states| == |labels| + 1 && n <= |labels|
  {
    exists k | 0 <= k < n :: TakesForged(h, m, content, states[k], labels[k])
  }

  /** Completed chunks in the partial file stay the content's own, also when a disk failure tears a write. */
  lemma {:induction false} StepAgrees(h: Hash, m: Manifest, content: seq<Byte>, s: System, l: Label, s': System)
    requires Resume.Built(h, content, m) && Step(h, m, s, l, s') && !TakesForged(h, m, content, s, l)
    requires Resume.Agrees(content, s.file, s.completed)
    ensures Resume.Agrees(content, s'.file, s'.completed)
  {
    if l.Receive? || l.DiskFailure? {
      hide Resume.Agrees;
      TakenAgrees(h, m, content, s, l, s');
    } else {
      assert s'.file == s.file && s'.completed == s.completed;
    }
  }

  lemma {:induction false} TakenAgrees(h: Hash, m: Manifest, content: seq<Byte>, s: System, l: Label, s': System)
    requires Resume.Built(h, content, m) && Step(h, m, s, l, s') && !TakesForged(h, m, content, s, l)
    requires (l.Receive? || l.DiskFailure?) && Resume.Agrees(content, s.file, s.completed)
    ensures Resume.Agrees(content, s'.file, s'.completed)
  {
    var good := Good(h, m, s.results[0].requested, s.results[0].response);
    if good {
      GoodIsGenuine(h, m, content, s.results[0].requested, s.results[0].response);
    }
    assert |s.completed| == CeilDiv(|content|, 32768);
    hide Resume.WriteAll, Resume.Agrees, Good, Resume.Built, Slice;
    TakenWrites(h, m, s, l, s');
    hide Step;
    if good {
      var chunk := s.results[0].response.chunk;
      var n := if l.Receive? then |chunk.data| else Min(l.writes, |chunk.data|);
      TornWriteAgrees(content, s.file, s.completed, chunk.index, n);
    }
  }

  /** What taking a result does to the file and the record: all or part of a good chunk, nothing otherwise. */
  lemma {:induction false} TakenWrites(h: Hash, m: Manifest, s: System, l: Label, s': System)
    requires Step(h, m, s, l, s') && (l.Receive? || l.DiskFailure?)
    ensures s.results != []
    ensures var x := s.results[0];
            if !Good(h, m, x.requested, x.response) then s'.file == s.file && s'.completed == s.completed
            else
              && x.response.Got? && x.response.chunk.index < |m.chunks|
              && var chunk := x.response.chunk;
                 var n := if l.Receive? then |chunk.data| else Min(l.writes, |chunk.data|);
                 && s'.file == Resume.WriteAll(s.file, chunk.index * m.chunkSize, chunk.data[..n])
                 && (l.Receive? ==> |s.completed| == |m.chunks| && s'.completed == s.completed[chunk.index := true])
                 && (l.DiskFailure? ==> s'.completed == s.completed)
  {
    hide Resume.WriteAll, Accepted, Rejected, CanFinish;
    var response := s.results[0].response;
    assert response.Got? ==> response.chunk.data[..|response.chunk.data|] == response.chunk.data;
  }

  lemma {:induction false} GoodIsGenuine(
    h: Hash, m: Manifest, content: seq<Byte>, requested: nat, response: Response)
    requires Resume.Built(h, content, m) && Good(h, m, requested, response)
    requires !Resume.ForgedChunk(h, content, response.chunk.index, response.chunk.data)
    ensures response.Got? && response.chunk.index < CeilDiv(|content|, 32768) && m.chunkSize == 32768
    ensures response.chunk.data == Slice(content, response.chunk.index)
  {
    Resume.VerifiedIsGenuine(h, content, m, response.chunk);
  }

  lemma {:induction false} RunAgrees(
    h: Hash, m: Manifest, content: seq<Byte>, states: seq<System>, labels: seq<Label>, k: nat)
    requires IsRun(h, m, states, labels) && k <= |labels|
    requires Resume.Built(h, content, m) && Resume.Agrees(content, states[0].file, states[0].completed)
    ensures Resume.Agrees(content, states[k].file, states[k].completed) || Forged(h, m, content, states, labels, k)
  {
    if k > 0 {
      hide Step, TakesForged, Resume.Agrees, Resume.Built;
      RunAgrees(h, m, content, states, labels, k - 1);
      assert Step(h, m, states[k - 1], labels[k - 1], states[k]);
      if !Forged(h, m, content, states, labels, k) {
        assert !TakesForged(h, m, content, states[k - 1], labels[k - 1]);
        StepAgrees(h, m, content, states[k - 1], labels[k - 1], states[k]);
      }
    }
  }

  lemma {:induction false} TornWriteAgrees(content: seq<Byte>, file: seq<Byte>, completed: seq<bool>, i: nat, n: nat)
    requires Resume.Agrees(content, file, completed) && i < |completed| && n <= |Slice(content, i)|
    ensures var file' := Resume.WriteAll(file, 32768 * i, Slice(content, i)[..n]);
            && Resume.Agrees(content, file', completed)
            && (n == |Slice(content, i)| ==> Resume.Agrees(content, file', completed[i := true]))
  {
    Resume.WriteAllTorn(content, file, i, n);
    Resume.TornAgrees(content, file, completed, i, n, Resume.WriteAll(file, 32768 * i, Slice(content, i)[..n]));
  }

  // ----- Honest providers are enough -----

  /** Slots in `honest` only ever answer with the requested, verifying chunk. */
  ghost predicate HonestStep(h: Hash, m: Manifest, honest: set<nat>, s: System, l: Label) {
    l.Respond? && l.slot in honest && l.slot < |s.workers| && s.workers[l.slot].inbox != [] ==>
      Good(h, m, s.workers[l.slot].inbox[0], l.response)
  }

  /** Every chunk not yet complete is held by some honest slot. */
  ghost predicate Covers(sched: State, honest: set<nat>) {
    forall i | 0 <= i < |sched.chunks| && sched.chunks[i] != Complete ::
      exists k :: k in honest && k < |sched.providers| && Contains(sched.providers[k].availability, i)
  }

  ghost predicate HonestTrusted(h: Hash, m: Manifest, sched: State, results: seq<WorkerResult>, honest: set<nat>) {
    && (forall k | k in honest :: k < |sched.providers| && sched.providers[k].active)
    && (forall r | 0 <= r < |results| && results[r].provider in honest ::
          Good(h, m, results[r].requested, results[r].response))
  }

  ghost predicate HonestInv(h: Hash, m: Manifest, s: System, honest: set<nat>) {
    Covers(s.sched, honest) && HonestTrusted(h, m, s.sched, s.results, honest) && s.main != Ended(NoHonestProvider)
  }

  /** Availability never changes and no chunk becomes incomplete, so coverage lasts. */
  lemma {:induction false} CoversMonotone(a: State, b: State, honest: set<nat>)
    requires Covers(a, honest) && |b.chunks| == |a.chunks| && |b.providers| == |a.providers|
    requires forall i | 0 <= i < |a.chunks| && a.chunks[i] == Complete :: b.chunks[i] == Complete
    requires forall p | 0 <= p < |a.providers| :: b.providers[p].availability == a.providers[p].availability
    ensures Covers(b, honest)
  {
    forall i | 0 <= i < |b.chunks| && b.chunks[i] != Complete
      ensures exists k :: k in honest && k < |b.providers| && Contains(b.providers[k].availability, i)
    {
      assert a.chunks[i] != Complete;
      var k :| k in honest && k < |a.providers| && Contains(a.providers[k].availability, i);
      assert Contains(b.providers[k].availability, i);
    }
  }

  lemma {:induction false} HonestCanFinish(
    h: Hash, m: Manifest, sched: State, results: seq<WorkerResult>, honest: set<nat>)
    requires Covers(sched, honest) && HonestTrusted(h, m, sched, results, honest)
    ensures CanFinish(sched)
  {
    forall i | 0 <= i < |sched.chunks| && sched.chunks[i] == Missing ensures CountSources(sched.providers, i) > 0 {
      var k :| k in honest && k < |sched.providers| && Contains(sched.providers[k].availability, i);
      assert IsSource(sched.providers[k], i);
      SourceExists(sched.providers, i);
    }
  }

  lemma {:induction false} HonestAccepted(
    h: Hash, m: Manifest, sched: State, results: seq<WorkerResult>, honest: set<nat>, i: nat)
    requires Covers(sched, honest) && HonestTrusted(h, m, sched, results, honest)
    requires results != [] && results[0].provider < |sched.providers| && i < |sched.chunks|
    ensures var t := Accepted(sched, results[0].provider, i).0;
            Covers(t, honest) && HonestTrusted(h, m, t, results[1..], honest)
  {
    CoversMonotone(sched, Accepted(sched, results[0].provider, i).0, honest);
  }

  /** Only a slot that is not honest can have sent something unusable. */
  lemma {:induction false} HonestRejected(
    h: Hash, m: Manifest, sched: State, results: seq<WorkerResult>, honest: set<nat>)
    requires Covers(sched, honest) && HonestTrusted(h, m, sched, results, honest)
    requires results != [] && !Good(h, m, results[0].requested, results[0].response)
    ensures var t := Rejected(sched, results[0].provider);
            Covers(t, honest) && HonestTrusted(h, m, t, results[1..], honest) && CanFinish(t)
  {
    var t := Rejected(sched, results[0].provider);
    assert results[0].provider !in honest;
    CoversMonotone(sched, t, honest);
    assert HonestTrusted(h, m, t, results[1..], honest);
    HonestCanFinish(h, m, t, results[1..], honest);
  }

  lemma {:induction false} HonestReceive(h: Hash, m: Manifest, s: System, honest: set<nat>, resumed: nat, budget: int)
    requires SysInv(m, s, resumed, budget) && HonestInv(h, m, s, honest) && s.main.Waiting? && s.results != []
    ensures HonestInv(h, m, ReceiveStep(h, m, s), honest)
  {
    DeliveredInFlight(s, resumed);
    if Good(h, m, s.results[0].requested, s.results[0].response) {
      HonestAccepted(h, m, s.sched, s.results, honest, s.results[0].requested);
    } else {
      HonestRejected(h, m, s.sched, s.results, honest);
    }
  }

  lemma {:induction false} HonestClaim(
    h: Hash, m: Manifest, sched: State, results: seq<WorkerResult>, honest: set<nat>, k: nat, i: nat)
    requires Covers(sched, honest) && HonestTrusted(h, m, sched, results, honest)
    requires k < |sched.providers| && i < |sched.chunks| && sched.chunks[i] == Missing
    ensures Covers(Claim(sched, k, i), honest) && HonestTrusted(h, m, Claim(sched, k, i), results, honest)
  {
    CoversMonotone(sched, Claim(sched, k, i), honest);
  }

  lemma {:induction false} HonestAssign(
    h: Hash, m: Manifest, s: System, s': System, honest: set<nat>, resumed: nat, budget: int)
    requires SysInv(m, s, resumed, budget) && HonestInv(h, m, s, honest)
    requires s.main.Assigning? && s.main.slot < |s.workers| && AssignStep(m, s, s')
    ensures HonestInv(h, m, s', honest)
  {
    hide Inv, Matched, CanFinish, MainOk, WithinBudget, Covers, HonestTrusted;
    var k := s.main.slot;
    if s' != s.(main := Assigning(k + 1, s.main.sent)) {
      var i: nat, sched :| Assigned(s.sched, k, Some(i), sched) && s' == Dispatch(m, s, k, i, sched);
      DispatchInv(m, s, i, sched, s', resumed, budget);
      IdleSlotQuiet(s, k, resumed);
      HonestClaim(h, m, s.sched, s.results, honest, k, i);
    }
  }

  lemma {:induction false} HonestStepInv(
    h: Hash, m: Manifest, s: System, l: Label, s': System, honest: set<nat>, resumed: nat, budget: int)
    requires SysInv(m, s, resumed, budget) && HonestInv(h, m, s, honest)
    requires Step(h, m, s, l, s') && HonestStep(h, m, honest, s, l)
    ensures HonestInv(h, m, s', honest)
  {
    match l {
      case AssignSlot => HonestAssign(h, m, s, s', honest, resumed, budget);
      case Receive => HonestReceive(h, m, s, honest, resumed, budget);
      case _ =>
    }
  }

  /** Until it has ended, the download can always move without being interrupted, honest slots answering honestly. */
  lemma {:induction false} NeverStuck(
    h: Hash, m: Manifest, content: seq<Byte>, s: System, honest: set<nat>, resumed: nat, budget: int)
    returns (l: Label, s': System)
    requires Resume.Built(h, content, m) && SysInv(m, s, resumed, budget) && !s.main.Ended?
    ensures Step(h, m, s, l, s') && HonestStep(h, m, honest, s, l) && !Interrupts(l)
  {
    match s.main {
      case LoopHead =>
        l, s' := Check, CheckStep(s);
      case Assigning(slot, sent) =>
        if slot < |s.workers| {
          l := AssignSlot;
          s' := CanAssign(m, s);
        } else {
          l, s' := AfterAssign, AfterAssignStep(s);
        }
      case Waiting =>
        if s.results != [] {
          l, s' := Receive, ReceiveStep(h, m, s);
        } else {
          var k := SomeoneOwesAnswer(s.sched, s.workers, resumed);
          var j := s.workers[k].inbox[0];
          var answer := Got(Chunk(j, m.chunks[j], Slice(content, j)));
          assert Good(h, m, j, answer);
          l, s' := Respond(k, answer), RespondStep(s, k, answer);
        }
    }
  }

  /** With a request in flight and no result waiting, some running worker has a command to answer. */
  lemma {:induction false} SomeoneOwesAnswer(sched: State, workers: seq<Worker>, resumed: nat) returns (k: nat)
    requires Inv(sched, resumed) && Matched(sched, workers, []) && HasInFlight(sched)
    ensures k < |workers| && workers[k].alive && workers[k].inbox != [] && workers[k].inbox[0] < |sched.chunks|
  {
    var i :| 0 <= i < |sched.chunks| && sched.chunks[i].InFlight?;
    k := sched.chunks[i].provider;
    assert NeedsAnswer(sched, workers, k);
  }

  lemma {:induction false} CanAssign(m: Manifest, s: System) returns (s': System)
    requires s.main.Assigning? && s.main.slot < |s.workers| == |s.sched.providers|
    ensures AssignStep(m, s, s')
  {
    var k := s.main.slot;
    if Idle(s.sched, k) && exists i: nat :: Candidate(s.sched, k, i) {
      var i := RarestExists(s.sched, k, |s.sched.chunks|);
      assert Assigned(s.sched, k, Some(i), Claim(s.sched, k, i));
      s' := Dispatch(m, s, k, i, Claim(s.sched, k, i));
    } else {
      s' := s.(main := Assigning(k + 1, s.main.sent));
    }
  }

  lemma {:induction false} RarestExists(s: State, p: nat, bound: nat) returns (i: nat)
    requires p < |s.providers| && exists j: nat :: j < bound && Candidate(s, p, j)
    ensures Candidate(s, p, i) && i < bound && forall j: nat | j < bound && Candidate(s, p, j) :: NoRarer(s, i, j)
  {
    if exists j: nat :: j < bound - 1 && Candidate(s, p, j) {
      i := RarestExists(s, p, bound - 1);
      if Candidate(s, p, bound - 1) && !NoRarer(s, i, bound - 1) {
        i := bound - 1;
      }
    } else {
      i := bound - 1;
    }
  }

  lemma {:induction false} UninterruptedStep(
    h: Hash, m: Manifest, s: System, l: Label, s': System, honest: set<nat>, resumed: nat, budget: int)
    requires SysInv(m, s, resumed, budget) && HonestInv(h, m, s, honest)
    requires Step(h, m, s, l, s') && HonestStep(h, m, honest, s, l) && !Interrupts(l)
    requires s.main.Ended? ==> s.main == Ended(Finished)
    ensures HonestInv(h, m, s', honest)
    ensures s'.main.Ended? ==> s'.main == Ended(Finished)
  {
    HonestStepInv(h, m, s, l, s', honest, resumed, budget);
    OnlyInterruptsInterrupt(h, m, s, l, s');
    StepInv(h, m, s, l, s', resumed, budget);
  }

  lemma {:induction false} OnlyInterruptsInterrupt(h: Hash, m: Manifest, s: System, l: Label, s': System)
    requires Step(h, m, s, l, s') && !Interrupts(l)
    ensures s'.main.Ended? && s'.main != s.main ==>
              s'.main.outcome in {Finished, NoHealthyProvider, NoHonestProvider, InternalError}
  {
  }

  /** An uninterrupted run in which the `honest` slots answer honestly. */
  ghost predicate HonestRun(h: Hash, m: Manifest, states: seq<System>, labels: seq<Label>, honest: set<nat>) {
    && IsRun(h, m, states, labels)
    && forall k | 0 <= k < |labels| :: !Interrupts(labels[k]) && HonestStep(h, m, honest, states[k], labels[k])
  }

  lemma {:induction false} HonestRunInv(
    h: Hash, m: Manifest, availability: seq<PieceAvailability>,
    states: seq<System>, labels: seq<Label>, honest: set<nat>, k: nat)
    requires HonestRun(h, m, states, labels, honest) && Initial(m, availability, states[0]) && k < |states|
    requires (forall p | p in honest :: p < |availability|) && Covers(states[0].sched, honest)
    ensures HonestInv(h, m, states[k], honest)
    ensures states[k].main.Ended? ==> states[k].main == Ended(Finished)
  {
    if k > 0 {
      HonestRunInv(h, m, availability, states, labels, honest, k - 1);
      RunInv(h, m, availability, states, labels, k - 1);
      var resumed, budget := CountComplete(states[0].sched.chunks), Work(states[0].sched);
      UninterruptedStep(h, m, states[k - 1], labels[k - 1], states[k], honest, resumed, budget);
    }
  }

  /** The run cannot go on, except by being interrupted. */
  ghost predicate Stuck(h: Hash, m: Manifest, s: System, honest: set<nat>) {
    forall l, s' | Step(h, m, s, l, s') && HonestStep(h, m, honest, s, l) :: Interrupts(l)
  }

  /**
   * The download delivers. Take any interleaving in which every missing chunk is held by some provider
   * that always answers correctly, whatever the others send. Unless the loop is interrupted, the run can
   * be continued only a bounded number of steps, and when it can no longer be continued every chunk
   * is complete and the partial file is the content, unless some provider got other data past a digest.
   */
  lemma {:induction false} DownloadDelivers(
    h: Hash, m: Manifest, content: seq<Byte>, availability: seq<PieceAvailability>,
    states: seq<System>, labels: seq<Label>, honest: set<nat>)
    requires HonestRun(h, m, states, labels, honest) && Initial(m, availability, states[0])
    requires Resume.Built(h, content, m)
    requires (forall p | p in honest :: p < |availability|) && Covers(states[0].sched, honest)
    ensures |labels| <= Measure(states[0])
    ensures Stuck(h, m, states[|labels|], honest) ==>
              var last := states[|labels|];
              && last.main == Ended(Finished) && IsComplete(last.sched) && Recorded(last.sched, last.completed)
              && (Resume.Agrees(content, states[0].file, states[0].completed) ==>
                    last.file == content || Forged(h, m, content, states, labels, |labels|))
  {
    hide Step, Measure, HonestStep, Resume.Built, Matched, CanFinish, Covers, Work, CountComplete;
    var last := states[|labels|];
    RunBounds(h, m, availability, states, labels);
    RunInv(h, m, availability, states, labels, |labels|);
    HonestRunInv(h, m, availability, states, labels, honest, |labels|);
    if Stuck(h, m, last, honest) {
      if !last.main.Ended? {
        var l, s' := NeverStuck(
          h, m, content, last, honest, CountComplete(states[0].sched.chunks), Work(states[0].sched));
        assert false;
      }
      if Resume.Agrees(content, states[0].file, states[0].completed) {
        RunAgrees(h, m, content, states, labels, |labels|);
        if !Forged(h, m, content, states, labels, |labels|) {
          Resume.AllCompleteIsContent(content, last.file, last.completed);
        }
      }
    }
  }
}
