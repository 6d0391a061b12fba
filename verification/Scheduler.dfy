/**
 * The rarest-first chunk scheduler: at most one outstanding request per provider,
 * failed providers are dropped for the rest of the transfer.
 *
 * `State` and the functions on it are the specification; class `Scheduler` is the
 * in-place form, each method proved against them.
 */
module Scheduling {
  import opened Prelude
  import opened Availability

  datatype ChunkState = Missing | InFlight(provider: nat) | Complete

  datatype Provider = Provider(
    availability: PieceAvailability,
    active: bool,
    busy: bool,
    accepted: nat,
    rejected: nat)

  datatype State = State(chunks: seq<ChunkState>, providers: seq<Provider>, retries: nat)

  datatype ScheduleError =
    | InvalidCompletedLength
    | InvalidAvailability
    | TooManyChunks
    | UnknownProvider
    | UnexpectedChunk

  // ----- Queries -----

  /** Active providers advertising chunk `i`. */
  function CountSources(providers: seq<Provider>, i: nat): nat {
    if providers == [] then 0 else
      CountSources(providers[..|providers| - 1], i) + (if IsSource(providers[|providers| - 1], i) then 1 else 0)
  }

  predicate IsSource(p: Provider, i: nat) {
    p.active && Contains(p.availability, i)
  }

  /** The active providers that hold chunk `i`. */
  ghost function Sources(providers: seq<Provider>, i: nat): set<nat> {
    set p: nat | p < |providers| && providers[p].active && Contains(providers[p].availability, i)
  }

  lemma {:induction false} SourcesCounted(providers: seq<Provider>, i: nat)
    ensures CountSources(providers, i) == |Sources(providers, i)|
  {
    if providers == [] {
      assert Sources(providers, i) == {};
    } else {
      var n := |providers| - 1;
      SourcesCounted(providers[..n], i);
      assert Sources(providers, i) ==
             if IsSource(providers[n], i) then Sources(providers[..n], i) + {n} else Sources(providers[..n], i);
    }
  }

  predicate IsComplete(s: State) {
    forall i | 0 <= i < |s.chunks| :: s.chunks[i] == Complete
  }

  predicate HasInFlight(s: State) {
    exists i | 0 <= i < |s.chunks| :: s.chunks[i].InFlight?
  }

  predicate CanFinish(s: State) {
    forall i | 0 <= i < |s.chunks| :: s.chunks[i] == Missing ==> CountSources(s.providers, i) > 0
  }

  // ----- Transitions -----

  predicate Candidate(s: State, p: nat, i: nat)
    requires p < |s.providers|
  {
    i < |s.chunks| && s.chunks[i] == Missing && Contains(s.providers[p].availability, i)
  }

  /** (sources, index) pairs are compared lexicographically. */
  predicate NoRarer(s: State, i: nat, j: nat) {
    || CountSources(s.providers, i) < CountSources(s.providers, j)
    || (CountSources(s.providers, i) == CountSources(s.providers, j) && i <= j)
  }

  ghost predicate IsRarest(s: State, p: nat, i: nat)
    requires p < |s.providers|
  {
    Candidate(s, p, i) && forall j: nat | Candidate(s, p, j) :: NoRarer(s, i, j)
  }

  ghost predicate Idle(s: State, p: nat) {
    p < |s.providers| && s.providers[p].active && !s.providers[p].busy
  }

  function Claim(s: State, p: nat, i: nat): State
    requires p < |s.providers| && i < |s.chunks|
  {
    s.(chunks := s.chunks[i := InFlight(p)], providers := s.providers[p := s.providers[p].(busy := true)])
  }

  /** What `assign(p)` may return and leave behind. */
  ghost predicate Assigned(s: State, p: nat, choice: Option<nat>, s': State) {
    match choice
    case Some(i) => Idle(s, p) && IsRarest(s, p, i) && s' == Claim(s, p, i)
    case None => s' == s && (Idle(s, p) ==> forall i: nat :: !Candidate(s, p, i))
  }

  /** A response is taken only for the chunk that is in flight to its own provider. */
  function Accepted(s: State, p: nat, i: nat): (State, Result<(), ScheduleError>) {
    if i >= |s.chunks| || s.chunks[i] != InFlight(p) then (s, Err(UnexpectedChunk)) else
      var chunks := s.chunks[i := Complete];
      if p >= |s.providers| then (s.(chunks := chunks), Err(UnknownProvider)) else
        var provider := s.providers[p];
        var freed := provider.(busy := false, accepted := provider.accepted + 1);
        (s.(chunks := chunks, providers := s.providers[p := freed]), Ok(()))
  }

  /** Chunks in flight to `p` go back to `Missing`. */
  function Release(chunks: seq<ChunkState>, p: nat): (r: seq<ChunkState>)
    ensures |r| == |chunks|
    ensures forall i | 0 <= i < |chunks| :: r[i] == if chunks[i] == InFlight(p) then Missing else chunks[i]
  {
    if chunks == [] then [] else
      var last := chunks[|chunks| - 1];
      Release(chunks[..|chunks| - 1], p) + [if last == InFlight(p) then Missing else last]
  }

  function CountInFlight(chunks: seq<ChunkState>, p: nat): nat {
    if chunks == [] then 0 else
      CountInFlight(chunks[..|chunks| - 1], p) + (if chunks[|chunks| - 1] == InFlight(p) then 1 else 0)
  }

  function Rejected(s: State, p: nat): State {
    State(
      Release(s.chunks, p),
      if p < |s.providers| then
        s.providers[p := s.providers[p].(busy := false, active := false, rejected := s.providers[p].rejected + 1)]
      else s.providers,
      s.retries + CountInFlight(s.chunks, p))
  }

  function Fresh(availability: seq<PieceAvailability>, completed: seq<bool>): State {
    State(
      seq(|completed|, i requires 0 <= i < |completed| => if completed[i] then Complete else Missing),
      seq(|availability|, p requires 0 <= p < |availability| => Provider(availability[p], true, false, 0, 0)),
      0)
  }

  predicate WellFormedInput(chunkCount: nat, availability: seq<PieceAvailability>, completed: seq<bool>) {
    && |completed| == chunkCount <= U32_MAX
    && forall p | 0 <= p < |availability| :: availability[p].chunkCount == chunkCount && IsValid(availability[p])
  }

  // ----- What a choice and a coverage test mean, in sets of holders -----

  ghost function InFlightTo(chunks: seq<ChunkState>, p: nat): set<nat> {
    set i: nat | i < |chunks| && chunks[i] == InFlight(p)
  }

  lemma {:induction false} InFlightCounted(chunks: seq<ChunkState>, p: nat)
    ensures CountInFlight(chunks, p) == |InFlightTo(chunks, p)|
  {
    if chunks == [] {
      assert InFlightTo(chunks, p) == {};
    } else {
      var n := |chunks| - 1;
      InFlightCounted(chunks[..n], p);
      assert InFlightTo(chunks, p) ==
             if chunks[n] == InFlight(p) then InFlightTo(chunks[..n], p) + {n} else InFlightTo(chunks[..n], p);
    }
  }

  ghost function CompleteOf(chunks: seq<ChunkState>): set<nat> {
    set i: nat | i < |chunks| && chunks[i] == Complete
  }

  lemma {:induction false} CompleteCounted(chunks: seq<ChunkState>)
    ensures CountComplete(chunks) == |CompleteOf(chunks)|
  {
    if chunks == [] {
      assert CompleteOf(chunks) == {};
    } else {
      var n := |chunks| - 1;
      CompleteCounted(chunks[..n]);
      assert CompleteOf(chunks) ==
             if chunks[n] == Complete then CompleteOf(chunks[..n]) + {n} else CompleteOf(chunks[..n]);
    }
  }

  /** The chunk is missing and the provider holds it. */
  predicate Wanted(chunks: seq<ChunkState>, provider: Provider, i: nat) {
    i < |chunks| && chunks[i] == Missing && Contains(provider.availability, i)
  }

  /** No other wanted chunk has fewer active holders, or as few and a lower index. */
  ghost predicate RarestFirst(chunks: seq<ChunkState>, providers: seq<Provider>, p: nat, i: nat)
    requires p < |providers|
  {
    && Wanted(chunks, providers[p], i)
    && forall j: nat | Wanted(chunks, providers[p], j) && j != i ::
         var held, other := |Sources(providers, i)|, |Sources(providers, j)|;
         held < other || (held == other && i < j)
  }

  lemma {:induction false} RarestIsFirst(s: State, p: nat, i: nat)
    requires p < |s.providers|
    ensures IsRarest(s, p, i) <==> RarestFirst(s.chunks, s.providers, p, i)
  {
    hide Contains;
    SourcesCounted(s.providers, i);
    forall j: nat ensures CountSources(s.providers, j) == |Sources(s.providers, j)| {
      SourcesCounted(s.providers, j);
    }
    hide CountSources, Sources;
    if RarestFirst(s.chunks, s.providers, p, i) {
      forall j: nat | Candidate(s, p, j) ensures NoRarer(s, i, j) {
        assert Wanted(s.chunks, s.providers[p], j);
      }
    } else if IsRarest(s, p, i) {
      forall j: nat | Wanted(s.chunks, s.providers[p], j) && j != i
        ensures |Sources(s.providers, i)| < |Sources(s.providers, j)|
                || (|Sources(s.providers, i)| == |Sources(s.providers, j)| && i < j)
      {
        assert Candidate(s, p, j);
      }
    }
  }

  /** It can finish exactly while every missing chunk has an active holder. */
  lemma {:induction false} CanFinishExactly(s: State)
    ensures CanFinish(s) <==>
            forall i | 0 <= i < |s.chunks| && s.chunks[i] == Missing ::
              exists p :: 0 <= p < |s.providers| && s.providers[p].active && Contains(s.providers[p].availability, i)
  {
    hide Contains;
    forall i: nat ensures CountSources(s.providers, i) > 0 <==>
        exists p :: 0 <= p < |s.providers| && s.providers[p].active && Contains(s.providers[p].availability, i)
    {
      SourcesCounted(s.providers, i);
      if p :| 0 <= p < |s.providers| && s.providers[p].active && Contains(s.providers[p].availability, i) {
        assert p in Sources(s.providers, i);
      } else {
        assert Sources(s.providers, i) == {};
      }
    }
    hide CountSources;
  }

  // ----- The in-place scheduler -----

  class Scheduler {
    var chunks: seq<ChunkState>
    var providers: seq<Provider>
    var retries: nat

    function View(): State
      reads this
    {
      State(chunks, providers, retries)
    }

    constructor (s: State)
      ensures View() == s
    {
      chunks := s.chunks;
      providers := s.providers;
      retries := s.retries;
    }

    static method New(chunkCount: nat, availability: seq<PieceAvailability>, completed: seq<bool>)
      returns (r: Result<Scheduler, ScheduleError>)
      ensures r.Ok? <==> WellFormedInput(chunkCount, availability, completed)
      ensures r.Ok? ==> fresh(r.value) && r.value.View() == Fresh(availability, completed)
      ensures r.Err? ==> r.error ==
                         if |completed| != chunkCount then InvalidCompletedLength
                         else if chunkCount > U32_MAX then TooManyChunks
                         else InvalidAvailability
    {
      if |completed| != chunkCount {
        return Err(InvalidCompletedLength);
      }
      if chunkCount > U32_MAX {
        return Err(TooManyChunks);
      }
      if exists p | 0 <= p < |availability| :: availability[p].chunkCount != chunkCount || !IsValid(availability[p]) {
        return Err(InvalidAvailability);
      }
      var scheduler := new Scheduler(Fresh(availability, completed));
      r := Ok(scheduler);
    }

    method Assign(p: nat) returns (choice: Option<nat>)
      modifies this
      ensures Assigned(old(View()), p, choice, View())
      ensures choice.Some? <==>
                && p < |old(providers)| && old(providers)[p].active && !old(providers)[p].busy
                && exists i: nat :: Wanted(old(chunks), old(providers)[p], i)
      ensures choice.Some? ==>
                && RarestFirst(old(chunks), old(providers), p, choice.value)
                && chunks == old(chunks)[choice.value := InFlight(p)]
                && providers == old(providers)[p := old(providers)[p].(busy := true)] && retries == old(retries)
      ensures choice.None? ==> unchanged(this)
    {
      if p >= |providers| || !providers[p].active || providers[p].busy {
        return None;
      }
      ghost var s := View();
      choice := None;
      for i := 0 to |chunks|
        invariant View() == s
        invariant choice.None? ==> forall j: nat | j < i :: !Candidate(s, p, j)
        invariant choice.Some? ==>
                    && Candidate(s, p, choice.value) && choice.value < i
                    && forall j: nat | j < i && Candidate(s, p, j) :: NoRarer(s, choice.value, j)
      {
        if chunks[i] == Missing && Contains(providers[p].availability, i) {
          if choice.None? || CountSources(providers, i) < CountSources(providers, choice.value) {
            choice := Some(i);
          }
        }
      }
      if choice.Some? {
        RarestIsFirst(s, p, choice.value);
        assert Wanted(chunks, providers[p], choice.value);
        chunks := chunks[choice.value := InFlight(p)];
        providers := providers[p := providers[p].(busy := true)];
      } else {
        assert forall j: nat | Wanted(chunks, providers[p], j) :: Candidate(s, p, j);
      }
    }

    method Accept(p: nat, i: nat) returns (r: Result<(), ScheduleError>)
      modifies this
      ensures (View(), r) == Accepted(old(View()), p, i)
      ensures r.Ok? <==> i < |old(chunks)| && old(chunks)[i] == InFlight(p) && p < |old(providers)|
      ensures r.Ok? ==> chunks == old(chunks)[i := Complete] && |providers| == |old(providers)|
      ensures r.Ok? ==> !providers[p].busy && providers[p].accepted == old(providers)[p].accepted + 1
      ensures forall q | 0 <= q < |providers| && q != p :: providers[q] == old(providers)[q]
      ensures r.Err? && RequestsMatch(old(View())) ==> unchanged(this)
    {
      if i >= |chunks| || chunks[i] != InFlight(p) {
        return Err(UnexpectedChunk);
      }
      chunks := chunks[i := Complete];
      if p >= |providers| {
        return Err(UnknownProvider);
      }
      providers := providers[p := providers[p].(busy := false, accepted := providers[p].accepted + 1)];
      r := Ok(());
    }

    method Reject(p: nat)
      modifies this
      ensures View() == Rejected(old(View()), p)
      ensures |chunks| == |old(chunks)| && |providers| == |old(providers)|
      ensures forall i | 0 <= i < |chunks| :: chunks[i] == if old(chunks)[i] == InFlight(p) then Missing
              else old(chunks)[i]
      ensures retries == old(retries) + |InFlightTo(old(chunks), p)|
      ensures p < |providers| ==>
                && !providers[p].busy && !providers[p].active && providers[p].rejected == old(providers)[p].rejected + 1
                && providers[p].availability == old(providers)[p].availability
                && providers[p].accepted == old(providers)[p].accepted
      ensures forall q | 0 <= q < |providers| && q != p :: providers[q] == old(providers)[q]
    {
      InFlightCounted(chunks, p);
      ghost var s := View();
      for i := 0 to |chunks|
        invariant |chunks| == |s.chunks| && providers == s.providers
        invariant forall j | 0 <= j < i :: chunks[j] == if s.chunks[j] == InFlight(p) then Missing else s.chunks[j]
        invariant forall j | i <= j < |chunks| :: chunks[j] == s.chunks[j]
        invariant retries == s.retries + CountInFlight(s.chunks[..i], p)
      {
        assert s.chunks[..i + 1][..i] == s.chunks[..i];
        if chunks[i] == InFlight(p) {
          chunks := chunks[i := Missing];
          retries := retries + 1;
        }
      }
      assert s.chunks[..|chunks|] == s.chunks;
      if p < |providers| {
        var dropped := providers[p].(busy := false, active := false, rejected := providers[p].rejected + 1);
        providers := providers[p := dropped];
      }
    }
  }

  // ----- The invariant every call keeps -----

  function CountComplete(chunks: seq<ChunkState>): nat {
    if chunks == [] then 0 else
      CountComplete(chunks[..|chunks| - 1]) + (if chunks[|chunks| - 1] == Complete then 1 else 0)
  }

  function SumAccepted(providers: seq<Provider>): nat {
    if providers == [] then 0 else SumAccepted(providers[..|providers| - 1]) + providers[|providers| - 1].accepted
  }

  function CountInactive(providers: seq<Provider>): nat {
    if providers == [] then 0 else
      CountInactive(providers[..|providers| - 1]) + (if providers[|providers| - 1].active then 0 else 1)
  }

  /** A busy provider is active and has exactly one chunk in flight, one it advertises; an idle one has none. */
  ghost predicate RequestsMatch(s: State) {
    && (forall i | 0 <= i < |s.chunks| && s.chunks[i].InFlight? ::
          var p := s.chunks[i].provider;
          p < |s.providers| && s.providers[p].busy && IsSource(s.providers[p], i))
    && (forall i, j | 0 <= i < |s.chunks| && 0 <= j < |s.chunks| && s.chunks[i].InFlight? ::
          s.chunks[i] == s.chunks[j] ==> i == j)
    && (forall p | 0 <= p < |s.providers| && s.providers[p].busy ::
          exists i :: 0 <= i < |s.chunks| && s.chunks[i] == InFlight(p))
  }

  /** `resumed` is the number of chunks that were complete when the scheduler was created. */
  ghost predicate Inv(s: State, resumed: nat) {
    && RequestsMatch(s)
    && CountComplete(s.chunks) == resumed + SumAccepted(s.providers)
    && s.retries <= CountInactive(s.providers)
  }

  // Counting one updated position.

  lemma {:induction false} CompleteUpdate(chunks: seq<ChunkState>, i: nat, c: ChunkState)
    requires i < |chunks|
    ensures CountComplete(chunks[i := c]) ==
            CountComplete(chunks) - (if chunks[i] == Complete then 1 else 0) + (if c == Complete then 1 else 0)
  {
    var n := |chunks| - 1;
    if i < n {
      assert chunks[i := c][..n] == chunks[..n][i := c];
      CompleteUpdate(chunks[..n], i, c);
    } else {
      assert chunks[i := c][..n] == chunks[..n];
    }
  }

  lemma {:induction false} ProviderUpdate(providers: seq<Provider>, p: nat, q: Provider)
    requires p < |providers|
    ensures SumAccepted(providers[p := q]) == SumAccepted(providers) - providers[p].accepted + q.accepted
    ensures CountInactive(providers[p := q]) ==
            CountInactive(providers) - (if providers[p].active then 0 else 1) + (if q.active then 0 else 1)
  {
    var n := |providers| - 1;
    if p < n {
      assert providers[p := q][..n] == providers[..n][p := q];
      ProviderUpdate(providers[..n], p, q);
    } else {
      assert providers[p := q][..n] == providers[..n];
    }
  }

  lemma {:induction false} ReleaseKeepsComplete(chunks: seq<ChunkState>, p: nat)
    ensures CountComplete(Release(chunks, p)) == CountComplete(chunks)
  {
    if chunks != [] {
      var n := |chunks| - 1;
      ReleaseKeepsComplete(chunks[..n], p);
      assert Release(chunks, p)[..n] == Release(chunks[..n], p);
    }
  }

  /** With no two chunks in flight to one provider, at most one chunk is released. */
  lemma {:induction false} AtMostOneInFlight(chunks: seq<ChunkState>, p: nat)
    requires forall i, j | 0 <= i < |chunks| && 0 <= j < |chunks| && chunks[i] == chunks[j] == InFlight(p) :: i == j
    ensures CountInFlight(chunks, p) <= 1
    ensures CountInFlight(chunks, p) == 1 <==> exists i :: 0 <= i < |chunks| && chunks[i] == InFlight(p)
  {
    if chunks != [] {
      var n := |chunks| - 1;
      var front := chunks[..n];
      AtMostOneInFlight(front, p);
      if chunks[n] == InFlight(p) {
        assert forall i | 0 <= i < n :: front[i] == chunks[i];
      } else if exists i :: 0 <= i < |chunks| && chunks[i] == InFlight(p) {
        var i :| 0 <= i < |chunks| && chunks[i] == InFlight(p);
        assert front[i] == InFlight(p);
      }
    }
  }

  lemma {:induction false} SumAcceptedZero(providers: seq<Provider>)
    requires forall p | 0 <= p < |providers| :: providers[p].accepted == 0 && providers[p].active
    ensures SumAccepted(providers) == 0 && CountInactive(providers) == 0
  {
    if providers != [] {
      SumAcceptedZero(providers[..|providers| - 1]);
    }
  }

  lemma {:induction false} FreshInv(availability: seq<PieceAvailability>, completed: seq<bool>)
    ensures Inv(Fresh(availability, completed), CountComplete(Fresh(availability, completed).chunks))
  {
    SumAcceptedZero(Fresh(availability, completed).providers);
  }

  lemma {:induction false} AssignInv(s: State, p: nat, choice: Option<nat>, s': State, resumed: nat)
    requires Inv(s, resumed) && Assigned(s, p, choice, s')
    ensures Inv(s', resumed)
  {
    if choice.Some? {
      var i := choice.value;
      CompleteUpdate(s.chunks, i, InFlight(p));
      ProviderUpdate(s.providers, p, s.providers[p].(busy := true));
      forall q | 0 <= q < |s'.providers| && s'.providers[q].busy
        ensures exists j :: 0 <= j < |s'.chunks| && s'.chunks[j] == InFlight(q)
      {
        if q == p {
          assert s'.chunks[i] == InFlight(q);
        } else {
          var j :| 0 <= j < |s.chunks| && s.chunks[j] == InFlight(q);
          assert s'.chunks[j] == InFlight(q);
        }
      }
    }
  }

  /** An accepted response frees its provider and completes exactly its chunk. */
  lemma {:induction false} AcceptInv(s: State, p: nat, i: nat, resumed: nat)
    requires Inv(s, resumed)
    ensures Inv(Accepted(s, p, i).0, resumed)
    ensures Accepted(s, p, i).1.Ok? <==> i < |s.chunks| && s.chunks[i] == InFlight(p)
  {
    if i >= |s.chunks| || s.chunks[i] != InFlight(p) {
      return;
    }
    var s' := Accepted(s, p, i).0;
    CompleteUpdate(s.chunks, i, Complete);
    ProviderUpdate(s.providers, p, s'.providers[p]);
    forall q | 0 <= q < |s'.providers| && s'.providers[q].busy
      ensures exists j :: 0 <= j < |s'.chunks| && s'.chunks[j] == InFlight(q)
    {
      var j :| 0 <= j < |s.chunks| && s.chunks[j] == InFlight(q);
      assert s'.chunks[j] == InFlight(q);
    }
  }

  lemma {:induction false} RejectMatches(s: State, p: nat)
    requires RequestsMatch(s)
    ensures RequestsMatch(Rejected(s, p))
  {
    var s' := Rejected(s, p);
    forall q | 0 <= q < |s'.providers| && s'.providers[q].busy
      ensures exists j :: 0 <= j < |s'.chunks| && s'.chunks[j] == InFlight(q)
    {
      var j :| 0 <= j < |s.chunks| && s.chunks[j] == InFlight(q);
      assert s'.chunks[j] == InFlight(q);
    }
  }

  /** Dropping a provider releases its chunk, if any, and costs at most one retry. */
  lemma {:induction false} RejectInv(s: State, p: nat, resumed: nat)
    requires Inv(s, resumed)
    ensures Inv(Rejected(s, p), resumed)
    ensures var s' := Rejected(s, p);
            forall i, j | 0 <= i < j < |s.chunks| :: s'.chunks[i] == s.chunks[i] || s'.chunks[j] == s.chunks[j]
    ensures Rejected(s, p).retries ==
            s.retries + if exists i | 0 <= i < |s.chunks| :: s.chunks[i] == InFlight(p) then 1 else 0
  {
    AtMostOneInFlight(s.chunks, p);
    RejectMatches(s, p);
    RejectCounts(s, p);
  }

  lemma {:induction false} RejectCounts(s: State, p: nat)
    requires RequestsMatch(s) && s.retries <= CountInactive(s.providers)
    ensures CountComplete(Rejected(s, p).chunks) == CountComplete(s.chunks)
    ensures SumAccepted(Rejected(s, p).providers) == SumAccepted(s.providers)
    ensures Rejected(s, p).retries <= CountInactive(Rejected(s, p).providers)
  {
    ReleaseKeepsComplete(s.chunks, p);
    AtMostOneInFlight(s.chunks, p);
    if p < |s.providers| {
      ProviderUpdate(s.providers, p, Rejected(s, p).providers[p]);
    }
  }

  // ----- Every reachable state -----

  datatype Call = AssignCall(p: nat) | AcceptCall(p: nat, i: nat) | RejectCall(p: nat)

  /** One call with any arguments. */
  ghost predicate CallStep(s: State, call: Call, s': State) {
    match call
    case AssignCall(p) => exists choice :: Assigned(s, p, choice, s')
    case AcceptCall(p, i) => s' == Accepted(s, p, i).0
    case RejectCall(p) => s' == Rejected(s, p)
  }

  ghost predicate IsCallRun(states: seq<State>, calls: seq<Call>) {
    |states| == |calls| + 1 && forall k | 0 <= k < |calls| :: CallStep(states[k], calls[k], states[k + 1])
  }

  /** Any sequence of calls, with any arguments, from a fresh scheduler. */
  lemma {:induction false} ReachableInv(
    availability: seq<PieceAvailability>, completed: seq<bool>, states: seq<State>, calls: seq<Call>, k: nat)
    requires IsCallRun(states, calls) && states[0] == Fresh(availability, completed) && k < |states|
    ensures Inv(states[k], CountComplete(Fresh(availability, completed).chunks))
  {
    var resumed := CountComplete(Fresh(availability, completed).chunks);
    if k == 0 {
      FreshInv(availability, completed);
    } else {
      ReachableInv(availability, completed, states, calls, k - 1);
      var s, s' := states[k - 1], states[k];
      assert CallStep(s, calls[k - 1], s');
      match calls[k - 1] {
        case AssignCall(p) =>
          var choice :| Assigned(s, p, choice, s');
          AssignInv(s, p, choice, s', resumed);
        case AcceptCall(p, i) =>
          AcceptInv(s, p, i, resumed);
        case RejectCall(p) =>
          RejectInv(s, p, resumed);
      }
    }
  }
}
