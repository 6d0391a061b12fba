/**
 * The persistent status row of one download, and every thread that writes it: workers, pause and
 * resume calls, shutdown and restart. One step is what happens under one lock acquisition or one
 * atomic access. Calls overlap freely, resumes of the same transfer included.
 */
module TransferStatus {
  import opened Prelude

  datatype Status = Running | Pausing | Paused | Interrupted | Completed | Failed

  /** A worker's control word. */
  datatype Flag = Continue | PauseAsked | InterruptAsked

  /** The worker that the downloads map stands for. */
  datatype Worker = NoWorker | Fetching | Returned(ok: bool)

  /** A worker that has taken itself out of the map and has yet to write its outcome. */
  datatype Leaving = Removed(ok: bool, flag: Flag) | Decided(outcome: Status)

  /** What the downloads map holds: nothing, the worker's control, or one left there by a start that gave up. */
  datatype Entry = Empty | Live | Stray

  datatype State = State(
    up: bool,
    status: Status,
    progress: nat,
    byWorker: bool,            // the last status write was a worker's outcome
    checked: multiset<nat>,    // starts that passed their check, with the progress they read
    prepared: nat,             // starts that have written `running`
    entry: Entry,
    worker: Worker,
    serial: nat,               // how many workers there have been
    flag: Flag,                // the control word of worker number `serial`
    leaving: map<nat, Leaving>,
    pausers: nat,              // pause calls that have passed the status check
    locked: bool)              // a pause call holds the downloads lock

  datatype Label =
    | PauseCheck
    | PauseRefused
    | PauseAsk
    | PauseWrite
    | ResumeCheck
    | Prepare(progress: nat)
    | PrepareFails(progress: nat)
    | Register
    | RegisterBails
    | FetchReturns(ok: bool)
    | Remove
    | Decide(id: nat, outcome: Status)
    | WriteOutcome(id: nat, total: nat)
    | Report(progress: nat)
    | Interrupt
    | MarkInterrupted
    | Exit
    | Boot(recover: bool)

  predicate IsLive(status: Status) {
    status == Running || status == Pausing
  }

  predicate IsEnd(status: Status) {
    status == Completed || status == Failed
  }

  function Marked(status: Status): Status {
    if IsLive(status) then Interrupted else status
  }

  /** What a worker whose fetch stopped short writes. */
  function Stopped(flag: Flag): Status {
    match flag
    case Continue => Failed
    case PauseAsked => Paused
    case InterruptAsked => Interrupted
  }

  predicate MayDecide(flag: Flag, ok: bool, outcome: Status) {
    if ok then IsEnd(outcome) else outcome == Stopped(flag)
  }

  predicate Enabled(s: State, l: Label) {
    && (l.Boot? <==> !s.up)
    && match l
       // pause_transfer: check the row, then take the downloads lock, look the control up, ask and write.
       case PauseCheck => IsLive(s.status)
       case PauseRefused => s.pausers > 0 && !s.locked && s.entry == Empty
       case PauseAsk => s.pausers > 0 && !s.locked && s.entry != Empty
       case PauseWrite => s.locked
       // resume_transfer and spawn_download.
       case ResumeCheck => s.status == Paused
       case Prepare(n) => n in s.checked
       case PrepareFails(n) => n in s.checked
       case Register => s.prepared > 0 && !s.locked && s.entry == Empty
       case RegisterBails => s.prepared > 0 && !s.locked && s.entry != Empty
       // run_download.
       case Report(_) => s.worker == Fetching
       case FetchReturns(_) => s.worker == Fetching
       case Remove => s.worker.Returned? && !s.locked
       case Decide(id, outcome) =>
         id in s.leaving && s.leaving[id].Removed? && MayDecide(s.leaving[id].flag, s.leaving[id].ok, outcome)
       case WriteOutcome(id, _) => id in s.leaving && s.leaving[id].Decided?
       // shutdown.
       case Interrupt => !s.locked
       case _ => true
  }

  function Next(s: State, l: Label): State
    requires Enabled(s, l)
  {
    match l
    case PauseCheck => s.(pausers := s.pausers + 1)
    case PauseRefused => s.(pausers := s.pausers - 1)
    case PauseAsk =>
      s.(pausers := s.pausers - 1, locked := true, flag := if s.entry == Live then PauseAsked else s.flag)
    case PauseWrite => s.(locked := false, status := Pausing, byWorker := false)
    case ResumeCheck => s.(checked := s.checked + multiset{s.progress})
    // The whole row is written back as it was read, with the status `running`.
    case Prepare(n) =>
      s.(checked := s.checked - multiset{n}, prepared := s.prepared + 1,
         status := Running, progress := n, byWorker := false)
    case PrepareFails(n) => s.(checked := s.checked - multiset{n})
    case Register =>
      s.(prepared := s.prepared - 1, entry := Live, worker := Fetching, serial := s.serial + 1, flag := Continue)
    // The insertion comes first, so the worker's control is gone from the map.
    case RegisterBails => s.(prepared := s.prepared - 1, entry := Stray)
    // update_progress writes only rows that are running or pausing.
    case Report(n) => if IsLive(s.status) then s.(progress := n) else s
    case FetchReturns(ok) => s.(worker := Returned(ok))
    case Remove =>
      s.(worker := NoWorker, entry := Empty, leaving := s.leaving[s.serial := Removed(s.worker.ok, s.flag)])
    case Decide(id, outcome) => s.(leaving := s.leaving[id := Decided(outcome)])
    case WriteOutcome(id, total) =>
      var outcome := s.leaving[id].outcome;
      s.(leaving := s.leaving - {id}, status := outcome, byWorker := true,
         progress := if outcome == Completed then total else s.progress)
    case Interrupt => if s.entry == Live then s.(flag := InterruptAsked) else s
    case MarkInterrupted => s.(status := Marked(s.status), byWorker := s.byWorker && !IsLive(s.status))
    // The process ends: threads and locks are gone, the row stays. The next start marks and may restart it.
    case Exit =>
      s.(up := false, checked := multiset{}, prepared := 0, entry := Empty, worker := NoWorker, flag := Continue,
         leaving := map[], pausers := 0, locked := false)
    case Boot(recover) =>
      s.(up := true, status := Marked(s.status), byWorker := s.byWorker && !IsLive(s.status),
         checked := if recover && Marked(s.status) == Interrupted then multiset{s.progress} else multiset{})
  }

  ghost predicate StepAt(states: seq<State>, labels: seq<Label>, i: nat)
    requires i < |labels| && |states| == |labels| + 1
  {
    Enabled(states[i], labels[i]) && states[i + 1] == Next(states[i], labels[i])
  }

  ghost predicate IsRun(states: seq<State>, labels: seq<Label>) {
    |states| == |labels| + 1 && forall i | 0 <= i < |labels| :: StepAt(states, labels, i)
  }

  lemma {:induction false} RunStep(states: seq<State>, labels: seq<Label>, i: nat)
    requires IsRun(states, labels) && i + 1 < |states|
    ensures |states| == |labels| + 1 && Enabled(states[i], labels[i]) && states[i + 1] == Next(states[i], labels[i])
  {
    assert StepAt(states, labels, i);
  }

  /** `start_fetch`: the row has just been created as running. */
  ghost predicate Initial(s: State) {
    s == State(true, Running, s.progress, false, multiset{s.progress}, 0, Empty, NoWorker, 0, Continue, map[], 0, false)
  }

  // ----- What every run keeps -----

  /** Some worker has yet to write its outcome. */
  predicate Outstanding(s: State) {
    s.worker != NoWorker || s.leaving != map[]
  }

  ghost predicate Inv(s: State) {
    // The map stands for the worker until the worker clears it, and a pause call in the lock has seen it.
    && (s.entry != Empty <==> s.worker != NoWorker)
    && (s.locked ==> s.entry != Empty)
    // `pausing` means that some worker has yet to write its outcome.
    && (s.up && s.status == Pausing ==> Outstanding(s))
    && (!s.up ==> !Outstanding(s) && s.checked == multiset{} && s.prepared == 0)
    && (forall id <- s.leaving :: id < s.serial || (id == s.serial && s.worker == NoWorker))
    && forall id <- s.leaving | s.leaving[id].Decided? :: !IsLive(s.leaving[id].outcome)
  }

  lemma {:induction false} StepInv(s: State, l: Label)
    requires Inv(s) && Enabled(s, l)
    ensures Inv(Next(s, l))
  {
    var t := Next(s, l);
    assert l.Remove? ==> s.serial in t.leaving;
    assert l.Decide? ==> l.id in t.leaving;
  }

  lemma {:induction false} RunInv(states: seq<State>, labels: seq<Label>, i: nat)
    requires IsRun(states, labels) && Initial(states[0]) && i < |states|
    ensures Inv(states[i])
  {
    if i > 0 {
      hide *;
      RunInv(states, labels, i - 1);
      RunStep(states, labels, i - 1);
      StepInv(states[i - 1], labels[i - 1]);
    }
  }

  /** In a running process a row is `pausing` only while some worker has yet to write its outcome. */
  lemma {:induction false} PausingHasWorker(states: seq<State>, labels: seq<Label>, i: nat)
    requires IsRun(states, labels) && Initial(states[0]) && i < |states|
    ensures states[i].up && states[i].status == Pausing ==> Outstanding(states[i])
  {
    RunInv(states, labels, i);
  }

  /** No start under way, no worker left. */
  predicate Idle(s: State) {
    s.checked == multiset{} && s.prepared == 0 && !Outstanding(s)
  }

  /** Until an explicit resume, a paused row keeps its status and its progress through anything, restarts included. */
  lemma {:induction false} PausedSurvives(states: seq<State>, labels: seq<Label>, i: nat, j: nat)
    requires IsRun(states, labels) && Initial(states[0]) && i <= j < |states|
    requires states[i].status == Paused && Idle(states[i])
    requires forall k | i <= k < j :: !labels[k].ResumeCheck?
    ensures states[j].status == Paused && Idle(states[j]) && states[j].progress == states[i].progress
  {
    if i < j {
      RunStep(states, labels, j - 1);
      hide *;
      PausedSurvives(states, labels, i, j - 1);
      RunInv(states, labels, j - 1);
      PausedKept(states[j - 1], labels[j - 1]);
    }
  }

  lemma {:induction false} PausedKept(s: State, l: Label)
    requires Inv(s) && Enabled(s, l) && s.status == Paused && Idle(s) && !l.ResumeCheck?
    ensures var t := Next(s, l);
            t.status == Paused && Idle(t) && t.progress == s.progress
  {
  }

  // ----- Runs in which resumes do not overlap -----

  /** No resume passes its check while another start is under way. */
  ghost predicate Exclusive(states: seq<State>, labels: seq<Label>)
    requires |states| == |labels| + 1
  {
    forall i | 0 <= i < |labels| && labels[i].ResumeCheck? :: states[i].checked == multiset{} && states[i].prepared == 0
  }

  /** At most one start or one worker, and while there is one the row says nothing final. */
  ghost predicate Single(s: State) {
    && (if s.checked == multiset{} then s.prepared <= 1 else
          s.checked == multiset{s.progress} && s.prepared == 0 && s.status != Pausing && !IsEnd(s.status))
    && s.entry != Stray
    && (forall id <- s.leaving :: id == s.serial && s.worker == NoWorker)
    && (Outstanding(s) ==>
          s.checked == multiset{} && s.prepared == 0 && !s.byWorker && (IsLive(s.status) || s.status == Interrupted))
    && (s.prepared > 0 ==> !s.byWorker && (s.status == Running || s.status == Interrupted))
  }

  predicate OfStart(l: Label) {
    l.ResumeCheck? || l.Prepare? || l.PrepareFails? || l.Register? || l.RegisterBails?
  }

  predicate OfWorker(l: Label) {
    l.Report? || l.FetchReturns? || l.Remove? || l.Decide? || l.WriteOutcome?
  }

  lemma {:induction false} SingleStart(s: State, l: Label)
    requires Inv(s) && Single(s) && Enabled(s, l) && OfStart(l)
    requires l.ResumeCheck? ==> s.checked == multiset{} && s.prepared == 0
    ensures Single(Next(s, l))
  {
    assert l.Prepare? || l.PrepareFails? ==> Next(s, l).checked == multiset{};
  }

  lemma {:induction false} SingleWorker(s: State, l: Label)
    requires Inv(s) && Single(s) && Enabled(s, l) && OfWorker(l)
    ensures Single(Next(s, l))
  {
    assert l.WriteOutcome? ==> Next(s, l).leaving == map[];
  }

  lemma {:induction false} SingleOther(s: State, l: Label)
    requires Inv(s) && Single(s) && Enabled(s, l) && !OfStart(l) && !OfWorker(l)
    ensures Single(Next(s, l))
  {
  }

  lemma {:induction false} SingleStep(s: State, l: Label)
    requires Inv(s) && Single(s) && Enabled(s, l)
    requires l.ResumeCheck? ==> s.checked == multiset{} && s.prepared == 0
    ensures Single(Next(s, l))
  {
    hide Inv, Single, Next, Enabled;
    if OfStart(l) {
      SingleStart(s, l);
    } else if OfWorker(l) {
      SingleWorker(s, l);
    } else {
      SingleOther(s, l);
    }
  }

  lemma {:induction false} SingleRun(states: seq<State>, labels: seq<Label>, i: nat)
    requires IsRun(states, labels) && Initial(states[0]) && Exclusive(states, labels) && i < |states|
    ensures Single(states[i])
  {
    if i > 0 {
      RunStep(states, labels, i - 1);
      hide Enabled, Next, Inv, Single, Initial, IsRun;
      SingleRun(states, labels, i - 1);
      RunInv(states, labels, i - 1);
      SingleStep(states[i - 1], labels[i - 1]);
    }
  }

  /** A pause call never writes over the outcome of a worker, and a start never finds another worker registered. */
  lemma {:induction false} PauseOverwritesNothing(states: seq<State>, labels: seq<Label>, i: nat)
    requires IsRun(states, labels) && Initial(states[0]) && Exclusive(states, labels) && i < |labels|
    ensures labels[i].PauseWrite? ==>
              !states[i].byWorker && (IsLive(states[i].status) || states[i].status == Interrupted)
    ensures !labels[i].RegisterBails?
  {
    RunInv(states, labels, i);
    SingleRun(states, labels, i);
    RunStep(states, labels, i);
  }

  /** A paused row leaves nothing under way but a resume that has passed its check. */
  lemma {:induction false} PausedIsIdle(states: seq<State>, labels: seq<Label>, i: nat)
    requires IsRun(states, labels) && Initial(states[0]) && Exclusive(states, labels) && i < |states|
    requires states[i].status == Paused
    ensures Idle(states[i]) <==> states[i].checked == multiset{}
  {
    SingleRun(states, labels, i);
  }

  /** From the write that records a pause, the row keeps its status and progress until an explicit resume. */
  lemma {:induction false} RecordedPauseSurvives(states: seq<State>, labels: seq<Label>, i: nat, j: nat)
    requires IsRun(states, labels) && Initial(states[0]) && Exclusive(states, labels) && i < j < |states|
    requires labels[i].WriteOutcome? && states[i + 1].status == Paused
    requires forall k | i < k < j :: !labels[k].ResumeCheck?
    ensures states[j].status == Paused && Idle(states[j]) && states[j].progress == states[i].progress
  {
    RunStep(states, labels, i);
    RunInv(states, labels, i);
    SingleRun(states, labels, i);
    PausedIsIdle(states, labels, i + 1);
    hide IsRun, Initial, Exclusive, Inv;
    PausedSurvives(states, labels, i + 1, j);
  }

  /** A completed or failed row never changes again. */
  lemma {:induction false} EndedStays(states: seq<State>, labels: seq<Label>, i: nat, j: nat)
    requires IsRun(states, labels) && Initial(states[0]) && Exclusive(states, labels) && i <= j < |states|
    requires IsEnd(states[i].status)
    ensures states[j].status == states[i].status && states[j].progress == states[i].progress
  {
    hide *;
    if i < j {
      EndedStays(states, labels, i, j - 1);
      RunInv(states, labels, j - 1);
      SingleRun(states, labels, j - 1);
      RunStep(states, labels, j - 1);
      EndedKept(states[j - 1], labels[j - 1]);
    }
  }

  lemma {:induction false} EndedKept(s: State, l: Label)
    requires Inv(s) && Single(s) && Enabled(s, l) && IsEnd(s.status)
    ensures Next(s, l).status == s.status && Next(s, l).progress == s.progress
  {
  }

  // ----- When an ended row can change after all -----

  /** The labels take `s` to `t`. */
  ghost predicate Leads(s: State, labels: seq<Label>, t: State)
    decreases labels
  {
    if labels == [] then t == s else Enabled(s, labels[0]) && Leads(Next(s, labels[0]), labels[1..], t)
  }

  lemma {:induction false} Stay(s: State)
    ensures Leads(s, [], s)
  {
  }

  lemma {:induction false} Prepend(s: State, l: Label, labels: seq<Label>, t: State)
    requires Enabled(s, l) && Leads(Next(s, l), labels, t)
    ensures Leads(s, [l] + labels, t)
  {
    hide Next, Enabled;
    assert ([l] + labels)[1..] == labels;
  }

  /** The only outcome this worker can still write is `status`. */
  predicate Settled(w: Leaving, status: Status) {
    match w
    case Removed(ok, flag) => !ok && Stopped(flag) == status
    case Decided(outcome) => outcome == status
  }

  /**
   * No start is under way, no pause can still be accepted, and whoever has yet to write the row can only write
   * what it says already.
   */
  predicate Final(s: State) {
    && s.checked == multiset{} && s.prepared == 0
    && (s.worker != NoWorker ==>
          && s.worker == Returned(false) && s.entry == Stray && Stopped(s.flag) == s.status
          && s.pausers == 0 && !s.locked)
    && forall id <- s.leaving :: Settled(s.leaving[id], s.status)
  }

  lemma {:induction false} FinalStep(s: State, l: Label)
    requires Inv(s) && Enabled(s, l) && IsEnd(s.status) && Final(s)
    ensures Final(Next(s, l)) && Next(s, l).status == s.status
  {
  }

  lemma {:induction false} FinalStays(s: State, labels: seq<Label>, t: State)
    requires Inv(s) && IsEnd(s.status) && Final(s) && Leads(s, labels, t)
    ensures t.status == s.status
    decreases labels
  {
    if labels != [] {
      StepInv(s, labels[0]);
      FinalStep(s, labels[0]);
      hide Enabled, Next, Inv, Final;
      FinalStays(Next(s, labels[0]), labels[1..], t);
    }
  }

  lemma {:induction false} WriteChanges(s: State, id: nat) returns (labels: seq<Label>, t: State)
    requires s.up && id in s.leaving && s.leaving[id].Decided? && s.leaving[id].outcome != s.status
    ensures Leads(s, labels, t) && t.status != s.status
  {
    labels, t := [WriteOutcome(id, 0)], Next(s, WriteOutcome(id, 0));
    Stay(t);
    Prepend(s, WriteOutcome(id, 0), [], t);
  }

  lemma {:induction false} RemovedChanges(s: State, id: nat, outcome: Status) returns (labels: seq<Label>, t: State)
    requires s.up && id in s.leaving && s.leaving[id].Removed? && outcome != s.status
    requires MayDecide(s.leaving[id].flag, s.leaving[id].ok, outcome)
    ensures Leads(s, labels, t) && t.status != s.status
  {
    var l := Decide(id, outcome);
    labels, t := WriteChanges(Next(s, l), id);
    Prepend(s, l, labels, t);
    labels := [l] + labels;
  }

  lemma {:induction false} ReturnedChanges(s: State, outcome: Status) returns (labels: seq<Label>, t: State)
    requires s.up && !s.locked && s.worker.Returned? && MayDecide(s.flag, s.worker.ok, outcome) && outcome != s.status
    ensures Leads(s, labels, t) && t.status != s.status
  {
    labels, t := RemovedChanges(Next(s, Remove), s.serial, outcome);
    Prepend(s, Remove, labels, t);
    labels := [Remove] + labels;
  }

  lemma {:induction false} FetchingChanges(s: State) returns (labels: seq<Label>, t: State)
    requires s.up && !s.locked && s.worker == Fetching
    ensures Leads(s, labels, t) && t.status != s.status
  {
    var l := FetchReturns(true);
    labels, t := ReturnedChanges(Next(s, l), if s.status == Completed then Failed else Completed);
    Prepend(s, l, labels, t);
    labels := [l] + labels;
  }

  lemma {:induction false} WorkerChanges(s: State) returns (labels: seq<Label>, t: State)
    requires Inv(s) && s.up && IsEnd(s.status) && !s.locked && s.worker != NoWorker
    requires s.worker != Returned(false) || s.entry == Live || Stopped(s.flag) != s.status
    ensures Leads(s, labels, t) && t.status != s.status
  {
    if s.worker == Fetching {
      labels, t := FetchingChanges(s);
    } else if s.worker.ok {
      labels, t := ReturnedChanges(s, if s.status == Completed then Failed else Completed);
    } else if s.entry == Live {
      labels, t := ReturnedChanges(Next(s, Interrupt), Interrupted);
      Prepend(s, Interrupt, labels, t);
      labels := [Interrupt] + labels;
    } else {
      labels, t := ReturnedChanges(s, Stopped(s.flag));
    }
  }

  lemma {:induction false} LeavingChanges(s: State, id: nat) returns (labels: seq<Label>, t: State)
    requires s.up && IsEnd(s.status) && id in s.leaving && !Settled(s.leaving[id], s.status)
    ensures Leads(s, labels, t) && t.status != s.status
  {
    match s.leaving[id] {
      case Decided(_) => labels, t := WriteChanges(s, id);
      case Removed(ok, flag) =>
        var other := if s.status == Completed then Failed else Completed;
        labels, t := RemovedChanges(s, id, if ok then other else Stopped(flag));
    }
  }

  lemma {:induction false} PauseChanges(s: State) returns (labels: seq<Label>, t: State)
    requires s.up && IsEnd(s.status) && (s.locked || (s.pausers > 0 && s.entry != Empty))
    ensures Leads(s, labels, t) && t.status != s.status
  {
    var asked := if s.locked then s else Next(s, PauseAsk);
    t := Next(asked, PauseWrite);
    Stay(t);
    Prepend(asked, PauseWrite, [], t);
    labels := [PauseWrite];
    if !s.locked {
      Prepend(s, PauseAsk, labels, t);
      labels := [PauseAsk] + labels;
    }
  }

  lemma {:induction false} StartChanges(s: State) returns (labels: seq<Label>, t: State)
    requires Inv(s) && s.up && IsEnd(s.status) && !s.locked && s.prepared > 0
    requires s.worker == NoWorker || s.worker == Returned(false)
    ensures Leads(s, labels, t) && t.status != s.status
  {
    var free := if s.worker == NoWorker then s else Next(s, Remove);
    labels, t := FetchingChanges(Next(free, Register));
    Prepend(free, Register, labels, t);
    labels := [Register] + labels;
    if s.worker != NoWorker {
      Prepend(s, Remove, labels, t);
      labels := [Remove] + labels;
    }
  }

  lemma {:induction false} CanChange(s: State) returns (labels: seq<Label>, t: State)
    requires Inv(s) && IsEnd(s.status) && !Final(s)
    ensures Leads(s, labels, t) && t.status != s.status
  {
    if s.locked || (s.pausers > 0 && s.entry != Empty) {
      labels, t := PauseChanges(s);
    } else if n :| n in s.checked {
      t := Next(s, Prepare(n));
      Stay(t);
      Prepend(s, Prepare(n), [], t);
      labels := [Prepare(n)];
    } else if id :| id in s.leaving && !Settled(s.leaving[id], s.status) {
      labels, t := LeavingChanges(s, id);
    } else if s.worker != NoWorker
              && !(s.worker == Returned(false) && s.entry == Stray && Stopped(s.flag) == s.status) {
      labels, t := WorkerChanges(s);
    } else {
      labels, t := StartChanges(s);
    }
  }

  /** However calls overlap, a completed or failed row keeps its status for good exactly when it is final. */
  lemma {:induction false} EndedExactly(states: seq<State>, labels: seq<Label>, i: nat)
    requires IsRun(states, labels) && Initial(states[0]) && i < |states| && IsEnd(states[i].status)
    ensures Final(states[i]) <==> forall more, t | Leads(states[i], more, t) :: t.status == states[i].status
  {
    RunInv(states, labels, i);
    hide Leads;
    if Final(states[i]) {
      forall more, t | Leads(states[i], more, t) ensures t.status == states[i].status {
        FinalStays(states[i], more, t);
      }
    } else {
      var more, t := CanChange(states[i]);
      assert Leads(states[i], more, t);
    }
  }

  lemma {:induction false} Then(s: State, labels: seq<Label>, t: State, l: Label) returns (more: seq<Label>, u: State)
    requires Leads(s, labels, t) && Enabled(t, l)
    ensures more == labels + [l] && u == Next(t, l) && Leads(s, more, u)
    decreases labels
  {
    hide Next, Enabled;
    more, u := labels + [l], Next(t, l);
    if labels == [] {
      Stay(u);
      Prepend(s, l, [], u);
    } else {
      var rest, _ := Then(Next(s, labels[0]), labels[1..], t, l);
      assert more == [labels[0]] + rest;
      Prepend(s, labels[0], rest, u);
    }
  }

  /** A worker that has been asked to pause, with the row already saying so. */
  predicate PauseAccepted(s: State) {
    && s.up && s.status == Pausing && s.flag == PauseAsked && s.worker == Fetching && s.entry == Live && !s.locked
    && s.checked == multiset{} && s.prepared == 0 && s.leaving == map[]
  }

  /** A download that has just started can be paused. */
  lemma {:induction false} PauseReached(s: State) returns (labels: seq<Label>, t: State)
    requires Initial(s)
    ensures labels == [Prepare(s.progress), Register, PauseCheck, PauseAsk, PauseWrite]
    ensures Leads(s, labels, t) && PauseAccepted(t)
  {
    Stay(s);
    hide Leads;
    labels, t := Then(s, [], s, Prepare(s.progress));
    labels, t := Then(s, labels, t, Register);
    labels, t := Then(s, labels, t, PauseCheck);
    labels, t := Then(s, labels, t, PauseAsk);
    labels, t := Then(s, labels, t, PauseWrite);
  }

  lemma {:induction false} Join(s: State, first: seq<Label>, t: State, second: seq<Label>, u: State)
    requires Leads(s, first, t) && Leads(t, second, u)
    ensures Leads(s, first + second, u)
    decreases first
  {
    hide Next, Enabled;
    if first == [] {
      assert first + second == second;
    } else {
      Join(Next(s, first[0]), first[1..], t, second, u);
      assert first + second == [first[0]] + (first[1..] + second);
      Prepend(s, first[0], first[1..] + second, u);
    }
  }

  /** A worker whose fetch stops short writes what its control word says. */
  lemma {:induction false} FetchStops(s: State) returns (labels: seq<Label>, t: State)
    requires s.up && !s.locked && s.worker == Fetching && s.leaving == map[]
    ensures labels == [FetchReturns(false), Remove, Decide(s.serial, Stopped(s.flag)), WriteOutcome(s.serial, 0)]
    ensures Leads(s, labels, t) && t.up && t.status == Stopped(s.flag) && !t.locked && t.entry == Empty
            && !Outstanding(t)
    ensures t.checked == s.checked && t.prepared == s.prepared
  {
    Stay(s);
    hide Leads;
    labels, t := Then(s, [], s, FetchReturns(false));
    labels, t := Then(s, labels, t, Remove);
    labels, t := Then(s, labels, t, Decide(s.serial, Stopped(s.flag)));
    labels, t := Then(s, labels, t, WriteOutcome(s.serial, 0));
    assert t.leaving == map[];
  }

  /** Left to itself, an accepted pause ends with the row saying `paused`. */
  lemma {:induction false} PauseCompletes(s: State) returns (labels: seq<Label>, t: State)
    requires PauseAccepted(s)
    ensures Leads(s, labels, t) && t.status == Paused && Idle(t) && t.up && t.entry == Empty && !t.locked
  {
    labels, t := FetchStops(s);
  }

  /** A worker that is left alone with a good fetch completes the row. */
  lemma {:induction false} FetchCompletes(s: State) returns (labels: seq<Label>, t: State)
    requires s.up && !s.locked && s.worker == Fetching
    ensures Leads(s, labels, t) && t.up && t.status == Completed && t.checked == s.checked
  {
    Stay(s);
    hide Leads;
    labels, t := Then(s, [], s, FetchReturns(true));
    labels, t := Then(s, labels, t, Remove);
    labels, t := Then(s, labels, t, Decide(s.serial, Completed));
    labels, t := Then(s, labels, t, WriteOutcome(s.serial, 0));
  }

  /** Two resumes of a paused row pass their checks, and one of them goes on to a worker. */
  lemma {:induction false} BothPass(s: State) returns (labels: seq<Label>, t: State)
    requires s.up && s.status == Paused && Idle(s) && s.entry == Empty && !s.locked
    ensures Leads(s, labels, t) && t.up && !t.locked && t.worker == Fetching && s.progress in t.checked
  {
    Stay(s);
    hide Leads;
    labels, t := Then(s, [], s, ResumeCheck);
    labels, t := Then(s, labels, t, ResumeCheck);
    assert t.checked[s.progress] == 2;
    labels, t := Then(s, labels, t, Prepare(s.progress));
    assert t.checked[s.progress] == 1;
    labels, t := Then(s, labels, t, Register);
  }

  /** So, from the very start of a download, a completed row can say `running` again. */
  lemma {:induction false} EndedCanRunAgain(s: State) returns (labels: seq<Label>, ended: State, t: State)
    requires Initial(s)
    ensures Leads(s, labels, ended) && ended.status == Completed
    ensures exists l :: Enabled(ended, l) && t == Next(ended, l) && t.status == Running
  {
    hide Leads, Idle;
    var a, pausing := PauseReached(s);
    var b, paused := PauseCompletes(pausing);
    var c, both := BothPass(paused);
    var d, done := FetchCompletes(both);
    Join(s, a, pausing, b, paused);
    Join(s, a + b, paused, c, both);
    Join(s, a + b + c, both, d, done);
    labels, ended, t := a + b + c + d, done, Next(done, Prepare(paused.progress));
  }

  /** A shutdown before the worker has left turns the pause into an interruption. */
  lemma {:induction false} PauseCanBeInterrupted(s: State) returns (labels: seq<Label>, t: State)
    requires PauseAccepted(s)
    ensures labels == [Interrupt, FetchReturns(false), Remove, Decide(s.serial, Interrupted), WriteOutcome(s.serial, 0)]
    ensures Leads(s, labels, t) && t.up && t.status == Interrupted
  {
    labels, t := FetchStops(Next(s, Interrupt));
    Prepend(s, Interrupt, labels, t);
    labels := [Interrupt] + labels;
  }

  /** And the next start runs an interrupted transfer again, with no resume in between. */
  lemma {:induction false} InterruptedRestarts(s: State) returns (labels: seq<Label>, t: State)
    requires s.up && s.status == Interrupted
    ensures labels == [Exit, Boot(true), Prepare(s.progress)]
    ensures Leads(s, labels, t) && t.status == Running
  {
    Stay(s);
    hide Leads;
    labels, t := Then(s, [], s, Exit);
    labels, t := Then(s, labels, t, Boot(true));
    labels, t := Then(s, labels, t, Prepare(s.progress));
  }

  // ----- An accepted pause, from the call to the outcome -----

  /** The call reaches the worker: the control in the map is the worker's own. */
  predicate Asks(s: State, l: Label) {
    l.PauseAsk? && s.entry == Live
  }

  /** A shutdown reaches the worker. */
  predicate Stops(s: State, l: Label) {
    l.Interrupt? && s.entry == Live
  }

  /** What is said to this worker before is of no account any more. */
  predicate Overrides(s: State, l: Label) {
    Stops(s, l) || l.Register? || l.Exit?
  }

  /** Of everything said to the worker so far, the last thing was to pause. */
  ghost predicate LastToldToPause(states: seq<State>, labels: seq<Label>, r: nat)
    requires |states| == |labels| + 1 && r <= |labels|
  {
    exists k | 0 <= k < r :: Asks(states[k], labels[k]) && Stands(states, labels, k, r)
  }

  ghost predicate Stands(states: seq<State>, labels: seq<Label>, k: nat, r: nat)
    requires |states| == |labels| + 1 && r <= |labels|
  {
    forall x | k < x < r :: !Overrides(states[x], labels[x])
  }

  lemma {:induction false} FlagStep(s: State, l: Label)
    requires Enabled(s, l)
    ensures Next(s, l).flag == PauseAsked <==> Asks(s, l) || (s.flag == PauseAsked && !Overrides(s, l))
  {
  }

  lemma {:induction false} ToldStep(states: seq<State>, labels: seq<Label>, q: nat)
    requires |states| == |labels| + 1 && q < |labels|
    ensures LastToldToPause(states, labels, q + 1) <==>
            Asks(states[q], labels[q]) || (LastToldToPause(states, labels, q) && !Overrides(states[q], labels[q]))
  {
    if Asks(states[q], labels[q]) {
      assert Stands(states, labels, q, q + 1);
    } else if LastToldToPause(states, labels, q) && !Overrides(states[q], labels[q]) {
      var k :| 0 <= k < q && Asks(states[k], labels[k]) && Stands(states, labels, k, q);
      assert Stands(states, labels, k, q + 1);
    }
  }

  /** The control word says `pause` exactly when that was the last thing said. */
  lemma {:induction false} FlagExactly(states: seq<State>, labels: seq<Label>, r: nat)
    requires IsRun(states, labels) && Initial(states[0]) && r <= |labels|
    ensures states[r].flag == PauseAsked <==> LastToldToPause(states, labels, r)
  {
    if r > 0 {
      var q := r - 1;
      RunStep(states, labels, q);
      FlagStep(states[q], labels[q]);
      hide *;
      FlagExactly(states, labels, q);
      ToldStep(states, labels, q);
    }
  }

  /** From its removal to its write, a worker's outcome is fixed by how its fetch ended and what it was last told. */
  lemma {:induction false} OutcomeFixed(states: seq<State>, labels: seq<Label>, r: nat, x: nat)
    requires IsRun(states, labels) && Initial(states[0]) && r < x < |states| && labels[r].Remove?
    ensures states[r].worker.Returned? && (states[x].serial > states[r].serial || states[x].worker == NoWorker)
    ensures states[x].serial >= states[r].serial
    ensures var id, ok, flag := states[r].serial, states[r].worker.ok, states[r].flag;
            id in states[x].leaving ==>
              match states[x].leaving[id]
              case Removed(ok', flag') => ok' == ok && flag' == flag
              case Decided(outcome) => MayDecide(flag, ok, outcome)
  {
    RunStep(states, labels, x - 1);
    if r < x - 1 {
      hide IsRun, Initial;
      OutcomeFixed(states, labels, r, x - 1);
    }
  }

  /**
   * Whatever overlaps, the write of a worker leaves the row `paused` exactly when its fetch stopped short and the last
   * thing it was told before it left was to pause.
   */
  lemma {:induction false} PausedExactly(states: seq<State>, labels: seq<Label>, r: nat, j: nat)
    requires IsRun(states, labels) && Initial(states[0]) && r < j < |labels|
    requires labels[r].Remove? && labels[j].WriteOutcome? && labels[j].id == states[r].serial
    ensures states[r].worker.Returned?
    ensures states[j + 1].status == Paused <==> !states[r].worker.ok && LastToldToPause(states, labels, r)
  {
    OutcomeFixed(states, labels, r, j);
    FlagExactly(states, labels, r);
    RunStep(states, labels, j);
  }

  /** The worker has taken itself out of the map by the time it writes. */
  lemma {:induction false} LeftBefore(states: seq<State>, labels: seq<Label>, k: nat, j: nat) returns (r: nat)
    requires IsRun(states, labels) && Initial(states[0]) && k < j < |labels| && states[k].worker != NoWorker
    requires labels[j].WriteOutcome? && labels[j].id == states[k].serial
    requires forall x | k <= x < j :: !labels[x].Exit?
    ensures k <= r < j && labels[r].Remove? && states[r].serial == states[k].serial
    decreases j - k
  {
    RunInv(states, labels, k);
    RunStep(states, labels, k);
    if labels[k].Remove? {
      r := k;
    } else {
      RunInv(states, labels, k + 1);
      RunStep(states, labels, j);
      hide IsRun, Initial;
      r := LeftBefore(states, labels, k + 1, j);
    }
  }

  /** Until it writes or the process ends, a worker stays outstanding. */
  lemma {:induction false} StaysOutstanding(states: seq<State>, labels: seq<Label>, k: nat, x: nat)
    requires IsRun(states, labels) && Initial(states[0]) && k <= x < |states| && states[k].worker != NoWorker
    requires forall y | k <= y < x :: !labels[y].Exit? && !(labels[y].WriteOutcome? && labels[y].id == states[k].serial)
    ensures (states[x].worker != NoWorker && states[x].serial == states[k].serial)
            || states[k].serial in states[x].leaving
  {
    if k < x {
      StaysOutstanding(states, labels, k, x - 1);
      RunInv(states, labels, x - 1);
      RunStep(states, labels, x - 1);
    }
  }

  /** At `r` worker number `id` leaves with its fetch cut short, last told to pause. */
  ghost predicate LeavesPaused(states: seq<State>, labels: seq<Label>, r: nat, id: nat)
    requires |states| == |labels| + 1 && r < |labels|
  {
    && labels[r].Remove? && states[r].serial == id && states[r].worker == Returned(false)
    && LastToldToPause(states, labels, r)
  }

  /**
   * From a pause that reaches a worker to the end of that worker, by its write or with the process: the row then says
   * `paused` exactly when the worker got to write, its fetch had stopped short, and no shutdown reached it after the
   * last pause.
   */
  lemma {:induction false} PauseHonoured(states: seq<State>, labels: seq<Label>, k: nat, j: nat)
    requires IsRun(states, labels) && Initial(states[0]) && Exclusive(states, labels) && k < j < |labels|
    requires Asks(states[k], labels[k])
    requires labels[j].Exit? || (labels[j].WriteOutcome? && labels[j].id == states[k].serial)
    requires forall x | k < x < j :: !labels[x].Exit? && !(labels[x].WriteOutcome? && labels[x].id == states[k].serial)
    ensures states[j + 1].status == Paused <==>
            labels[j].WriteOutcome? && exists r | k < r < j :: LeavesPaused(states, labels, r, states[k].serial)
  {
    RunInv(states, labels, k);
    if labels[j].Exit? {
      StaysOutstanding(states, labels, k, j);
      SingleRun(states, labels, j);
      RunStep(states, labels, j);
    } else {
      var r := LeftBefore(states, labels, k, j);
      PausedExactly(states, labels, r, j);
      if states[j + 1].status == Paused {
        assert LeavesPaused(states, labels, r, states[k].serial);
      }
      forall r' | k < r' < j && LeavesPaused(states, labels, r', states[k].serial)
        ensures states[j + 1].status == Paused
      {
        PausedExactly(states, labels, r', j);
      }
    }
  }
}
