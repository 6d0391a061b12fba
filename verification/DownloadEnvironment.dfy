/**
 * What the workers and the caller do while a download runs, given in advance for every situation it may come to, and
 * what that makes of the download. Here the workers act while the loop waits for a result, any number of them at a
 * time; in the runs of `Download` they act between any two steps of the loop, and the theorems there hold for those.
 */
module DownloadEnvironment {
  import opened Prelude
  import opened Availability
  import opened Content
  import opened Scheduling
  import opened Download
  import Resume

  /** A worker answers; `early` if it does so while an earlier result is still waiting to be taken. */
  datatype Answer = Answer(slot: nat, response: Response, early: bool)

  /** Who answers next, from the number of answers so far and what is queued; nobody, within the timeout, if `None`. */
  type Environment = (nat, seq<Worker>) -> Option<Answer>

  /** A running worker has a request to answer. */
  predicate Owes(workers: seq<Worker>, k: nat) {
    k < |workers| && workers[k].alive && workers[k].inbox != []
  }

  function NextAnswer(env: Environment, n: nat, workers: seq<Worker>): Option<Answer> {
    var a := env(n, workers);
    if a.Some? && Owes(workers, a.value.slot) then a else None
  }

  ghost function Answers(labels: seq<Label>): nat {
    if labels == [] then 0
    else Answers(labels[..|labels| - 1]) + if labels[|labels| - 1].Respond? then 1 else 0
  }

  /**
   * The step the environment asks for after `n` answers. Answers come as it says, and while a result is waiting only
   * early ones; a result is taken once no early answer is due, and the wait is over once no answer is due at all. The
   * loop goes on until the iteration at which it is told to stop.
   */
  ghost predicate Plays(env: Environment, stopAt: Option<nat>, s: System, n: nat, l: Label) {
    var a := NextAnswer(env, n, s.workers);
    match l
    case Respond(k, response) =>
      && a.Some? && a.value.slot == k && a.value.response == response
      && (s.results == [] || a.value.early)
    case Receive => a.None? || !a.value.early
    case Timeout => a.None?
    case LocalStop => stopAt == Some(s.iterations)
    case Check => IsComplete(s.sched) || stopAt != Some(s.iterations)
    case AssignSlot => true
    case AfterAssign => true
    case DiskFailure(_) => false
  }

  ghost predicate PlayedBy(env: Environment, stopAt: Option<nat>, states: seq<System>, labels: seq<Label>) {
    && |states| == |labels| + 1
    && forall j | 0 <= j < |labels| :: Plays(env, stopAt, states[j], Answers(labels[..j]), labels[j])
  }

  lemma {:induction false} PlayedFurther(
    env: Environment, stopAt: Option<nat>, states: seq<System>, labels: seq<Label>, s: System, l: Label)
    requires PlayedBy(env, stopAt, states, labels) && Plays(env, stopAt, states[|labels|], Answers(labels), l)
    ensures PlayedBy(env, stopAt, states + [s], labels + [l]) && |states| == |labels| + 1 && !l.DiskFailure?
    ensures Answers(labels + [l]) == Answers(labels) + if l.Respond? then 1 else 0
  {
    assert !l.DiskFailure?;
    hide Plays, Answers;
    var states', labels' := states + [s], labels + [l];
    forall j | 0 <= j < |labels'| ensures Plays(env, stopAt, states'[j], Answers(labels'[..j]), labels'[j]) {
      assert labels'[..j] == labels[..j];
      assert j == |labels| ==> labels[..j] == labels;
    }
    OneMoreLabel(labels, l);
  }

  lemma {:induction false} OneMoreLabel(labels: seq<Label>, l: Label)
    ensures Answers(labels + [l]) == Answers(labels) + if l.Respond? then 1 else 0
  {
    assert (labels + [l])[..|labels|] == labels;
  }

  /** Requests queued, over all workers. */
  ghost function Requests(workers: seq<Worker>): nat {
    if workers == [] then 0 else Requests(workers[..|workers| - 1]) + |workers[|workers| - 1].inbox|
  }

  lemma {:induction false} RequestAnswered(workers: seq<Worker>, k: nat, alive: bool)
    requires k < |workers| && workers[k].inbox != []
    ensures Requests(workers[k := Worker(alive, workers[k].inbox[1..])]) == Requests(workers) - 1
  {
    var n := |workers| - 1;
    var workers' := workers[k := Worker(alive, workers[k].inbox[1..])];
    if k < n {
      RequestAnswered(workers[..n], k, alive);
      assert workers'[..n] == workers[..n][k := Worker(alive, workers[k].inbox[1..])];
    } else {
      assert workers'[..n] == workers[..n];
    }
  }

  // ----- Downloads that are answered -----

  /** As long as some worker owes an answer, one is given. */
  ghost predicate Responsive(env: Environment) {
    forall n: nat, workers: seq<Worker> :: (exists k: nat :: Owes(workers, k)) ==> NextAnswer(env, n, workers).Some?
  }

  /** Slots in `honest` answer a request for a chunk with that chunk, and it verifies. */
  ghost predicate AnswersHonestly(h: Hash, m: Manifest, env: Environment, honest: set<nat>) {
    forall n: nat, workers: seq<Worker> :: HonestAnswer(h, m, workers, NextAnswer(env, n, workers), honest)
  }

  ghost predicate HonestAnswer(h: Hash, m: Manifest, workers: seq<Worker>, a: Option<Answer>, honest: set<nat>) {
    a.Some? && a.value.slot in honest && Owes(workers, a.value.slot) ==>
      var requested := workers[a.value.slot].inbox[0];
      requested < |m.chunks| ==> Good(h, m, requested, a.value.response)
  }

  /** The environment that a download can rely on: somebody answers, and enough of them do so honestly. */
  ghost predicate Reliable(
    h: Hash, m: Manifest, availability: seq<PieceAvailability>, completed: seq<bool>, env: Environment,
    honest: set<nat>)
  {
    && Responsive(env) && AnswersHonestly(h, m, env, honest) && (forall p | p in honest :: p < |availability|)
    && forall i | 0 <= i < |completed| && !completed[i] :: exists k :: k in honest && Holds(availability, k, i)
  }

  ghost predicate Holds(availability: seq<PieceAvailability>, k: nat, i: nat) {
    k < |availability| && Contains(availability[k], i)
  }

  /** Nobody answered, though a running worker owed an answer and no result was waiting. */
  ghost predicate Silent(env: Environment, s: System, n: nat) {
    s.results == [] && (exists k: nat :: Owes(s.workers, k)) && NextAnswer(env, n, s.workers).None?
  }

  /**
   * The environment asked for every step of the run. Nobody answered if it ended in a timeout, and it was stopped
   * exactly if it went past the iteration at which it was told to stop.
   */
  ghost predicate EndsAsPlayed(env: Environment, stopAt: Option<nat>, states: seq<System>, labels: seq<Label>) {
    && PlayedBy(env, stopAt, states, labels)
    && var last := states[|labels|];
       && (last.main == Ended(TimedOut) ==> Silent(env, last, Answers(labels)))
       && (last.main == Ended(StoppedLocally) <==> stopAt.Some? && last.iterations == stopAt.value + 1)
       && (stopAt.Some? ==> last.iterations <= stopAt.value + 1)
  }

  lemma {:induction false} TimeoutIsSilence(
    env: Environment, stopAt: Option<nat>, m: Manifest, s: System, n: nat, resumed: nat, budget: int)
    requires SysInv(m, s, resumed, budget) && s.main.Waiting? && s.results == []
    requires Plays(env, stopAt, s, n, Timeout)
    ensures Silent(env, s, n)
  {
    var k := SomeoneOwesAnswer(s.sched, s.workers, resumed);
    assert Owes(s.workers, k);
  }

  lemma {:induction false} EndedStays(
    h: Hash, m: Manifest, states: seq<System>, labels: seq<Label>, j: nat, k: nat)
    requires IsRun(h, m, states, labels) && j <= k < |states| && states[j].main.Ended?
    ensures states[k].main == states[j].main
  {
    if j < k {
      EndedStays(h, m, states, labels, j, k - 1);
      RunStep(h, m, states, labels, k);
      hide IsRun;
    }
  }

  lemma {:induction false} PlayedStep(
    h: Hash, m: Manifest, availability: seq<PieceAvailability>, env: Environment, stopAt: Option<nat>,
    states: seq<System>, labels: seq<Label>, j: nat)
    requires IsRun(h, m, states, labels) && Initial(m, availability, states[0]) && j < |labels|
    requires PlayedBy(env, stopAt, states, labels)
    ensures labels[j].Timeout? ==> Silent(env, states[j], Answers(labels[..j]))
    ensures !labels[j].DiskFailure?
    ensures labels[j].LocalStop? ==>
              stopAt == Some(states[j].iterations) && states[|labels|].main == Ended(StoppedLocally)
  {
    RunInv(h, m, availability, states, labels, j);
    RunStep(h, m, states, labels, j + 1);
    assert Plays(env, stopAt, states[j], Answers(labels[..j]), labels[j]);
    if labels[j].Timeout? {
      TimeoutIsSilence(env, stopAt, m, states[j], Answers(labels[..j]),
                       CountComplete(states[0].sched.chunks), Work(states[0].sched));
    } else if labels[j].LocalStop? {
      EndedStays(h, m, states, labels, j + 1, |labels|);
    }
    hide IsRun, Silent, SysInv, Initial;
  }

  lemma {:induction false} StartCovered(
    h: Hash, m: Manifest, availability: seq<PieceAvailability>, s: System, env: Environment, honest: set<nat>)
    requires Initial(m, availability, s) && Reliable(h, m, availability, s.completed, env, honest)
    ensures Covers(s.sched, honest)
  {
    hide Contains, CanFinish, WellFormedInput, ValidateShape, Responsive, AnswersHonestly;
    forall i | 0 <= i < |s.sched.chunks| && s.sched.chunks[i] != Complete
      ensures exists k :: k in honest && k < |s.sched.providers| && Contains(s.sched.providers[k].availability, i)
    {
      var k :| k in honest && Holds(availability, k, i);
      assert Contains(s.sched.providers[k].availability, i);
    }
  }

  /** A download in a reliable environment ends only by finishing, or where the caller stopped it. */
  lemma {:induction false} ReliableFinishes(
    h: Hash, m: Manifest, availability: seq<PieceAvailability>, env: Environment, stopAt: Option<nat>,
    honest: set<nat>, states: seq<System>, labels: seq<Label>)
    requires IsRun(h, m, states, labels) && Initial(m, availability, states[0])
    requires PlayedBy(env, stopAt, states, labels) && states[|labels|].main.Ended?
    requires Reliable(h, m, availability, states[0].completed, env, honest)
    ensures states[|labels|].main == Ended(Finished) || (states[|labels|].main == Ended(StoppedLocally) && stopAt.Some?)
  {
    StartCovered(h, m, availability, states[0], env, honest);
    if forall j | 0 <= j < |labels| :: !labels[j].LocalStop? {
      forall j | 0 <= j < |labels| ensures !Interrupts(labels[j]) && HonestStep(h, m, honest, states[j], labels[j]) {
        PlayedStep(h, m, availability, env, stopAt, states, labels, j);
        RequestsInRange(h, m, availability, states, labels, j);
        ReliableStep(h, m, env, stopAt, honest, states[j], Answers(labels[..j]), labels[j]);
      }
      hide IsRun, Initial, PlayedBy, Responsive, AnswersHonestly, Covers;
      HonestRunInv(h, m, availability, states, labels, honest, |labels|);
    } else {
      var j :| 0 <= j < |labels| && labels[j].LocalStop?;
      PlayedStep(h, m, availability, env, stopAt, states, labels, j);
    }
  }

  lemma {:induction false} RequestsInRange(
    h: Hash, m: Manifest, availability: seq<PieceAvailability>, states: seq<System>, labels: seq<Label>, j: nat)
    requires IsRun(h, m, states, labels) && Initial(m, availability, states[0]) && j < |states|
    ensures forall k | 0 <= k < |states[j].workers| && states[j].workers[k].inbox != [] ::
              states[j].workers[k].inbox[0] < |m.chunks|
  {
    RunInv(h, m, availability, states, labels, j);
    hide IsRun, Initial, Inv, MainOk;
  }

  lemma {:induction false} ReliableStep(
    h: Hash, m: Manifest, env: Environment, stopAt: Option<nat>, honest: set<nat>, s: System, n: nat, l: Label)
    requires Plays(env, stopAt, s, n, l) && Responsive(env) && AnswersHonestly(h, m, env, honest)
    requires l.Timeout? ==> Silent(env, s, n)
    requires forall k | 0 <= k < |s.workers| && s.workers[k].inbox != [] :: s.workers[k].inbox[0] < |m.chunks|
    ensures !l.Timeout? && HonestStep(h, m, honest, s, l)
  {
    hide Good;
    assert HonestAnswer(h, m, s.workers, NextAnswer(env, n, s.workers), honest);
  }

  // ----- Such environments exist -----

  function FirstOwing(workers: seq<Worker>, k: nat): Option<nat>
    requires k <= |workers|
    decreases |workers| - k
  {
    if k == |workers| then None else if Owes(workers, k) then Some(k) else FirstOwing(workers, k + 1)
  }

  lemma {:induction false} FirstOwingOwes(workers: seq<Worker>, k: nat)
    requires k <= |workers|
    ensures var first := FirstOwing(workers, k);
            && (first.Some? ==> Owes(workers, first.value))
            && (first.None? ==> forall j: nat | k <= j :: !Owes(workers, j))
    decreases |workers| - k
  {
    if k < |workers| {
      FirstOwingOwes(workers, k + 1);
    }
  }

  /** The chunk asked for, as the content has it. */
  function GenuineResponse(m: Manifest, content: seq<Byte>, i: nat): Response {
    if i < |m.chunks| && i < CeilDiv(|content|, 32768) then Got(Chunk(i, m.chunks[i], Slice(content, i))) else Failed
  }

  /** The lowest slot that owes an answer gives the chunk asked for. */
  function Genuine(m: Manifest, content: seq<Byte>): Environment {
    (n: nat, workers: seq<Worker>) =>
      var first := FirstOwing(workers, 0);
      if first.None? || !Owes(workers, first.value) then None
      else Some(Answer(first.value, GenuineResponse(m, content, workers[first.value].inbox[0]), false))
  }

  lemma {:induction false} GenuineIsReliable(
    h: Hash, content: seq<Byte>, m: Manifest, availability: seq<PieceAvailability>, completed: seq<bool>,
    honest: set<nat>)
    requires Resume.Built(h, content, m) && forall p | p in honest :: p < |availability|
    requires forall i | 0 <= i < |completed| && !completed[i] :: exists k :: k in honest && Holds(availability, k, i)
    ensures Reliable(h, m, availability, completed, Genuine(m, content), honest)
  {
    var env := Genuine(m, content);
    forall n: nat, workers: seq<Worker>
      ensures (exists k: nat :: Owes(workers, k)) ==> NextAnswer(env, n, workers).Some?
      ensures HonestAnswer(h, m, workers, NextAnswer(env, n, workers), honest)
    {
      FirstOwingOwes(workers, 0);
    }
  }
}
