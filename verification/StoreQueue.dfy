/**
  The storage worker: byte reservations, the bounded job queue, the worker loop with its
  final checkpoint, and serialised shutdown. A step is one section under the submission
  lock, one queue operation or one move of the worker or of a shutdown caller.
  */
module StoreQueue {
  import opened Wrappers

  const QUEUE_CAPACITY: nat := 32
  const QUEUE_BYTE_BUDGET: nat := 128 * 1024 * 1024

  /** A live reservation: the number of its submission and the bytes it counts. */
  datatype Job = Job(id: nat, bytes: nat)

  datatype Worker = Receiving | Executing(job: Job) | Ran(job: Job) | Draining | Exited(ok: bool) | Dead

  datatype Error = CheckpointFailed | WorkerFailed

  datatype Shutdown = NotRunning | WorkerLocked | SenderTaken

  datatype Store = Store(
    sender: bool,            // submissions are still taken
    bytes: int,              // the shared submission counter
    held: seq<Job>,          // reservations in the hands of submitters
    queue: seq<Job>,
    worker: Worker,
    nextId: nat,
    accepted: seq<nat>,      // submissions that entered the queue, in order
    executed: seq<nat>,      // submissions whose job ran, in order
    shutdown: Shutdown,
    joinable: bool,          // the worker handle was not joined yet
    latched: Option<Error>,
    answers: seq<Result<(), Error>>
  )

  const START: Store := Store(true, 0, [], [], Receiving, 0, [], [], NotRunning, true, None, [])

  datatype Step =
    | Reserve(bytes: nat)
    | TrySend(k: nat)        // the k-th held reservation enters the queue, or its job is rejected and stays held
    | Release(k: nat)        // a rejected or abandoned reservation is dropped
    | Receive | RunJob | ReleaseJob | JobPanics | DropQueued | Disconnect | Checkpoint(ok: bool)
    | LockWorker | TakeSender | Answer

  predicate Enabled(s: Store, step: Step) {
    match step
    case Reserve(_) => true
    case TrySend(k) => k < |s.held|
    case Release(k) => k < |s.held|
    case Receive => s.worker == Receiving && s.queue != []
    case RunJob => s.worker.Executing?
    case ReleaseJob => s.worker.Ran?
    case JobPanics => s.worker.Executing?
    case DropQueued => s.worker == Dead && s.queue != []
    case Disconnect => s.worker == Receiving && s.queue == [] && !s.sender
    case Checkpoint(_) => s.worker == Draining
    case LockWorker => s.shutdown == NotRunning
    case TakeSender => s.shutdown == WorkerLocked
    case Answer => s.shutdown == SenderTaken && (s.latched.Some? || !s.joinable || s.worker.Exited? || s.worker == Dead)
  }

  function Without(held: seq<Job>, k: nat): seq<Job>
    requires k < |held|
  {
    held[..k] + held[k + 1..]
  }

  /** What joining the worker reports. */
  function Joined(w: Worker): Result<(), Error> {
    match w case Exited(true) => Ok(()) case Exited(false) => Err(CheckpointFailed) case _ => Err(WorkerFailed)
  }

  function Next(s: Store, step: Step): Store
    requires Enabled(s, step)
  {
    match step
    case Reserve(n) =>
      if !s.sender || n > QUEUE_BYTE_BUDGET - s.bytes then s
      else s.(bytes := s.bytes + n, held := s.held + [Job(s.nextId, n)], nextId := s.nextId + 1)
    case TrySend(k) =>
      if s.sender && |s.queue| < QUEUE_CAPACITY && s.worker != Dead
      then s.(held := Without(s.held, k), queue := s.queue + [s.held[k]], accepted := s.accepted + [s.held[k].id])
      else s
    case Release(k) => s.(bytes := s.bytes - s.held[k].bytes, held := Without(s.held, k))
    case Receive => s.(worker := Executing(s.queue[0]), queue := s.queue[1..])
    case RunJob => s.(worker := Ran(s.worker.job), executed := s.executed + [s.worker.job.id])
    case ReleaseJob => s.(worker := Receiving, bytes := s.bytes - s.worker.job.bytes)
    case JobPanics => s.(worker := Dead, bytes := s.bytes - s.worker.job.bytes)
    case DropQueued => s.(bytes := s.bytes - s.queue[0].bytes, queue := s.queue[1..])
    case Disconnect => s.(worker := Draining)
    case Checkpoint(ok) => s.(worker := Exited(ok))
    case LockWorker => s.(shutdown := WorkerLocked)
    case TakeSender => s.(sender := false, shutdown := SenderTaken)
    case Answer =>
      var result := if s.latched.Some? then Err(s.latched.value) else if !s.joinable then Ok(()) else Joined(s.worker);
      s.(shutdown := NotRunning, answers := s.answers + [result],
         joinable := s.joinable && s.latched.Some?,
         latched := if result.Err? then Some(result.error) else None)
  }

  ghost predicate Moves(s: Store, step: Step, n: Store) { Enabled(s, step) && n == Next(s, step) }

  ghost predicate Run(states: seq<Store>, steps: seq<Step>) {
    && |states| == |steps| + 1 && states[0] == START
    && forall k | 0 <= k < |steps| :: Moves(states[k], steps[k], states[k + 1])
  }

  // ---------------------------------------------------------------- conservation

  function Sum(jobs: seq<Job>): nat {
    if jobs == [] then 0 else jobs[0].bytes + Sum(jobs[1..])
  }

  lemma {:induction false} SumAppend(a: seq<Job>, b: seq<Job>)
    ensures Sum(a + b) == Sum(a) + Sum(b)
  {
    if a == [] {
      assert a + b == b;
    } else {
      assert (a + b)[1..] == a[1..] + b;
      SumAppend(a[1..], b);
    }
  }

  lemma {:induction false} SumWithout(jobs: seq<Job>, k: nat)
    requires k < |jobs|
    ensures Sum(jobs) == jobs[k].bytes + Sum(Without(jobs, k))
  {
    if k == 0 {
      assert Without(jobs, 0) == jobs[1..];
    } else {
      assert Without(jobs, k)[1..] == Without(jobs[1..], k - 1);
      SumWithout(jobs[1..], k - 1);
    }
  }

  /** The job in the worker's hands, whose reservation is still live. */
  function InHand(w: Worker): seq<Job> {
    if w.Executing? || w.Ran? then [w.job] else []
  }

  lemma SumInHand(w: Worker)
    requires w.Executing? || w.Ran?
    ensures Sum(InHand(w)) == w.job.bytes
  {
    assert InHand(w)[1..] == [];
  }

  ghost predicate Conserved(s: Store) {
    && s.bytes == Sum(s.held) + Sum(s.queue) + Sum(InHand(s.worker))
    && s.bytes <= QUEUE_BYTE_BUDGET
    && |s.queue| <= QUEUE_CAPACITY
  }

  lemma StepConserves(s: Store, step: Step)
    requires Conserved(s) && Enabled(s, step)
    ensures Conserved(Next(s, step))
  {
    match step
    case Reserve(n) => SumAppend(s.held, [Job(s.nextId, n)]);
    case TrySend(k) => SumWithout(s.held, k); SumAppend(s.queue, [s.held[k]]);
    case Release(k) => SumWithout(s.held, k);
    case Receive => SumInHand(Next(s, step).worker);
    case ReleaseJob => SumInHand(s.worker);
    case JobPanics => SumInHand(s.worker);
    case _ =>
  }

  // --------------------------------------------------------------- exactly once

  function Ids(jobs: seq<Job>): (ids: seq<nat>)
    ensures |ids| == |jobs| && forall i | 0 <= i < |jobs| :: ids[i] == jobs[i].id
  {
    seq(|jobs|, i requires 0 <= i < |jobs| => jobs[i].id)
  }

  /** Accepted jobs that did not run yet, oldest first. */
  function Pending(s: Store): seq<nat> {
    (if s.worker.Executing? then [s.worker.job.id] else []) + Ids(s.queue)
  }

  ghost predicate Distinct(ids: seq<nat>) { forall i, j | 0 <= i < j < |ids| :: ids[i] != ids[j] }

  ghost predicate InOrder(s: Store) {
    && (s.worker != Dead ==> s.executed + Pending(s) == s.accepted)
    && s.executed <= s.accepted
    && Distinct(s.accepted + Ids(s.held))
    && (forall i | 0 <= i < |s.accepted| :: s.accepted[i] < s.nextId)
    && (forall i | 0 <= i < |s.held| :: s.held[i].id < s.nextId)
  }

  lemma SendKeepsDistinct(accepted: seq<nat>, held: seq<Job>, k: nat)
    requires k < |held| && Distinct(accepted + Ids(held))
    ensures Distinct(accepted + [held[k].id] + Ids(Without(held, k)))
    ensures Distinct(accepted + Ids(Without(held, k)))
  {
    var all, rest := accepted + Ids(held), Without(held, k);
    var sent := accepted + [held[k].id] + Ids(rest);
    var a := |accepted|;
    forall i, j | 0 <= i < j < |sent| ensures sent[i] != sent[j] {
      var i' := if i < a then i else if i == a then a + k else if i - 1 < a + k then i - 1 else i;
      var j' := if j < a then j else if j == a then a + k else if j - 1 < a + k then j - 1 else j;
      assert sent[i] == all[i'] && sent[j] == all[j'] && i' != j';
    }
    var kept := accepted + Ids(rest);
    forall i, j | 0 <= i < j < |kept| ensures kept[i] != kept[j] {
      assert kept[i] == sent[if i < a then i else i + 1] && kept[j] == sent[if j < a then j else j + 1];
    }
  }

  lemma HeldStepKeepsInOrder(s: Store, step: Step)
    requires InOrder(s) && Enabled(s, step) && (step.Reserve? || step.TrySend? || step.Release?)
    ensures InOrder(Next(s, step))
  {
    var n := Next(s, step);
    match step
    case Reserve(_) =>
      var all := s.accepted + Ids(s.held);
      assert n != s ==> n.accepted + Ids(n.held) == all + [s.nextId];
    case TrySend(k) =>
      SendKeepsDistinct(s.accepted, s.held, k);
      assert n != s ==> s.executed + Pending(n) == s.executed + Pending(s) + [s.held[k].id];
    case Release(k) => SendKeepsDistinct(s.accepted, s.held, k);
  }

  lemma WorkerStepKeepsInOrder(s: Store, step: Step)
    requires InOrder(s) && Enabled(s, step) && !(step.Reserve? || step.TrySend? || step.Release?)
    ensures InOrder(Next(s, step))
  {
    var n := Next(s, step);
    if step.Receive? {
      assert Pending(n) == Pending(s);
    } else if step.RunJob? {
      assert n.executed + Pending(n) == s.executed + Pending(s);
    } else if step.DropQueued? || step.JobPanics? {
      assert n.worker == Dead && n.accepted == s.accepted;
    } else {
      assert Pending(n) == Pending(s);
    }
  }

  // ---------------------------------------------------------- drain and shutdown

  ghost predicate Drained(s: Store) {
    && (s.worker == Draining || s.worker.Exited? ==> !s.sender && s.queue == [])
    && (s.shutdown == SenderTaken || !s.joinable ==> !s.sender)
  }

  /** The worker is joined once; a failure found then answers every later caller. */
  ghost predicate Latched(s: Store) {
    && (s.joinable ==> s.answers == [] && s.latched.None?)
    && (!s.joinable ==>
          && (s.worker.Exited? || s.worker == Dead)
          && s.latched == (if Joined(s.worker).Err? then Some(Joined(s.worker).error) else None)
          && forall i | 0 <= i < |s.answers| :: s.answers[i] == Joined(s.worker))
  }

  ghost predicate Inv(s: Store) { Conserved(s) && InOrder(s) && Drained(s) && Latched(s) }

  lemma StepKeepsInv(s: Store, step: Step, n: Store)
    requires Inv(s) && Moves(s, step, n)
    ensures Inv(n)
  {
    hide Conserved, InOrder, Next, Enabled, Latched, Drained;
    StepConserves(s, step);
    if step.Reserve? || step.TrySend? || step.Release? {
      HeldStepKeepsInOrder(s, step);
    } else {
      WorkerStepKeepsInOrder(s, step);
    }
    StepKeepsShutdown(s, step);
  }

  lemma StepKeepsShutdown(s: Store, step: Step)
    requires Drained(s) && Latched(s) && Enabled(s, step)
    ensures Drained(Next(s, step)) && Latched(Next(s, step))
  {}

  lemma StartInOrder()
    ensures InOrder(START)
  {
    assert Pending(START) == [];
    assert START.accepted + Ids(START.held) == [];
  }

  lemma StartConserved()
    ensures Conserved(START)
  {}

  lemma StartShutdown()
    ensures Drained(START) && Latched(START)
  {}

  lemma StartInv()
    ensures Inv(START)
  {
    hide InOrder, Distinct, Conserved, Drained, Latched;
    StartInOrder();
    StartConserved();
    StartShutdown();
  }

  lemma {:induction false} RunKeepsInv(states: seq<Store>, steps: seq<Step>, k: nat)
    requires Run(states, steps) && k < |states|
    ensures Inv(states[k])
  {
    hide Inv, Moves;
    if k == 0 {
      StartInv();
    } else {
      RunKeepsInv(states, steps, k - 1);
      StepKeepsInv(states[k - 1], steps[k - 1], states[k]);
    }
  }

  /**
    Conservation: the counter is always the total of the live reservations, in the hands
    of submitters, in the queue and in the worker, and never exceeds the budget.
    */
  lemma BytesAreLiveReservations(states: seq<Store>, steps: seq<Step>, k: nat)
    requires Run(states, steps) && k < |states|
    ensures var s := states[k];
      && s.bytes == Sum(s.held) + Sum(s.queue) + Sum(InHand(s.worker)) <= 134217728
      && |s.queue| <= 32
      && s.bytes >= 0
      && (s.held == [] && s.queue == [] && InHand(s.worker) == [] ==> s.bytes == 0)
  {
    RunKeepsInv(states, steps, k);
  }

  /** Jobs run in the order of their acceptance and no submission is accepted or run twice. */
  lemma AcceptedRunInOrderOnce(states: seq<Store>, steps: seq<Step>, k: nat)
    requires Run(states, steps) && k < |states|
    ensures var s := states[k];
      && s.executed <= s.accepted && Distinct(s.accepted)
      && (s.worker != Dead ==> s.executed + Pending(s) == s.accepted)
  {
    RunKeepsInv(states, steps, k);
    var s := states[k];
    forall i, j | 0 <= i < j < |s.accepted| ensures s.accepted[i] != s.accepted[j] {
      var all := s.accepted + Ids(s.held);
      assert all[i] == s.accepted[i] && all[j] == s.accepted[j];
    }
  }

  predicate AtCheckpoint(s: Store) { s.worker == Draining || s.worker.Exited? }

  lemma AllRanAtCheckpoint(s: Store)
    requires InOrder(s) && Drained(s) && AtCheckpoint(s)
    ensures s.accepted == s.executed
  {
    hide Distinct;
    assert Pending(s) == [];
    assert s.executed + [] == s.executed;
  }

  lemma StepAfterCheckpoint(s: Store, step: Step)
    requires Drained(s) && AtCheckpoint(s) && Enabled(s, step)
    ensures AtCheckpoint(Next(s, step)) && Next(s, step).accepted == s.accepted
  {
  }

  /** The checkpoint comes after every accepted job, and nothing is accepted after it began. */
  lemma {:induction false} CheckpointComesLast(states: seq<Store>, steps: seq<Step>, i: nat, k: nat)
    requires Run(states, steps) && i <= k < |states| && (states[i].worker == Draining || states[i].worker.Exited?)
    ensures states[k].worker == Draining || states[k].worker.Exited?
    ensures states[k].accepted == states[i].accepted == states[k].executed
  {
    hide Conserved, InOrder, Drained, Latched, Enabled, Next;
    RunKeepsInv(states, steps, k);
    if i < k {
      CheckpointComesLast(states, steps, i, k - 1);
      RunKeepsInv(states, steps, k - 1);
      assert Moves(states[k - 1], steps[k - 1], states[k]);
      StepAfterCheckpoint(states[k - 1], steps[k - 1]);
    }
    AllRanAtCheckpoint(states[k]);
  }

  /**
    Every shutdown caller gets the same answer, whenever it asked; an Ok answer means
    that every accepted job ran and the final checkpoint succeeded.
    */
  lemma ShutdownAnswersAgree(states: seq<Store>, steps: seq<Step>, k: nat, i: nat, j: nat)
    requires Run(states, steps) && k < |states| && i < |states[k].answers| && j < |states[k].answers|
    ensures states[k].answers[i] == states[k].answers[j]
    ensures states[k].answers[i].Ok? ==> states[k].worker == Exited(true) && states[k].executed == states[k].accepted
    ensures !states[k].sender
  {
    RunKeepsInv(states, steps, k);
  }

  // --------------------------------------------------------- admission and progress

  /** The bytes of all live reservations. */
  function Live(s: Store): nat { Sum(s.held) + Sum(s.queue) + Sum(InHand(s.worker)) }

  /** A reservation is granted exactly while submissions are taken and all live ones with it fit 128 MiB. */
  lemma ReservationGrantedIff(states: seq<Store>, steps: seq<Step>, k: nat, bytes: nat)
    requires Run(states, steps) && k < |steps| && steps[k] == Reserve(bytes)
    ensures if states[k].sender && Live(states[k]) + bytes <= 134217728
      then states[k + 1].held == states[k].held + [Job(states[k].nextId, bytes)]
           && Live(states[k + 1]) == Live(states[k]) + bytes
      else states[k + 1] == states[k]
  {
    RunKeepsInv(states, steps, k);
    RunKeepsInv(states, steps, k + 1);
    assert Moves(states[k], steps[k], states[k + 1]);
  }

  /** A held submission is accepted exactly while submissions are taken, a place is free and the worker lives. */
  lemma SubmissionAcceptedIff(states: seq<Store>, steps: seq<Step>, k: nat, i: nat)
    requires Run(states, steps) && k < |steps| && steps[k] == TrySend(i)
    ensures i < |states[k].held|
    ensures var s, n := states[k], states[k + 1];
      if s.sender && |s.queue| < 32 && s.worker != Dead
      then n.accepted == s.accepted + [s.held[i].id] && n.queue == s.queue + [s.held[i]] && |n.held| == |s.held| - 1
      else n == s
  {
    assert Moves(states[k], steps[k], states[k + 1]);
  }

  /** The worker did not panic and its checkpoint did not fail. */
  predicate Sane(s: Store) { s.worker != Dead && s.worker != Exited(false) }

  /** The next step towards the answer of a shutdown. */
  function ShutdownMove(s: Store): Step {
    match s.shutdown
    case NotRunning => LockWorker
    case WorkerLocked => TakeSender
    case SenderTaken =>
      match s.worker
      case Receiving => if s.queue != [] then Receive else Disconnect
      case Executing(_) => RunJob
      case Ran(_) => ReleaseJob
      case Draining => Checkpoint(true)
      case _ => Answer
  }

  function ShutdownRank(s: Store): nat {
    match s.shutdown case NotRunning => 2 case WorkerLocked => 1 case SenderTaken => 0
  }

  function WorkRank(s: Store): nat {
    4 * |s.queue| +
    match s.worker case Receiving => 3 case Executing(_) => 6 case Ran(_) => 5 case Draining => 2 case _ => 1
  }

  lemma ShutdownMoves(s: Store)
    requires Drained(s) && Latched(s) && Sane(s)
    ensures var n := Next(s, ShutdownMove(s)); Enabled(s, ShutdownMove(s)) && Sane(n)
    ensures var n := Next(s, ShutdownMove(s));
      if ShutdownMove(s) == Answer then n.answers == s.answers + [Ok(())]
      else ShutdownRank(n) < ShutdownRank(s) || (ShutdownRank(n) == ShutdownRank(s) && WorkRank(n) < WorkRank(s))
  {
  }

  lemma ExtendRun(states: seq<Store>, steps: seq<Step>, step: Step)
    requires Run(states, steps) && Enabled(states[|steps|], step)
    ensures Run(states + [Next(states[|steps|], step)], steps + [step])
  {
    hide Next, Enabled;
    var all, more := states + [Next(states[|steps|], step)], steps + [step];
    forall k | 0 <= k < |more| ensures Moves(all[k], more[k], all[k + 1]) {
      if k < |steps| { assert Moves(states[k], steps[k], states[k + 1]); }
    }
  }

  /**
    From every reachable state whose worker is sane a shutdown can be answered with Ok:
    every accepted job runs first, then the checkpoint.
    */
  lemma {:induction false} ShutdownCanSucceed(states: seq<Store>, steps: seq<Step>)
    returns (ss: seq<Store>, ms: seq<Step>)
    requires Run(states, steps) && Sane(states[|steps|])
    ensures |ss| == |ms| > 0 && Run(states + ss, steps + ms)
    ensures var last := (states + ss)[|steps + ms|];
      && last.answers != [] && last.answers[|last.answers| - 1] == Ok(())
      && last.executed == last.accepted && last.queue == []
    decreases ShutdownRank(states[|steps|]), WorkRank(states[|steps|])
  {
    hide Next, Enabled, Conserved, InOrder, Sane, ShutdownMove, ShutdownRank, WorkRank, Drained, Latched;
    var s := states[|steps|];
    RunKeepsInv(states, steps, |steps|);
    ShutdownMoves(s);
    var step := ShutdownMove(s);
    var n := Next(s, step);
    ExtendRun(states, steps, step);
    if step == Answer {
      ss, ms := [n], [step];
      RunKeepsInv(states + ss, steps + ms, |steps| + 1);
      AnsweredOkMeansDrained(n);
    } else {
      var more, rest := ShutdownCanSucceed(states + [n], steps + [step]);
      ss, ms := [n] + more, [step] + rest;
      assert states + ss == states + [n] + more && steps + ms == steps + [step] + rest;
    }
  }

  lemma AnsweredOkMeansDrained(n: Store)
    requires InOrder(n) && Drained(n) && Latched(n) && n.answers != [] && n.answers[|n.answers| - 1] == Ok(())
    ensures n.executed == n.accepted && n.queue == []
  {
    hide Distinct;
    assert Pending(n) == [];
    assert n.executed + [] == n.executed;
  }
}
