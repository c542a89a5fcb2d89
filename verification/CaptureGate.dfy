/**
  The capture admission gate, at the granularity of its atomic loads and stores.
  Any number of threads close, fence, resume, admit and submit concurrently; a
  step is one access by one thread, and a run is any interleaving of them.
  */
module CaptureGate {
  import opened Wrappers

  type Tid = nat

  /** Where a thread is inside its current call. */
  datatype Pc =
    | Idle
    | Closing                                      // close: stored open=false, generation not yet bumped
    | Fencing                                      // fence: holds the submission lock
    | Resuming | ResumeVerified | ResumeBumped | Resumed  // resume: holds the lock throughout
    | Admitting(seen: nat)                         // admit: loaded the generation, not yet the flag
    | Submitting(job: nat)                         // submit: holds the lock, nothing checked
    | SubmitOpen(job: nat)                         // submit: saw the gate open
    | Running(job: nat)                            // submit: accepted, the sink closure is running
    | Failed | FailMarked | FailClosed             // submit: the closure failed or panicked

  datatype Gate = Gate(open: bool, generation: nat, uncertain: bool, lock: Option<Tid>, pcs: map<Tid, Pc>) {
    function At(t: Tid): Pc { if t in pcs then pcs[t] else Idle }

    function Go(t: Tid, pc: Pc): Gate { this.(pcs := pcs[t := pc]) }

    function Unlock(t: Tid): Gate { this.(lock := None, pcs := pcs[t := Idle]) }
  }

  datatype Step =
    | CloseStore | CloseBump
    | FenceLock | FenceReturn
    | ResumeLock | ResumeCheck | ResumeBump | ResumeStore | ResumeReturn
    | AdmitLoad | AdmitReturn
    | SubmitLock(g: nat) | SubmitLoadOpen | SubmitLoadGeneration | SinkReturns | SinkFails
    | FailMark | FailStore | FailBump
    | MarkUncertain                                // worker.rs: the session records a failed fence or admission change

  predicate Enabled(s: Gate, t: Tid, step: Step) {
    match step
    case CloseStore => s.At(t) == Idle
    case CloseBump => s.At(t) == Closing
    case FenceLock => s.At(t) == Idle && s.lock == None
    case FenceReturn => s.At(t) == Fencing
    case ResumeLock => s.At(t) == Idle && s.lock == None
    case ResumeCheck => s.At(t) == Resuming
    case ResumeBump => s.At(t) == ResumeVerified
    case ResumeStore => s.At(t) == ResumeBumped
    case ResumeReturn => s.At(t) == Resumed
    case AdmitLoad => s.At(t) == Idle
    case AdmitReturn => s.At(t).Admitting?
    case SubmitLock(_) => s.At(t) == Idle && s.lock == None
    case SubmitLoadOpen => s.At(t).Submitting?
    case SubmitLoadGeneration => s.At(t).SubmitOpen?
    case SinkReturns => s.At(t).Running?
    case SinkFails => s.At(t).Running?
    case FailMark => s.At(t) == Failed
    case FailStore => s.At(t) == FailMarked
    case FailBump => s.At(t) == FailClosed
    case MarkUncertain => s.At(t) == Idle
  }

  function Take(s: Gate, t: Tid, pc: Pc): Gate { s.(lock := Some(t), pcs := s.pcs[t := pc]) }

  function Next(s: Gate, t: Tid, step: Step): Gate
    requires Enabled(s, t, step)
  {
    match step
    case CloseStore => s.(open := false).Go(t, Closing)
    case CloseBump => s.(generation := s.generation + 1).Go(t, Idle)
    case FenceLock => Take(s, t, Fencing)
    case FenceReturn => s.Unlock(t)
    case ResumeLock => Take(s, t, Resuming)
    case ResumeCheck => if s.uncertain then s.Unlock(t) else s.Go(t, ResumeVerified)
    case ResumeBump => s.(generation := s.generation + 1).Go(t, ResumeBumped)
    case ResumeStore => s.(open := true).Go(t, Resumed)
    case ResumeReturn => s.Unlock(t)
    case AdmitLoad => s.Go(t, Admitting(s.generation))
    case AdmitReturn => s.Go(t, Idle)
    case SubmitLock(g) => Take(s, t, Submitting(g))
    case SubmitLoadOpen => if s.open then s.Go(t, SubmitOpen(s.At(t).job)) else s.Unlock(t)
    case SubmitLoadGeneration => if s.At(t).job == s.generation then s.Go(t, Running(s.At(t).job)) else s.Unlock(t)
    case SinkReturns => s.Unlock(t)
    case SinkFails => s.Go(t, Failed)
    case FailMark => s.(uncertain := true).Go(t, FailMarked)
    case FailStore => s.(open := false).Go(t, FailClosed)
    case FailBump => s.(generation := s.generation + 1).Unlock(t)
    case MarkUncertain => s.(uncertain := true)
  }

  /** Every gate starts closed. */
  const START: Gate := Gate(false, 0, false, None, map[])

  datatype Move = Move(t: Tid, step: Step)

  ghost predicate Moves(s: Gate, m: Move, n: Gate) {
    Enabled(s, m.t, m.step) && n == Next(s, m.t, m.step)
  }

  ghost predicate Run(states: seq<Gate>, moves: seq<Move>) {
    && |states| == |moves| + 1 && states[0] == START
    && forall k | 0 <= k < |moves| :: Moves(states[k], moves[k], states[k + 1])
  }

  predicate Holds(pc: Pc) {
    match pc case Idle => false case Closing => false case Admitting(_) => false case _ => true
  }

  /** The submission lock is held by exactly the thread inside a locked section. */
  ghost predicate Mutex(s: Gate) {
    forall t: Tid :: Holds(s.At(t)) <==> s.lock == Some(t)
  }

  lemma OthersUnmoved(s: Gate, m: Move, t: Tid)
    requires Enabled(s, m.t, m.step) && t != m.t
    ensures Next(s, m.t, m.step).At(t) == s.At(t)
  {}

  lemma StepKeepsMutex(s: Gate, m: Move)
    requires Mutex(s) && Enabled(s, m.t, m.step)
    ensures Mutex(Next(s, m.t, m.step))
  {
    var n := Next(s, m.t, m.step);
    assert Holds(s.At(m.t)) <==> s.lock == Some(m.t);
    forall t: Tid ensures Holds(n.At(t)) <==> n.lock == Some(t) {
      assert Holds(s.At(t)) <==> s.lock == Some(t);
      if t != m.t { OthersUnmoved(s, m, t); }
    }
  }

  lemma {:induction false} RunKeepsMutex(states: seq<Gate>, moves: seq<Move>, k: nat)
    requires Run(states, moves) && k < |states|
    ensures Mutex(states[k])
  {
    if k > 0 {
      RunKeepsMutex(states, moves, k - 1);
      assert Moves(states[k - 1], moves[k - 1], states[k]);
      StepKeepsMutex(states[k - 1], moves[k - 1]);
    }
  }

  lemma {:induction false} GenerationNeverFalls(states: seq<Gate>, moves: seq<Move>, i: nat, j: nat)
    requires Run(states, moves) && i <= j < |states|
    ensures states[i].generation <= states[j].generation
  {
    if i < j {
      GenerationNeverFalls(states, moves, i, j - 1);
      assert Moves(states[j - 1], moves[j - 1], states[j]);
    }
  }

  // ------------------------------------------------------------------ the fence

  /** No accepted submission of a generation up to `mark` is inside the sink. */
  ghost predicate NoneRunning(s: Gate, mark: nat) {
    forall t: Tid :: s.At(t).Running? ==> s.At(t).job > mark
  }

  lemma HolderExcludesSubmissions(s: Gate, t: Tid, mark: nat)
    requires Mutex(s) && s.At(t) == Fencing
    ensures NoneRunning(s, mark)
  {
    assert Holds(s.At(t)) <==> s.lock == Some(t);
    forall u: Tid ensures !s.At(u).Running? {
      assert Holds(s.At(u)) <==> s.lock == Some(u);
    }
  }

  lemma StepKeepsNoneRunning(s: Gate, m: Move, mark: nat)
    requires NoneRunning(s, mark) && mark < s.generation && Enabled(s, m.t, m.step)
    ensures NoneRunning(Next(s, m.t, m.step), mark)
  {
    var n := Next(s, m.t, m.step);
    forall t: Tid | n.At(t).Running? ensures n.At(t).job > mark {
      if t != m.t { OthersUnmoved(s, m, t); }
      assert s.At(t).Running? ==> s.At(t).job > mark;
    }
  }

  lemma {:induction false} NoneRunsAfterFence(states: seq<Gate>, moves: seq<Move>, mark: nat, k: nat, m: nat)
    requires Run(states, moves) && k < m < |states|
    requires moves[k].step == FenceLock && mark < states[k].generation
    ensures NoneRunning(states[m], mark)
  {
    if m - 1 == k {
      RunKeepsMutex(states, moves, m);
      HolderExcludesSubmissions(states[m], moves[k].t, mark);
    } else {
      NoneRunsAfterFence(states, moves, mark, k, m - 1);
      GenerationNeverFalls(states, moves, k, m - 1);
      assert Moves(states[m - 1], moves[m - 1], states[m]);
      StepKeepsNoneRunning(states[m - 1], moves[m - 1], mark);
    }
  }

  /**
    The fence. Once a close bumped the generation (step j) and a later fence took the
    submission lock (step k), no submission admitted before that close is running, or
    ever runs again, whatever closes, resumes and submissions follow.
    */
  lemma ClosedThenFencedIsSilent(states: seq<Gate>, moves: seq<Move>, i: nat, j: nat, k: nat, m: nat)
    requires Run(states, moves) && i < j < k < m < |states|
    requires moves[i].step == AdmitLoad
    requires moves[j].step == CloseBump
    requires moves[k].step == FenceLock
    ensures states[i + 1].At(moves[i].t) == Admitting(states[i].generation)
    ensures forall t: Tid :: states[m].At(t).Running? ==> states[m].At(t).job > states[i].generation
  {
    GenerationNeverFalls(states, moves, i, j);
    assert states[j + 1].generation == states[j].generation + 1;
    GenerationNeverFalls(states, moves, j + 1, k);
    NoneRunsAfterFence(states, moves, states[j].generation, k, m);
  }

  // ---------------------------------------------------------- uncertain outcome

  predicate MayEnterSink(pc: Pc) {
    pc.SubmitOpen? || pc.Running? || pc == ResumeVerified || pc == ResumeBumped || pc == Resumed
  }

  predicate HolderAt(s: Gate, pc: Pc) { s.lock.Some? && s.At(s.lock.value) == pc }

  /** A submission failed: nobody is on a path into the sink, and the gate is shut or about to be. */
  ghost predicate Poisoned(s: Gate) {
    && Mutex(s)
    && (forall t: Tid :: !MayEnterSink(s.At(t)))
    && (HolderAt(s, Failed) || (s.uncertain && (!s.open || HolderAt(s, FailMarked))))
  }

  lemma MoverStaysOut(s: Gate, m: Move)
    requires Poisoned(s) && Enabled(s, m.t, m.step)
    ensures !MayEnterSink(Next(s, m.t, m.step).At(m.t))
  {
    assert !MayEnterSink(s.At(m.t));
    assert Holds(s.At(m.t)) <==> s.lock == Some(m.t);
  }

  lemma MoveKeepsShut(s: Gate, m: Move)
    requires Poisoned(s) && Enabled(s, m.t, m.step)
    ensures var n := Next(s, m.t, m.step);
      HolderAt(n, Failed) || (n.uncertain && (!n.open || HolderAt(n, FailMarked)))
  {
    assert !MayEnterSink(s.At(m.t));
    assert Holds(s.At(m.t)) <==> s.lock == Some(m.t);
  }

  lemma StepKeepsPoisoned(s: Gate, m: Move)
    requires Poisoned(s) && Enabled(s, m.t, m.step)
    ensures Poisoned(Next(s, m.t, m.step))
  {
    hide MayEnterSink, HolderAt, Mutex, Holds;
    var n := Next(s, m.t, m.step);
    StepKeepsMutex(s, m);
    MoverStaysOut(s, m);
    MoveKeepsShut(s, m);
    forall t: Tid ensures !MayEnterSink(n.At(t)) {
      if t != m.t { OthersUnmoved(s, m, t); }
    }
  }

  lemma {:induction false} PoisonedForEver(states: seq<Gate>, moves: seq<Move>, i: nat, m: nat)
    requires Run(states, moves) && i <= m < |states| && Poisoned(states[i])
    ensures Poisoned(states[m])
  {
    if i < m {
      PoisonedForEver(states, moves, i, m - 1);
      assert Moves(states[m - 1], moves[m - 1], states[m]);
      StepKeepsPoisoned(states[m - 1], moves[m - 1]);
    }
  }

  lemma FailurePoisons(s: Gate, m: Move)
    requires Mutex(s) && Enabled(s, m.t, m.step) && m.step == SinkFails
    ensures Poisoned(Next(s, m.t, m.step))
  {
    var n := Next(s, m.t, m.step);
    StepKeepsMutex(s, m);
    assert Holds(s.At(m.t)) <==> s.lock == Some(m.t);
    forall u: Tid ensures !MayEnterSink(n.At(u)) {
      assert Holds(n.At(u)) <==> n.lock == Some(u);
    }
  }

  /** After any failed submission no sink closure ever runs again, and no resume reopens the gate. */
  lemma FailureIsFinal(states: seq<Gate>, moves: seq<Move>, i: nat, m: nat)
    requires Run(states, moves) && i < m < |states|
    requires moves[i].step == SinkFails
    ensures forall t: Tid :: !states[m].At(t).Running? && states[m].At(t) != Resumed
  {
    RunKeepsMutex(states, moves, i);
    assert Moves(states[i], moves[i], states[i + 1]);
    FailurePoisons(states[i], moves[i]);
    PoisonedForEver(states, moves, i + 1, m);
    forall t: Tid ensures !states[m].At(t).Running? && states[m].At(t) != Resumed {
      assert !MayEnterSink(states[m].At(t));
    }
  }

  // ------------------------------------------------------- close against resume

  predicate Shuts(step: Step) { step.CloseStore? || step.FailStore? }

  /** The gate is open exactly when some resume stored `open` and nothing stored its closing since. */
  lemma {:induction false} OpenIffResumedSince(states: seq<Gate>, moves: seq<Move>, j: nat)
    requires Run(states, moves) && j < |states|
    ensures states[j].open <==>
      exists i: nat | i < j && moves[i].step == ResumeStore :: forall k | i < k < j :: !Shuts(moves[k].step)
  {
    if j > 0 {
      OpenIffResumedSince(states, moves, j - 1);
      assert Moves(states[j - 1], moves[j - 1], states[j]);
      var last: nat := j - 1;
      assert moves[last].step == ResumeStore ==> states[j].open;
    }
  }

  /** A resume holds the lock that has passed its check, or will pass it. */
  ghost predicate ResumePending(s: Gate) {
    exists t: Tid :: MayStore(s, t)
  }

  predicate MayStore(s: Gate, t: Tid) {
    s.At(t) == ResumeVerified || s.At(t) == ResumeBumped || (s.At(t) == Resuming && !s.uncertain)
  }

  lemma StepKeepsNonePending(s: Gate, m: Move)
    requires Enabled(s, m.t, m.step) && !ResumePending(s) && m.step != ResumeLock && !s.open
    ensures !ResumePending(Next(s, m.t, m.step)) && !Next(s, m.t, m.step).open
  {
    var n := Next(s, m.t, m.step);
    assert !MayStore(s, m.t);
    forall t: Tid ensures !MayStore(n, t) {
      assert !MayStore(s, t);
      if t != m.t { OthersUnmoved(s, m, t); }
    }
  }

  /** With no resume pending at the close, the gate stays shut until the next resume takes the lock. */
  lemma {:induction false} ShutUntilNextResume(states: seq<Gate>, moves: seq<Move>, i: nat, j: nat)
    requires Run(states, moves) && i < j < |states|
    requires moves[i].step == CloseStore && !ResumePending(states[i])
    requires forall k | i < k < j :: moves[k].step != ResumeLock
    ensures !states[j].open && !ResumePending(states[j])
  {
    assert Moves(states[j - 1], moves[j - 1], states[j]);
    if j - 1 > i {
      ShutUntilNextResume(states, moves, i, j - 1);
      StepKeepsNonePending(states[j - 1], moves[j - 1]);
    } else {
      CloseKeepsNonePending(states[i], moves[i]);
    }
  }

  lemma CloseKeepsNonePending(s: Gate, m: Move)
    requires Enabled(s, m.t, m.step) && m.step == CloseStore && !ResumePending(s)
    ensures !ResumePending(Next(s, m.t, m.step))
  {
    var n := Next(s, m.t, m.step);
    forall t: Tid ensures !MayStore(n, t) {
      assert !MayStore(s, t);
      if t != m.t { OthersUnmoved(s, m, t); }
    }
  }

  /** `states + ss` continues a run without any further resume taking the lock. */
  ghost predicate Continues(states: seq<Gate>, moves: seq<Move>, ss: seq<Gate>, ms: seq<Move>) {
    && |ss| == |ms| && Run(states + ss, moves + ms)
    && forall k | 0 <= k < |ms| :: ms[k].step != ResumeLock
  }

  lemma ExtendRun(states: seq<Gate>, moves: seq<Move>, m: Move)
    requires Run(states, moves) && Enabled(states[|moves|], m.t, m.step)
    ensures Run(states + [Next(states[|moves|], m.t, m.step)], moves + [m])
  {
    var n := Next(states[|moves|], m.t, m.step);
    var all, steps := states + [n], moves + [m];
    forall k | 0 <= k < |steps| ensures Moves(all[k], steps[k], all[k + 1]) {
      if k < |moves| { assert Moves(states[k], moves[k], states[k + 1]); }
    }
  }

  /** A pending resume can finish on its own, and then the gate is open. */
  lemma PendingResumeOpens(states: seq<Gate>, moves: seq<Move>, t: Tid) returns (ss: seq<Gate>, ms: seq<Move>)
    requires Run(states, moves) && MayStore(states[|moves|], t)
    ensures Continues(states, moves, ss, ms) && (states + ss)[|moves + ms|].open
    decreases match states[|moves|].At(t) case Resuming => 2 case ResumeVerified => 1 case _ => 0
  {
    var s := states[|moves|];
    var step := match s.At(t) case Resuming => ResumeCheck case ResumeVerified => ResumeBump case _ => ResumeStore;
    var n := Next(s, t, step);
    ExtendRun(states, moves, Move(t, step));
    if step == ResumeStore {
      ss, ms := [n], [Move(t, step)];
    } else {
      var more, rest := PendingResumeOpens(states + [n], moves + [Move(t, step)], t);
      ss, ms := [n] + more, [Move(t, step)] + rest;
      assert states + ss == states + [n] + more && moves + ms == moves + [Move(t, step)] + rest;
    }
  }

  /**
    Exactly when a close leaves the gate shut: after the close stored, every continuation
    in which no further resume begins keeps the gate shut if and only if no resume that
    passed its check, or will pass it, was already holding the lock.
    */
  lemma CloseStaysShutIff(states: seq<Gate>, moves: seq<Move>)
    requires Run(states, moves) && moves != [] && moves[|moves| - 1].step == CloseStore
    ensures (forall ss, ms | Continues(states, moves, ss, ms) :: !(states + ss)[|moves + ms|].open)
      <==> !ResumePending(states[|moves| - 1])
  {
    var i := |moves| - 1;
    assert Moves(states[i], moves[i], states[i + 1]);
    if ResumePending(states[i]) {
      var t :| MayStore(states[i], t);
      OthersUnmoved(states[i], moves[i], t);
      var ss, ms := PendingResumeOpens(states, moves, t);
    } else {
      forall ss, ms | Continues(states, moves, ss, ms) ensures !(states + ss)[|moves + ms|].open {
        var all, steps := states + ss, moves + ms;
        assert all[i] == states[i] && steps[i] == moves[i];
        ShutUntilNextResume(all, steps, i, |steps|);
      }
    }
  }

  /** A close by thread 0 between the bump and the store of a resume by thread 1. */
  const RACING: seq<Move> := [Move(1, ResumeLock), Move(1, ResumeCheck), Move(1, ResumeBump), Move(0, CloseStore),
    Move(0, CloseBump), Move(1, ResumeStore), Move(1, ResumeReturn)]

  ghost function Raced(k: nat): Gate
    requires k <= |RACING|
  {
    if k == 0 then START
    else if k == 1 then Gate(false, 0, false, Some(1), map[1 := Resuming])
    else if k == 2 then Gate(false, 0, false, Some(1), map[1 := ResumeVerified])
    else if k == 3 then Gate(false, 1, false, Some(1), map[1 := ResumeBumped])
    else if k == 4 then Gate(false, 1, false, Some(1), map[1 := ResumeBumped, 0 := Closing])
    else if k == 5 then Gate(false, 2, false, Some(1), map[1 := ResumeBumped, 0 := Idle])
    else if k == 6 then Gate(true, 2, false, Some(1), map[1 := Resumed, 0 := Idle])
    else Gate(true, 2, false, None, map[1 := Idle, 0 := Idle])
  }

  lemma RacedMoves(k: nat)
    requires k < |RACING|
    ensures Moves(Raced(k), RACING[k], Raced(k + 1))
  {}

  /** And a close that races such a resume does leave the gate open after both returned. */
  lemma CloseMayLoseToResume() returns (states: seq<Gate>)
    ensures Run(states, RACING)
    ensures RACING[3] == Move(0, CloseStore) && RACING[4] == Move(0, CloseBump)
    ensures states[|RACING|].open && forall t: Tid :: states[|RACING|].At(t) == Idle
  {
    hide Moves;
    states := seq(|RACING| + 1, k requires 0 <= k <= |RACING| => Raced(k));
    forall k: nat | k < |RACING| ensures Moves(states[k], RACING[k], states[k + 1]) {
      RacedMoves(k);
    }
  }
}
