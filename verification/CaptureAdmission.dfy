/**
  What the gate lets through: which submissions reach the sink, which resumes open the
  gate, and what its generation and its uncertainty mark stand for, over every interleaving.
  */
module CaptureAdmission {
  import opened Wrappers
  import opened CaptureGate

  // -------------------------------------------------------------- submissions

  /** Thread t took the lock at step l to submit `job`, and has held it until state m. */
  ghost predicate Locked(states: seq<Gate>, moves: seq<Move>, m: nat, t: Tid, job: nat, l: nat) {
    && |states| == |moves| + 1 && l < m < |states| && moves[l] == Move(t, SubmitLock(job))
    && forall k | l < k <= m :: states[k].lock == Some(t)
  }

  /** In that hold it saw the gate open at step a, and made no other move up to state m. */
  ghost predicate SawOpen(states: seq<Gate>, moves: seq<Move>, m: nat, t: Tid, job: nat, l: nat, a: nat) {
    && Locked(states, moves, m, t, job, l) && l < a < m && moves[a] == Move(t, SubmitLoadOpen) && states[a].open
    && forall k | l < k < m && moves[k].t == t :: a <= k
  }

  /** And at a later step b of the same hold it saw the generation equal to its job. */
  ghost predicate SawCurrent(states: seq<Gate>, moves: seq<Move>, m: nat, t: Tid, job: nat, l: nat, a: nat, b: nat) {
    && Locked(states, moves, m, t, job, l) && l < a < b < m
    && moves[a] == Move(t, SubmitLoadOpen) && states[a].open
    && moves[b] == Move(t, SubmitLoadGeneration) && states[b].generation == job
    && forall k | l < k < m && moves[k].t == t :: k == a || k == b
  }

  lemma HolderHolds(states: seq<Gate>, moves: seq<Move>, m: nat, t: Tid)
    requires Run(states, moves) && m < |states| && Holds(states[m].At(t))
    ensures states[m].lock == Some(t)
  {
    RunKeepsMutex(states, moves, m);
  }

  lemma {:induction false} SubmittingSince(states: seq<Gate>, moves: seq<Move>, m: nat, t: Tid) returns (l: nat)
    requires Run(states, moves) && m < |states| && states[m].At(t).Submitting?
    ensures Locked(states, moves, m, t, states[m].At(t).job, l)
    ensures forall k | l < k < m :: moves[k].t != t
  {
    assert m > 0;
    assert Moves(states[m - 1], moves[m - 1], states[m]);
    HolderHolds(states, moves, m, t);
    if moves[m - 1].t == t {
      l := m - 1;
    } else {
      OthersUnmoved(states[m - 1], moves[m - 1], t);
      l := SubmittingSince(states, moves, m - 1, t);
    }
  }

  lemma {:induction false} OpenSeenSince(states: seq<Gate>, moves: seq<Move>, m: nat, t: Tid) returns (l: nat, a: nat)
    requires Run(states, moves) && m < |states| && states[m].At(t).SubmitOpen?
    ensures SawOpen(states, moves, m, t, states[m].At(t).job, l, a)
    ensures forall k | a < k < m :: moves[k].t != t
  {
    assert m > 0;
    assert Moves(states[m - 1], moves[m - 1], states[m]);
    HolderHolds(states, moves, m, t);
    if moves[m - 1].t == t {
      l := SubmittingSince(states, moves, m - 1, t);
      a := m - 1;
    } else {
      OthersUnmoved(states[m - 1], moves[m - 1], t);
      l, a := OpenSeenSince(states, moves, m - 1, t);
    }
  }

  /**
    A closure runs in the sink only for a submission that, within its own hold of the lock,
    found the gate open and after that its own generation current.
    */
  lemma {:induction false} RunningWasAdmitted(states: seq<Gate>, moves: seq<Move>, m: nat, t: Tid)
    returns (l: nat, a: nat, b: nat)
    requires Run(states, moves) && m < |states| && states[m].At(t).Running?
    ensures SawCurrent(states, moves, m, t, states[m].At(t).job, l, a, b)
  {
    assert m > 0;
    assert Moves(states[m - 1], moves[m - 1], states[m]);
    HolderHolds(states, moves, m, t);
    if moves[m - 1].t == t {
      l, a := OpenSeenSince(states, moves, m - 1, t);
      b := m - 1;
    } else {
      OthersUnmoved(states[m - 1], moves[m - 1], t);
      l, a, b := RunningWasAdmitted(states, moves, m - 1, t);
    }
  }

  lemma ShutUntilResumed(states: seq<Gate>, moves: seq<Move>, i: nat, j: nat)
    requires Run(states, moves) && i < j < |states| && Shuts(moves[i].step)
    requires forall k | i < k < j :: !moves[k].step.ResumeStore?
    ensures !states[j].open
  {
    OpenIffResumedSince(states, moves, j);
    assert forall r: nat | r < j && moves[r].step == ResumeStore :: r <= i && Shuts(moves[i].step);
  }

  /** So a submission that takes the lock after the gate was shut, and before any resume stores, never runs. */
  lemma ShutGateAdmitsNothing(states: seq<Gate>, moves: seq<Move>, i: nat, l: nat, m: nat)
    requires Run(states, moves) && i < l < m < |states|
    requires moves[i].step.CloseStore? || moves[i].step.FailStore?
    requires moves[l].step.SubmitLock? && forall k | i < k < m :: !moves[k].step.ResumeStore?
    ensures !states[m].At(moves[l].t).Running?
  {
    if states[m].At(moves[l].t).Running? {
      var l', a, b := RunningWasAdmitted(states, moves, m, moves[l].t);
      assert l <= l';
      ShutUntilResumed(states, moves, i, a);
    }
  }

  /** Conversely a locked submission of the current generation under an open gate runs by its own two looks. */
  lemma CurrentSubmissionRuns(states: seq<Gate>, moves: seq<Move>, t: Tid) returns (ss: seq<Gate>)
    requires Run(states, moves)
    requires states[|moves|].open && states[|moves|].At(t) == Submitting(states[|moves|].generation)
    ensures Run(states + ss, moves + [Move(t, SubmitLoadOpen), Move(t, SubmitLoadGeneration)])
    ensures (states + ss)[|moves| + 2].At(t) == Running(states[|moves|].generation)
  {
    var looks := [Move(t, SubmitLoadOpen), Move(t, SubmitLoadGeneration)];
    var s := states[|moves|];
    var s1 := Next(s, t, SubmitLoadOpen);
    ExtendRun(states, moves, looks[0]);
    var s2 := Next(s1, t, SubmitLoadGeneration);
    ExtendRun(states + [s1], moves + [looks[0]], looks[1]);
    ss := [s1, s2];
    assert states + ss == states + [s1] + [s2] && moves + looks == moves + [looks[0]] + [looks[1]];
  }

  // ------------------------------------------------------------------ resumes

  /** Only a resume that found no uncertainty, within its own hold of the lock, stores the gate open. */
  lemma ResumeWasCertain(states: seq<Gate>, moves: seq<Move>, k: nat) returns (l: nat, c: nat)
    requires Run(states, moves) && k < |moves| && moves[k].step == ResumeStore
    ensures l < c < k && moves[l] == Move(moves[k].t, ResumeLock) && moves[c] == Move(moves[k].t, ResumeCheck)
    ensures !states[c].uncertain && forall j | l < j <= k :: states[j].lock == Some(moves[k].t)
  {
    assert Moves(states[k], moves[k], states[k + 1]);
    l, c := ResumingSince(states, moves, k, moves[k].t);
  }

  lemma {:induction false} ResumingSince(states: seq<Gate>, moves: seq<Move>, m: nat, t: Tid) returns (l: nat, c: nat)
    requires Run(states, moves) && m < |states|
    requires states[m].At(t) == Resuming || states[m].At(t) == ResumeVerified || states[m].At(t) == ResumeBumped
    ensures l < m && moves[l] == Move(t, ResumeLock) && forall j | l < j <= m :: states[j].lock == Some(t)
    ensures states[m].At(t) != Resuming ==> l < c < m && moves[c] == Move(t, ResumeCheck) && !states[c].uncertain
  {
    assert m > 0;
    assert Moves(states[m - 1], moves[m - 1], states[m]);
    HolderHolds(states, moves, m, t);
    if moves[m - 1].t != t {
      OthersUnmoved(states[m - 1], moves[m - 1], t);
      l, c := ResumingSince(states, moves, m - 1, t);
    } else if states[m].At(t) == Resuming {
      l, c := m - 1, 0;
    } else {
      l, c := ResumingSince(states, moves, m - 1, t);
      if moves[m - 1].step == ResumeCheck { c := m - 1; }
    }
  }

  /** A resume makes every offer admitted before it too old for good: none of them runs after its bump. */
  lemma {:induction false} NoneRunsAfterResume(states: seq<Gate>, moves: seq<Move>, k: nat, m: nat)
    requires Run(states, moves) && k < m < |states| && moves[k].step == ResumeBump
    ensures forall t: Tid :: states[m].At(t).Running? ==> states[m].At(t).job > states[k].generation
  {
    assert Moves(states[m - 1], moves[m - 1], states[m]);
    if m - 1 == k {
      RunKeepsMutex(states, moves, m);
      var r := moves[k].t;
      assert Holds(states[m].At(r)) <==> states[m].lock == Some(r);
      forall t: Tid ensures !states[m].At(t).Running? {
        assert Holds(states[m].At(t)) <==> states[m].lock == Some(t);
      }
    } else {
      NoneRunsAfterResume(states, moves, k, m - 1);
      assert states[k + 1].generation > states[k].generation by { assert Moves(states[k], moves[k], states[k + 1]); }
      GenerationNeverFalls(states, moves, k + 1, m - 1);
      StepKeepsNoneRunning(states[m - 1], moves[m - 1], states[k].generation);
    }
  }

  // ------------------------------------------------- generation and uncertainty

  predicate Bumps(step: Step) { step.CloseBump? || step.ResumeBump? || step.FailBump? }

  /** The generation counts the closes, resumes and failures that reached their bump. */
  lemma {:induction false} GenerationCountsBumps(states: seq<Gate>, moves: seq<Move>, m: nat)
    requires Run(states, moves) && m < |states|
    ensures states[m].generation == |BumpsBefore(moves, m)|
  {
    if m > 0 {
      GenerationCountsBumps(states, moves, m - 1);
      assert Moves(states[m - 1], moves[m - 1], states[m]);
      OneMoreBump(moves, m - 1);
    }
  }

  function BumpsBefore(moves: seq<Move>, m: nat): set<nat>
    requires m <= |moves|
  {
    set k: nat | k < m && Bumps(moves[k].step)
  }

  lemma OneMoreBump(moves: seq<Move>, m: nat)
    requires m < |moves|
    ensures |BumpsBefore(moves, m + 1)| == |BumpsBefore(moves, m)| + if Bumps(moves[m].step) then 1 else 0
  {
    assert BumpsBefore(moves, m + 1) == BumpsBefore(moves, m) + if Bumps(moves[m].step) then {m} else {};
  }

  /** The gate is uncertain exactly when some step marked it so, and it stays so. */
  lemma {:induction false} UncertainIffMarked(states: seq<Gate>, moves: seq<Move>, m: nat)
    requires Run(states, moves) && m < |states|
    ensures states[m].uncertain <==>
      exists k: nat | k < m :: moves[k].step == FailMark || moves[k].step == MarkUncertain
  {
    if m > 0 {
      UncertainIffMarked(states, moves, m - 1);
      assert Moves(states[m - 1], moves[m - 1], states[m]);
      var last: nat := m - 1;
      assert moves[last].step == FailMark || moves[last].step == MarkUncertain ==> states[m].uncertain;
    }
  }
}
