/**
  What a capture worker can always do: capture while it is not stopped, and be stopped and
  verified as long as nothing went wrong. And what it no longer does once it is stopped.
  */
module WorkerProgress {
  import opened Wrappers
  import G = CaptureGate
  import opened CaptureWorker

  // ----------------------------------------------------------------- the stop flag

  lemma {:induction false} StopWasStored(states: seq<Worker>, steps: seq<Step>, k: nat)
    requires Run(states, steps) && k < |states|
    ensures states[k].stop <==> exists i: nat | i < k :: steps[i] == StoreStop
    ensures states[k].control != Attached ==> states[k].stop
  {
    if k > 0 {
      StopWasStored(states, steps, k - 1);
      assert Moves(states[k - 1], steps[k - 1], states[k]);
      var last: nat := k - 1;
      assert steps[last] == StoreStop ==> states[k].stop;
    }
  }

  /** The session begins another capture exactly as long as no stop was stored; after one it leaves its loop. */
  lemma StoppedSessionLeaves(states: seq<Worker>, steps: seq<Step>, k: nat)
    requires Run(states, steps) && k < |steps| && steps[k] == CheckStop
    ensures states[k + 1].session == if exists i: nat | i < k :: steps[i] == StoreStop then LastRevoke else Readying
  {
    StopWasStored(states, steps, k);
    assert Moves(states[k], steps[k], states[k + 1]);
  }

  // ------------------------------------------------------------ stopping succeeds

  /** Nothing failed so far that a stop would have to report. */
  predicate Healthy(w: Worker) {
    && !w.gate.uncertain && w.control != Done(false) && w.sink != Broke
    && w.session != Panicked && w.session != Marking && w.session != LastMarking && w.session != RevokingSql(true)
    && w.gate.At(SINK) != G.Failed && w.gate.At(SINK) != G.FailMarked && w.gate.At(SINK) != G.FailClosed
  }

  /** The next step towards the verified stop: of the lock's holder, else of the controller and who it waits for. */
  function StopMove(w: Worker): Step {
    if w.gate.lock.Some? then HolderMove(w) else ControlMove(w)
  }

  function ControlRank(w: Worker): nat {
    match w.control
    case Attached => 12
    case Closing(final) => (if final then 7 else 10) + if w.gate.At(CONTROL) == G.Idle then 1 else 0
    case Closed => 9
    case Joining => 6
    case Fencing => if w.gate.At(CONTROL) == G.Idle then 5 else 4
    case Done(_) => 0
  }

  function SessionRank(w: Worker): nat {
    match w.session
    case Spawning => 60
    case Readying => 50
    case AdmittingSql => 48
    case Resuming =>
      (match w.gate.At(SESSION)
       case Idle => 46 case Resuming => 45 case ResumeVerified => 44 case ResumeBumped => 43 case _ => 42)
    case Capturing => 40
    case Closing => if w.gate.At(SESSION) == G.Idle then 36 else 35
    case Fencing => if w.gate.At(SESSION) == G.Idle then 34 else 33
    case RevokingSql(_) => 32
    case Parked => 30
    case LoopHead => 28
    case LastRevoke => 26
    case Dropping => 24
    case JoiningSink => 22
    case _ => 0
  }

  function SinkRank(w: Worker): nat {
    20 * |w.queue| +
    match w.sink
    case Receiving => 1
    case Submitting(_) =>
      (match w.gate.At(SINK) case Idle => 15 case Submitting(_) => 10 case SubmitOpen(_) => 9 case _ => 8)
    case _ => 0
  }

  /** The step makes the stop come closer. */
  predicate Closer(w: Worker, n: Worker) {
    || ControlRank(n) < ControlRank(w)
    || (ControlRank(n) == ControlRank(w)
        && (SessionRank(n) < SessionRank(w)
            || (SessionRank(n) == SessionRank(w) && SinkRank(n) < SinkRank(w))))
  }

  lemma HolderComesCloser(w: Worker)
    requires Inv(w) && Healthy(w) && w.gate.lock.Some?
    ensures var n := Next(w, HolderMove(w)); Enabled(w, HolderMove(w)) && Healthy(n) && Closer(w, n)
  {
    HolderCanMove(w);
    var t := w.gate.lock.value;
    assert G.Holds(w.gate.At(t)) <==> w.gate.lock == Some(t);
    if t == SESSION {
      SessionHolder(w);
    } else if t == SINK {
      SinkHolder(w);
    } else {
      assert t == CONTROL;
      ControlHolder(w);
    }
  }

  lemma SessionHolder(w: Worker)
    requires SessionInGate(w.session, w.gate.At(SESSION)) && Healthy(w) && w.gate.lock == Some(SESSION)
    requires G.Holds(w.gate.At(SESSION)) && Enabled(w, HolderMove(w))
    ensures var n := Next(w, HolderMove(w)); Healthy(n) && Closer(w, n)
  {
    hide ControlRank, SinkRank;
    var n := Next(w, HolderMove(w));
    assert n.gate.At(CONTROL) == w.gate.At(CONTROL) && n.gate.At(SINK) == w.gate.At(SINK);
    SameControl(w, n);
  }

  lemma SinkHolder(w: Worker)
    requires SinkInGate(w.sink, w.gate.At(SINK)) && Healthy(w) && w.gate.lock == Some(SINK)
    requires G.Holds(w.gate.At(SINK)) && Enabled(w, HolderMove(w))
    ensures var n := Next(w, HolderMove(w)); Healthy(n) && Closer(w, n)
  {
    hide ControlRank, SessionRank;
    var n := Next(w, HolderMove(w));
    assert n.gate.At(CONTROL) == w.gate.At(CONTROL) && n.gate.At(SESSION) == w.gate.At(SESSION);
    SameControl(w, n);
    SameSession(w, n);
  }

  lemma ControlHolder(w: Worker)
    requires ControlInGate(w.control, w.gate.At(CONTROL)) && Healthy(w) && w.gate.lock == Some(CONTROL)
    requires G.Holds(w.gate.At(CONTROL)) && Enabled(w, HolderMove(w))
    ensures var n := Next(w, HolderMove(w)); Healthy(n) && Closer(w, n)
  {
    hide SinkRank, SessionRank;
    var n := Next(w, HolderMove(w));
    assert n.gate.At(SINK) == w.gate.At(SINK) && n.gate.At(SESSION) == w.gate.At(SESSION);
  }

  lemma SameControl(w: Worker, n: Worker)
    requires n.control == w.control && n.gate.At(CONTROL) == w.gate.At(CONTROL)
    ensures ControlRank(n) == ControlRank(w)
  {
  }

  lemma SameSession(w: Worker, n: Worker)
    requires n.session == w.session && n.gate.At(SESSION) == w.gate.At(SESSION)
    ensures SessionRank(n) == SessionRank(w)
  {
  }

  lemma UnlockedComesCloser(w: Worker)
    requires Inv(w) && Healthy(w) && w.gate.lock == None && !w.control.Done? && (w.control != Attached ==> w.stop)
    ensures var n := Next(w, ControlMove(w)); Enabled(w, ControlMove(w)) && Healthy(n) && Closer(w, n)
  {
    UnlockedCanMove(w);
    assert !G.Holds(w.gate.At(SESSION)) && !G.Holds(w.gate.At(SINK)) && !G.Holds(w.gate.At(CONTROL)) by {
      assert forall t: G.Tid :: !G.Holds(w.gate.At(t));
    }
    hide Enabled;
    if w.control == Joining && w.session != Exited {
      if w.session == JoiningSink && w.sink != Drained {
        SinkMoves(w);
      } else {
        if InLoop(w.session) { LoopMoves(w); } else { LeavingMoves(w); }
      }
    } else {
      ControlMoves(w);
    }
  }

  lemma SinkMoves(w: Worker)
    requires w.control == Joining && w.session == JoiningSink && w.sink != Drained && Healthy(w)
    requires SinkEnds(w) && SinkInGate(w.sink, w.gate.At(SINK)) && !G.Holds(w.gate.At(SINK))
    requires Enabled(w, ControlMove(w))
    ensures var n := Next(w, ControlMove(w)); Healthy(n) && Closer(w, n)
  {
    hide ControlRank, SessionRank;
    var n := Next(w, ControlMove(w));
    assert n.gate.At(CONTROL) == w.gate.At(CONTROL) && n.gate.At(SESSION) == w.gate.At(SESSION);
    SameControl(w, n);
    SameSession(w, n);
  }

  /** The session is still in its loop. */
  predicate InLoop(pc: SessionPc) {
    pc == Readying || pc == AdmittingSql || pc == Resuming || pc == Capturing || pc == SessionPc.Closing
  }

  lemma LoopMoves(w: Worker)
    requires w.control == Joining && Healthy(w) && w.stop && InLoop(w.session)
    requires w.session == JoiningSink ==> w.sink == Drained
    requires SessionInGate(w.session, w.gate.At(SESSION)) && !G.Holds(w.gate.At(SESSION)) && Enabled(w, ControlMove(w))
    ensures var n := Next(w, ControlMove(w)); Healthy(n) && Closer(w, n)
  {
    hide ControlRank, SinkRank;
    var n := Next(w, ControlMove(w));
    assert n.gate.At(CONTROL) == w.gate.At(CONTROL) && n.gate.At(SINK) == w.gate.At(SINK);
    SameControl(w, n);
  }

  lemma LeavingMoves(w: Worker)
    requires w.control == Joining && Healthy(w) && w.stop && !InLoop(w.session) && w.session != Exited
    requires w.session == JoiningSink ==> w.sink == Drained
    requires SessionInGate(w.session, w.gate.At(SESSION)) && !G.Holds(w.gate.At(SESSION)) && Enabled(w, ControlMove(w))
    ensures var n := Next(w, ControlMove(w)); Healthy(n) && Closer(w, n)
  {
    hide ControlRank, SinkRank;
    var n := Next(w, ControlMove(w));
    assert n.gate.At(CONTROL) == w.gate.At(CONTROL) && n.gate.At(SINK) == w.gate.At(SINK);
    SameControl(w, n);
  }

  lemma ControlMoves(w: Worker)
    requires !w.control.Done? && (w.control == Joining ==> w.session == Exited) && Healthy(w)
    requires ControlInGate(w.control, w.gate.At(CONTROL)) && !G.Holds(w.gate.At(CONTROL)) && Enabled(w, ControlMove(w))
    ensures var n := Next(w, ControlMove(w)); Healthy(n) && Closer(w, n)
  {
    hide SinkRank, SessionRank;
    var n := Next(w, ControlMove(w));
    assert n.gate.At(SINK) == w.gate.At(SINK);
  }

  lemma ExtendRun(states: seq<Worker>, steps: seq<Step>, step: Step)
    requires Run(states, steps) && Enabled(states[|steps|], step)
    ensures Run(states + [Next(states[|steps|], step)], steps + [step])
  {
    var all, more := states + [Next(states[|steps|], step)], steps + [step];
    forall k | 0 <= k < |more| ensures Moves(all[k], more[k], all[k + 1]) {
      if k < |steps| { assert Moves(states[k], steps[k], states[k + 1]); }
    }
  }

  ghost predicate Continues(states: seq<Worker>, steps: seq<Step>, ss: seq<Worker>, ms: seq<Step>) {
    |ss| == |ms| && Run(states + ss, steps + ms)
  }

  /**
    From every reachable state in which nothing went wrong a stop can be completed and
    verified: the session leaves its loop, the queue is drained, and `finish` answers Ok.
    */
  lemma {:induction false} StopCanBeVerified(states: seq<Worker>, steps: seq<Step>)
    returns (ss: seq<Worker>, ms: seq<Step>)
    requires Run(states, steps) && Healthy(states[|steps|])
    ensures Continues(states, steps, ss, ms) && (states + ss)[|steps + ms|].control == Done(true)
    decreases ControlRank(states[|steps|]), SessionRank(states[|steps|]), SinkRank(states[|steps|])
  {
    hide Inv, Healthy, ControlRank, SessionRank, SinkRank, Enabled, Next, HolderMove, ControlMove;
    var w := states[|steps|];
    ss, ms := [], [];
    assert states + [] == states && steps + [] == steps;
    HealthyAnswer(w);
    if !w.control.Done? {
      RunKeepsInv(states, steps, |steps|);
      StopWasStored(states, steps, |steps|);
      if w.gate.lock.Some? { HolderComesCloser(w); } else { UnlockedComesCloser(w); }
      var step := StopMove(w);
      var n := Next(w, step);
      ExtendRun(states, steps, step);
      var more, rest := StopCanBeVerified(states + [n], steps + [step]);
      ss, ms := [n] + more, [step] + rest;
      assert states + ss == states + [n] + more && steps + ms == steps + [step] + rest;
    }
  }

  lemma HealthyAnswer(w: Worker)
    requires Healthy(w)
    ensures w.control.Done? ==> w.control == Done(true)
  {
  }

  // ---------------------------------------------------------- capturing succeeds

  /** From w the steps `ms` lead through the states `ss`. */
  ghost predicate Chain(w: Worker, ms: seq<Step>, ss: seq<Worker>) {
    |ss| == |ms| && forall k | 0 <= k < |ms| :: Moves(Before(w, ss, k), ms[k], ss[k])
  }

  function Before(w: Worker, ss: seq<Worker>, k: nat): Worker
    requires k <= |ss|
  {
    if k == 0 then w else ss[k - 1]
  }

  function Last(w: Worker, ss: seq<Worker>): Worker { if ss == [] then w else ss[|ss| - 1] }

  lemma ChainsJoin(w: Worker, ms: seq<Step>, ss: seq<Worker>, ns: seq<Step>, ts: seq<Worker>)
    requires Chain(w, ms, ss) && Chain(Last(w, ss), ns, ts)
    ensures Chain(w, ms + ns, ss + ts) && Last(w, ss + ts) == Last(Last(w, ss), ts)
  {
    hide Moves;
    var all, steps := ss + ts, ms + ns;
    if ts == [] { assert ss + ts == ss; }
    forall k | 0 <= k < |steps| ensures Moves(Before(w, all, k), steps[k], all[k]) {
      if k < |ms| {
        assert Moves(Before(w, ss, k), ms[k], ss[k]);
      } else {
        var j := k - |ms|;
        assert Moves(Before(Last(w, ss), ts, j), ns[j], ts[j]);
      }
    }
  }

  lemma ChainContinues(states: seq<Worker>, steps: seq<Step>, ms: seq<Step>, ss: seq<Worker>)
    requires Run(states, steps) && Chain(states[|steps|], ms, ss)
    ensures Continues(states, steps, ss, ms) && (states + ss)[|steps + ms|] == Last(states[|steps|], ss)
  {
    hide Moves;
    var w, all, more := states[|steps|], states + ss, steps + ms;
    forall k | 0 <= k < |more| ensures Moves(all[k], more[k], all[k + 1]) {
      if k < |steps| {
        assert Moves(states[k], steps[k], states[k + 1]);
      } else {
        var j := k - |steps|;
        assert Moves(Before(w, ss, j), ms[j], ss[j]);
      }
    }
  }

  function OpeningSteps(): seq<Step> {
    [CheckStop, Ready(true), AdmitSql(true, true)]
  }

  function CheckingSteps(): seq<Step> { [SessionGate(G.ResumeLock), SessionGate(G.ResumeCheck)] }

  function ResumingSteps(): seq<Step> {
    [SessionGate(G.ResumeBump), SessionGate(G.ResumeStore), SessionGate(G.ResumeReturn)]
  }

  function QueueingSteps(job: nat): seq<Step> { [Enqueue(job), Receive] }

  function SubmittingSteps(job: nat): seq<Step> {
    [SinkGate(G.SubmitLock(job)), SinkGate(G.SubmitLoadOpen), SinkGate(G.SubmitLoadGeneration)]
  }

  /** A worker at rest: its ingest thread waiting, nobody holding the lock, nothing uncertain. */
  predicate AtRest(w: Worker) {
    && w.sink == Receiving && w.queue == [] && w.gate.lock == None && !w.gate.uncertain
    && w.gate.At(SESSION) == G.Idle && w.gate.At(SINK) == G.Idle
  }

  lemma SessionOpens(w: Worker) returns (ss: seq<Worker>)
    requires AtRest(w) && w.session == LoopHead && !w.stop
    ensures Chain(w, OpeningSteps(), ss)
    ensures var n := Last(w, ss);
      AtRest(n) && n.session == Resuming && n.sqlAdmission && n.gate == w.gate
  {
    var s0 := Next(w, CheckStop);
    var s1 := Next(s0, Ready(true));
    var s2 := Next(s1, AdmitSql(true, true));
    ss := [s0, s1, s2];
  }

  lemma SessionChecks(w: Worker) returns (ss: seq<Worker>)
    requires AtRest(w) && w.session == Resuming
    ensures Chain(w, CheckingSteps(), ss)
    ensures Last(w, ss) ==
      w.(gate := w.gate.(lock := Some(SESSION), pcs := w.gate.pcs[SESSION := G.Resuming][SESSION := G.ResumeVerified]))
  {
    var s0 := Next(w, SessionGate(G.ResumeLock));
    var s1 := Next(s0, SessionGate(G.ResumeCheck));
    ss := [s0, s1];
  }

  lemma SessionResumes(w: Worker) returns (ss: seq<Worker>)
    requires w.session == Resuming && w.gate.At(SESSION) == G.ResumeVerified && w.gate.At(SINK) == G.Idle
    requires w.sink == Receiving && w.queue == [] && !w.gate.uncertain
    ensures Chain(w, ResumingSteps(), ss)
    ensures var n := Last(w, ss);
      && AtRest(n) && n.session == Capturing && n.sqlAdmission == w.sqlAdmission
      && n.gate.open && n.gate.generation == w.gate.generation + 1
  {
    var s0 := Next(w, SessionGate(G.ResumeBump));
    var s1 := Next(s0, SessionGate(G.ResumeStore));
    var s2 := Next(s1, SessionGate(G.ResumeReturn));
    ss := [s0, s1, s2];
  }

  lemma JobIsReceived(w: Worker, job: nat) returns (ss: seq<Worker>)
    requires AtRest(w) && w.session == Capturing
    ensures Chain(w, QueueingSteps(job), ss)
    ensures Last(w, ss) == w.(sink := Submitting(job))
  {
    var s0 := Next(w, Enqueue(job));
    var s1 := Next(s0, Receive);
    ss := [s0, s1];
  }

  lemma JobRuns(w: Worker, job: nat) returns (ss: seq<Worker>)
    requires w.sink == Submitting(job) && w.gate.lock == None && w.gate.At(SINK) == G.Idle
    requires w.gate.open && job == w.gate.generation
    ensures Chain(w, SubmittingSteps(job), ss)
    ensures var n := Last(w, ss);
      n.gate.At(SINK) == G.Running(job) && n.gate.open && n.sqlAdmission == w.sqlAdmission
  {
    var s0 := Next(w, SinkGate(G.SubmitLock(job)));
    assert s0.gate.At(SINK) == G.Submitting(job) && s0.sink == Submitting(job) && s0.gate.open;
    var s1, s2 := JobPasses(s0, job);
    ss := [s0, s1, s2];
  }

  lemma JobPasses(w: Worker, job: nat) returns (s1: Worker, s2: Worker)
    requires w.sink == Submitting(job) && w.gate.At(SINK) == G.Submitting(job)
    requires w.gate.open && job == w.gate.generation
    ensures Moves(w, SinkGate(G.SubmitLoadOpen), s1) && Moves(s1, SinkGate(G.SubmitLoadGeneration), s2)
    ensures s2.gate.At(SINK) == G.Running(job) && s2.gate.open && s2.sqlAdmission == w.sqlAdmission
  {
    s1 := Next(w, SinkGate(G.SubmitLoadOpen));
    s2 := Next(s1, SinkGate(G.SubmitLoadGeneration));
  }

  /**
    A worker at rest between two captures that was not stopped can capture: the storage
    owner admits, the gate opens, and what is captured under the new generation reaches
    the sink.
    */
  lemma CaptureReachesSink(states: seq<Worker>, steps: seq<Step>) returns (ss: seq<Worker>, ms: seq<Step>)
    requires Run(states, steps) && AtRest(states[|steps|])
    requires states[|steps|].session == LoopHead && !states[|steps|].stop
    ensures Continues(states, steps, ss, ms)
    ensures var n, job := (states + ss)[|steps + ms|], states[|steps|].gate.generation + 1;
      n.gate.At(SINK) == G.Running(job) && n.gate.open && n.sqlAdmission && Enqueue(job) in ms
  {
    hide Chain, Continues, Next, Enabled, Moves;
    var w := states[|steps|];
    var job := w.gate.generation + 1;
    var a := SessionOpens(w);
    var b := SessionChecks(Last(w, a));
    ChainsJoin(w, OpeningSteps(), a, CheckingSteps(), b);
    ms, ss := OpeningSteps() + CheckingSteps(), a + b;
    var c := SessionResumes(Last(w, ss));
    ChainsJoin(w, ms, ss, ResumingSteps(), c);
    ms, ss := ms + ResumingSteps(), ss + c;
    var d := JobIsReceived(Last(w, ss), job);
    ChainsJoin(w, ms, ss, QueueingSteps(job), d);
    ms, ss := ms + QueueingSteps(job), ss + d;
    assert Enqueue(job) in ms by { assert QueueingSteps(job)[0] == Enqueue(job); }
    var e := JobRuns(Last(w, ss), job);
    ChainsJoin(w, ms, ss, SubmittingSteps(job), e);
    ms, ss := ms + SubmittingSteps(job), ss + e;
    ChainContinues(states, steps, ms, ss);
  }
}
