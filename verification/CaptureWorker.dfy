/**
  A capture worker: the session thread with its reconnect loop, the ingest thread
  and the controller that finishes the worker, interleaved at every access to the
  admission gate they share.
  */
module CaptureWorker {
  import opened Wrappers
  import G = CaptureGate

  const SESSION: G.Tid := 0
  const SINK: G.Tid := 1
  const CONTROL: G.Tid := 2

  datatype SessionPc =
    | Spawning                                   // about to start the ingest thread
    | LoopHead | Readying | AdmittingSql | Resuming | Capturing
    | Closing | Fencing | RevokingSql(fenceFailed: bool) | Marking | Parked
    | LastRevoke | LastMarking                   // after the loop
    | Dropping | JoiningSink | Exited | Panicked

  datatype SinkPc = NotStarted | Receiving | Submitting(job: nat) | Drained | Broke

  datatype ControlPc = Attached | Closing(final: bool) | Closed | Joining | Fencing | Done(ok: bool)

  datatype Worker = Worker(
    gate: G.Gate,
    stop: bool,
    sqlAdmission: bool,   // what the storage owner currently accepts
    queue: seq<nat>,      // the generations of queued jobs
    senderAlive: bool,
    session: SessionPc,
    sink: SinkPc,
    control: ControlPc
  )

  /** `ok` is the outcome a callee reports; `applied` whether a failed call took effect all the same. */
  datatype Step =
    | SpawnSink(ok: bool) | CheckStop | Ready(ok: bool) | AdmitSql(ok: bool, applied: bool)
    | Enqueue(job: nat) | CaptureEnds | RevokeSql(ok: bool, applied: bool) | SessionMarks | Wake
    | DropSender | SessionJoins | SessionPanics | SessionGate(call: G.Step)
    | Receive | SinkGate(call: G.Step)
    | StoreStop | ControlJoins | ControlGate(call: G.Step)

  predicate CallsOfSession(pc: SessionPc, call: G.Step) {
    match pc
    case Resuming => call.ResumeLock? || call.ResumeCheck? || call.ResumeBump? || call.ResumeStore?
      || call.ResumeReturn?
    case Closing => call.CloseStore? || call.CloseBump?
    case Fencing => call.FenceLock? || call.FenceReturn?
    case _ => false
  }

  predicate CallsOfSink(pc: SinkPc, call: G.Step) {
    && pc.Submitting?
    && (call == G.SubmitLock(pc.job) || call.SubmitLoadOpen? || call.SubmitLoadGeneration? || call.SinkReturns?
        || call.SinkFails? || call.FailMark? || call.FailStore? || call.FailBump?)
  }

  predicate CallsOfControl(pc: ControlPc, call: G.Step) {
    match pc
    case Closing(_) => call.CloseStore? || call.CloseBump?
    case Fencing => call.FenceLock? || call.FenceReturn?
    case _ => false
  }

  predicate Enabled(w: Worker, step: Step) {
    match step
    case SpawnSink(_) => w.session == Spawning && w.sink == NotStarted
    case CheckStop => w.session == LoopHead
    case Ready(_) => w.session == Readying
    case AdmitSql(_, _) => w.session == AdmittingSql
    case Enqueue(_) => w.session == Capturing && |w.queue| < 1 && !w.sink.Broke?
    case CaptureEnds => w.session == Capturing
    case RevokeSql(_, _) => w.session.RevokingSql? || w.session == LastRevoke
    case SessionMarks => w.session == Marking || w.session == LastMarking
    case Wake => w.session == Parked
    case DropSender => w.session == Dropping
    case SessionJoins => w.session == JoiningSink && (w.sink == Drained || w.sink == Broke)
    case SessionPanics =>
      || w.session == Readying || w.session == AdmittingSql || w.session == Capturing
      || w.session.RevokingSql? || w.session == LastRevoke
    case SessionGate(call) => CallsOfSession(w.session, call) && G.Enabled(w.gate, SESSION, call)
    case Receive => w.sink == Receiving && (w.queue != [] || !w.senderAlive)
    case SinkGate(call) => CallsOfSink(w.sink, call) && G.Enabled(w.gate, SINK, call)
    case StoreStop => w.control == Attached || w.control == Closed
    case ControlJoins => w.control == Joining && (w.session == Exited || w.session == Panicked)
    case ControlGate(call) => CallsOfControl(w.control, call) && G.Enabled(w.gate, CONTROL, call)
  }

  function SessionAfter(pc: SessionPc, uncertain: bool, call: G.Step): SessionPc {
    match call
    case ResumeCheck => if uncertain then SessionPc.Closing else pc
    case ResumeReturn => Capturing
    case CloseBump => SessionPc.Fencing
    case FenceReturn => RevokingSql(uncertain)
    case _ => pc
  }

  function SinkAfter(pc: SinkPc, gate: G.Gate, call: G.Step): SinkPc {
    if gate.At(SINK) != G.Idle then pc else if call == G.FailBump then Broke else Receiving
  }

  function ControlAfter(pc: ControlPc, uncertain: bool, call: G.Step): ControlPc {
    match call
    case CloseBump => if pc.Closing? && pc.final then Joining else Closed
    case FenceReturn => Done(!uncertain)
    case _ => pc
  }

  function Next(w: Worker, step: Step): Worker
    requires Enabled(w, step)
  {
    match step
    case SpawnSink(ok) =>
      if ok then w.(session := LoopHead, sink := Receiving) else w.(senderAlive := false, session := Exited)
    case CheckStop => w.(session := if w.stop then LastRevoke else Readying)
    case Ready(ok) => w.(session := if ok then AdmittingSql else SessionPc.Closing)
    case AdmitSql(ok, applied) =>
      w.(sqlAdmission := w.sqlAdmission || ok || applied, session := if ok then Resuming else SessionPc.Closing)
    case Enqueue(job) => w.(queue := w.queue + [job])
    case CaptureEnds => w.(session := SessionPc.Closing)
    case RevokeSql(ok, applied) =>
      w.(sqlAdmission := w.sqlAdmission && !ok && !applied,
         session := if w.session == LastRevoke then (if ok then Dropping else LastMarking)
                    else if w.session.fenceFailed || !ok then Marking else Parked)
    case SessionMarks =>
      w.(gate := G.Next(w.gate.(pcs := w.gate.pcs[SESSION := G.Idle]), SESSION, G.MarkUncertain),
         session := if w.session == Marking then LastRevoke else Dropping)
    case Wake => w.(session := LoopHead)
    case DropSender => w.(senderAlive := false, session := JoiningSink)
    case SessionJoins => w.(session := Exited)
    case SessionPanics => w.(senderAlive := false, session := Panicked)
    case SessionGate(call) =>
      w.(gate := G.Next(w.gate, SESSION, call), session := SessionAfter(w.session, w.gate.uncertain, call))
    case Receive =>
      if w.queue != [] then w.(queue := w.queue[1..], sink := Submitting(w.queue[0])) else w.(sink := Drained)
    case SinkGate(call) =>
      var gate := G.Next(w.gate, SINK, call);
      w.(gate := gate, sink := SinkAfter(w.sink, gate, call))
    case StoreStop => w.(stop := true, control := ControlPc.Closing(w.control == Closed))
    case ControlJoins => w.(control := if w.session == Exited then ControlPc.Fencing else Done(false))
    case ControlGate(call) =>
      w.(gate := G.Next(w.gate, CONTROL, call), control := ControlAfter(w.control, w.gate.uncertain, call))
  }

  /** A worker is only started while the storage owner refuses captures. */
  const START: Worker := Worker(G.START, false, false, [], true, Spawning, NotStarted, Attached)

  ghost predicate Moves(w: Worker, step: Step, n: Worker) { Enabled(w, step) && n == Next(w, step) }

  ghost predicate Run(states: seq<Worker>, steps: seq<Step>) {
    && |states| == |steps| + 1 && states[0] == START
    && forall k | 0 <= k < |steps| :: Moves(states[k], steps[k], states[k + 1])
  }

  // ---------------------------------------------------------------- invariants

  /** Each thread is inside exactly the gate call its program counter names. */
  predicate SessionInGate(pc: SessionPc, g: G.Pc) {
    match pc
    case Resuming => g == G.Idle || g == G.Resuming || g == G.ResumeVerified || g == G.ResumeBumped || g == G.Resumed
    case Closing => g == G.Idle || g == G.Closing
    case Fencing => g == G.Idle || g == G.Fencing
    case _ => g == G.Idle
  }

  predicate SinkInGate(pc: SinkPc, g: G.Pc) {
    || g == G.Idle
    || (pc.Submitting? && (g == G.Submitting(pc.job) || g == G.SubmitOpen(pc.job) || g == G.Running(pc.job)
                           || g == G.Failed || g == G.FailMarked || g == G.FailClosed))
  }

  predicate ControlInGate(pc: ControlPc, g: G.Pc) {
    match pc
    case Closing(_) => g == G.Idle || g == G.Closing
    case Fencing => g == G.Idle || g == G.Fencing
    case _ => g == G.Idle
  }

  ghost predicate Roles(w: Worker) {
    && G.Mutex(w.gate)
    && SessionInGate(w.session, w.gate.At(SESSION))
    && SinkInGate(w.sink, w.gate.At(SINK))
    && ControlInGate(w.control, w.gate.At(CONTROL))
    && forall t: G.Tid :: t > CONTROL ==> w.gate.At(t) == G.Idle
  }

  /** Only the session opens the gate, and it never leaves its loop without closing it. */
  predicate OpenOnlyInSession(w: Worker) {
    w.gate.open ==>
      || (w.session == Resuming && w.gate.At(SESSION) == G.Resumed)
      || w.session == Capturing
      || (w.session == SessionPc.Closing && w.gate.At(SESSION) == G.Idle)
      || w.session == Panicked
  }

  predicate SessionLeft(pc: SessionPc) { pc == Dropping || pc == JoiningSink || pc == Exited }

  /** Storage admission is closed, or its state is recorded as uncertain, once the session left its loop. */
  predicate SqlClosedAtExit(w: Worker) {
    && (w.session == Spawning ==> !w.sqlAdmission)
    && (SessionLeft(w.session) ==> !w.sqlAdmission || w.gate.uncertain)
  }

  /** A failed submission is on record before the ingest thread gives up. */
  predicate FailureRecorded(w: Worker) {
    w.gate.At(SINK) == G.FailMarked || w.gate.At(SINK) == G.FailClosed || w.sink == Broke ==> w.gate.uncertain
  }

  /** The ingest thread ends by draining a disconnected queue, or by giving up. */
  predicate SinkEnds(w: Worker) {
    && (w.sink == Drained ==> w.queue == [] && !w.senderAlive)
    && (w.session == Spawning ==> w.sink == NotStarted)
    && (w.sink == NotStarted ==> w.queue == [] && (w.session == Spawning || w.session == Exited))
    && (w.senderAlive <==> w.session != JoiningSink && w.session != Exited && w.session != Panicked)
    && (w.session == Exited ==> w.sink == NotStarted || w.sink == Drained || w.sink == Broke)
  }

  predicate ControlEnds(w: Worker) {
    && (w.control == ControlPc.Fencing ==> w.session == Exited)
    && (w.control == Done(true) ==> w.session == Exited && !w.gate.uncertain)
  }

  ghost predicate Inv(w: Worker) {
    Roles(w) && OpenOnlyInSession(w) && SqlClosedAtExit(w) && FailureRecorded(w) && SinkEnds(w) && ControlEnds(w)
  }

  /** What a gate call of thread t leaves alone. */
  lemma CallEffect(g: G.Gate, t: G.Tid, call: G.Step, u: G.Tid)
    requires G.Enabled(g, t, call) && u != t
    ensures G.Next(g, t, call).At(u) == g.At(u)
    ensures g.uncertain ==> G.Next(g, t, call).uncertain
    ensures G.Next(g, t, call).open ==> g.open || call.ResumeStore?
  {}

  lemma SessionCallKeepsPlace(w: Worker, call: G.Step)
    requires SessionInGate(w.session, w.gate.At(SESSION)) && Enabled(w, SessionGate(call))
    ensures var n := Next(w, SessionGate(call)); SessionInGate(n.session, n.gate.At(SESSION))
  {}

  lemma SessionCallKeepsRoles(w: Worker, call: G.Step)
    requires Roles(w) && Enabled(w, SessionGate(call))
    ensures Roles(Next(w, SessionGate(call)))
  {
    hide G.Mutex, G.Next, G.Enabled;
    G.StepKeepsMutex(w.gate, G.Move(SESSION, call));
    SessionCallKeepsPlace(w, call);
    forall u: G.Tid | u != SESSION ensures G.Next(w.gate, SESSION, call).At(u) == w.gate.At(u) {
      CallEffect(w.gate, SESSION, call, u);
    }
  }

  lemma SinkCallKeepsPlace(w: Worker, call: G.Step)
    requires SinkInGate(w.sink, w.gate.At(SINK)) && Enabled(w, SinkGate(call))
    ensures var n := Next(w, SinkGate(call)); SinkInGate(n.sink, n.gate.At(SINK))
  {}

  lemma SinkCallKeepsRoles(w: Worker, call: G.Step)
    requires Roles(w) && Enabled(w, SinkGate(call))
    ensures Roles(Next(w, SinkGate(call)))
  {
    hide G.Mutex, G.Next, G.Enabled;
    G.StepKeepsMutex(w.gate, G.Move(SINK, call));
    SinkCallKeepsPlace(w, call);
    forall u: G.Tid | u != SINK ensures G.Next(w.gate, SINK, call).At(u) == w.gate.At(u) {
      CallEffect(w.gate, SINK, call, u);
    }
  }

  lemma ControlCallKeepsPlace(w: Worker, call: G.Step)
    requires ControlInGate(w.control, w.gate.At(CONTROL)) && Enabled(w, ControlGate(call))
    ensures var n := Next(w, ControlGate(call)); ControlInGate(n.control, n.gate.At(CONTROL))
  {}

  lemma ControlCallKeepsRoles(w: Worker, call: G.Step)
    requires Roles(w) && Enabled(w, ControlGate(call))
    ensures Roles(Next(w, ControlGate(call)))
  {
    hide G.Mutex, G.Next, G.Enabled;
    G.StepKeepsMutex(w.gate, G.Move(CONTROL, call));
    ControlCallKeepsPlace(w, call);
    forall u: G.Tid | u != CONTROL ensures G.Next(w.gate, CONTROL, call).At(u) == w.gate.At(u) {
      CallEffect(w.gate, CONTROL, call, u);
    }
  }

  predicate CallsGate(step: Step) { step.SessionGate? || step.SinkGate? || step.ControlGate? }

  lemma MarkKeepsRoles(w: Worker)
    requires Roles(w) && Enabled(w, SessionMarks)
    ensures Roles(Next(w, SessionMarks))
  {
    var g := Next(w, SessionMarks).gate;
    forall t: G.Tid ensures g.At(t) == w.gate.At(t) {}
    forall t: G.Tid ensures G.Holds(g.At(t)) <==> g.lock == Some(t) {
      assert G.Holds(w.gate.At(t)) <==> w.gate.lock == Some(t);
    }
  }

  lemma LocalStepKeepsRoles(w: Worker, step: Step)
    requires Roles(w) && Enabled(w, step) && !CallsGate(step) && step != SessionMarks
    ensures Roles(Next(w, step))
  {
    hide G.Mutex, G.Holds, G.Next, G.Enabled;
    var n := Next(w, step);
    assert n.gate == w.gate;
    assert SessionInGate(n.session, w.gate.At(SESSION));
    assert SinkInGate(n.sink, w.gate.At(SINK));
    assert ControlInGate(n.control, w.gate.At(CONTROL));
  }

  lemma StepKeepsRoles(w: Worker, step: Step)
    requires Roles(w) && Enabled(w, step)
    ensures Roles(Next(w, step))
  {
    hide Roles, Next, Enabled;
    match step
    case SessionGate(call) => SessionCallKeepsRoles(w, call);
    case SinkGate(call) => SinkCallKeepsRoles(w, call);
    case ControlGate(call) => ControlCallKeepsRoles(w, call);
    case SessionMarks => MarkKeepsRoles(w);
    case _ => LocalStepKeepsRoles(w, step);
  }

  lemma LocalStepKeepsOpenOnlyInSession(w: Worker, step: Step)
    requires Roles(w) && OpenOnlyInSession(w) && Enabled(w, step) && !CallsGate(step)
    ensures OpenOnlyInSession(Next(w, step))
  {
    hide G.Mutex;
  }

  lemma SessionCallKeepsOpenOnlyInSession(w: Worker, call: G.Step)
    requires SessionInGate(w.session, w.gate.At(SESSION)) && OpenOnlyInSession(w) && Enabled(w, SessionGate(call))
    ensures OpenOnlyInSession(Next(w, SessionGate(call)))
  {}

  lemma StepKeepsOpenOnlyInSession(w: Worker, step: Step)
    requires Roles(w) && OpenOnlyInSession(w) && Enabled(w, step)
    ensures OpenOnlyInSession(Next(w, step))
  {
    hide G.Next, G.Enabled, G.Mutex;
    match step
    case SessionGate(call) => SessionCallKeepsOpenOnlyInSession(w, call);
    case SinkGate(call) => CallEffect(w.gate, SINK, call, SESSION);
    case ControlGate(call) => CallEffect(w.gate, CONTROL, call, SESSION);
    case _ => LocalStepKeepsOpenOnlyInSession(w, step);
  }

  lemma LocalStepKeepsSqlClosedAtExit(w: Worker, step: Step)
    requires Roles(w) && SqlClosedAtExit(w) && Enabled(w, step) && !CallsGate(step)
    ensures SqlClosedAtExit(Next(w, step))
  {
    hide G.Mutex;
  }

  lemma GateCallKeepsSqlClosedAtExit(w: Worker, step: Step)
    requires Roles(w) && SqlClosedAtExit(w) && Enabled(w, step) && CallsGate(step)
    ensures SqlClosedAtExit(Next(w, step))
  {
    hide G.Mutex;
  }

  lemma StepKeepsSqlClosedAtExit(w: Worker, step: Step)
    requires Roles(w) && SqlClosedAtExit(w) && Enabled(w, step)
    ensures SqlClosedAtExit(Next(w, step))
  {
    hide Roles, Enabled, Next, SqlClosedAtExit;
    if CallsGate(step) { GateCallKeepsSqlClosedAtExit(w, step); } else { LocalStepKeepsSqlClosedAtExit(w, step); }
  }

  lemma LocalStepKeepsFailureRecorded(w: Worker, step: Step)
    requires SinkInGate(w.sink, w.gate.At(SINK)) && FailureRecorded(w) && Enabled(w, step) && !CallsGate(step)
    ensures FailureRecorded(Next(w, step))
  {}

  lemma SinkCallKeepsFailureRecorded(w: Worker, call: G.Step)
    requires SinkInGate(w.sink, w.gate.At(SINK)) && FailureRecorded(w) && Enabled(w, SinkGate(call))
    ensures FailureRecorded(Next(w, SinkGate(call)))
  {}

  lemma StepKeepsFailureRecorded(w: Worker, step: Step)
    requires Roles(w) && FailureRecorded(w) && Enabled(w, step)
    ensures FailureRecorded(Next(w, step))
  {
    hide G.Next, G.Enabled, G.Mutex;
    match step
    case SessionGate(call) => CallEffect(w.gate, SESSION, call, SINK);
    case ControlGate(call) => CallEffect(w.gate, CONTROL, call, SINK);
    case SinkGate(call) => SinkCallKeepsFailureRecorded(w, call);
    case _ => LocalStepKeepsFailureRecorded(w, step);
  }

  lemma LocalStepKeepsSinkEnds(w: Worker, step: Step)
    requires Roles(w) && SinkEnds(w) && Enabled(w, step) && !CallsGate(step)
    ensures SinkEnds(Next(w, step))
  {
    hide G.Mutex;
  }

  lemma GateCallKeepsSinkEnds(w: Worker, step: Step)
    requires Roles(w) && SinkEnds(w) && Enabled(w, step) && CallsGate(step)
    ensures SinkEnds(Next(w, step))
  {
    hide G.Mutex;
  }

  lemma StepKeepsSinkEnds(w: Worker, step: Step)
    requires Roles(w) && SinkEnds(w) && Enabled(w, step)
    ensures SinkEnds(Next(w, step))
  {
    hide Roles, Enabled, Next, SinkEnds;
    if CallsGate(step) { GateCallKeepsSinkEnds(w, step); } else { LocalStepKeepsSinkEnds(w, step); }
  }

  lemma StepKeepsControlEnds(w: Worker, step: Step)
    requires Inv(w) && Enabled(w, step)
    ensures ControlEnds(Next(w, step))
  {
    hide G.Mutex;
  }

  lemma {:induction false} RunKeepsInv(states: seq<Worker>, steps: seq<Step>, k: nat)
    requires Run(states, steps) && k < |states|
    ensures Inv(states[k])
  {
    if k > 0 {
      RunKeepsInv(states, steps, k - 1);
      StepKeepsInv(states[k - 1], steps[k - 1], states[k]);
    }
  }

  lemma StepKeepsInv(w: Worker, step: Step, n: Worker)
    requires Inv(w) && Moves(w, step, n)
    ensures Inv(n)
  {
    hide Roles, OpenOnlyInSession, SqlClosedAtExit, FailureRecorded, SinkEnds, ControlEnds, Enabled, Next;
    StepKeepsRoles(w, step);
    StepKeepsOpenOnlyInSession(w, step);
    StepKeepsSqlClosedAtExit(w, step);
    StepKeepsFailureRecorded(w, step);
    StepKeepsSinkEnds(w, step);
    StepKeepsControlEnds(w, step);
  }

  lemma StepIsEnabled(states: seq<Worker>, steps: seq<Step>, k: nat)
    requires Run(states, steps) && k < |steps|
    ensures Enabled(states[k], steps[k])
  {
    assert Moves(states[k], steps[k], states[k + 1]);
  }

  /** What is left of an acknowledged worker: nothing open, nothing queued, nothing that can move. */
  ghost predicate Fenced(w: Worker) {
    && !w.gate.open && !w.sqlAdmission && !w.gate.uncertain
    && w.queue == [] && (w.sink == Drained || w.sink == NotStarted)
    && (forall t: G.Tid :: w.gate.At(t) == G.Idle)
    && (forall step :: !Enabled(w, step))
  }

  lemma DoneMeansFenced(w: Worker)
    requires Inv(w) && w.control == Done(true)
    ensures Fenced(w)
  {
    forall t: G.Tid ensures w.gate.At(t) == G.Idle {}
    forall step ensures !Enabled(w, step) {}
  }

  /**
    When `finish` acknowledges: the gate is shut, the storage owner refuses captures, no
    uncertain outcome was recorded, the ingest queue was drained and its thread is gone,
    and nothing of the worker can ever move again.
    */
  lemma FinishedMeansFenced(states: seq<Worker>, steps: seq<Step>, k: nat)
    requires Run(states, steps) && k < |states| && states[k].control == Done(true)
    ensures Fenced(states[k]) && |states| == k + 1
  {
    RunKeepsInv(states, steps, k);
    DoneMeansFenced(states[k]);
    if k < |steps| {
      StepIsEnabled(states, steps, k);
      assert false;
    }
  }

  /** The next step of the thread that holds the submission lock. */
  function HolderMove(w: Worker): Step
    requires w.gate.lock.Some?
  {
    var t := w.gate.lock.value;
    var call := match w.gate.At(t)
      case Fencing => G.FenceReturn
      case Resuming => G.ResumeCheck
      case ResumeVerified => G.ResumeBump
      case ResumeBumped => G.ResumeStore
      case Resumed => G.ResumeReturn
      case Submitting(_) => G.SubmitLoadOpen
      case SubmitOpen(_) => G.SubmitLoadGeneration
      case Running(_) => G.SinkReturns
      case Failed => G.FailMark
      case FailMarked => G.FailStore
      case _ => G.FailBump;
    if t == SESSION then SessionGate(call) else if t == SINK then SinkGate(call) else ControlGate(call)
  }

  lemma HolderCanMove(w: Worker)
    requires Roles(w) && w.gate.lock.Some?
    ensures Enabled(w, HolderMove(w))
  {
    var t := w.gate.lock.value;
    assert G.Holds(w.gate.At(t)) <==> w.gate.lock == Some(t);
  }

  function SinkMove(w: Worker): Step { if w.sink.Submitting? then SinkGate(G.SubmitLock(w.sink.job)) else Receive }

  function SessionMove(w: Worker): Step {
    match w.session
    case Spawning => SpawnSink(true)
    case LoopHead => CheckStop
    case Readying => Ready(true)
    case AdmittingSql => AdmitSql(true, true)
    case Resuming => SessionGate(G.ResumeLock)
    case Capturing => CaptureEnds
    case Closing => SessionGate(if w.gate.At(SESSION) == G.Idle then G.CloseStore else G.CloseBump)
    case Fencing => SessionGate(G.FenceLock)
    case RevokingSql(_) => RevokeSql(true, true)
    case Marking => SessionMarks
    case Parked => Wake
    case LastRevoke => RevokeSql(true, true)
    case LastMarking => SessionMarks
    case Dropping => DropSender
    case _ => if w.sink == Drained || w.sink == Broke then SessionJoins else SinkMove(w)
  }

  function ControlMove(w: Worker): Step {
    match w.control
    case Attached => StoreStop
    case Closed => StoreStop
    case Closing(_) => ControlGate(if w.gate.At(CONTROL) == G.Idle then G.CloseStore else G.CloseBump)
    case Joining => if w.session == Exited || w.session == Panicked then ControlJoins else SessionMove(w)
    case _ => ControlGate(G.FenceLock)
  }

  lemma UnlockedCanMove(w: Worker)
    requires Inv(w) && w.gate.lock == None && !w.control.Done?
    ensures Enabled(w, ControlMove(w))
  {
    forall t: G.Tid ensures !G.Holds(w.gate.At(t)) {}
    assert !G.Holds(w.gate.At(SESSION)) && !G.Holds(w.gate.At(SINK)) && !G.Holds(w.gate.At(CONTROL));
  }

  /** A stop never deadlocks: until `finish` answers, some thread of the worker can move. */
  lemma NeverStuck(states: seq<Worker>, steps: seq<Step>, k: nat) returns (step: Step)
    requires Run(states, steps) && k < |states| && !states[k].control.Done?
    ensures Enabled(states[k], step)
  {
    RunKeepsInv(states, steps, k);
    if states[k].gate.lock.Some? {
      HolderCanMove(states[k]);
      step := HolderMove(states[k]);
    } else {
      UnlockedCanMove(states[k]);
      step := ControlMove(states[k]);
    }
  }
}
