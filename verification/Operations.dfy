/**
  Image operations: registration, the commit/cancel race, terminal events and their
  bounded retention, and draining before a wipe. A step is one atomic access or one
  section under the state lock; a run interleaves tasks, cancellers and a stopper.
  */
module Operations {
  import opened Wrappers

  type Id = nat

  const MAX_TERMINAL: nat := 256
  const MAX_AGE: nat := 300

  datatype Event = Started | Finished(ok: bool) | WasCancelled

  datatype Phase = Editing | Committing | Cancelled | Over

  /** Which collection of the state holds the operation; a cancelling one is claimed by a canceller. */
  datatype Place = Active | Cancelling | Gone

  datatype Task = Waiting | Working | InCommit | WorkDone(ok: bool) | Completed | Exited | Aborted

  datatype Canceller = Nobody | Aborting | Joined | FilesDropped | Published | Acknowledged

  datatype Operation = Operation(
    phase: Phase,
    place: Place,
    task: Task,
    canceller: Canceller,
    files: bool,           // the staged files still exist
    events: seq<Event>,    // everything published for this operation, in order
    began: bool,           // begin_commit answered true
    slot: nat              // position among all terminal results, once published
  )

  const LAUNCHED: Operation := Operation(Editing, Active, Waiting, Nobody, true, [], false, 0)

  // --------------------------------------------------- bounded retention queue

  datatype Retained = Retained(at: nat, id: Id, event: Event)

  function Expired(r: Retained, now: nat): bool { now >= r.at + MAX_AGE }

  function Pruned(q: seq<Retained>, now: nat): (p: seq<Retained>)
    ensures |p| <= |q|
  {
    if q != [] && Expired(q[0], now) then Pruned(q[1..], now) else q
  }

  function Pushed(q: seq<Retained>, r: Retained): seq<Retained> {
    var p := Pruned(q, r.at);
    (if |p| == MAX_TERMINAL then p[1..] else p) + [r]
  }

  function Find(q: seq<Retained>, id: Id): Option<Event> {
    if q == [] then None else if q[0].id == id then Some(q[0].event) else Find(q[1..], id)
  }

  /** The queue as the code updates it in place. */
  class OperationState {
    var terminal: seq<Retained>

    constructor ()
      ensures terminal == []
    {
      terminal := [];
    }

    method Prune(now: nat)
      modifies this
      ensures terminal == Pruned(old(terminal), now)
    {
      while terminal != [] && Expired(terminal[0], now)
        invariant Pruned(terminal, now) == Pruned(old(terminal), now)
        decreases |terminal|
      {
        terminal := terminal[1..];
      }
    }

    method Retain(r: Retained)
      modifies this
      ensures terminal == Pushed(old(terminal), r)
    {
      Prune(r.at);
      if |terminal| == MAX_TERMINAL {
        terminal := terminal[1..];
      }
      terminal := terminal + [r];
    }

    method Lookup(id: Id, now: nat) returns (found: Option<Event>)
      modifies this
      ensures terminal == Pruned(old(terminal), now) && found == Find(terminal, id)
    {
      Prune(now);
      found := None;
      var i := 0;
      while i < |terminal|
        invariant i <= |terminal| && terminal == Pruned(old(terminal), now)
        invariant Find(terminal, id) == Find(terminal[i..], id)
      {
        if terminal[i].id == id {
          return Some(terminal[i].event);
        }
        i := i + 1;
      }
    }
  }

  // ------------------------------------------------------------------- protocol

  /** The backend operation gate, held across launches and across a wipe. */
  datatype Gate = Free | Launching(id: Id) | Stopping(todo: set<Id>)

  datatype System = System(ops: map<Id, Operation>, terminal: seq<Retained>, retained: seq<Retained>, now: nat,
      gate: Gate)

  datatype Step =
    | Launch(id: Id) | Announce(id: Id) | Begin(id: Id)
    | BeginCommit(id: Id) | WorkEnds(id: Id, ok: bool) | CommitEnds(id: Id, ok: bool)
    | Complete(id: Id) | TaskFinish(id: Id)
    | Claim(id: Id) | AbortLands(id: Id) | Join(id: Id) | DropFiles(id: Id)
    | PublishCancelled(id: Id) | CancelFinish(id: Id)
    | Status(id: Id)
    | StopBegins | StopPasses(id: Id) | Wipe
    | Tick

  predicate OpEnabled(op: Operation, step: Step) {
    match step
    case Announce(_) => op.events == []
    case Begin(_) => op.events != []
    case BeginCommit(_) => op.task == Working
    case WorkEnds(_, _) => op.task == Working
    case CommitEnds(_, _) => op.task == InCommit
    case Complete(_) => op.task.WorkDone?
    case TaskFinish(_) => op.task == Completed
    case Claim(_) => op.events != []             // the id is only known once announced
    case AbortLands(_) => op.canceller == Aborting && (op.task == Waiting || op.task == Working || op.task == InCommit)
    case Join(_) => op.canceller == Aborting && (op.task == Exited || op.task == Aborted)
    case DropFiles(_) => op.canceller == Joined
    case PublishCancelled(_) => op.canceller == FilesDropped
    case CancelFinish(_) => op.canceller == Published
    case _ => false
  }

  /** Whether the step publishes the terminal event, and which one. */
  function Publishes(op: Operation, step: Step): Option<Event> {
    match step
    case Complete(_) => if op.place == Active && op.task.WorkDone? then Some(Finished(op.task.ok)) else None
    case PublishCancelled(_) => Some(WasCancelled)
    case _ => None
  }

  function OpNext(op: Operation, step: Step, slot: nat): Operation
    requires OpEnabled(op, step)
  {
    match step
    case Announce(_) => op.(events := op.events + [Started])
    case Begin(_) => if op.task == Waiting then op.(task := Working) else op
    case BeginCommit(_) =>
      if op.phase == Editing
      then op.(phase := Committing, task := InCommit, began := true)
      else op.(task := WorkDone(false))
    case WorkEnds(_, ok) => op.(task := WorkDone(ok))
    case CommitEnds(_, ok) => op.(task := WorkDone(ok))
    case Complete(_) =>
      if op.place == Active
      then op.(task := Completed, place := Gone, files := false, events := op.events + [Finished(op.task.ok)],
        slot := slot)
      else op.(task := Completed)
    case TaskFinish(_) => op.(task := Exited, phase := Over)
    case Claim(_) =>
      if op.place == Active && op.phase == Editing
      then op.(phase := Cancelled, place := Cancelling, canceller := Aborting) else op
    case AbortLands(_) => op.(task := Aborted)
    case Join(_) => op.(canceller := Joined)
    case DropFiles(_) => op.(canceller := FilesDropped, files := false)
    case PublishCancelled(_) => op.(canceller := Published, place := Gone, events := op.events + [WasCancelled],
      slot := slot)
    case _ => op.(canceller := Acknowledged, phase := Over)
  }

  predicate OnOperation(step: Step) {
    !(step.Launch? || step.Status? || step.StopBegins? || step.StopPasses? || step.Wipe? || step.Tick?)
  }

  predicate Enabled(s: System, step: Step) {
    match step
    case Launch(id) => s.gate == Free && id !in s.ops
    case Announce(id) => s.gate == Launching(id) && id in s.ops && OpEnabled(s.ops[id], step)
    case Begin(id) => s.gate == Launching(id) && id in s.ops && OpEnabled(s.ops[id], step)
    case StopBegins => s.gate == Free
    case StopPasses(id) => s.gate.Stopping? && id in s.gate.todo && id in s.ops && s.ops[id].phase == Over
    case Wipe => s.gate == Stopping({})
    case Status(_) => true
    case Tick => true
    case _ => step.id in s.ops && OpEnabled(s.ops[step.id], step)
  }

  function Registered(s: System): set<Id> { set id | id in s.ops && s.ops[id].place != Gone }

  function Next(s: System, step: Step): System
    requires Enabled(s, step)
  {
    match step
    case Launch(id) => s.(ops := s.ops[id := LAUNCHED], gate := Launching(id))
    case StopBegins => s.(gate := Stopping(Registered(s)))
    case StopPasses(id) => s.(gate := Stopping(s.gate.todo - {id}))
    case Wipe => s.(gate := Free)
    case Status(_) => s.(terminal := Pruned(s.terminal, s.now))
    case Tick => s.(now := s.now + 1)
    case _ =>
      var op := s.ops[step.id];
      var gate := if step.Begin? then Free else s.gate;
      var n := s.(ops := s.ops[step.id := OpNext(op, step, |s.retained|)], gate := gate);
      match Publishes(op, step)
      case None => n
      case Some(event) =>
        var r := Retained(s.now, step.id, event);
        n.(terminal := Pushed(s.terminal, r), retained := s.retained + [r])
  }

  /** What a status query answers. */
  function StatusOf(s: System, id: Id): Option<Event> {
    if id in s.ops && s.ops[id].place != Gone then Some(Started) else Find(Pruned(s.terminal, s.now), id)
  }

  const START: System := System(map[], [], [], 0, Free)

  ghost predicate Moves(s: System, step: Step, n: System) { Enabled(s, step) && n == Next(s, step) }

  ghost predicate Run(states: seq<System>, steps: seq<Step>) {
    && |states| == |steps| + 1 && states[0] == START
    && forall k | 0 <= k < |steps| :: Moves(states[k], steps[k], states[k + 1])
  }

  // ------------------------------------------------------- one operation's life

  predicate ActiveInv(op: Operation) {
    && op.canceller == Nobody && op.files && op.phase == (if op.began then Committing else Editing)
    && (op.events == [Started] || (op.events == [] && op.task == Waiting))
    && (op.task == Waiting || op.task == Working || op.task == InCommit || op.task.WorkDone?)
    && (op.task == InCommit ==> op.began) && (op.task == Waiting || op.task == Working ==> !op.began)
  }

  predicate CancellingInv(op: Operation) {
    && !op.began && op.events == [Started] && (op.phase == Cancelled || op.phase == Over)
    && (op.canceller == Aborting || op.canceller == Joined || op.canceller == FilesDropped)
    && op.files == (op.canceller != FilesDropped)
    && op.task != InCommit
    && (op.canceller != Aborting || op.phase == Over ==> op.task == Exited || op.task == Aborted)
  }

  predicate GoneInv(op: Operation) {
    && !op.files && |op.events| == 2 && op.events[0] == Started
    && (op.task == Completed || op.task == Exited || op.task == Aborted)
    && (op.canceller == Nobody || op.canceller == Published || op.canceller == Acknowledged)
    && (op.events[1] == WasCancelled <==> op.canceller != Nobody)
    && op.events[1] != Started
    && (op.canceller != Nobody ==> !op.began && (op.task == Exited || op.task == Aborted))
    && (op.phase == Over ==> op.task == Exited || op.task == Aborted)
    && (op.canceller == Acknowledged || (op.canceller == Nobody && op.task != Completed) ==> op.phase == Over)
  }

  predicate OpInv(op: Operation) {
    match op.place
    case Active => ActiveInv(op)
    case Cancelling => CancellingInv(op)
    case Gone => GoneInv(op)
  }

  lemma OpStepKeepsInv(op: Operation, step: Step, slot: nat)
    requires OpInv(op) && OpEnabled(op, step)
    ensures OpInv(OpNext(op, step, slot))
  {}

  /** The terminal event is published exactly when the operation leaves the state, at its recorded slot. */
  lemma PublishingStep(op: Operation, step: Step, slot: nat)
    requires OpInv(op) && OpEnabled(op, step)
    ensures var n := OpNext(op, step, slot);
      match Publishes(op, step)
      case None => (n.place == Gone <==> op.place == Gone)
        && (op.place == Gone ==> n.slot == op.slot && n.events == op.events)
      case Some(event) => op.place != Gone && n.place == Gone && n.slot == slot && n.events == [Started, event]
  {}

  // ------------------------------------------------------------------ retention

  ghost predicate Sorted(q: seq<Retained>, now: nat) {
    && (forall i, j | 0 <= i < j < |q| :: q[i].at <= q[j].at)
    && (forall i | 0 <= i < |q| :: q[i].at <= now)
  }

  lemma {:induction false} PrunedIsSuffix(q: seq<Retained>, now: nat)
    ensures var d := |q| - |Pruned(q, now)|;
      && Pruned(q, now) == q[d..]
      && (forall i | 0 <= i < d :: Expired(q[i], now))
      && (d < |q| ==> !Expired(q[d], now))
  {
    if q != [] && Expired(q[0], now) {
      PrunedIsSuffix(q[1..], now);
      var d := |q| - |Pruned(q, now)|;
      forall i | 0 <= i < d ensures Expired(q[i], now) {
        if i > 0 { assert q[i] == q[1..][i - 1]; }
      }
    }
  }

  /** The queue is the newest part of all terminal results; the others were too old or outnumbered. */
  ghost predicate QueueInv(s: System) {
    var d := |s.retained| - |s.terminal|;
    && 0 <= d && |s.terminal| <= MAX_TERMINAL && s.terminal == s.retained[d..]
    && Sorted(s.retained, s.now)
    && forall i | 0 <= i < d :: Expired(s.retained[i], s.now) || |s.retained| - i > MAX_TERMINAL
  }

  lemma PruneKeepsQueue(s: System)
    requires QueueInv(s)
    ensures QueueInv(s.(terminal := Pruned(s.terminal, s.now)))
  {
    var n := s.(terminal := Pruned(s.terminal, s.now));
    PrunedIsSuffix(s.terminal, s.now);
    var d, e := |s.retained| - |s.terminal|, |s.retained| - |n.terminal|;
    assert n.terminal == s.retained[e..];
    forall i | 0 <= i < e ensures Expired(s.retained[i], s.now) || |s.retained| - i > MAX_TERMINAL {
      if i >= d { assert s.retained[i] == s.terminal[i - d]; }
    }
  }

  lemma PushKeepsQueue(s: System, r: Retained)
    requires QueueInv(s) && r.at == s.now
    ensures QueueInv(s.(terminal := Pushed(s.terminal, r), retained := s.retained + [r]))
  {
    hide Pruned;
    PruneKeepsQueue(s);
    var p := s.(terminal := Pruned(s.terminal, s.now));
    var d := |p.retained| - |p.terminal|;
    var n := s.(terminal := Pushed(s.terminal, r), retained := s.retained + [r]);
    var e := if |p.terminal| == MAX_TERMINAL then d + 1 else d;
    assert n.terminal == p.retained[e..] + [r] == n.retained[e..];
    forall i | 0 <= i < e ensures Expired(n.retained[i], n.now) || |n.retained| - i > MAX_TERMINAL {
      assert n.retained[i] == s.retained[i];
    }
  }

  // ----------------------------------------------------------- system invariant

  ghost predicate OpsInv(s: System) {
    forall id | id in s.ops :: OpInv(s.ops[id])
  }

  predicate RecordedAs(ops: map<Id, Operation>, r: Retained, slot: nat) {
    r.id in ops && ops[r.id].place == Gone && ops[r.id].slot == slot && ops[r.id].events == [Started, r.event]
  }

  /** Every retained result is the terminal event of the operation it names, and conversely. */
  ghost predicate Linked(s: System) {
    && (forall i | 0 <= i < |s.retained| ::
          RecordedAs(s.ops, s.retained[i], i))
    && (forall id | id in s.ops && s.ops[id].place == Gone ::
      s.ops[id].slot < |s.retained| && s.retained[s.ops[id].slot].id == id)
  }

  /** Only a launch in progress has an unannounced operation; a stopper waits for everything registered. */
  ghost predicate GateInv(s: System) {
    && (forall id | id in s.ops && s.ops[id].task == Waiting :: s.gate == Launching(id))
    && (s.gate.Stopping? ==> forall id | id in s.ops && id !in s.gate.todo :: Spent(s.ops[id]))
    && (s.gate.Stopping? ==> s.gate.todo <= s.ops.Keys)
  }

  /** The task has left, or can only leave: it can never commit again. */
  predicate Spent(op: Operation) { op.task == Completed || op.task == Exited || op.task == Aborted }

  ghost predicate Inv(s: System) { OpsInv(s) && QueueInv(s) && Linked(s) && GateInv(s) }

  lemma OpStepKeepsOps(s: System, step: Step)
    requires OpsInv(s) && Enabled(s, step) && OnOperation(step)
    ensures OpsInv(Next(s, step))
  {
    hide OpInv, OpEnabled, OpNext, Publishes, Pushed;
    OpStepKeepsInv(s.ops[step.id], step, |s.retained|);
  }

  lemma OpStepKeepsQueue(s: System, step: Step)
    requires QueueInv(s) && Enabled(s, step) && OnOperation(step)
    ensures QueueInv(Next(s, step))
  {
    hide OpEnabled, OpNext, Publishes, Pushed;
    match Publishes(s.ops[step.id], step)
    case None =>
    case Some(event) => PushKeepsQueue(s, Retained(s.now, step.id, event));
  }

  lemma OpStepKeepsLinked(s: System, step: Step)
    requires OpsInv(s) && Linked(s) && Enabled(s, step) && OnOperation(step)
    ensures Linked(Next(s, step))
  {
    hide OpInv, OpEnabled, OpNext, Publishes, Pushed;
    PublishingStep(s.ops[step.id], step, |s.retained|);
  }

  lemma OpStepKeepsSpent(op: Operation, step: Step, slot: nat)
    requires OpInv(op) && OpEnabled(op, step)
    ensures Spent(op) ==> Spent(OpNext(op, step, slot))
    ensures OpNext(op, step, slot).task == Waiting ==> op.task == Waiting && !step.Begin?
  {}

  lemma OpStepKeepsGate(s: System, step: Step)
    requires OpsInv(s) && GateInv(s) && Enabled(s, step) && OnOperation(step)
    ensures GateInv(Next(s, step))
  {
    hide OpInv, OpEnabled, OpNext, Publishes, Pushed, Spent;
    OpStepKeepsSpent(s.ops[step.id], step, |s.retained|);
  }

  lemma LaunchKeepsInv(s: System, id: Id)
    requires Inv(s) && Enabled(s, Launch(id))
    ensures Inv(Next(s, Launch(id)))
  {
    hide Pruned, Pushed;
  }

  lemma TickKeepsInv(s: System)
    requires Inv(s)
    ensures Inv(Next(s, Tick))
  {
    hide OpInv, Spent, Pruned, Pushed;
  }

  lemma StopStepKeepsInv(s: System, step: Step)
    requires Inv(s) && Enabled(s, step) && (step.StopBegins? || step.StopPasses? || step.Wipe?)
    ensures Inv(Next(s, step))
  {
    hide Pruned, Pushed, Sorted;
  }

  lemma GlobalStepKeepsInv(s: System, step: Step)
    requires Inv(s) && Enabled(s, step) && !OnOperation(step)
    ensures Inv(Next(s, step))
  {
    hide Pruned, Pushed, OpInv, Spent;
    match step
    case Status(_) => PruneKeepsQueue(s);
    case Launch(id) => LaunchKeepsInv(s, id);
    case Tick => TickKeepsInv(s);
    case _ => StopStepKeepsInv(s, step);
  }

  lemma StepKeepsInv(s: System, step: Step, n: System)
    requires Inv(s) && Moves(s, step, n)
    ensures Inv(n)
  {
    hide OpsInv, QueueInv, Linked, GateInv, Next, Enabled, OnOperation;
    if OnOperation(step) {
      OpStepKeepsOps(s, step);
      OpStepKeepsQueue(s, step);
      OpStepKeepsLinked(s, step);
      OpStepKeepsGate(s, step);
    } else {
      GlobalStepKeepsInv(s, step);
    }
  }

  lemma {:induction false} RunKeepsInv(states: seq<System>, steps: seq<Step>, k: nat)
    requires Run(states, steps) && k < |states|
    ensures Inv(states[k])
  {
    if k > 0 {
      RunKeepsInv(states, steps, k - 1);
      StepKeepsInv(states[k - 1], steps[k - 1], states[k]);
    }
  }

  // ------------------------------------------------------------------- theorems

  /**
    What an operation published is nothing, its start, or its start and exactly one
    terminal event; the terminal event comes when and only when it left the registry,
    and its staged files are gone by then. An operation that began to commit is never
    reported cancelled, and one that was claimed by a cancel never began to commit.
    */
  lemma OneTerminalEvent(states: seq<System>, steps: seq<Step>, k: nat, id: Id)
    requires Run(states, steps) && k < |states| && id in states[k].ops
    ensures var op := states[k].ops[id];
      && (op.events == [] || op.events == [Started]
        || (|op.events| == 2 && op.events[0] == Started && op.events[1] != Started))
      && (|op.events| == 2 <==> op.place == Gone)
      && (|op.events| == 2 ==> !op.files)
      && !(op.began && op.canceller != Nobody)
      && (op.began ==> WasCancelled !in op.events)
      && (op.canceller == Acknowledged ==> op.events == [Started, WasCancelled])
  {
    RunKeepsInv(states, steps, k);
    assert OpInv(states[k].ops[id]);
  }

  lemma {:induction false} FoundAtSlot(q: seq<Retained>, id: Id, slot: int)
    requires forall i | 0 <= i < |q| :: q[i].id == id <==> i == slot
    ensures Find(q, id) == if 0 <= slot < |q| then Some(q[slot].event) else None
  {
    if q != [] && q[0].id != id {
      assert forall i | 0 <= i < |q[1..]| :: q[1..][i] == q[i + 1];
      FoundAtSlot(q[1..], id, slot - 1);
    }
  }

  /** After pruning, the queue is what is neither old nor outnumbered of all terminal results. */
  lemma PrunedQueue(s: System) returns (e: nat)
    requires QueueInv(s)
    ensures e <= |s.retained| && Pruned(s.terminal, s.now) == s.retained[e..]
    ensures forall i | 0 <= i < |s.retained| ::
      i < e <==> Expired(s.retained[i], s.now) || |s.retained| - i > MAX_TERMINAL
  {
    hide Pruned;
    PruneKeepsQueue(s);
    PrunedIsSuffix(s.terminal, s.now);
    e := |s.retained| - |Pruned(s.terminal, s.now)|;
    forall i | e <= i < |s.retained| ensures !Expired(s.retained[i], s.now) {
      assert s.retained[e] == Pruned(s.terminal, s.now)[0];
      assert s.retained[e].at <= s.retained[i].at;
    }
  }

  lemma OnlySlotHolds(s: System, id: Id, i: nat)
    requires Linked(s) && id in s.ops && s.ops[id].place == Gone && i < |s.retained|
    ensures s.retained[i].id == id <==> i == s.ops[id].slot
  {
    assert RecordedAs(s.ops, s.retained[i], i);
  }

  lemma EndedStatus(s: System, id: Id)
    requires QueueInv(s) && Linked(s) && id in s.ops && s.ops[id].place == Gone
    ensures var op := s.ops[id];
      && op.slot < |s.retained| && |op.events| == 2
      && Find(Pruned(s.terminal, s.now), id) ==
         if Expired(s.retained[op.slot], s.now) || |s.retained| - op.slot > MAX_TERMINAL then None
         else Some(op.events[1])
  {
    hide Pruned, Find, QueueInv, RecordedAs;
    var op := s.ops[id];
    var e := PrunedQueue(s);
    var q := s.retained[e..];
    forall i | 0 <= i < |q| ensures q[i].id == id <==> i == op.slot - e { OnlySlotHolds(s, id, e + i); }
    FoundAtSlot(q, id, op.slot - e);
    SlotHoldsEvent(s, id);
  }

  lemma SlotHoldsEvent(s: System, id: Id)
    requires Linked(s) && id in s.ops && s.ops[id].place == Gone
    ensures var op := s.ops[id];
      op.slot < |s.retained| && |op.events| == 2 && s.retained[op.slot].event == op.events[1]
  {
    assert RecordedAs(s.ops, s.retained[s.ops[id].slot], s.ops[id].slot);
  }

  /**
    A status query finds every registered operation, and forgets a terminal one exactly
    when 256 later operations ended or its result is 300 seconds old.
    */
  lemma StatusUntilEvicted(states: seq<System>, steps: seq<Step>, k: nat, id: Id)
    requires Run(states, steps) && k < |states| && id in states[k].ops
    ensures var s, op := states[k], states[k].ops[id];
      if op.place != Gone then StatusOf(s, id) == Some(Started)
      else && op.slot < |s.retained| && |op.events| == 2
           && StatusOf(s, id) ==
              if s.now >= s.retained[op.slot].at + 300 || |s.retained| - op.slot > 256 then None
              else Some(op.events[1])
  {
    hide Pruned, Find, QueueInv, Linked, OpsInv, GateInv;
    RunKeepsInv(states, steps, k);
    if states[k].ops[id].place == Gone { EndedStatus(states[k], id); }
  }

  lemma {:induction false} SpentForEver(states: seq<System>, steps: seq<Step>, i: nat, m: nat, id: Id)
    requires Run(states, steps) && i <= m < |states| && id in states[i].ops && Spent(states[i].ops[id])
    ensures id in states[m].ops && Spent(states[m].ops[id])
  {
    if i < m {
      SpentForEver(states, steps, i, m - 1, id);
      assert Moves(states[m - 1], steps[m - 1], states[m]);
    }
  }

  /**
    A wipe under the operation gate is never overtaken: every operation registered before
    it has committed already or will never commit.
    */
  lemma WipeIsNotOvertaken(states: seq<System>, steps: seq<Step>, i: nat, m: nat, id: Id)
    requires Run(states, steps) && i < |steps| && steps[i] == Wipe && i <= m < |states| && id in states[i].ops
    ensures id in states[m].ops && states[m].ops[id].task != InCommit
    ensures m < |steps| ==> steps[m] != BeginCommit(id) && steps[m] != CommitEnds(id, true)
  {
    RunKeepsInv(states, steps, i);
    assert Moves(states[i], steps[i], states[i + 1]);
    SpentForEver(states, steps, i, m, id);
    if m < |steps| {
      assert Moves(states[m], steps[m], states[m + 1]);
    }
  }
}
