/**
  The controller and its workers together: calls of the controller interleaved with the
  steps of all threads of all workers it ever started. A stop is verified only when the
  worker it took has really finished.
  */
module CaptureSystem {
  import opened Wrappers
  import C = CaptureController
  import W = CaptureWorker

  /** Worker number n is the n-th one the controller started. */
  datatype System = System(runtime: C.Runtime, workers: seq<W.Worker>)

  datatype Event = Call(c: C.Call) | Work(id: nat, step: W.Step)

  const START: System := System(C.FRESH, [])

  /** The call takes the worker out of the runtime and waits for it. */
  predicate TakesWorker(r: C.Runtime, c: C.Call) {
    && r.terminal.None? && r.worker.Some?
    && match c
       case SetPaused(paused, maxBytes, _, _, _) => paused || r.worker.value.limit != C.EffectiveLimit(maxBytes)
       case Shutdown(_) => true
       case IsPaused(_) => false
  }

  predicate Enabled(s: System, e: Event) {
    match e
    case Call(c) =>
      TakesWorker(s.runtime, c) && c.finish == C.Verified ==>
        s.runtime.worker.value.id < |s.workers| && s.workers[s.runtime.worker.value.id].control == W.Done(true)
    case Work(id, step) => id < |s.workers| && W.Enabled(s.workers[id], step)
  }

  function Next(s: System, e: Event): System
    requires Enabled(s, e)
  {
    match e
    case Call(c) =>
      var r := C.After(s.runtime, c);
      System(r, if |r.started| > |s.workers| then s.workers + [W.START] else s.workers)
    case Work(id, step) => s.(workers := s.workers[id := W.Next(s.workers[id], step)])
  }

  ghost predicate Run(states: seq<System>, events: seq<Event>) {
    && |states| == |events| + 1 && states[0] == START
    && forall k | 0 <= k < |events| :: Enabled(states[k], events[k]) && states[k + 1] == Next(states[k], events[k])
  }

  // ------------------------------------------------------------------ invariant

  ghost predicate Inv(s: System) {
    && C.Inv(s.runtime) && |s.workers| == |s.runtime.started|
    && (forall id: nat | id < |s.workers| :: W.Inv(s.workers[id]))
    && (forall id: nat | id < |s.workers| && id !in s.runtime.alive :: s.workers[id].control == W.Done(true))
  }

  /** A call starts at most the next worker, and declares none dead but the one whose finish it verified. */
  lemma CallChangesAlive(r: C.Runtime, c: C.Call)
    requires C.Inv(r)
    ensures var n := C.After(r, c);
      && |r.started| <= |n.started| <= |r.started| + 1
      && (|n.started| > |r.started| ==> |r.started| in n.alive)
      && forall id | id in r.alive && id !in n.alive ::
           TakesWorker(r, c) && c.finish == C.Verified && id == r.worker.value.id
  {
  }

  lemma StartInv()
    ensures W.Inv(W.START)
  {
  }

  lemma CallKeepsInv(s: System, c: C.Call)
    requires Inv(s) && Enabled(s, Call(c))
    ensures Inv(Next(s, Call(c)))
  {
    hide C.Inv, C.After, W.Inv, TakesWorker;
    C.CallKeepsInv(s.runtime, c);
    CallChangesAlive(s.runtime, c);
    StartInv();
  }

  lemma WorkKeepsInv(s: System, id: nat, step: W.Step)
    requires Inv(s) && Enabled(s, Work(id, step))
    ensures Inv(Next(s, Work(id, step)))
  {
    hide C.Inv, W.Inv, W.Next, W.Enabled;
    W.StepKeepsInv(s.workers[id], step, W.Next(s.workers[id], step));
    if id !in s.runtime.alive {
      W.DoneMeansFenced(s.workers[id]);
      assert false;
    }
  }

  lemma {:induction false} RunKeepsInv(states: seq<System>, events: seq<Event>, k: nat)
    requires Run(states, events) && k < |states|
    ensures Inv(states[k])
  {
    hide Next, Enabled, C.Inv, W.Inv;
    if k == 0 {
      C.RunKeepsInv([]);
    } else {
      RunKeepsInv(states, events, k - 1);
      match events[k - 1]
      case Call(c) => CallKeepsInv(states[k - 1], c);
      case Work(id, step) => WorkKeepsInv(states[k - 1], id, step);
    }
  }

  // ------------------------------------------------------------------- theorems

  /** While no error is latched, every worker but the one in the slot is fenced: at most one can do anything. */
  lemma OnlyTheSlotWorks(states: seq<System>, events: seq<Event>, k: nat, id: nat)
    requires Run(states, events) && k < |states| && states[k].runtime.terminal.None? && id < |states[k].workers|
    requires states[k].runtime.worker.None? || states[k].runtime.worker.value.id != id
    ensures W.Fenced(states[k].workers[id])
  {
    hide W.Inv;
    RunKeepsInv(states, events, k);
    W.DoneMeansFenced(states[k].workers[id]);
  }

  /**
    An acknowledged pause: of all workers ever started, over every interleaving of their
    threads with the calls, none is open, admitted, queued or able to move.
    */
  lemma PausedMeansAllFenced(states: seq<System>, events: seq<Event>, k: nat, id: nat)
    requires Run(states, events) && k < |events| && events[k].Call?
    requires var c := events[k].c; c.SetPaused? && c.paused && C.Paused(states[k].runtime, c).1 == C.Got(Ok(()))
    requires id < |states[k + 1].workers|
    ensures W.Fenced(states[k + 1].workers[id])
  {
    hide Inv, C.Inv;
    RunKeepsInv(states, events, k);
    PauseEmptiesSlot(states[k].runtime, events[k].c);
    OnlyTheSlotWorks(states, events, k + 1, id);
  }

  /** A new worker starts only when every earlier one is fenced, so it finds storage admission closed. */
  lemma NewWorkerStartsAlone(states: seq<System>, events: seq<Event>, k: nat, id: nat)
    requires Run(states, events) && k < |events| && |states[k + 1].workers| > |states[k].workers|
    requires id < |states[k].workers|
    ensures W.Fenced(states[k + 1].workers[id])
  {
    hide C.Inv, W.Inv;
    RunKeepsInv(states, events, k);
    StartFillsSlot(states[k].runtime, events[k].c);
    OnlyTheSlotWorks(states, events, k + 1, id);
  }

  lemma StartFillsSlot(r: C.Runtime, c: C.Call)
    ensures var n := C.After(r, c);
      |n.started| > |r.started| ==> n.terminal.None? && n.worker.Some? && n.worker.value.id == |r.started|
  {
  }

  lemma PauseEmptiesSlot(r: C.Runtime, c: C.Call)
    requires c.SetPaused? && c.paused && C.Paused(r, c).1 == C.Got(Ok(()))
    ensures C.After(r, c).terminal.None? && C.After(r, c).worker.None?
  {
  }
}
