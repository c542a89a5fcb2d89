/**
  The capture controller: the runtime slot that holds at most one worker, its latched
  stop error, and what the callers of set_paused, shutdown and is_paused observe. The
  controller's lock serialises its calls, so a run is a sequence of calls.
  */
module CaptureController {
  import opened Wrappers

  const MAX_SELECTION_BYTES: nat := 64 * 1024 * 1024

  function EffectiveLimit(configured: nat): nat {
    if configured < MAX_SELECTION_BYTES then configured else MAX_SELECTION_BYTES
  }

  datatype Error = NotYetVerified | HasShutDown | ZeroLimit | Reported(code: nat)

  /** What waiting for `Worker::finish` came to. A caller may drop the wait. */
  datatype Finish = Verified | FinishError(error: Error) | Abandoned

  /** How starting a worker went, up to its startup acknowledgement. */
  datatype Startup = NoThread(error: Error) | Acknowledged(outcome: Result<(), Error>) | StartupAbandoned

  /** An answer, or none at all when the caller dropped the call. */
  datatype Answer<T> = Got(result: Result<T, Error>) | Dropped

  datatype Slot = Slot(id: nat, limit: nat, skipInitial: bool)

  datatype Call =
    | SetPaused(paused: bool, maxBytes: nat, state: Result<bool, Error>, finish: Finish, startup: Startup)
    | Shutdown(finish: Finish)
    | IsPaused(state: Result<bool, Error>)

  /** The runtime; `alive` is the set of workers whose threads may still be working. */
  datatype Runtime = Runtime(worker: Option<Slot>, attached: bool, terminal: Option<Error>, alive: set<nat>,
      started: seq<Slot>)

  const FRESH: Runtime := Runtime(None, false, None, {}, [])

  function Stopped(r: Runtime, finish: Finish): (Runtime, Answer<()>) {
    if r.terminal.Some? then (r, Got(Err(r.terminal.value)))
    else if r.worker.None? then (r, Got(Ok(())))
    else match finish
      case Verified => (r.(worker := None, alive := r.alive - {r.worker.value.id}), Got(Ok(())))
      case FinishError(e) => (r.(worker := None, terminal := Some(e)), Got(Err(e)))
      case Abandoned => (r.(worker := None, terminal := Some(NotYetVerified)), Dropped)
  }

  function Started(r: Runtime, limit: nat, startup: Startup): (Runtime, Answer<()>) {
    var slot := Slot(|r.started|, limit, r.attached);
    var on := r.(worker := Some(slot), attached := true, alive := r.alive + {slot.id}, started := r.started + [slot]);
    match startup
    case NoThread(e) => (r, Got(Err(e)))
    case Acknowledged(outcome) => (on, Got(outcome))
    case StartupAbandoned => (on, Dropped)
  }

  function Paused(r: Runtime, c: Call): (Runtime, Answer<()>)
    requires c.SetPaused?
  {
    var limit := EffectiveLimit(c.maxBytes);
    if r.terminal.Some? then (r, Got(Err(r.terminal.value)))
    else if !c.paused && r.worker.Some? && r.worker.value.limit == limit then
      (r, Got(match c.state case Ok(_) => Ok(()) case Err(e) => Err(e)))
    else
      var (s, stopped) := Stopped(r, c.finish);
      if stopped != Got(Ok(())) then (s, stopped)
      else if c.paused then (s.(attached := true), Got(Ok(())))
      else if limit == 0 then (s, Got(Err(ZeroLimit)))
      else Started(s, limit, c.startup)
  }

  function ShutDown(r: Runtime, finish: Finish): (Runtime, Answer<()>) {
    var (s, answer) := Stopped(r, finish);
    if answer.Dropped? then (s, answer) else (s.(terminal := Some(HasShutDown)), answer)
  }

  function After(r: Runtime, c: Call): Runtime {
    match c
    case SetPaused(_, _, _, _, _) => Paused(r, c).0
    case Shutdown(finish) => ShutDown(r, finish).0
    case IsPaused(_) => r
  }

  /** What is_paused answers; `state` is what the worker in the slot says of itself. */
  function PausedAnswer(r: Runtime, state: Result<bool, Error>): Result<bool, Error> {
    if r.terminal.Some? then Err(r.terminal.value) else if r.worker.None? then Ok(true) else state
  }

  class Controller {
    var worker: Option<Slot>
    var attached: bool
    var terminalError: Option<Error>
    ghost var alive: set<nat>
    ghost var started: seq<Slot>
    var nextWorker: nat

    ghost predicate Valid()
      reads this
    {
      nextWorker == |started|
    }

    ghost function State(): Runtime
      reads this
    {
      Runtime(worker, attached, terminalError, alive, started)
    }

    constructor ()
      ensures Valid() && State() == FRESH
    {
      worker, attached, terminalError := None, false, None;
      alive, started, nextWorker := {}, [], 0;
    }

    /** The error is latched before the wait begins: a dropped wait leaves it in place. */
    method Stop(finish: Finish) returns (answer: Answer<()>)
      requires Valid()
      modifies this
      ensures Valid() && (State(), answer) == Stopped(old(State()), finish)
    {
      if terminalError.Some? {
        return Got(Err(terminalError.value));
      }
      if worker.Some? {
        var id := worker.value.id;
        worker := None;
        terminalError := Some(NotYetVerified);
        match finish {
          case Abandoned => return Dropped;
          case FinishError(e) =>
            terminalError := Some(e);
            return Got(Err(e));
          case Verified =>
            terminalError := None;
            alive := alive - {id};
        }
      }
      answer := Got(Ok(()));
    }

    method SetPaused(c: Call) returns (answer: Answer<()>)
      requires Valid() && c.SetPaused?
      modifies this
      ensures Valid() && (State(), answer) == Paused(old(State()), c)
    {
      if terminalError.Some? {
        return Got(Err(terminalError.value));
      }
      var limit := EffectiveLimit(c.maxBytes);
      if !c.paused && worker.Some? && worker.value.limit == limit {
        match c.state {
          case Ok(_) => return Got(Ok(()));
          case Err(e) => return Got(Err(e));
        }
      }
      var stopped := Stop(c.finish);
      if stopped != Got(Ok(())) {
        return stopped;
      }
      if c.paused {
        attached := true;
        return Got(Ok(()));
      }
      if limit == 0 {
        return Got(Err(ZeroLimit));
      }
      match c.startup {
        case NoThread(e) => return Got(Err(e));
        case _ =>
      }
      var slot := Slot(nextWorker, limit, attached);
      attached := true;
      worker := Some(slot);
      nextWorker := nextWorker + 1;
      alive, started := alive + {slot.id}, started + [slot];
      match c.startup {
        case Acknowledged(outcome) => return Got(outcome);
        case _ => return Dropped;
      }
    }

    method Shutdown(finish: Finish) returns (answer: Answer<()>)
      requires Valid()
      modifies this
      ensures Valid() && (State(), answer) == ShutDown(old(State()), finish)
    {
      answer := Stop(finish);
      if answer.Got? {
        terminalError := Some(HasShutDown);
      }
    }

    method IsPaused(state: Result<bool, Error>) returns (answer: Result<bool, Error>)
      ensures answer == PausedAnswer(State(), state)
    {
      if terminalError.Some? {
        return Err(terminalError.value);
      }
      answer := if worker.None? then Ok(true) else state;
    }
  }

  // --------------------------------------------------------------------- runs

  function Run(calls: seq<Call>): (r: Runtime) {
    if calls == [] then FRESH else After(Run(calls[..|calls| - 1]), calls[|calls| - 1])
  }

  ghost predicate Inv(r: Runtime) {
    // Without a latched error, every worker but the one in the slot was verified to be gone.
    && (r.terminal.None? ==> r.alive == if r.worker.Some? then {r.worker.value.id} else {})
    && (forall i: nat | i in r.alive :: i < |r.started|)
    && (r.worker.Some? ==> r.worker.value.id < |r.started| && r.worker.value == r.started[r.worker.value.id])
    && (forall k | 0 <= k < |r.started| :: r.started[k].id == k && 0 < r.started[k].limit <= MAX_SELECTION_BYTES)
    // Only the very first worker may bootstrap from the current clipboard content.
    && (r.started != [] ==> r.attached)
    && (forall k | 0 < k < |r.started| :: r.started[k].skipInitial)
  }

  lemma StoppedKeepsInv(r: Runtime, finish: Finish)
    requires Inv(r)
    ensures Inv(Stopped(r, finish).0)
    ensures Stopped(r, finish).1 == Got(Ok(())) ==> Stopped(r, finish).0.worker.None?
  {}

  lemma StartedKeepsInv(r: Runtime, limit: nat, startup: Startup)
    requires Inv(r) && r.worker.None? && 0 < limit <= MAX_SELECTION_BYTES
    ensures Inv(Started(r, limit, startup).0)
  {}

  lemma CallKeepsInv(r: Runtime, c: Call)
    requires Inv(r)
    ensures Inv(After(r, c))
  {
    match c
    case IsPaused(_) =>
    case Shutdown(finish) => StoppedKeepsInv(r, finish);
    case SetPaused(_, maxBytes, _, finish, startup) =>
      hide Stopped, Started;
      StoppedKeepsInv(r, finish);
      var limit, s := EffectiveLimit(maxBytes), Stopped(r, finish).0;
      if s.worker.None? && 0 < limit { StartedKeepsInv(s, limit, startup); }
  }

  /**
    At most one worker can be alive at any time unless a stop failed or was abandoned,
    and only a first worker started before any explicit pause bootstraps.
    */
  lemma {:induction false} RunKeepsInv(calls: seq<Call>)
    ensures Inv(Run(calls))
  {
    if calls != [] {
      RunKeepsInv(calls[..|calls| - 1]);
      CallKeepsInv(Run(calls[..|calls| - 1]), calls[|calls| - 1]);
    }
  }

  /** An acknowledged pause leaves no worker alive, and the next worker skips the current content. */
  lemma PausedMeansNoneAlive(calls: seq<Call>, c: Call)
    requires c.SetPaused? && c.paused && Paused(Run(calls), c).1 == Got(Ok(()))
    ensures var r := Run(calls + [c]); r.alive == {} && r.worker == None && r.terminal == None && r.attached
    ensures forall d: Call :: var n := After(Run(calls + [c]), d);
      |n.started| > |Run(calls + [c]).started| ==> n.started[|n.started| - 1].skipInitial
  {
    hide Paused, After;
    RunKeepsInv(calls);
    assert (calls + [c])[..|calls|] == calls;
    assert Run(calls + [c]) == After(Run(calls), c);
    PauseLeavesNone(Run(calls), c);
    forall d: Call
      ensures var n := After(After(Run(calls), c), d);
        |n.started| > |After(Run(calls), c).started| ==> n.started[|n.started| - 1].skipInitial
    {
      StartSkips(After(Run(calls), c), d);
    }
  }

  lemma PauseLeavesNone(r: Runtime, c: Call)
    requires Inv(r) && c.SetPaused? && c.paused && Paused(r, c).1 == Got(Ok(()))
    ensures var n := After(r, c); n.alive == {} && n.worker == None && n.terminal == None && n.attached
  {
  }

  lemma StartSkips(r: Runtime, d: Call)
    requires r.attached
    ensures var n := After(r, d); |n.started| > |r.started| ==> n.started[|n.started| - 1].skipInitial
  {
  }

  /** A latched error stays latched: every later call fails, and no worker ever starts again. */
  lemma {:induction false} LatchedForEver(calls: seq<Call>, more: seq<Call>)
    requires Run(calls).terminal.Some?
    ensures Run(calls + more).terminal.Some?
    ensures Run(calls + more).started == Run(calls).started
    ensures Run(calls + more).worker == Run(calls).worker
    ensures forall c: Call | c.SetPaused? ::
      Paused(Run(calls + more), c).1 == Got(Err(Run(calls + more).terminal.value))
  {
    if more == [] {
      assert calls + more == calls;
    } else {
      var init, last := more[..|more| - 1], more[|more| - 1];
      assert (calls + more)[..|calls + more| - 1] == calls + init;
      LatchedForEver(calls, init);
    }
  }

  /** A pause is acknowledged exactly if nothing is latched and there was no worker or its end was verified. */
  lemma PauseAcknowledgedIff(calls: seq<Call>, c: Call)
    requires c.SetPaused? && c.paused
    ensures Paused(Run(calls), c).1 == Got(Ok(())) <==>
      Run(calls).terminal.None? && (Run(calls).worker.None? || c.finish == Verified)
    ensures Paused(Run(calls), c).1 == Got(Ok(())) ==> Run(calls + [c]).worker.None? && Run(calls + [c]).attached
  {
    assert (calls + [c])[..|calls|] == calls;
  }

  /**
    A start is acknowledged exactly if nothing is latched and either the worker in the slot
    has that very limit and is well, or the slot could be emptied and a new worker started
    with a positive limit. Then there is a worker, with the limit asked for up to 64 MiB.
    */
  lemma StartAcknowledgedIff(calls: seq<Call>, c: Call)
    requires c.SetPaused? && !c.paused
    ensures var r, limit := Run(calls), if c.maxBytes < 67108864 then c.maxBytes else 67108864;
      && (Paused(r, c).1 == Got(Ok(())) <==>
            && r.terminal.None?
            && if r.worker.Some? && r.worker.value.limit == limit then c.state.Ok?
               else (r.worker.None? || c.finish == Verified) && 0 < limit && c.startup == Acknowledged(Ok(())))
      && (Paused(r, c).1 == Got(Ok(())) ==>
            var n := Run(calls + [c]);
            && n.worker.Some? && n.worker.value.limit == limit && n.terminal.None?
            && (if r.worker.Some? && r.worker.value.limit == limit then n == r
                else n.started == r.started + [n.worker.value] && n.worker.value.skipInitial == r.attached))
  {
    assert (calls + [c])[..|calls|] == calls;
  }

  /** A shutdown is acknowledged exactly if nothing was latched and there was no worker or its end was verified. */
  lemma ShutdownAcknowledgedIff(calls: seq<Call>, finish: Finish)
    ensures ShutDown(Run(calls), finish).1 == Got(Ok(())) <==>
      Run(calls).terminal.None? && (Run(calls).worker.None? || finish == Verified)
    ensures ShutDown(Run(calls), finish).1 == Got(Ok(())) ==> Run(calls + [Shutdown(finish)]).worker.None?
  {
    assert (calls + [Shutdown(finish)])[..|calls|] == calls;
  }

  /** Which calls latch: a stop that was not verified, or any answered shutdown. */
  lemma LatchedIff(calls: seq<Call>, c: Call)
    requires Run(calls).terminal.None?
    ensures Run(calls + [c]).terminal.Some? <==>
      match c
      case IsPaused(_) => false
      case Shutdown(_) => true
      case SetPaused(paused, maxBytes, _, finish, _) =>
        && Run(calls).worker.Some? && finish != Verified
        && (paused || Run(calls).worker.value.limit != EffectiveLimit(maxBytes))
  {
    assert (calls + [c])[..|calls|] == calls;
  }
}
