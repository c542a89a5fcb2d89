/**
  What the one terminal event of an operation says: how its work really ended, or that a
  cancel claimed it first; and that either end can always be reached.
  */
module OperationOutcomes {
  import opened Wrappers
  import opened Operations

  /** The step in which the work of an operation ends with outcome `ok`. */
  predicate EndsWork(step: Step, id: Id, ok: bool) { step == CommitEnds(id, ok) || step == WorkEnds(id, ok) }

  /** The recorded outcome, of work that is done or was reported. */
  predicate Records(op: Operation, ok: bool) {
    (op.place == Active && op.task == WorkDone(ok)) || Finished(ok) in op.events
  }

  lemma StepRecords(op: Operation, step: Step, slot: nat, id: Id, ok: bool)
    requires OpInv(op) && OpEnabled(op, step) && Records(OpNext(op, step, slot), ok) && !Records(op, ok)
    ensures match step
      case CommitEnds(_, b) => b == ok
      case WorkEnds(_, b) => b == ok
      case _ => false
  {
  }

  lemma LaunchedRecordsNothing(ok: bool)
    ensures !Records(LAUNCHED, ok)
  {
  }

  /** How one step of the system acts on the operation: not at all, by launching it, or by a step of its own. */
  lemma StepOnOperation(s: System, step: Step, n: System, id: Id)
    requires Moves(s, step, n) && id in n.ops
    ensures id !in s.ops ==> n.ops[id] == LAUNCHED
    ensures id in s.ops ==>
      || n.ops[id] == s.ops[id]
      || (OnOperation(step) && step.id == id && OpEnabled(s.ops[id], step)
          && n.ops[id] == OpNext(s.ops[id], step, |s.retained|))
  {
    hide OpNext, OpEnabled, Pushed, Publishes;
  }

  /** A terminal event that reports an outcome reports how the work ended: some earlier step of the run ended it so. */
  lemma {:induction false} ReportedOutcomeIsTheWorks(states: seq<System>, steps: seq<Step>, k: nat, id: Id, ok: bool)
    returns (j: nat)
    requires Run(states, steps) && k < |states| && id in states[k].ops && Records(states[k].ops[id], ok)
    ensures j < k && EndsWork(steps[j], id, ok)
  {
    hide OpInv, OpNext, OpEnabled, Next, Enabled, Records;
    LaunchedRecordsNothing(ok);
    assert k > 0;
    j := k - 1;
    assert Moves(states[j], steps[j], states[k]);
    StepOnOperation(states[j], steps[j], states[k], id);
    if id in states[j].ops && Records(states[j].ops[id], ok) {
      j := ReportedOutcomeIsTheWorks(states, steps, j, id, ok);
    } else {
      RunKeepsInv(states, steps, j);
      RecordingStep(states[j], steps[j], states[k], id, ok);
    }
  }

  lemma RecordingStep(s: System, step: Step, n: System, id: Id, ok: bool)
    requires OpsInv(s) && Moves(s, step, n) && id in n.ops && Records(n.ops[id], ok)
    requires id in s.ops ==> !Records(s.ops[id], ok)
    ensures EndsWork(step, id, ok)
  {
    hide OpInv, OpNext, OpEnabled, Next, Enabled;
    LaunchedRecordsNothing(ok);
    StepOnOperation(s, step, n, id);
    if id in s.ops && n.ops[id] != s.ops[id] { StepRecords(s.ops[id], step, |s.retained|, id, ok); }
  }

  // -------------------------------------------------------------------- commits

  /** The commit ended with `ok`, and nothing can be reported any more but that. */
  predicate Settled(op: Operation, ok: bool) {
    && op.began && op.canceller == Nobody
    && match op.place
       case Active => op.task == WorkDone(ok) && op.events == [Started]
       case Gone => op.events == [Started, Finished(ok)]
       case Cancelling => false
  }

  lemma StepKeepsSettled(op: Operation, step: Step, slot: nat, ok: bool)
    requires OpInv(op) && OpEnabled(op, step) && Settled(op, ok)
    ensures Settled(OpNext(op, step, slot), ok)
  {
  }

  lemma CommitSettles(op: Operation, id: Id, ok: bool, slot: nat)
    requires OpInv(op) && OpEnabled(op, CommitEnds(id, ok))
    ensures op.place == Active ==> Settled(OpNext(op, CommitEnds(id, ok), slot), ok)
    ensures op.place == Active
  {
  }

  /** A commit is reported as what it came to: from its end on the operation has that outcome or is about to. */
  lemma {:induction false} CommitIsReportedAsItEnded(states: seq<System>, steps: seq<Step>, j: nat, k: nat, id: Id,
      ok: bool)
    requires Run(states, steps) && j < k < |states| && steps[j] == CommitEnds(id, ok)
    ensures id in states[k].ops
    ensures var op := states[k].ops[id];
      op.events == (if op.place == Gone then [Started, Finished(ok)] else [Started]) && op.canceller == Nobody
    ensures Settled(states[k].ops[id], ok)
  {
    hide OpInv, OpNext, OpEnabled;
    RunKeepsInv(states, steps, k - 1);
    assert Moves(states[k - 1], steps[k - 1], states[k]);
    if k - 1 == j {
      CommitSettles(states[j].ops[id], id, ok, |states[j].retained|);
    } else {
      CommitIsReportedAsItEnded(states, steps, j, k - 1, id, ok);
      OperationStays(states[k - 1], steps[k - 1], states[k], id);
      StepOnOperation(states[k - 1], steps[k - 1], states[k], id);
      if states[k].ops[id] != states[k - 1].ops[id] {
        StepKeepsSettled(states[k - 1].ops[id], steps[k - 1], |states[k - 1].retained|, ok);
      }
    }
  }

  lemma OperationStays(s: System, step: Step, n: System, id: Id)
    requires Moves(s, step, n) && id in s.ops
    ensures id in n.ops
  {
    hide OpNext, OpEnabled, Pushed, Publishes;
  }

  // --------------------------------------------------------------------- claims

  /** A cancel claimed the operation, and nothing can be reported any more but that. */
  predicate Claimed(op: Operation) {
    && op.canceller != Nobody && !op.began && op.task != InCommit
    && match op.place
       case Active => false
       case Cancelling => op.events == [Started]
       case Gone => op.events == [Started, WasCancelled]
  }

  lemma StepKeepsClaimed(op: Operation, step: Step, slot: nat)
    requires OpInv(op) && OpEnabled(op, step) && Claimed(op)
    ensures Claimed(OpNext(op, step, slot))
  {
  }

  lemma ClaimEffect(op: Operation, id: Id, slot: nat)
    requires OpInv(op) && OpEnabled(op, Claim(id))
    ensures var n := OpNext(op, Claim(id), slot);
      && op.events != []
      && (if op.place == Active && !op.began then Claimed(n) else n == op)
  {
  }

  /**
    A cancel takes effect exactly on an operation that is registered, unclaimed and has
    not begun to commit; any other is left as it is.
    */
  lemma ClaimTakesEffectIff(states: seq<System>, steps: seq<Step>, k: nat, id: Id)
    requires Run(states, steps) && k < |steps| && steps[k] == Claim(id)
    ensures id in states[k].ops && id in states[k + 1].ops
    ensures var op, n := states[k].ops[id], states[k + 1].ops[id];
      if op.events == [Started] && op.canceller == Nobody && !op.began then Claimed(n) else n == op
  {
    hide OpNext, OpEnabled;
    RunKeepsInv(states, steps, k);
    assert Moves(states[k], steps[k], states[k + 1]);
    ClaimEffect(states[k].ops[id], id, |states[k].retained|);
  }

  /** A claimed operation never commits and is never reported as anything but cancelled. */
  lemma {:induction false} ClaimedNeverCommits(states: seq<System>, steps: seq<Step>, i: nat, k: nat, id: Id)
    requires Run(states, steps) && i <= k < |states| && id in states[i].ops && Claimed(states[i].ops[id])
    ensures id in states[k].ops && Claimed(states[k].ops[id])
  {
    hide OpInv, OpNext, OpEnabled, Claimed;
    if i < k {
      ClaimedNeverCommits(states, steps, i, k - 1, id);
      RunKeepsInv(states, steps, k - 1);
      assert Moves(states[k - 1], steps[k - 1], states[k]);
      OperationStays(states[k - 1], steps[k - 1], states[k], id);
      StepOnOperation(states[k - 1], steps[k - 1], states[k], id);
      if states[k].ops[id] != states[k - 1].ops[id] {
        StepKeepsClaimed(states[k - 1].ops[id], steps[k - 1], |states[k - 1].retained|);
      }
    }
  }

  // ------------------------------------------------------------------ both ends

  ghost predicate Continues(states: seq<System>, steps: seq<Step>, ss: seq<System>, ms: seq<Step>) {
    |ss| == |ms| && Run(states + ss, steps + ms)
  }

  lemma ExtendRun(states: seq<System>, steps: seq<Step>, step: Step)
    requires Run(states, steps) && Enabled(states[|steps|], step)
    ensures Run(states + [Next(states[|steps|], step)], steps + [step])
  {
    var all, more := states + [Next(states[|steps|], step)], steps + [step];
    forall k | 0 <= k < |more| ensures Moves(all[k], more[k], all[k + 1]) {
      if k < |steps| { assert Moves(states[k], steps[k], states[k + 1]); }
    }
  }

  /** The next step towards the end of a claimed operation. */
  function CancelMove(op: Operation, id: Id): Step {
    match op.canceller
    case Aborting =>
      (match op.task
       case WorkDone(_) => Complete(id)
       case Completed => TaskFinish(id)
       case Exited => Join(id)
       case Aborted => Join(id)
       case _ => AbortLands(id))
    case Joined => DropFiles(id)
    case _ => PublishCancelled(id)
  }

  function CancelRank(op: Operation): nat {
    match op.canceller
    case Aborting =>
      (match op.task case WorkDone(_) => 6 case Completed => 5 case Exited => 3 case Aborted => 3 case _ => 4)
    case Joined => 2
    case _ => 1
  }

  lemma CancelMoveWorks(op: Operation, id: Id, slot: nat)
    requires OpInv(op) && op.place == Cancelling
    ensures OpEnabled(op, CancelMove(op, id)) && OnOperation(CancelMove(op, id)) && CancelMove(op, id).id == id
    ensures !CancelMove(op, id).Announce? && !CancelMove(op, id).Begin?
    ensures var n := OpNext(op, CancelMove(op, id), slot);
      (n.place == Cancelling && CancelRank(n) < CancelRank(op)) || n.events == [Started, WasCancelled]
  {
  }

  /** A claimed operation can always be brought to its end by its own canceller and task: it was cancelled. */
  lemma {:induction false} ClaimedCanEndCancelled(states: seq<System>, steps: seq<Step>, id: Id)
    returns (ss: seq<System>, ms: seq<Step>)
    requires Run(states, steps) && id in states[|steps|].ops && Claimed(states[|steps|].ops[id])
    ensures Continues(states, steps, ss, ms)
    ensures var last := (states + ss)[|steps + ms|]; id in last.ops && last.ops[id].events == [Started, WasCancelled]
    decreases CancelRank(states[|steps|].ops[id])
  {
    hide OpInv, OpNext, OpEnabled, CancelMove, CancelRank;
    var s := states[|steps|];
    ss, ms := [], [];
    assert states + [] == states && steps + [] == steps;
    if s.ops[id].place == Cancelling {
      RunKeepsInv(states, steps, |steps|);
      var step := CancelMove(s.ops[id], id);
      CancelMoveWorks(s.ops[id], id, |s.retained|);
      var n := Next(s, step);
      ExtendRun(states, steps, step);
      if n.ops[id].events == [Started, WasCancelled] {
        ss, ms := [n], [step];
      } else {
        ClaimedNeverCommits(states + [n], steps + [step], |steps|, |steps| + 1, id);
        var more, rest := ClaimedCanEndCancelled(states + [n], steps + [step], id);
        ss, ms := [n] + more, [step] + rest;
        assert states + ss == states + [n] + more && steps + ms == steps + [step] + rest;
      }
    }
  }

  /** A fresh operation can always be launched, commit and be reported with whatever outcome its commit came to. */
  lemma OperationCanComplete(states: seq<System>, steps: seq<Step>, id: Id, ok: bool)
    returns (ss: seq<System>, ms: seq<Step>)
    requires Run(states, steps) && states[|steps|].gate == Free && id !in states[|steps|].ops
    ensures Continues(states, steps, ss, ms)
    ensures var last := (states + ss)[|steps + ms|];
      && id in last.ops && last.ops[id].events == [Started, Finished(ok)] && !last.ops[id].files
      && StatusOf(last, id) == Some(Finished(ok))
  {
    hide Pruned, Find, StatusOf, Pushed;
    var moves := [Launch(id), Announce(id), Begin(id), BeginCommit(id), CommitEnds(id, ok), Complete(id)];
    var s1 := Next(states[|steps|], moves[0]);
    var s2 := Next(s1, moves[1]);
    var s3 := Next(s2, moves[2]);
    var s4 := Next(s3, moves[3]);
    var s5 := Next(s4, moves[4]);
    var s6 := Next(s5, moves[5]);
    ss, ms := [s1, s2, s3, s4, s5, s6], moves;
    FreshRun(states, steps, ss, ms);
    assert (states + ss)[|steps + ms|] == s6;
    NewestStatus(states + ss, steps + ms, id);
  }

  lemma FreshRun(states: seq<System>, steps: seq<Step>, ss: seq<System>, ms: seq<Step>)
    requires Run(states, steps) && |ss| == |ms| && ms != []
    requires Moves(states[|steps|], ms[0], ss[0])
    requires forall k | 0 < k < |ms| :: Moves(ss[k - 1], ms[k], ss[k])
    ensures Run(states + ss, steps + ms)
  {
    var all, more := states + ss, steps + ms;
    forall k | 0 <= k < |more| ensures Moves(all[k], more[k], all[k + 1]) {
      if k < |steps| {
        assert Moves(states[k], steps[k], states[k + 1]);
      } else if k > |steps| {
        assert Moves(ss[k - |steps| - 1], ms[k - |steps|], ss[k - |steps|]);
      }
    }
  }

  /** The result published last is found by a status query. */
  lemma NewestStatus(states: seq<System>, steps: seq<Step>, id: Id)
    requires Run(states, steps) && id in states[|steps|].ops && states[|steps|].ops[id].place == Gone
    requires var s := states[|steps|]; s.ops[id].slot + 1 == |s.retained| && s.retained[s.ops[id].slot].at == s.now
    ensures var s := states[|steps|]; |s.ops[id].events| == 2 && StatusOf(s, id) == Some(s.ops[id].events[1])
  {
    hide Pruned, Find;
    StatusUntilEvicted(states, steps, |steps|, id);
  }

  // -------------------------------------------------------------- draining succeeds

  /** The next step that brings an announced operation to its end, as a stop does. */
  function DrainMove(op: Operation, id: Id): Step {
    match op.place
    case Active =>
      if op.task == InCommit then CommitEnds(id, true) else if op.began then Complete(id) else Claim(id)
    case Cancelling => CancelMove(op, id)
    case Gone => if op.canceller == Nobody then TaskFinish(id) else CancelFinish(id)
  }

  function DrainRank(op: Operation): nat {
    if op.phase == Over then 0
    else match op.place
      case Active => if op.task == InCommit then 12 else if op.began then 11 else 10
      case Cancelling => 1 + CancelRank(op)
      case Gone => 1
  }

  lemma DrainMoveWorks(op: Operation, id: Id, slot: nat)
    requires OpInv(op) && op.events != [] && op.phase != Over
    ensures OpEnabled(op, DrainMove(op, id)) && OnOperation(DrainMove(op, id)) && DrainMove(op, id).id == id
    ensures !DrainMove(op, id).Announce? && !DrainMove(op, id).Begin?
    ensures var n := OpNext(op, DrainMove(op, id), slot); DrainRank(n) < DrainRank(op) && n.events != []
  {
  }

  /** While a stop waits every operation was announced. */
  lemma {:induction false} AllAnnounced(states: seq<System>, steps: seq<Step>, k: nat)
    requires Run(states, steps) && k < |states|
    ensures forall id | id in states[k].ops && states[k].gate != Launching(id) :: states[k].ops[id].events != []
  {
    RunKeepsInv(states, steps, k);
    forall id | id in states[k].ops && states[k].gate != Launching(id) ensures states[k].ops[id].events != [] {
      assert OpInv(states[k].ops[id]);
    }
  }

  /** A stop can bring one operation it waits for to its end. */
  lemma {:induction false} OneCanEnd(states: seq<System>, steps: seq<Step>, id: Id)
    returns (ss: seq<System>, ms: seq<Step>)
    requires Run(states, steps) && states[|steps|].gate.Stopping? && id in states[|steps|].ops
    ensures Continues(states, steps, ss, ms)
    ensures var last := (states + ss)[|steps + ms|];
      && last.gate == states[|steps|].gate && id in last.ops && last.ops[id].phase == Over
      && last.ops.Keys == states[|steps|].ops.Keys
    decreases DrainRank(states[|steps|].ops[id])
  {
    hide OpInv, OpNext, OpEnabled, DrainMove, DrainRank;
    var s := states[|steps|];
    ss, ms := [], [];
    assert states + [] == states && steps + [] == steps;
    if s.ops[id].phase != Over {
      RunKeepsInv(states, steps, |steps|);
      AllAnnounced(states, steps, |steps|);
      var step := DrainMove(s.ops[id], id);
      DrainMoveWorks(s.ops[id], id, |s.retained|);
      var n := Next(s, step);
      ExtendRun(states, steps, step);
      var more, rest := OneCanEnd(states + [n], steps + [step], id);
      ss, ms := [n] + more, [step] + rest;
      assert states + ss == states + [n] + more && steps + ms == steps + [step] + rest;
    }
  }

  /**
    A stop never waits in vain: from every state in which it waits, the operations it
    waits for can all end by their own tasks and cancellers, and then the wipe may begin.
    */
  lemma {:induction false} StopCanPass(states: seq<System>, steps: seq<Step>)
    returns (ss: seq<System>, ms: seq<Step>)
    requires Run(states, steps) && states[|steps|].gate.Stopping?
    ensures Continues(states, steps, ss, ms) && Enabled((states + ss)[|steps + ms|], Wipe)
    decreases |states[|steps|].gate.todo|
  {
    hide OpInv, OpNext, OpEnabled, Inv, Next;
    var s := states[|steps|];
    ss, ms := [], [];
    assert states + [] == states && steps + [] == steps;
    if s.gate.todo != {} {
      var id :| id in s.gate.todo;
      RunKeepsInv(states, steps, |steps|);
      WaitedForIsThere(s, id);
      var a, b := OneCanEnd(states, steps, id);
      var mid, moves := states + a, steps + b;
      ExtendRun(mid, moves, StopPasses(id));
      var n := Next(mid[|moves|], StopPasses(id));
      PassingShrinks(mid[|moves|], id);
      var c, d := StopCanPass(mid + [n], moves + [StopPasses(id)]);
      ss, ms := a + [n] + c, b + [StopPasses(id)] + d;
      assert states + ss == mid + [n] + c && steps + ms == moves + [StopPasses(id)] + d;
    }
  }

  lemma WaitedForIsThere(s: System, id: Id)
    requires Inv(s) && s.gate.Stopping? && id in s.gate.todo
    ensures id in s.ops
  {
  }

  lemma PassingShrinks(s: System, id: Id)
    requires Enabled(s, StopPasses(id))
    ensures Next(s, StopPasses(id)).gate.Stopping?
    ensures |Next(s, StopPasses(id)).gate.todo| < |s.gate.todo|
  {
  }
}
