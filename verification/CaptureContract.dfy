/**
  The settings manager wired to the capture controller: what the manager believes of
  capture stays true over whole runs of both, and a pause it verified means that no thread
  of any worker can act and that none of them holds storage admission open.
  */
module CaptureContract {
  import opened Wrappers
  import C = CaptureController
  import Settings
  import CaptureSystem
  import W = CaptureWorker

  /** The manager's view of capture agrees with the controller's runtime. */
  predicate Sees(s: Settings.State, r: C.Runtime) {
    s.latched == r.terminal.Some? && s.mayRun == (r.alive != {})
  }

  /** What a call that was answered amounts to for the manager. */
  function OutcomeOf(r: C.Runtime, c: C.Call): Settings.Request
    requires c.SetPaused? && C.Paused(r, c).1.Got?
  {
    var n := C.After(r, c);
    if C.Paused(r, c).1.result.Ok? then Settings.Acknowledged else Settings.Refused(n.alive != {}, n.terminal.Some?)
  }

  lemma PauseMeetsContract(s: Settings.State, r: C.Runtime, c: C.Call)
    requires C.Inv(r) && Sees(s, r) && c.SetPaused? && c.paused && C.Paused(r, c).1.Got?
    ensures Sees(Settings.RequestedPause(s, OutcomeOf(r, c)), C.After(r, c))
    ensures Settings.PauseTaken(s, OutcomeOf(r, c)) <==> C.Paused(r, c).1.result.Ok?
  {
    if r.worker.Some? && r.terminal.None? { OnlyOneAlive(r); }
  }

  lemma OnlyOneAlive(r: C.Runtime)
    requires C.Inv(r) && r.terminal.None?
    ensures r.worker.Some? ==> r.alive == {r.worker.value.id} && r.alive - {r.worker.value.id} == {}
    ensures r.worker.None? ==> r.alive == {}
  {
  }

  /** A start asks for the positive limit that valid preferences have. */
  lemma StartMeetsContract(s: Settings.State, r: C.Runtime, c: C.Call)
    requires C.Inv(r) && Sees(s, r) && c.SetPaused? && !c.paused && c.maxBytes > 0 && C.Paused(r, c).1.Got?
    ensures Sees(Settings.RequestedStart(s, OutcomeOf(r, c)), C.After(r, c))
    ensures Settings.StartTaken(s, OutcomeOf(r, c)) <==> C.Paused(r, c).1.result.Ok?
  {
    var n := C.After(r, c);
    if r.terminal.None? { OnlyOneAlive(r); }
    C.CallKeepsInv(r, c);
    if n.terminal.None? { OnlyOneAlive(n); }
  }

  /** The manager reads an answer of is_paused right, given that a worker never calls itself paused. */
  lemma AnswerMeetsContract(s: Settings.State, r: C.Runtime, state: Result<bool, C.Error>, desired: bool)
    requires C.Inv(r) && Sees(s, r) && (state.Ok? ==> !state.value)
    ensures Settings.Verified(s, desired, state.Ok?).1.Ok? <==> C.PausedAnswer(r, state) == Ok(desired)
  {
    if r.terminal.None? { OnlyOneAlive(r); }
  }

  // ------------------------------------- what a settings call asks of the controller

  datatype Asked = Pausing(o: Settings.Request) | Starting(limit: nat, o: Settings.Request)

  function RetentionAsks(s: Settings.State, p: Settings.Prefs, e: Settings.Env): seq<Asked> {
    if e.read && s.limits == Settings.LimitsOf(p) then [] else [Pausing(e.second.pause)]
  }

  function CaptureAsks(s: Settings.State, p: Settings.Prefs, e: Settings.Env): seq<Asked> {
    if p.paused then [Pausing(e.request)]
    else if e.reread && s.limits == Settings.LimitsOf(p) then [Starting(p.maxEntryBytes, e.request)]
    else [Pausing(e.third.pause)]
  }

  function UpdateAsks(s: Settings.State, c: Settings.Change, e: Settings.Env): seq<Asked> {
    if Settings.Preferences(s).Err? || Settings.Applied(c, s.value).Err? then []
    else
      var updated := Settings.Applied(c, s.value).value;
      var changed := Settings.RetentionChanged(s.value, updated);
      var (q, quiet) := if changed then Settings.Quiesced(s, e.first) else (s, Ok(()));
      var first := if changed then [Pausing(e.first.pause)] else [];
      if quiet.Err? || (updated != s.value && !e.saved) then first
      else
        var v := if updated != s.value then Settings.Committed(q, updated) else q;
        var (r, retained) := Settings.AppliedRetention(v, updated, e);
        first + RetentionAsks(v, updated, e) + if retained.Ok? then CaptureAsks(r, updated, e) else []
  }

  function PauseAsks(s: Settings.State, paused: bool, private: bool, e: Settings.Env): seq<Asked> {
    if Settings.Preferences(s).Err? then []
    else if e.saved then CaptureAsks(s, s.value.(paused := paused, private := paused && private), e)
    else if paused then [Pausing(e.request)] else []
  }

  /** The requests of one settings call to the controller, in order. */
  function Asks(s: Settings.State, c: Settings.Call): seq<Asked> {
    match c
    case Update(change, e) => UpdateAsks(s, change, e)
    case Pause(paused, private, e) => PauseAsks(s, paused, private, e)
    case Reconcile(e) => if Settings.Preferences(s).Err? then [] else CaptureAsks(s, s.value, e)
    case Quiesce(q) => [Pausing(q.pause)]
    case StopCapture(q) => [Pausing(q.pause)]
    case Refresh(_) => []
    case InitializeRetention(_) => []
  }

  function AfterOne(s: Settings.State, a: Asked): Settings.State {
    match a case Pausing(o) => Settings.RequestedPause(s, o) case Starting(_, o) => Settings.RequestedStart(s, o)
  }

  function AfterAsked(s: Settings.State, asked: seq<Asked>): Settings.State
    decreases asked
  {
    if asked == [] then s else AfterAsked(AfterOne(s, asked[0]), asked[1..])
  }

  predicate SameCapture(s: Settings.State, t: Settings.State) { s.mayRun == t.mayRun && s.latched == t.latched }

  lemma {:induction false} AfterAskedAppends(s: Settings.State, t: Settings.State, x: seq<Asked>, y: seq<Asked>)
    requires SameCapture(AfterAsked(s, x), t)
    ensures SameCapture(AfterAsked(s, x + y), AfterAsked(t, y))
    decreases x
  {
    hide AfterOne, SameCapture;
    if x == [] {
      assert x + y == y;
      AfterAskedSame(s, t, y);
    } else {
      assert (x + y)[1..] == x[1..] + y;
      AfterAskedAppends(AfterOne(s, x[0]), t, x[1..], y);
    }
  }

  lemma {:induction false} AfterAskedSame(s: Settings.State, t: Settings.State, asked: seq<Asked>)
    requires SameCapture(s, t)
    ensures SameCapture(AfterAsked(s, asked), AfterAsked(t, asked))
    decreases asked
  {
    hide AfterOne, SameCapture;
    if asked != [] {
      AfterOneSame(s, t, asked[0]);
      AfterAskedSame(AfterOne(s, asked[0]), AfterOne(t, asked[0]), asked[1..]);
    }
  }

  lemma AfterOneSame(s: Settings.State, t: Settings.State, a: Asked)
    requires SameCapture(s, t)
    ensures SameCapture(AfterOne(s, a), AfterOne(t, a))
  {
    hide SameCapture, Settings.RequestedPause, Settings.RequestedStart;
    PauseSame(s, t, a.o);
    StartSame(s, t, a.o);
  }

  lemma PauseSame(s: Settings.State, t: Settings.State, o: Settings.Request)
    requires SameCapture(s, t)
    ensures SameCapture(Settings.RequestedPause(s, o), Settings.RequestedPause(t, o))
  {
  }

  lemma StartSame(s: Settings.State, t: Settings.State, o: Settings.Request)
    requires SameCapture(s, t)
    ensures SameCapture(Settings.RequestedStart(s, o), Settings.RequestedStart(t, o))
  {
  }

  lemma RetentionIsAsked(s: Settings.State, p: Settings.Prefs, e: Settings.Env)
    ensures SameCapture(AfterAsked(s, RetentionAsks(s, p, e)), Settings.AppliedRetention(s, p, e).0)
  {
  }

  lemma CaptureIsAsked(s: Settings.State, p: Settings.Prefs, e: Settings.Env)
    ensures SameCapture(AfterAsked(s, CaptureAsks(s, p, e)), Settings.AppliedCapture(s, p, e).0)
  {
    hide AfterOne, AfterAsked, Settings.RequestedPause, Settings.RequestedStart;
    var a := CaptureAsks(s, p, e)[0];
    AfterSingle(s, a);
    AfterOneSame(s, s.(verified := false), a);
    AfterSettingsRequest(s.(verified := false), a);
  }

  lemma AfterSingle(s: Settings.State, a: Asked)
    ensures AfterAsked(s, [a]) == AfterOne(s, a)
  {
    assert AfterAsked(AfterOne(s, a), []) == AfterOne(s, a);
  }

  lemma AfterSettingsRequest(s: Settings.State, a: Asked)
    ensures a.Pausing? ==> AfterOne(s, a) == Settings.RequestedPause(s, a.o)
    ensures a.Starting? ==> AfterOne(s, a) == Settings.RequestedStart(s, a.o)
  {
  }

  lemma UpdateIsAsked(s: Settings.State, c: Settings.Change, e: Settings.Env)
    ensures SameCapture(AfterAsked(s, UpdateAsks(s, c, e)), Settings.Updated(s, c, e).0)
  {
    hide Settings.Quiesced, Settings.AppliedRetention, Settings.AppliedCapture, Settings.Applied, Settings.Committed,
      RetentionAsks, CaptureAsks, AfterAsked;
    assert AfterAsked(s, []) == s by { AfterNone(s); }
    if Settings.Preferences(s).Ok? && Settings.Applied(c, s.value).Ok? {
      var updated := Settings.Applied(c, s.value).value;
      var changed := Settings.RetentionChanged(s.value, updated);
      var first := if changed then [Pausing(e.first.pause)] else [];
      var (q, quiet) := if changed then Settings.Quiesced(s, e.first) else (s, Ok(()));
      QuiesceIsAsked(s, e.first);
      if quiet.Ok? && (updated == s.value || e.saved) {
        Settings.CommittedRuns(q, updated);
        var v := if updated != s.value then Settings.Committed(q, updated) else q;
        var r := Settings.AppliedRetention(v, updated, e).0;
        AfterAskedAppends(s, v, first, RetentionAsks(v, updated, e));
        RetentionIsAsked(v, updated, e);
        AfterAskedAppends(s, r, first + RetentionAsks(v, updated, e), CaptureAsks(r, updated, e));
        CaptureIsAsked(r, updated, e);
        assert first + RetentionAsks(v, updated, e) + [] == first + RetentionAsks(v, updated, e);
      }
    }
  }

  lemma AfterNone(s: Settings.State)
    ensures AfterAsked(s, []) == s
  {
  }

  lemma QuiesceIsAsked(s: Settings.State, q: Settings.Quiet)
    ensures SameCapture(AfterAsked(s, [Pausing(q.pause)]), Settings.Quiesced(s, q).0)
  {
  }

  lemma StopIsAsked(s: Settings.State, q: Settings.Quiet)
    ensures SameCapture(AfterAsked(s, [Pausing(q.pause)]), Settings.Quiesced(s.(stopping := true), q).0)
  {
  }

  lemma PauseIsAsked(s: Settings.State, paused: bool, private: bool, e: Settings.Env)
    ensures SameCapture(AfterAsked(s, PauseAsks(s, paused, private, e)), Settings.SetPaused(s, paused, private, e).0)
  {
    hide Settings.AppliedCapture, CaptureAsks;
    var updated := s.value.(paused := paused, private := paused && private);
    var t := Settings.Committed(s, updated);
    AfterAskedSame(s, t, CaptureAsks(t, updated, e));
    CaptureIsAsked(t, updated, e);
    SameCaptureAsks(s, t, updated, e);
  }

  /** The requests of a call, taken in order, are all that it does to capture. */
  lemma CallIsAsked(s: Settings.State, c: Settings.Call)
    ensures SameCapture(AfterAsked(s, Asks(s, c)), Settings.After(s, c).0)
  {
    hide Settings.Updated, Settings.SetPaused, Settings.Quiesced, Settings.AppliedCapture, UpdateAsks, PauseAsks,
      CaptureAsks;
    match c
    case Update(change, e) => UpdateIsAsked(s, change, e);
    case Pause(paused, private, e) => PauseIsAsked(s, paused, private, e);
    case Quiesce(q) => QuiesceIsAsked(s, q);
    case StopCapture(q) => StopIsAsked(s, q);
    case Reconcile(e) => CaptureIsAsked(s, s.value, e);
    case _ =>
  }

  lemma SameCaptureAsks(s: Settings.State, t: Settings.State, p: Settings.Prefs, e: Settings.Env)
    requires s.limits == t.limits
    ensures CaptureAsks(s, p, e) == CaptureAsks(t, p, e)
  {
  }

  // --------------------------------------------------------- runs of both together

  /** The controller's call is the request asked for, and it was answered as the manager's call saw it. */
  predicate Answers(a: Asked, r: C.Runtime, c: C.Call) {
    && c.SetPaused? && C.Paused(r, c).1.Got? && c.paused == a.Pausing? && a.o == OutcomeOf(r, c)
    && (a.Starting? ==> c.maxBytes == a.limit)
  }

  /** From system i to system j the controller served exactly these requests; workers and is_paused go on freely. */
  ghost predicate Serves(systems: seq<CaptureSystem.System>, events: seq<CaptureSystem.Event>, i: nat, j: nat,
      asked: seq<Asked>)
    requires |systems| == |events| + 1 && i <= j < |systems|
    decreases j - i
  {
    if i == j then asked == []
    else match events[i]
      case Work(_, _) => Serves(systems, events, i + 1, j, asked)
      case Call(c) =>
        if c.IsPaused? then Serves(systems, events, i + 1, j, asked)
        else
          && asked != [] && Answers(asked[0], systems[i].runtime, c)
          && Serves(systems, events, i + 1, j, asked[1..])
  }

  /** The daemon's wiring: call k of the manager takes the system from at[k] to at[k + 1]. */
  ghost predicate Wired(states: seq<Settings.State>, calls: seq<Settings.Call>,
      systems: seq<CaptureSystem.System>, events: seq<CaptureSystem.Event>, at: seq<nat>) {
    && Settings.Run(states, calls) && CaptureSystem.Run(systems, events)
    && |at| == |states| && at[0] == 0
    && forall k | 0 <= k < |calls| :: CallServed(states[k], calls[k], systems, events, at[k], at[k + 1])
  }

  ghost predicate CallServed(s: Settings.State, c: Settings.Call, systems: seq<CaptureSystem.System>,
      events: seq<CaptureSystem.Event>, i: nat, j: nat)
    requires |systems| == |events| + 1
  {
    i <= j < |systems| && Serves(systems, events, i, j, Asks(s, c))
  }

  ghost predicate PositiveLimits(asked: seq<Asked>) {
    forall k | 0 <= k < |asked| :: asked[k].Starting? ==> asked[k].limit > 0
  }

  lemma AsksForPositiveLimits(s: Settings.State, c: Settings.Call)
    requires Settings.ValidPrefs(s.value)
    ensures PositiveLimits(Asks(s, c))
  {
    hide Settings.Applied, Settings.Quiesced, Settings.AppliedRetention, Settings.Committed;
    if c.Update? && Settings.Applied(c.change, s.value).Ok? { Settings.AppliedIsValid(c.change, s.value); }
  }

  lemma {:induction false} ServedKeepsView(systems: seq<CaptureSystem.System>, events: seq<CaptureSystem.Event>,
      i: nat, j: nat, s: Settings.State, asked: seq<Asked>)
    requires CaptureSystem.Run(systems, events) && i <= j < |systems| && Serves(systems, events, i, j, asked)
    requires Sees(s, systems[i].runtime) && PositiveLimits(asked)
    ensures Sees(AfterAsked(s, asked), systems[j].runtime)
    decreases j - i
  {
    hide C.Inv, W.Inv, C.Paused, OutcomeOf, Settings.RequestedPause, Settings.RequestedStart;
    if i < j {
      var r := systems[i].runtime;
      CaptureSystem.RunKeepsInv(systems, events, i);
      if events[i].Work? || events[i].c.IsPaused? {
        ServedKeepsView(systems, events, i + 1, j, s, asked);
      } else {
        var c := events[i].c;
        if c.paused { PauseMeetsContract(s, r, c); } else { StartMeetsContract(s, r, c); }
        ServedKeepsView(systems, events, i + 1, j, AfterOne(s, asked[0]), asked[1..]);
      }
    }
  }

  /** Over whole runs of the two together the manager's view of capture is right. */
  lemma {:induction false} ViewIsRight(states: seq<Settings.State>, calls: seq<Settings.Call>,
      systems: seq<CaptureSystem.System>, events: seq<CaptureSystem.Event>, at: seq<nat>, k: nat)
    requires Wired(states, calls, systems, events, at) && k < |states|
    ensures at[k] < |systems| && Sees(states[k], systems[at[k]].runtime)
  {
    hide Asks, Settings.After, Serves, CaptureSystem.Enabled, CaptureSystem.Next, Settings.ValidPrefs;
    if k > 0 {
      ViewIsRight(states, calls, systems, events, at, k - 1);
      var s, c := states[k - 1], calls[k - 1];
      Settings.RunKeepsInv(states, calls, k - 1);
      AsksForPositiveLimits(s, c);
      assert CallServed(s, c, systems, events, at[k - 1], at[k]);
      ServedKeepsView(systems, events, at[k - 1], at[k], s, Asks(s, c));
      CallIsAsked(s, c);
    }
  }

  /**
    The privacy claim end to end, for the manager wired to the controller and every
    interleaving of the threads of its workers: while a pause is verified, every worker
    ever started is fenced, so that none has its gate open, holds storage admission, has
    anything queued, or can take another step; and the store refuses captures.
    */
  lemma VerifiedPauseMeansFenced(states: seq<Settings.State>, calls: seq<Settings.Call>,
      systems: seq<CaptureSystem.System>, events: seq<CaptureSystem.Event>, at: seq<nat>, k: nat, id: nat)
    requires Wired(states, calls, systems, events, at) && k < |states|
    requires states[k].verified && states[k].value.paused
    ensures at[k] < |systems| && !states[k].admission
    ensures id < |systems[at[k]].workers| ==> W.Fenced(systems[at[k]].workers[id])
  {
    hide Settings.Run, CaptureSystem.Run, Serves, W.Fenced;
    Settings.VerifiedPauseIsClosed(states, calls, k);
    ViewIsRight(states, calls, systems, events, at, k);
    if id < |systems[at[k]].workers| { IdleMeansFenced(states[k], systems, events, at[k], id); }
  }

  /** What the manager relies on of a controller that is idle and not latched: no worker holds storage admission. */
  lemma IdleMeansFenced(s: Settings.State, systems: seq<CaptureSystem.System>, events: seq<CaptureSystem.Event>,
      m: nat, id: nat)
    requires CaptureSystem.Run(systems, events) && m < |systems| && Sees(s, systems[m].runtime)
    requires !s.latched && !s.mayRun && id < |systems[m].workers|
    ensures W.Fenced(systems[m].workers[id]) && !systems[m].workers[id].sqlAdmission
  {
    hide C.Inv, W.Inv;
    CaptureSystem.RunKeepsInv(systems, events, m);
    NobodyInSlot(systems[m].runtime);
    CaptureSystem.OnlyTheSlotWorks(systems, events, m, id);
  }

  lemma NobodyInSlot(r: C.Runtime)
    requires C.Inv(r) && r.terminal.None? && r.alive == {}
    ensures r.worker.None?
  {
  }
}
