/**
  The settings manager: saved preferences, the capture service and the store policy it
  drives, with every service call free to fail before or after taking effect. The
  manager's transaction lock serialises its calls, so a run is a sequence of calls.
  */
module Settings {
  import opened Wrappers

  const MAX_TOTAL_BYTES: nat := 256 * 1024 * 1024

  datatype Prefs = Prefs(
    maxEntries: nat, maxFavorites: nat, maxEntryBytes: nat,
    paused: bool, private: bool, collapse: bool)

  const DEFAULT_PREFS: Prefs := Prefs(1000, 100, 16 * 1024 * 1024, true, false, true)

  datatype Limits = Limits(maxEntries: nat, maxFavorites: nat, maxEntryBytes: nat, maxTotalBytes: nat)

  function LimitsOf(p: Prefs): Limits {
    Limits(p.maxEntries, p.maxFavorites, p.maxEntryBytes, MAX_TOTAL_BYTES)
  }

  datatype Error =
    | ShuttingDown | LoadFailed | OutsideRange | QuiesceFailed | SaveFailed | PolicyFailed
    | Unsynchronized | CaptureFailed | Mismatch

  // -------------------------------------------------------------- pure updates

  datatype Change = Change(maxEntries: Option<nat>, maxFavorites: Option<nat>, maxEntryBytes: Option<nat>,
      collapse: Option<bool>)

  function Or<T>(update: Option<T>, current: T): T {
    match update case Some(v) => v case None => current
  }

  predicate InRange(update: Option<nat>, low: nat, high: nat) { update.Some? ==> low <= update.value <= high }

  function Applied(c: Change, p: Prefs): Result<Prefs, Error> {
    if InRange(c.maxEntries, 1, 100_000) && InRange(c.maxFavorites, 1, 10_000)
       && InRange(c.maxEntryBytes, 64 * 1024, 64 * 1024 * 1024)
    then Ok(p.(maxEntries := Or(c.maxEntries, p.maxEntries), maxFavorites := Or(c.maxFavorites, p.maxFavorites),
               maxEntryBytes := Or(c.maxEntryBytes, p.maxEntryBytes), collapse := Or(c.collapse, p.collapse)))
    else Err(OutsideRange)
  }

  predicate ValidPrefs(p: Prefs) {
    && 1 <= p.maxEntries <= 100_000 && 1 <= p.maxFavorites <= 10_000
    && 64 * 1024 <= p.maxEntryBytes <= 64 * 1024 * 1024
    && (p.private ==> p.paused)
  }

  function RetentionChanged(a: Prefs, b: Prefs): bool { LimitsOf(a) != LimitsOf(b) }

  // ------------------------------------------------------ manager and services

  /**
    `mayRun`: a capture worker may be running; `latched`: a stop of one failed, and the
    controller answers nothing but errors since; `admission`: the store may accept captures.
    */
  datatype State = State(
    value: Prefs, loadError: bool, verified: bool, stopping: bool,
    mayRun: bool, latched: bool, admission: bool, limits: Limits)

  /** A call of the store succeeds, or fails having taken effect or not. */
  datatype Outcome = Done | Failed(applied: bool)

  /** A request to the capture controller is acknowledged, or it fails and leaves a worker running or not. */
  datatype Request = Acknowledged | Refused(runs: bool, latches: bool)

  datatype Quiet = Quiet(pause: Request, close: Outcome)

  /** How the service calls of one settings call turn out. */
  datatype Env = Env(
    first: Quiet, second: Quiet, third: Quiet, saved: bool,
    read: bool, apply: Outcome, reread: bool, request: Request, close: Outcome, answers: bool)

  type Answer = Result<(), Error>

  /** With no worker to stop a pause always succeeds, and after a failed stop none does. */
  predicate PauseTaken(s: State, o: Request) { !s.latched && (!s.mayRun || o == Acknowledged) }

  /** An acknowledged stop fences the worker, which revokes admission on its way out; a failed one latches. */
  function RequestedPause(s: State, o: Request): State {
    if s.latched then s
    else if PauseTaken(s, o) then s.(mayRun := false, admission := false)
    else s.(mayRun := o.runs, latched := true)
  }

  predicate StartTaken(s: State, o: Request) { !s.latched && o == Acknowledged }

  /**
    A worker that starts opens admission. A start may fail with the new worker running, by
    failing to stop the old one, or after it stopped the old one.
    */
  function RequestedStart(s: State, o: Request): State {
    if s.latched then s
    else if o == Acknowledged then s.(mayRun := true, admission := true)
    else
      var latched := o.latches && s.mayRun;
      s.(mayRun := o.runs, latched := latched, admission := o.runs || (latched && s.admission))
  }

  function ClosedAdmission(s: State, o: Outcome): State {
    s.(admission := s.admission && o != Done && !o.applied)
  }

  function AppliedPolicy(s: State, limits: Limits, o: Outcome): State {
    if o == Done || o.applied then s.(limits := limits, admission := false) else s
  }

  function Quiesced(s: State, q: Quiet): (State, Answer) {
    var p := RequestedPause(s.(verified := false), q.pause);
    if !PauseTaken(s, q.pause) then (p, Err(QuiesceFailed))
    else (ClosedAdmission(p, q.close), if q.close == Done then Ok(()) else Err(QuiesceFailed))
  }

  function Preferences(s: State): Result<Prefs, Error> {
    if s.stopping then Err(ShuttingDown) else if s.loadError then Err(LoadFailed) else Ok(s.value)
  }

  function Reported(s: State): Result<Prefs, Error> {
    match Preferences(s)
    case Err(e) => Err(e)
    case Ok(p) => Ok(if s.verified then p else p.(paused := false, private := false))
  }

  function Committed(s: State, p: Prefs): State {
    var same := s.value.paused == p.paused && s.value.private == p.private;
    s.(verified := s.verified && same, value := p, loadError := false)
  }

  function AppliedRetention(s: State, p: Prefs, e: Env): (State, Answer) {
    if e.read && s.limits == LimitsOf(p) then (s, Ok(()))
    else
      var (q, quiet) := Quiesced(s, e.second);
      if quiet.Err? then (q, quiet)
      else (AppliedPolicy(q, LimitsOf(p), e.apply), if e.apply == Done then Ok(()) else Err(PolicyFailed))
  }

  /** Record what the capture service answers about `desired`. */
  function Verified(s: State, desired: bool, answers: bool): (State, Answer) {
    if s.latched || (s.mayRun && !answers) then (s.(verified := false), Err(CaptureFailed))
    else if !s.mayRun != desired then (s.(verified := false), Err(Mismatch))
    else (s.(verified := true), Ok(()))
  }

  function AppliedCapture(s: State, p: Prefs, e: Env): (State, Answer) {
    var t := s.(verified := false);
    if !p.paused && !(e.reread && s.limits == LimitsOf(p)) then
      var (q, quiet) := Quiesced(t, e.third);
      (q, if quiet.Err? then quiet else Err(Unsynchronized))
    else
      var r := if p.paused then RequestedPause(t, e.request) else RequestedStart(t, e.request);
      if !(if p.paused then PauseTaken(t, e.request) else StartTaken(t, e.request)) then (r, Err(CaptureFailed))
      else if p.paused && e.close != Done then (ClosedAdmission(r, e.close), Err(CaptureFailed))
      else Verified(if p.paused then ClosedAdmission(r, e.close) else r, p.paused, e.answers)
  }

  function Updated(s: State, c: Change, e: Env): (State, Answer) {
    match Preferences(s)
    case Err(error) => (s, Err(error))
    case Ok(current) =>
      match Applied(c, current)
      case Err(error) => (s, Err(error))
      case Ok(updated) =>
        var (q, quiet) := if RetentionChanged(current, updated) then Quiesced(s, e.first) else (s, Ok(()));
        if quiet.Err? then (q, quiet)
        else if updated != current && !e.saved then (q, Err(SaveFailed))
        else
          var v := if updated != current then Committed(q, updated) else q;
          var (r, retained) := AppliedRetention(v, updated, e);
          if retained.Err? then (r, retained) else AppliedCapture(r, updated, e)
  }

  function SetPaused(s: State, paused: bool, private: bool, e: Env): (State, Answer) {
    match Preferences(s)
    case Err(error) => (s, Err(error))
    case Ok(current) =>
      var updated := current.(paused := paused, private := paused && private);
      if e.saved then AppliedCapture(Committed(s, updated), updated, e)
      else if paused then (ClosedAdmission(RequestedPause(s, e.request), e.close).(verified := false), Err(SaveFailed))
      else (s, Err(SaveFailed))
  }

  datatype Call =
    | Update(change: Change, env: Env)
    | Pause(paused: bool, private: bool, env: Env)
    | Reconcile(env: Env)                 // also what resuming a capture guard does
    | Refresh(answers: bool)
    | Quiesce(quiet: Quiet)               // a wipe or another transition takes the guard
    | InitializeRetention(apply: Outcome)
    | StopCapture(quiet: Quiet)

  function After(s: State, c: Call): (State, Answer) {
    match c
    case Update(change, e) => Updated(s, change, e)
    case Pause(paused, private, e) => SetPaused(s, paused, private, e)
    case Reconcile(e) =>
      (match Preferences(s) case Err(error) => (s, Err(error)) case Ok(p) => AppliedCapture(s, p, e))
    case Refresh(answers) =>
      (match Preferences(s) case Err(error) => (s, Err(error)) case Ok(p) => Verified(s, p.paused, answers))
    case Quiesce(q) => Quiesced(s, q)
    case InitializeRetention(o) =>
      (match Preferences(s)
       case Err(error) => (s, Err(error))
       case Ok(p) => (AppliedPolicy(s, LimitsOf(p), o), if o == Done then Ok(()) else Err(PolicyFailed)))
    case StopCapture(q) => Quiesced(s.(stopping := true), q)
  }

  // ---------------------------------------------------------- manager in place

  class SettingsManager {
    var value: Prefs
    var loadError: bool
    var verified: bool
    var stopping: bool
    // The two services, as far as their state matters here.
    var mayRun: bool
    var latched: bool
    var admission: bool
    var limits: Limits

    ghost function Abstract(): State
      reads this
    {
      State(value, loadError, verified, stopping, mayRun, latched, admission, limits)
    }

    constructor (loaded: Result<Prefs, Error>, stored: Limits)
      ensures Abstract() == State(
        if loaded.Ok? then loaded.value else Prefs(1000, 100, 16777216, true, false, true), loaded.Err?,
        false, false, false, false, false, stored)
    {
      value := if loaded.Ok? then loaded.value else DEFAULT_PREFS;
      loadError, verified, stopping := loaded.Err?, false, false;
      mayRun, latched, admission, limits := false, false, false, stored;
    }

    method RequestPause(o: Request) returns (taken: bool)
      modifies this`mayRun, this`latched, this`admission
      ensures Abstract() == RequestedPause(old(Abstract()), o) && taken == PauseTaken(old(Abstract()), o)
    {
      if latched {
        return false;
      }
      taken := !mayRun || o == Acknowledged;
      if taken {
        mayRun, admission := false, false;
      } else {
        mayRun, latched := o.runs, true;
      }
    }

    method RequestStart(o: Request) returns (taken: bool)
      modifies this`mayRun, this`latched, this`admission
      ensures Abstract() == RequestedStart(old(Abstract()), o) && taken == StartTaken(old(Abstract()), o)
    {
      if latched {
        return false;
      }
      taken := o == Acknowledged;
      if taken {
        mayRun, admission := true, true;
      } else {
        latched := o.latches && mayRun;
        mayRun, admission := o.runs, o.runs || (latched && admission);
      }
    }

    method CloseAdmission(o: Outcome)
      modifies this`admission
      ensures Abstract() == ClosedAdmission(old(Abstract()), o)
    {
      if o == Done || o.applied {
        admission := false;
      }
    }

    method QuiesceLocked(q: Quiet) returns (answer: Answer)
      modifies this
      ensures (Abstract(), answer) == Quiesced(old(Abstract()), q)
    {
      verified := false;
      var taken := RequestPause(q.pause);
      if !taken {
        return Err(QuiesceFailed);
      }
      CloseAdmission(q.close);
      answer := if q.close == Done then Ok(()) else Err(QuiesceFailed);
    }

    method Verify(desired: bool, answers: bool) returns (answer: Answer)
      modifies this
      ensures (Abstract(), answer) == Verified(old(Abstract()), desired, answers)
    {
      verified := false;
      if latched || (mayRun && !answers) {
        return Err(CaptureFailed);
      }
      if !mayRun != desired {
        return Err(Mismatch);
      }
      verified := true;
      answer := Ok(());
    }

    method ApplyRetention(p: Prefs, e: Env) returns (answer: Answer)
      modifies this
      ensures (Abstract(), answer) == AppliedRetention(old(Abstract()), p, e)
    {
      if e.read && limits == LimitsOf(p) {
        return Ok(());
      }
      answer := QuiesceLocked(e.second);
      if answer.Err? {
        return;
      }
      if e.apply == Done || e.apply.applied {
        limits, admission := LimitsOf(p), false;
      }
      answer := if e.apply == Done then Ok(()) else Err(PolicyFailed);
    }

    method ApplyCapture(p: Prefs, e: Env) returns (answer: Answer)
      modifies this
      ensures (Abstract(), answer) == AppliedCapture(old(Abstract()), p, e)
    {
      verified := false;
      if !p.paused && !(e.reread && limits == LimitsOf(p)) {
        answer := QuiesceLocked(e.third);
        return if answer.Err? then answer else Err(Unsynchronized);
      }
      var taken: bool;
      if p.paused {
        taken := RequestPause(e.request);
      } else {
        taken := RequestStart(e.request);
      }
      if !taken {
        return Err(CaptureFailed);
      }
      if p.paused {
        CloseAdmission(e.close);
        if e.close != Done {
          return Err(CaptureFailed);
        }
      }
      answer := Verify(p.paused, e.answers);
    }

    method UpdateSettings(c: Change, e: Env) returns (answer: Answer)
      modifies this
      ensures (Abstract(), answer) == Updated(old(Abstract()), c, e)
    {
      if stopping {
        return Err(ShuttingDown);
      }
      if loadError {
        return Err(LoadFailed);
      }
      var updated := Applied(c, value);
      if updated.Err? {
        return Err(updated.error);
      }
      if RetentionChanged(value, updated.value) {
        answer := QuiesceLocked(e.first);
        if answer.Err? {
          return;
        }
      }
      if updated.value != value {
        if !e.saved {
          return Err(SaveFailed);
        }
        Commit(updated.value);
      }
      answer := ApplyRetention(updated.value, e);
      if answer.Ok? {
        answer := ApplyCapture(updated.value, e);
      }
    }

    method Commit(p: Prefs)
      modifies this
      ensures Abstract() == Committed(old(Abstract()), p)
    {
      if value.paused != p.paused || value.private != p.private {
        verified := false;
      }
      value, loadError := p, false;
    }

    method PauseCapture(paused: bool, private: bool, e: Env) returns (answer: Answer)
      modifies this
      ensures (Abstract(), answer) == SetPaused(old(Abstract()), paused, private, e)
    {
      if stopping {
        return Err(ShuttingDown);
      }
      if loadError {
        return Err(LoadFailed);
      }
      var updated := value.(paused := paused, private := paused && private);
      if !e.saved {
        if paused {
          var _ := RequestPause(e.request);
          CloseAdmission(e.close);
          verified := false;
        }
        return Err(SaveFailed);
      }
      Commit(updated);
      answer := ApplyCapture(updated, e);
    }

    method Stop(q: Quiet) returns (answer: Answer)
      modifies this
      ensures (Abstract(), answer) == After(old(Abstract()), StopCapture(q))
    {
      stopping := true;
      answer := QuiesceLocked(q);
    }
  }

  // ----------------------------------------------------------------- invariants

  ghost predicate Inv(s: State) {
    && ValidPrefs(s.value)
    && (s.mayRun ==> s.limits == LimitsOf(s.value))
    && (s.verified ==> (s.value.paused <==> !s.mayRun))
    && (s.verified ==> !s.latched)
    && (!s.latched && !s.mayRun ==> !s.admission)
  }

  ghost predicate Initial(s: State) {
    ValidPrefs(s.value) && !s.verified && !s.stopping && !s.mayRun && !s.latched && !s.admission
  }

  ghost predicate Run(states: seq<State>, calls: seq<Call>) {
    && |states| == |calls| + 1 && Initial(states[0])
    && forall k | 0 <= k < |calls| :: states[k + 1] == After(states[k], calls[k]).0
  }

  lemma QuiesceKeepsInv(s: State, q: Quiet)
    requires Inv(s)
    ensures Inv(Quiesced(s, q).0)
    ensures Quiesced(s, q).1.Ok? ==> !Quiesced(s, q).0.mayRun && !Quiesced(s, q).0.admission
    ensures Quiesced(s, q).0.mayRun ==> s.mayRun
  {}

  lemma RetentionKeepsInv(s: State, e: Env)
    requires Inv(s)
    ensures Inv(AppliedRetention(s, s.value, e).0)
    ensures AppliedRetention(s, s.value, e).0.value == s.value
    ensures AppliedRetention(s, s.value, e).1.Ok? ==> AppliedRetention(s, s.value, e).0.limits == LimitsOf(s.value)
  {}

  lemma CaptureKeepsInv(s: State, e: Env)
    requires Inv(s)
    ensures Inv(AppliedCapture(s, s.value, e).0)
  {
    hide Quiesced;
    QuiesceKeepsInv(s.(verified := false), e.third);
  }

  lemma AppliedIsValid(c: Change, p: Prefs)
    requires ValidPrefs(p) && Applied(c, p).Ok?
    ensures ValidPrefs(Applied(c, p).value) && Applied(c, p).value.paused == p.paused
      && Applied(c, p).value.private == p.private
  {}

  /** New limits may only be committed while capture is stopped. */
  lemma CommitKeepsInv(s: State, p: Prefs)
    requires Inv(s) && ValidPrefs(p) && (RetentionChanged(s.value, p) ==> !s.mayRun)
    ensures Inv(Committed(s, p))
  {}

  lemma UpdateKeepsInv(s: State, c: Change, e: Env)
    requires Inv(s)
    ensures Inv(Updated(s, c, e).0)
  {
    hide Quiesced, AppliedRetention, AppliedCapture, Applied, Committed, Inv, RetentionChanged;
    InvImpliesValid(s);
    if Preferences(s).Ok? && Applied(c, s.value).Ok? {
      var updated := Applied(c, s.value).value;
      AppliedIsValid(c, s.value);
      QuiesceKeepsInv(s, e.first);
      QuiesceChangesNoPreference(s, e.first);
      var changed := RetentionChanged(s.value, updated);
      var q := if changed then Quiesced(s, e.first).0 else s;
      if !changed || Quiesced(s, e.first).1.Ok? {
        CommitKeepsInv(q, updated);
        var v := if updated != s.value then Committed(q, updated) else q;
        CommittedValue(q, updated);
        RetentionKeepsInv(v, e);
        CaptureKeepsInv(AppliedRetention(v, updated, e).0, e);
      }
    }
  }

  lemma InvImpliesValid(s: State)
    requires Inv(s)
    ensures ValidPrefs(s.value)
  {}

  lemma CommittedValue(s: State, p: Prefs)
    ensures Committed(s, p).value == p
  {}

  lemma QuiesceChangesNoPreference(s: State, q: Quiet)
    ensures Quiesced(s, q).0.value == s.value && Quiesced(s, q).0.limits == s.limits
    ensures !Quiesced(s, q).0.verified && Quiesced(s, q).0.loadError == s.loadError
      && Quiesced(s, q).0.stopping == s.stopping
  {}

  lemma PauseKeepsInv(s: State, paused: bool, private: bool, e: Env)
    requires Inv(s)
    ensures Inv(SetPaused(s, paused, private, e).0)
  {
    hide AppliedCapture;
    var updated := s.value.(paused := paused, private := paused && private);
    CaptureKeepsInv(Committed(s, updated), e);
  }

  lemma CallKeepsInv(s: State, c: Call)
    requires Inv(s)
    ensures Inv(After(s, c).0)
  {
    hide Quiesced, AppliedRetention, AppliedCapture, Updated, SetPaused;
    match c
    case Update(change, e) => UpdateKeepsInv(s, change, e);
    case Pause(paused, private, e) => PauseKeepsInv(s, paused, private, e);
    case Reconcile(e) => CaptureKeepsInv(s, e);
    case Quiesce(q) => QuiesceKeepsInv(s, q);
    case StopCapture(q) => QuiesceKeepsInv(s.(stopping := true), q);
    case _ =>
  }

  lemma {:induction false} RunKeepsInv(states: seq<State>, calls: seq<Call>, k: nat)
    requires Run(states, calls) && k < |states|
    ensures Inv(states[k])
  {
    hide After;
    if k > 0 {
      RunKeepsInv(states, calls, k - 1);
      CallKeepsInv(states[k - 1], calls[k - 1]);
    }
  }

  // ------------------------------------------------------------------- theorems

  /** Capture runs only while the store enforces the saved limits. */
  lemma CaptureRunsOnlySynchronized(states: seq<State>, calls: seq<Call>, k: nat)
    requires Run(states, calls) && k < |states|
    ensures states[k].mayRun ==> states[k].limits == LimitsOf(states[k].value)
  {
    RunKeepsInv(states, calls, k);
  }

  /** Private mode is reported only when it is verified, and then capture is paused and does not run. */
  lemma PrivateIsVerifiedAndPaused(states: seq<State>, calls: seq<Call>, k: nat)
    requires Run(states, calls) && k < |states|
    ensures var report := Reported(states[k]);
      report.Ok? && report.value.private ==> states[k].verified && report.value.paused && !states[k].mayRun
  {
    RunKeepsInv(states, calls, k);
  }

  /** What is reported as verified is true: capture is paused or may run exactly as the preferences say. */
  lemma VerifiedIsTrue(states: seq<State>, calls: seq<Call>, k: nat)
    requires Run(states, calls) && k < |states| && states[k].verified
    ensures (states[k].value.paused <==> !states[k].mayRun) && !states[k].latched
  {
    RunKeepsInv(states, calls, k);
  }

  /** What a state after a failed call with this error still guarantees, `s` being the state before. */
  predicate FailedSafely(s: State, n: State, error: Error) {
    && (error == PolicyFailed || error == Unsynchronized ==> !n.mayRun)
    && (error == QuiesceFailed ==> n.mayRun ==> s.mayRun)
    && !n.verified
  }

  lemma QuiesceFailsSafely(s: State, q: Quiet)
    requires Quiesced(s, q).1.Err?
    ensures Quiesced(s, q).1.error == QuiesceFailed && FailedSafely(s, Quiesced(s, q).0, QuiesceFailed)
  {}

  lemma RetentionFailsSafely(s: State, p: Prefs, e: Env)
    ensures AppliedRetention(s, p, e).0.mayRun ==> s.mayRun
    ensures var (n, answer) := AppliedRetention(s, p, e);
      answer.Err? ==>
        (answer.error == PolicyFailed || answer.error == QuiesceFailed) && FailedSafely(s, n, answer.error)
  {}

  lemma CaptureFailsSafely(s: State, p: Prefs, e: Env)
    ensures var (n, answer) := AppliedCapture(s, p, e);
      answer.Err? ==> answer.error != SaveFailed && FailedSafely(s, n, answer.error)
  {
    if !p.paused && !(e.reread && s.limits == LimitsOf(p)) {
      hide Verified, RequestedStart, RequestedPause, ClosedAdmission;
      QuiesceLeaves(s, e.third);
    } else {
      hide Quiesced, RequestedStart, RequestedPause, LimitsOf;
      RequestsClaimNothing(s, e.request);
    }
  }

  lemma QuiesceLeaves(s: State, q: Quiet)
    ensures var (n, answer) := Quiesced(s.(verified := false), q);
      && !n.verified && (n.mayRun ==> s.mayRun) && (answer.Ok? ==> !n.mayRun)
      && (answer.Err? ==> answer.error == QuiesceFailed)
  {}

  lemma RequestsClaimNothing(s: State, o: Request)
    ensures !RequestedPause(s.(verified := false), o).verified && !RequestedStart(s.(verified := false), o).verified
  {}

  /** What any failure of an update leaves: no claim of verification, and after a failed save the old preferences. */
  lemma FailedUpdateLeavesPaused(s: State, c: Change, e: Env)
    requires Preferences(s).Ok? && Applied(c, s.value).Ok? && Updated(s, c, e).1.Err?
    ensures var (n, error) := (Updated(s, c, e).0, Updated(s, c, e).1.error);
      if error == SaveFailed then
        n.value == s.value && n.limits == s.limits
          && (RetentionChanged(s.value, Applied(c, s.value).value) ==> !n.mayRun)
      else FailedSafely(s, n, error)
  {
    hide Quiesced, AppliedRetention, AppliedCapture, FailedSafely;
    var updated := Applied(c, s.value).value;
    var changed := RetentionChanged(s.value, updated);
    var q := if changed then Quiesced(s, e.first).0 else s;
    QuiesceChangesNoPreference(s, e.first);
    QuiesceStops(s, e.first);
    if changed && Quiesced(s, e.first).1.Err? {
      QuiesceFailsSafely(s, e.first);
    } else if updated == s.value || e.saved {
      var v := if updated != s.value then Committed(q, updated) else q;
      RetentionFailsSafely(v, updated, e);
      var r := AppliedRetention(v, updated, e).0;
      CaptureFailsSafely(r, updated, e);
      SafetyComposes(s, v, r, Updated(s, c, e).0, Updated(s, c, e).1.error);
    }
  }

  lemma QuiesceStops(s: State, q: Quiet)
    ensures Quiesced(s, q).0.mayRun ==> s.mayRun
    ensures Quiesced(s, q).1.Ok? ==> !Quiesced(s, q).0.mayRun
  {}

  lemma SafetyComposes(s: State, v: State, r: State, n: State, error: Error)
    requires (v.mayRun ==> s.mayRun) && (r.mayRun ==> v.mayRun)
    requires FailedSafely(v, n, error) || FailedSafely(r, n, error)
    ensures FailedSafely(s, n, error)
  {}

  // ------------------------------------------- when capture runs after a failure

  /** The update asks for other limits, so it quiesces before it saves. */
  predicate NewLimits(s: State, c: Change) {
    Applied(c, s.value).Ok? && RetentionChanged(s.value, Applied(c, s.value).value)
  }

  /** What one pause, or one start, leaves of a capture that may run already. */
  predicate RunsAfterPause(running: bool, latched: bool, o: Request) {
    running && (latched || (o.Refused? && o.runs))
  }

  predicate RunsAfterRequest(running: bool, latched: bool, paused: bool, o: Request) {
    if paused then RunsAfterPause(running, latched, o)
    else if latched then running
    else o == Acknowledged || o.runs
  }

  /** Whether capture may run after an update that reported `error`. */
  predicate RunsAfterFailedUpdate(s: State, c: Change, e: Env, error: Error) {
    match error
    case SaveFailed => s.mayRun && !NewLimits(s, c)
    case QuiesceFailed =>
      var pause := if NewLimits(s, c) then e.first.pause else if e.read then e.third.pause else e.second.pause;
      RunsAfterPause(s.mayRun, s.latched, pause)
    case PolicyFailed => false
    case Unsynchronized => false
    case CaptureFailed => RunsAfterRequest(s.mayRun && !NewLimits(s, c) && e.read, s.latched, s.value.paused, e.request)
    case Mismatch => RunsAfterRequest(s.mayRun && !NewLimits(s, c) && e.read, s.latched, s.value.paused, e.request)
    case _ => s.mayRun
  }

  lemma CaptureFailureRunsIff(s: State, p: Prefs, e: Env)
    requires AppliedCapture(s, p, e).1.Err?
    ensures var (n, error) := (AppliedCapture(s, p, e).0, AppliedCapture(s, p, e).1.error);
      match error
      case QuiesceFailed => !p.paused && (n.mayRun <==> RunsAfterPause(s.mayRun, s.latched, e.third.pause))
      case Unsynchronized => !n.mayRun
      case CaptureFailed =>
        (p.paused || s.limits == LimitsOf(p)) && n.mayRun == RunsAfterRequest(s.mayRun, s.latched, p.paused, e.request)
      case Mismatch =>
        (p.paused || s.limits == LimitsOf(p)) && n.mayRun == RunsAfterRequest(s.mayRun, s.latched, p.paused, e.request)
      case _ => false
  {
    hide Quiesced;
    QuiesceRunsIff(s.(verified := false), e.third);
    QuiesceStops(s.(verified := false), e.third);
  }

  lemma RetentionFailureRunsIff(s: State, p: Prefs, e: Env)
    requires s.mayRun ==> s.limits == LimitsOf(p)
    ensures var (r, answer) := AppliedRetention(s, p, e);
      match answer
      case Ok(_) =>
        && (r.mayRun <==> s.mayRun && e.read) && r.latched == s.latched
        && (e.read || !RunsAfterPause(s.mayRun, s.latched, e.second.pause))
      case Err(error) =>
        || (error == PolicyFailed && !r.mayRun)
        || (error == QuiesceFailed && !(e.read && s.mayRun)
            && (r.mayRun <==> RunsAfterPause(s.mayRun, s.latched, e.second.pause)))
  {}

  lemma QuiesceRunsIff(s: State, q: Quiet)
    ensures Quiesced(s, q).0.mayRun <==> RunsAfterPause(s.mayRun, s.latched, q.pause)
    ensures Quiesced(s, q).1.Err? ==> Quiesced(s, q).1.error == QuiesceFailed
    ensures Quiesced(s, q).1.Ok? ==> Quiesced(s, q).0.latched == s.latched
  {}

  lemma AppliedFailsOnRange(c: Change, p: Prefs)
    ensures Applied(c, p).Err? ==> Applied(c, p).error == OutsideRange
  {}

  lemma CommittedRuns(s: State, p: Prefs)
    ensures Committed(s, p).mayRun == s.mayRun && Committed(s, p).limits == s.limits
    ensures Committed(s, p).latched == s.latched
  {}

  /**
    For every error an update can report: capture may run afterwards if and only if it
    could before and nothing the update did stopped it, or the failed restart request
    took effect. In particular it is stopped after a failure between quiesce and restart.
    */
  lemma FailedUpdateRunsIff(s: State, c: Change, e: Env)
    requires Inv(s) && Updated(s, c, e).1.Err?
    ensures Updated(s, c, e).0.mayRun <==> RunsAfterFailedUpdate(s, c, e, Updated(s, c, e).1.error)
  {
    hide Quiesced, AppliedRetention, AppliedCapture, RunsAfterRequest, Applied, Committed;
    AppliedFailsOnRange(c, s.value);
    if Preferences(s).Ok? && Applied(c, s.value).Ok? {
      var updated, changed := Applied(c, s.value).value, NewLimits(s, c);
      var q := if changed then Quiesced(s, e.first).0 else s;
      AppliedIsValid(c, s.value);
      QuiesceRunsIff(s, e.first);
      QuiesceStops(s, e.first);
      QuiesceChangesNoPreference(s, e.first);
      if !changed || Quiesced(s, e.first).1.Ok? {
        CommittedRuns(q, updated);
        var v := if updated != s.value then Committed(q, updated) else q;
        RetentionFailureRunsIff(v, updated, e);
        var (r, retained) := AppliedRetention(v, updated, e);
        if retained.Ok? && AppliedCapture(r, updated, e).1.Err? { CaptureFailureRunsIff(r, updated, e); }
      }
    }
  }

  /** A restart is only asked of a capture whose limits are those of the store. */
  predicate MayStart(s: State, paused: bool) { paused || s.limits == LimitsOf(s.value) }

  /** The same for every error of a pause or restart request. */
  lemma FailedPauseRunsIff(s: State, paused: bool, private: bool, e: Env)
    requires SetPaused(s, paused, private, e).1.Err?
    ensures var (n, error) := (SetPaused(s, paused, private, e).0, SetPaused(s, paused, private, e).1.error);
      n.mayRun <==> match error
        case SaveFailed => if paused then RunsAfterPause(s.mayRun, s.latched, e.request) else s.mayRun
        case QuiesceFailed => RunsAfterPause(s.mayRun, s.latched, e.third.pause)
        case Unsynchronized => false
        case CaptureFailed => MayStart(s, paused) && RunsAfterRequest(s.mayRun, s.latched, paused, e.request)
        case Mismatch => MayStart(s, paused) && RunsAfterRequest(s.mayRun, s.latched, paused, e.request)
        case _ => s.mayRun
  {
    hide AppliedCapture;
    if Preferences(s).Ok? && e.saved {
      var updated := s.value.(paused := paused, private := paused && private);
      CommittedRuns(s, updated);
      CaptureFailureRunsIff(Committed(s, updated), updated, e);
    }
  }

  lemma AcknowledgedCapture(s: State, p: Prefs, e: Env)
    requires AppliedCapture(s, p, e).1.Ok?
    ensures var n := AppliedCapture(s, p, e).0;
      && n.verified && n.value == s.value && n.limits == s.limits
      && (p.paused ==> !n.mayRun && !n.admission)
      && (!p.paused ==> n.mayRun && n.limits == LimitsOf(p))
  {}

  lemma AcknowledgedRetention(s: State, p: Prefs, e: Env)
    requires AppliedRetention(s, p, e).1.Ok?
    ensures AppliedRetention(s, p, e).0.limits == LimitsOf(p) && AppliedRetention(s, p, e).0.value == s.value
  {}

  /** An acknowledged update took effect everywhere it claims to. */
  lemma AcknowledgedUpdate(s: State, c: Change, e: Env)
    requires Inv(s) && Updated(s, c, e).1.Ok?
    ensures var n := Updated(s, c, e).0;
      && Applied(c, s.value) == Ok(n.value) && n.verified
      && (n.value.paused ==> !n.mayRun && !n.admission)
      && n.limits == LimitsOf(n.value)
  {
    hide Quiesced, AppliedRetention, AppliedCapture, Applied, Inv;
    var updated := Applied(c, s.value).value;
    var q := if RetentionChanged(s.value, updated) then Quiesced(s, e.first).0 else s;
    QuiesceChangesNoPreference(s, e.first);
    var v := if updated != s.value then Committed(q, updated) else q;
    AcknowledgedRetention(v, updated, e);
    AcknowledgedCapture(AppliedRetention(v, updated, e).0, updated, e);
  }

  /** An acknowledged pause request: the preference is saved, the service agrees, admission is closed. */
  lemma AcknowledgedPause(s: State, paused: bool, private: bool, e: Env)
    requires SetPaused(s, paused, private, e).1.Ok?
    ensures var n := SetPaused(s, paused, private, e).0;
      && n.verified && n.value == s.value.(paused := paused, private := paused && private)
      && (paused ==> !n.mayRun && !n.admission)
      && (!paused ==> n.mayRun && n.limits == LimitsOf(n.value))
  {}

  lemma StoppingOnlyStops(s: State, c: Call)
    requires s.stopping
    ensures After(s, c).0.stopping && (After(s, c).0.mayRun ==> s.mayRun) && After(s, c).0.value == s.value
    ensures After(s, c).1.Ok? ==> c.Quiesce? || c.StopCapture?
  {}

  /** Once stop_capture began, no call starts capture; once it succeeded, capture is stopped for good. */
  lemma {:induction false} NothingRestartsAfterStop(states: seq<State>, calls: seq<Call>, i: nat, j: nat)
    requires Run(states, calls) && i < j < |states| && calls[i].StopCapture?
    ensures states[j].stopping && (states[j].mayRun ==> states[i].mayRun)
    ensures After(states[i], calls[i]).1.Ok? ==> !states[j].mayRun
  {
    if i < j - 1 {
      NothingRestartsAfterStop(states, calls, i, j - 1);
      StoppingOnlyStops(states[j - 1], calls[j - 1]);
    }
  }

  // ------------------------------------------------- when no failure can run it

  /** The services at their worst: every stop fails with its worker running, and so does a start. */
  const WORST: Env := Env(
    Quiet(Refused(true, true), Done), Quiet(Refused(true, true), Done), Quiet(Refused(true, true), Done),
    true, true, Done, true, Refused(true, false), Done, true)

  /** With the services at their worst, a capture that runs goes on, and one that may be started starts. */
  lemma WorstUpdateRuns(s: State, c: Change)
    requires Inv(s) && Preferences(s).Ok? && Applied(c, s.value).Ok?
    requires s.mayRun || (!s.value.paused && !s.latched)
    ensures Updated(s, c, WORST).1.Err? && Updated(s, c, WORST).0.mayRun
  {
    AppliedIsValid(c, s.value);
  }

  /** The update is refused ahead of any service call: stopping, unreadable preferences or a value out of range. */
  predicate RefusedUpdate(s: State, c: Change) { Preferences(s).Err? || Applied(c, s.value).Err? }

  /**
    Exactly when no failure of an update can leave capture running: it does not run, and
    the update is refused at once, or capture is to stay paused, or the controller is
    latched. All of it can be asked before the call.
    */
  lemma FailedUpdateStopsIff(s: State, c: Change)
    requires Inv(s)
    ensures (forall e :: Updated(s, c, e).1.Err? ==> !Updated(s, c, e).0.mayRun)
      <==> !s.mayRun && (RefusedUpdate(s, c) || s.value.paused || s.latched)
  {
    hide Updated, Applied;
    if RefusedUpdate(s, c) {
      forall e ensures Updated(s, c, e).1.Err? && Updated(s, c, e).0 == s { RefusedUpdateFails(s, c, e); }
      assert Updated(s, c, WORST).1.Err?;
    } else if !s.mayRun && (s.value.paused || s.latched) {
      forall e | Updated(s, c, e).1.Err? ensures !Updated(s, c, e).0.mayRun { FailedUpdateRunsIff(s, c, e); }
    } else {
      WorstUpdateRuns(s, c);
    }
  }

  lemma RefusedUpdateFails(s: State, c: Change, e: Env)
    requires RefusedUpdate(s, c)
    ensures Updated(s, c, e).1.Err? && Updated(s, c, e).0 == s
  {}

  lemma WorstPauseRuns(s: State, paused: bool, private: bool)
    requires Inv(s) && Preferences(s).Ok?
    requires s.mayRun || (!paused && !s.latched && s.limits == LimitsOf(s.value))
    ensures SetPaused(s, paused, private, WORST).1.Err? && SetPaused(s, paused, private, WORST).0.mayRun
  {}

  /** The same for a pause or restart request; a restart also needs synchronized limits to start anything. */
  lemma FailedPauseStopsIff(s: State, paused: bool, private: bool)
    requires Inv(s)
    ensures (forall e :: SetPaused(s, paused, private, e).1.Err? ==> !SetPaused(s, paused, private, e).0.mayRun)
      <==> !s.mayRun && (Preferences(s).Err? || paused || s.latched || s.limits != LimitsOf(s.value))
  {
    hide SetPaused;
    if Preferences(s).Err? {
      forall e ensures SetPaused(s, paused, private, e).1.Err? && SetPaused(s, paused, private, e).0 == s {
        RefusedPauseFails(s, paused, private, e);
      }
      assert SetPaused(s, paused, private, WORST).1.Err?;
    } else if !s.mayRun && (paused || s.latched || s.limits != LimitsOf(s.value)) {
      forall e | SetPaused(s, paused, private, e).1.Err? ensures !SetPaused(s, paused, private, e).0.mayRun {
        FailedPauseRunsIff(s, paused, private, e);
      }
    } else {
      WorstPauseRuns(s, paused, private);
    }
  }

  lemma RefusedPauseFails(s: State, paused: bool, private: bool, e: Env)
    requires Preferences(s).Err?
    ensures SetPaused(s, paused, private, e).1.Err? && SetPaused(s, paused, private, e).0 == s
  {}

  /** A restart request reported as failed may have started capture. */
  lemma FailedRestartMayRun(s: State)
    requires Inv(s) && !s.stopping && !s.loadError && !s.latched && s.limits == LimitsOf(s.value)
    ensures var n := After(s, Pause(false, false, WORST));
      n.1 == Err(CaptureFailed) && n.0.mayRun && !n.0.verified
  {}

  // ------------------------------------------- a verified pause and the store

  /**
    In every state of every run, whatever fails and however often it is refreshed: a pause
    that is reported as verified goes with a controller that is not latched, no worker that
    may run, and a store that refuses captures.
    */
  lemma VerifiedPauseIsClosed(states: seq<State>, calls: seq<Call>, k: nat)
    requires Run(states, calls) && k < |states| && states[k].verified && states[k].value.paused
    ensures !states[k].latched && !states[k].mayRun && !states[k].admission
  {
    RunKeepsInv(states, calls, k);
  }
}
