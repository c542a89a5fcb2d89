/** What settings calls come to in the numbers a client sees, and that they succeed whenever the services do. */
module SettingsOutcomes {
  import opened Wrappers
  import opened Settings

  /** The value asked for lies within the supported range, if one is asked for at all. */
  predicate Supported(c: Change) {
    && (c.maxEntries.Some? ==> 1 <= c.maxEntries.value <= 100000)
    && (c.maxFavorites.Some? ==> 1 <= c.maxFavorites.value <= 10000)
    && (c.maxEntryBytes.Some? ==> 65536 <= c.maxEntryBytes.value <= 67108864)
  }

  /** Every field that is asked for is taken over and every other one stays; an update never touches the pause. */
  predicate TakenOver(c: Change, p: Prefs, n: Prefs) {
    && n.maxEntries == (if c.maxEntries.Some? then c.maxEntries.value else p.maxEntries)
    && n.maxFavorites == (if c.maxFavorites.Some? then c.maxFavorites.value else p.maxFavorites)
    && n.maxEntryBytes == (if c.maxEntryBytes.Some? then c.maxEntryBytes.value else p.maxEntryBytes)
    && n.collapse == (if c.collapse.Some? then c.collapse.value else p.collapse)
    && n.paused == p.paused && n.private == p.private
  }

  /** The store keeps to these preferences and to 256 MiB in all. */
  predicate Enforces(l: Limits, p: Prefs) {
    && l.maxEntries == p.maxEntries && l.maxFavorites == p.maxFavorites && l.maxEntryBytes == p.maxEntryBytes
    && l.maxTotalBytes == 268435456
  }

  /** An acknowledged update is exactly what was asked for, and the store enforces it. */
  lemma UpdateTakesOver(s: State, c: Change, e: Env)
    requires Inv(s) && Updated(s, c, e).1.Ok?
    ensures var n := Updated(s, c, e).0;
      Supported(c) && TakenOver(c, s.value, n.value) && Enforces(n.limits, n.value) && n.verified
  {
    hide Updated, Inv;
    AcknowledgedUpdate(s, c, e);
  }

  /** A value out of range is refused exactly then, before anything happens. */
  lemma UnsupportedIsRefusedIff(s: State, c: Change, e: Env)
    ensures Updated(s, c, e).1 == Err(OutsideRange) <==> !s.stopping && !s.loadError && !Supported(c)
    ensures Updated(s, c, e).1 == Err(OutsideRange) ==> Updated(s, c, e).0 == s
  {
    hide Quiesced, AppliedRetention, AppliedCapture, Committed;
    QuiesceNeverOutside(s, e.first);
    if Applied(c, s.value).Ok? {
      var p := Applied(c, s.value).value;
      var q := if RetentionChanged(s.value, p) then Quiesced(s, e.first).0 else s;
      var v := if p != s.value then Committed(q, p) else q;
      RetentionNeverOutside(v, p, e);
      CaptureNeverOutside(AppliedRetention(v, p, e).0, p, e);
    }
  }

  lemma QuiesceNeverOutside(s: State, q: Quiet)
    ensures Quiesced(s, q).1 != Err(OutsideRange)
  {
  }

  lemma RetentionNeverOutside(s: State, p: Prefs, e: Env)
    ensures AppliedRetention(s, p, e).1 != Err(OutsideRange)
  {
  }

  lemma CaptureNeverOutside(s: State, p: Prefs, e: Env)
    ensures AppliedCapture(s, p, e).1 != Err(OutsideRange)
  {
  }

  /** Every service does what it is asked. */
  const WELL: Env := Env(
    Quiet(Acknowledged, Done), Quiet(Acknowledged, Done), Quiet(Acknowledged, Done),
    true, true, Done, true, Acknowledged, Done, true)

  predicate Serving(s: State) { !s.stopping && !s.loadError && !s.latched }

  lemma WellRetention(s: State, p: Prefs)
    requires !s.latched
    ensures var (n, answer) := AppliedRetention(s, p, WELL); answer.Ok? && !n.latched && n.limits == LimitsOf(p)
  {
  }

  lemma WellCapture(s: State, p: Prefs)
    requires !s.latched && s.limits == LimitsOf(p)
    ensures AppliedCapture(s, p, WELL).1.Ok?
  {
  }

  lemma WellQuiesce(s: State)
    requires !s.latched
    ensures Quiesced(s, WELL.first).1.Ok? && !Quiesced(s, WELL.first).0.latched
  {
  }

  /** With the services well every supported update is acknowledged. */
  lemma UpdateSucceeds(s: State, c: Change)
    requires Serving(s) && Supported(c)
    ensures Updated(s, c, WELL).1.Ok?
  {
    hide Quiesced, AppliedRetention, AppliedCapture, Committed;
    var p := Applied(c, s.value).value;
    WellQuiesce(s);
    var q := if RetentionChanged(s.value, p) then Quiesced(s, WELL.first).0 else s;
    CommittedRuns(q, p);
    var v := if p != s.value then Committed(q, p) else q;
    WellRetention(v, p);
    WellCapture(AppliedRetention(v, p, WELL).0, p);
  }

  /** And every pause is; a restart needs the store to enforce the preferences already. */
  lemma PauseSucceedsIff(s: State, paused: bool, private: bool)
    requires Serving(s)
    ensures SetPaused(s, paused, private, WELL).1.Ok? <==> paused || Enforces(s.limits, s.value)
    ensures var n := SetPaused(s, paused, private, WELL).0;
      n.value == s.value.(paused := paused, private := paused && private)
  {
  }

  /** What a client is told: the preferences, with a pause and privacy only while they are verified. */
  lemma GetTells(s: State)
    ensures Reported(s).Ok? <==> !s.stopping && !s.loadError
    ensures Reported(s).Ok? ==>
      var p := Reported(s).value;
      && (p.paused <==> s.verified && s.value.paused) && (p.private <==> s.verified && s.value.private)
      && p.maxEntries == s.value.maxEntries && p.maxFavorites == s.value.maxFavorites
      && p.maxEntryBytes == s.value.maxEntryBytes && p.collapse == s.value.collapse
  {
  }

  /** At startup the store is given the saved limits with admission closed. */
  lemma InitializeEnforces(s: State)
    requires !s.stopping && !s.loadError
    ensures var (n, answer) := After(s, InitializeRetention(Done));
      answer.Ok? && Enforces(n.limits, n.value) && !n.admission && n.mayRun == s.mayRun && n.value == s.value
  {
  }
}
