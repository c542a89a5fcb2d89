/**
  What survives crashes: sessions of calls against an engine whose commit may be
  acknowledged, durable but unacknowledged, or lost.
  */
module Durability {
  import opened Wrappers
  import opened Tables
  import opened Mutations
  import opened Retention
  import opened Database

  /** One process lifetime: the mutations it acknowledged, and the one whose outcome nobody knows. */
  datatype Session = Session(acked: seq<Mutation>, doubt: Option<Mutation>)

  datatype Life = Life(disk: Catalog, blocked: bool, up: bool, past: seq<Session>, now: Session)

  datatype Event =
    | Request(m: Mutation, engine: Engine)
    | Crash                                   // between calls
    | CrashDuring(m: Mutation, landed: bool)  // inside a transaction; the write may have landed
    | Reopen                                  // opening commits the closed admission
    | FailedReopen(landed: bool)

  ghost predicate Enabled(c: Catalog, m: Mutation) {
    Keyed(c) && (m.Insert? ==> m.newId !in c.issued && m.newId !in c.entries)
  }

  ghost function Apply(c: Catalog, codec: Codec, m: Mutation): Catalog {
    if Enabled(c, m) then Step(c, codec, m) else c
  }

  ghost function Replay(c: Catalog, codec: Codec, ms: seq<Mutation>): Catalog {
    if ms == [] then c else Apply(Replay(c, codec, ms[..|ms| - 1]), codec, ms[|ms| - 1])
  }

  lemma ReplayAppend(c: Catalog, codec: Codec, ms: seq<Mutation>, m: Mutation)
    ensures Replay(c, codec, ms + [m]) == Apply(Replay(c, codec, ms), codec, m)
  {
    assert (ms + [m])[..|ms|] == ms;
  }

  ghost predicate Possible(l: Life, e: Event) {
    match e
    case Request(m, _) => l.up && Enabled(l.disk, m)
    case Crash => l.up
    case CrashDuring(m, _) => l.up && !l.blocked && Enabled(l.disk, m)
    case Reopen => !l.up
    case FailedReopen(_) => !l.up
  }

  function Acknowledge(s: Session, m: Mutation, o: Outcome): Session {
    if o.reply.Ok? then s.(acked := s.acked + [m])
    else if o.blocked && s.doubt.None? then s.(doubt := Some(m)) else s
  }

  ghost function Next(l: Life, codec: Codec, e: Event): Life
    requires Possible(l, e)
  {
    match e
    case Request(m, engine) =>
      var o := Call(l.disk, l.blocked, codec, m, engine);
      l.(disk := o.disk, blocked := o.blocked, now := Acknowledge(l.now, m, o))
    case Crash => l.(up := false)
    case CrashDuring(m, landed) =>
      l.(up := false, disk := if landed then Apply(l.disk, codec, m) else l.disk, now := l.now.(doubt := Some(m)))
    case Reopen =>
      Life(Apply(l.disk, codec, CloseAdmission), false, true, l.past + [l.now, Session([CloseAdmission], None)],
        Session([], None))
    case FailedReopen(landed) =>
      l.(disk := if landed then Apply(l.disk, codec, CloseAdmission) else l.disk,
         past := l.past + [l.now], now := Session([], Some(CloseAdmission)))
  }

  /**
    `disk` is what is left of `c` after some sessions: every acknowledged mutation, in
    order, and after those of each session at most its one doubtful mutation.
    */
  ghost predicate Recovered(c: Catalog, codec: Codec, sessions: seq<Session>, disk: Catalog) {
    if sessions == [] then disk == c
    else
      var s := sessions[|sessions| - 1];
      exists base | Recovered(c, codec, sessions[..|sessions| - 1], base) :: SessionLeft(base, codec, s, disk)
  }

  ghost predicate SessionLeft(base: Catalog, codec: Codec, s: Session, disk: Catalog) {
    || disk == Replay(base, codec, s.acked)
    || (s.doubt.Some? && disk == Replay(base, codec, s.acked + [s.doubt.value]))
  }

  /** While the store is up and unfenced nothing is in doubt and the disk is exactly what was acknowledged. */
  ghost predicate Explained(c: Catalog, codec: Codec, l: Life, base: Catalog) {
    && Recovered(c, codec, l.past, base)
    && SessionLeft(base, codec, l.now, l.disk)
    && (l.up && !l.blocked ==> l.now.doubt.None?)
    && History(l.disk, codec)
  }

  lemma RecoveredAppend(c: Catalog, codec: Codec, past: seq<Session>, base: Catalog, s: Session, disk: Catalog)
    requires Recovered(c, codec, past, base) && SessionLeft(base, codec, s, disk)
    ensures Recovered(c, codec, past + [s], disk)
  {
    var all := past + [s];
    assert all[..|all| - 1] == past && all[|all| - 1] == s;
    assert Recovered(c, codec, all[..|all| - 1], base);
  }

  // -------------------------------------------------------------- single calls

  /** A fenced store never changes again before it is reopened, and every call on it is refused. */
  lemma FencedNeverChanges(disk: Catalog, codec: Codec, m: Mutation, engine: Engine)
    requires Keyed(disk) && (m.Insert? ==> m.newId !in disk.entries)
    ensures Call(disk, true, codec, m, engine) == Outcome(disk, true, Err(Unavailable))
  {
  }

  /**
    A reply of success means exactly the mutation is durable; a failure that leaves the
    store usable means nothing changed; any other failure fences it.
    */
  lemma CallOutcome(disk: Catalog, codec: Codec, m: Mutation, engine: Engine)
    requires Keyed(disk) && (m.Insert? ==> m.newId !in disk.entries)
    ensures var o := Call(disk, false, codec, m, engine);
            && (o.reply.Ok? ==> !o.blocked && o.disk == Step(disk, codec, m) && Body(disk, codec, m).Ok?)
            && (o.reply.Err? && !o.blocked ==> o.disk == disk)
            && (o.disk == disk || o.disk == Step(disk, codec, m))
  {
    hide InsertBody, ReplaceBody, FavoriteBody, WipeBody, RegisterArtifactBody;
  }

  /** Every statement, the commit, the sidecar check and a rollback work. */
  predicate Working(engine: Engine) {
    engine.begins && engine.commit == Acknowledged && engine.sidecarsProtected && engine.rollsBack
  }

  /** With a working engine an unfenced store answers exactly what the mutation comes to, and is never fenced. */
  lemma WorkingEngineAnswers(disk: Catalog, codec: Codec, m: Mutation, engine: Engine)
    requires Keyed(disk) && (m.Insert? ==> m.newId !in disk.entries) && Working(engine)
    ensures var o := Call(disk, false, codec, m, engine);
      && !o.blocked && o.disk == Step(disk, codec, m)
      && o.reply == match Body(disk, codec, m) case Ok((_, reply)) => Ok(reply) case Err(e) => Err(e)
  {
    hide InsertBody, ReplaceBody, FavoriteBody, WipeBody;
  }

  // --------------------------------------------------------------- whole runs

  lemma ApplyKeepsHistory(c: Catalog, codec: Codec, m: Mutation)
    requires History(c, codec)
    ensures History(Apply(c, codec, m), codec)
  {
    hide History, Body;
    if Enabled(c, m) { BodyKeepsHistory(c, codec, m); }
  }

  lemma RequestStaysExplained(c: Catalog, codec: Codec, l: Life, base: Catalog, m: Mutation, engine: Engine)
    requires Explained(c, codec, l, base) && l.up && Enabled(l.disk, m)
    ensures Explained(c, codec, Next(l, codec, Request(m, engine)), base)
  {
    hide Call, History, Step, Recovered;
    ApplyKeepsHistory(l.disk, codec, m);
    if l.blocked {
      FencedNeverChanges(l.disk, codec, m, engine);
    } else {
      CallOutcome(l.disk, codec, m, engine);
      ReplayAppend(base, codec, l.now.acked, m);
    }
  }

  lemma EventStaysExplained(c: Catalog, codec: Codec, l: Life, base: Catalog, e: Event) returns (next: Catalog)
    requires Explained(c, codec, l, base) && Possible(l, e)
    ensures Explained(c, codec, Next(l, codec, e), next)
  {
    hide Call, History, Step, Recovered;
    next := base;
    match e {
      case Request(m, engine) => RequestStaysExplained(c, codec, l, base, m, engine);
      case Crash =>
      case CrashDuring(m, landed) =>
        ApplyKeepsHistory(l.disk, codec, m);
        ReplayAppend(base, codec, l.now.acked, m);
      case Reopen =>
        next := Apply(l.disk, codec, CloseAdmission);
        ApplyKeepsHistory(l.disk, codec, CloseAdmission);
        RecoveredAppend(c, codec, l.past, base, l.now, l.disk);
        ReplayAppend(l.disk, codec, [], CloseAdmission);
        assert [] + [CloseAdmission] == [CloseAdmission];
        RecoveredAppend(c, codec, l.past + [l.now], l.disk, Session([CloseAdmission], None), next);
        var closing := Session([CloseAdmission], None);
        assert l.past + [l.now] + [closing] == l.past + [l.now, closing];
      case FailedReopen(landed) =>
        next := l.disk;
        ApplyKeepsHistory(l.disk, codec, CloseAdmission);
        RecoveredAppend(c, codec, l.past, base, l.now, l.disk);
        ReplayAppend(l.disk, codec, [], CloseAdmission);
    }
  }

  ghost predicate LifeRun(lives: seq<Life>, events: seq<Event>, codec: Codec) {
    && |lives| == |events| + 1
    && forall k | 0 <= k < |events| :: Possible(lives[k], events[k]) && lives[k + 1] == Next(lives[k], codec, events[k])
  }

  /**
    Over any run with crashes, the recovered tables are the acknowledged mutations in
    order, and per process lifetime at most its one unacknowledged last mutation. They
    stay well formed and within the retention limits throughout.
    */
  lemma {:induction false} CrashesLoseNothingAcknowledged(lives: seq<Life>, events: seq<Event>, codec: Codec)
    returns (base: Catalog)
    requires LifeRun(lives, events, codec) && History(lives[0].disk, codec)
    requires lives[0] == Life(lives[0].disk, false, true, [], Session([], None))
    ensures Explained(lives[0].disk, codec, lives[|events|], base)
    ensures var last := lives[|events|]; Recovered(lives[0].disk, codec, last.past + [last.now], last.disk)
  {
    hide History, Next, Possible;
    if events == [] {
      base := lives[0].disk;
    } else {
      var n := |events| - 1;
      assert lives[..|events|][n] == lives[n];
      var before := CrashesLoseNothingAcknowledged(lives[..|events|], events[..n], codec);
      base := EventStaysExplained(lives[0].disk, codec, lives[n], before, events[n]);
    }
    var last := lives[|events|];
    RecoveredAppend(lives[0].disk, codec, last.past, base, last.now, last.disk);
  }

  // ----------------------------------------------------------- fence and admission

  predicate Reopens(e: Event) { e.Reopen? || e.FailedReopen? }

  /** Between two reopenings; requests and crashes may happen at any of the events. */
  ghost predicate SameProcess(events: seq<Event>, i: nat, j: nat) {
    i <= j <= |events| && forall k | i <= k < j :: !Reopens(events[k])
  }

  /** Once fenced, nothing is written or acknowledged any more until the store is reopened, whatever is asked of it. */
  lemma {:induction false} FencedUntilReopened(lives: seq<Life>, events: seq<Event>, codec: Codec, i: nat, j: nat)
    requires LifeRun(lives, events, codec) && SameProcess(events, i, j) && lives[i].blocked
    ensures lives[j].blocked && lives[j].disk == lives[i].disk
    ensures lives[j].past == lives[i].past && lives[j].now.acked == lives[i].now.acked
    ensures j < |events| && events[j].Request? ==>
      Keyed(lives[j].disk)
        && Call(lives[j].disk, lives[j].blocked, codec, events[j].m, events[j].engine).reply == Err(Unavailable)
  {
    if i < j {
      FencedUntilReopened(lives, events, codec, i, j - 1);
      FencedEvent(lives[j - 1], codec, events[j - 1]);
    }
    if j < |events| && events[j].Request? {
      FencedNeverChanges(lives[j].disk, codec, events[j].m, events[j].engine);
    }
  }

  lemma FencedEvent(l: Life, codec: Codec, e: Event)
    requires Possible(l, e) && l.blocked && !Reopens(e)
    ensures var n := Next(l, codec, e); n.blocked && n.disk == l.disk && n.past == l.past && n.now.acked == l.now.acked
  {
    hide Body;
    if e.Request? { FencedNeverChanges(l.disk, codec, e.m, e.engine); }
  }

  predicate AsksForAdmission(m: Mutation) { m.ApplyPolicy? && m.policy.admission }

  lemma EvictKeepsPolicy(c: Catalog, p: Policy, prot: Option<Id>)
    ensures Evict(c, p, prot).policy == c.policy
  {}

  lemma ConcludeKeepsPolicy(c: Catalog, id: Id)
    ensures Conclude(c, id).Ok? ==> Conclude(c, id).value.0.policy == c.policy
  {
    hide Evict, IsCurrent;
    EvictKeepsPolicy(c, c.policy, Some(id));
  }

  lemma InsertKeepsPolicy(c: Catalog, codec: Codec, mime: string, bytes: Bytes, view: ContentView, newId: Id)
    requires Keyed(c) && newId !in c.entries
    ensures var r := InsertBody(c, codec, mime, bytes, view, newId); r.Ok? ==> r.value.0.policy == c.policy
  {
    hide Evict, Conclude, IsCurrent, Twins, Newest, SummaryRow;
    var twins := Twins(c, codec, mime, bytes);
    var n := c.(revision := c.revision + 1, sequence := c.sequence + 1);
    if twins != {} {
      ConcludeKeepsPolicy(Promoted(n, Newest(c.entries, twins)), Newest(c.entries, twins));
    } else {
      ConcludeKeepsPolicy(Appended(n, codec, mime, bytes, view, newId), newId);
    }
  }

  lemma ContentBodiesKeepPolicy(c: Catalog, codec: Codec, m: Mutation)
    requires Keyed(c) && (m.Insert? ==> m.newId !in c.entries)
    requires m.Insert? || m.Replace? || m.Favorite?
    ensures Body(c, codec, m).Ok? ==> Body(c, codec, m).value.0.policy == c.policy
  {
    hide Evict, Conclude, IsCurrent, InsertBody, SummaryRow;
    match m
    case Insert(mime, bytes, view, newId) => InsertKeepsPolicy(c, codec, mime, bytes, view, newId);
    case Replace(id, expected, mime, bytes, view) =>
      if id in c.entries {
        var n := Rewritten(c.(revision := c.revision + 1), codec, id, mime, bytes, view);
        ConcludeKeepsPolicy(WriteContent(n, codec, id, mime, bytes, view), id);
      }
    case Favorite(id, expected, value) =>
      if id in c.entries { EvictKeepsPolicy(Moved(c.(revision := c.revision + 1), id, value), c.policy, Some(id)); }
  }

  lemma PolicyBodyKeepsClosed(c: Catalog, codec: Codec, m: Mutation)
    requires Keyed(c) && !c.policy.admission && !AsksForAdmission(m) && !(m.Insert? || m.Replace? || m.Favorite?)
    ensures Body(c, codec, m).Ok? ==> !Body(c, codec, m).value.0.policy.admission
  {
    hide Evict, Matching, Present;
    if m.ApplyPolicy? { EvictKeepsPolicy(c.(policy := m.policy), m.policy, None); }
  }

  lemma ApplyKeepsClosed(c: Catalog, codec: Codec, m: Mutation)
    requires !c.policy.admission && !AsksForAdmission(m)
    ensures !Apply(c, codec, m).policy.admission
  {
    hide Body;
    if Enabled(c, m) {
      if m.Insert? || m.Replace? || m.Favorite? {
        ContentBodiesKeepPolicy(c, codec, m);
      } else {
        PolicyBodyKeepsClosed(c, codec, m);
      }
    }
  }

  /** Admission is a live decision: reopening closes it and changes nothing else. */
  lemma ReopenClosesAdmission(l: Life, codec: Codec)
    requires Possible(l, Reopen) && Keyed(l.disk)
    ensures var n := Next(l, codec, Reopen);
            !n.disk.policy.admission && n.disk.entries == l.disk.entries && n.disk.payloads == l.disk.payloads &&
            n.disk.revision == l.disk.revision && n.up && !n.blocked
  {
  }

  lemma EventKeepsClosed(l: Life, codec: Codec, e: Event)
    requires Possible(l, e) && !l.disk.policy.admission
    requires (e.Request? || e.CrashDuring?) ==> !AsksForAdmission(e.m)
    ensures !Next(l, codec, e).disk.policy.admission
  {
    hide Apply, Step;
    match e
    case Request(m, engine) =>
      ApplyKeepsClosed(l.disk, codec, m);
      if l.blocked { FencedNeverChanges(l.disk, codec, m, engine); } else { RequestApplies(l, codec, m, engine); }
    case CrashDuring(m, landed) => ApplyKeepsClosed(l.disk, codec, m);
    case Crash =>
    case _ => ApplyKeepsClosed(l.disk, codec, CloseAdmission);
  }

  lemma RequestApplies(l: Life, codec: Codec, m: Mutation, engine: Engine)
    requires Possible(l, Request(m, engine)) && !l.blocked
    ensures var d := Next(l, codec, Request(m, engine)).disk; d == l.disk || d == Apply(l.disk, codec, m)
  {
    hide Call, Step;
    CallOutcome(l.disk, codec, m, engine);
  }

  lemma {:induction false} LifeKeepsHistory(lives: seq<Life>, events: seq<Event>, codec: Codec, k: nat)
    requires LifeRun(lives, events, codec) && History(lives[0].disk, codec) && k < |lives|
    ensures History(lives[k].disk, codec) && Keyed(lives[k].disk)
  {
    hide Call, Step, Body, Contents, Bounded, Distinct, Retained;
    if k > 0 {
      LifeKeepsHistory(lives, events, codec, k - 1);
      EventKeepsHistory(lives[k - 1], codec, events[k - 1]);
    }
  }

  lemma EventKeepsHistory(l: Life, codec: Codec, e: Event)
    requires Possible(l, e) && History(l.disk, codec)
    ensures History(Next(l, codec, e).disk, codec)
  {
    hide Call, Step, History;
    match e
    case Request(m, engine) =>
      ApplyKeepsHistory(l.disk, codec, m);
      if l.blocked { FencedNeverChanges(l.disk, codec, m, engine); } else { RequestApplies(l, codec, m, engine); }
    case CrashDuring(m, landed) => ApplyKeepsHistory(l.disk, codec, m);
    case Crash =>
    case _ => ApplyKeepsHistory(l.disk, codec, CloseAdmission);
  }

  /**
    Admission found open at any time was asked for since the last reopening: by a request
    to apply a policy with admission, or by one that a crash interrupted.
    */
  lemma {:induction false} OpenAdmissionWasRequested(lives: seq<Life>, events: seq<Event>, codec: Codec, i: nat, j: nat)
    returns (k: nat)
    requires LifeRun(lives, events, codec) && History(lives[0].disk, codec) && i < j <= |events| && events[i] == Reopen
    requires lives[j].disk.policy.admission
    ensures i < k < j && (events[k].Request? || events[k].CrashDuring?) && AsksForAdmission(events[k].m)
  {
    hide Next, AsksForAdmission, History, Keyed;
    LifeKeepsHistory(lives, events, codec, i);
    ReopenClosesAdmission(lives[i], codec);
    k := j - 1;
    if k > i && !((events[k].Request? || events[k].CrashDuring?) && AsksForAdmission(events[k].m)) {
      if !lives[k].disk.policy.admission { EventKeepsClosed(lives[k], codec, events[k]); }
      k := OpenAdmissionWasRequested(lives, events, codec, i, k);
    }
  }
}
