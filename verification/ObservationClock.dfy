/**
  The observation clock of the API: it turns catalog tokens, which are only ever
  compared for equality, into a revision clients may order, and two answers that
  carry the same one saw the same catalog.
  */
module ObservationClock {
  import opened Wrappers
  import opened Tables
  import opened Mutations
  import opened Runs
  import opened Search
  import opened Paging

  const LAST_REVISION: nat := 9_007_199_254_740_991

  datatype Reading = Reading(token: Option<nat>, revision: nat)

  datatype Event = Observe(token: nat) | Invalidate

  /** The clock after one event; an exhausted clock refuses a new token and stays as it was. */
  function Tick(r: Reading, e: Event): Reading {
    match e
    case Invalidate => r.(token := None)
    case Observe(t) =>
      if r.token == Some(t) || r.revision >= LAST_REVISION then r else Reading(Some(t), r.revision + 1)
  }

  function Answered(r: Reading, t: nat): Result<nat, ApiError> {
    if r.token == Some(t) then Ok(r.revision)
    else if r.revision >= LAST_REVISION then Err(ClockExhausted)
    else Ok(r.revision + 1)
  }

  class Clock {
    var token: Option<nat>
    var revision: nat

    function Now(): Reading
      reads this
    {
      Reading(token, revision)
    }

    constructor ()
      ensures Now() == Reading(None, 0)
    {
      token := None;
      revision := 0;
    }

    method Observe(t: nat) returns (r: Result<nat, ApiError>)
      modifies this
      ensures Now() == Tick(old(Now()), Event.Observe(t)) && r == Answered(old(Now()), t)
      ensures r.Ok? ==> r.value == revision && token == Some(t)
    {
      if token != Some(t) {
        var advanced := Advance();
        if advanced.Err? { return Err(advanced.error); }
        token := Some(t);
      }
      r := Ok(revision);
    }

    /** An observation through the API: a failed read of the token forgets the token and answers that error. */
    method ObserveHistory(read: Result<nat, ApiError>) returns (r: Result<nat, ApiError>)
      modifies this
      ensures Now() == Tick(old(Now()), if read.Ok? then Event.Observe(read.value) else Event.Invalidate)
      ensures r.Ok? <==> read.Ok? && (old(token) == Some(read.value) || old(revision) < LAST_REVISION)
      ensures r.Ok? ==> r.value == revision && token == Some(read.value)
      ensures r.Err? ==> revision == old(revision) && r.error == if read.Ok? then ClockExhausted else read.error
      ensures read.Err? ==> token == None
    {
      match read
      case Err(e) =>
        Forget();
        r := Err(e);
      case Ok(t) => r := Observe(t);
    }

    method Forget()
      modifies this
      ensures Now() == Tick(old(Now()), Event.Invalidate)
    {
      token := None;
    }

    method Advance() returns (r: Result<(), ApiError>)
      modifies this`revision
      ensures r.Ok? <==> old(revision) < 9007199254740991
      ensures r.Err? ==> r.error == ClockExhausted
      ensures revision == if r.Ok? then old(revision) + 1 else old(revision)
    {
      if revision >= LAST_REVISION { return Err(ClockExhausted); }
      revision := revision + 1;
      r := Ok(());
    }
  }

  ghost predicate Ticks(readings: seq<Reading>, events: seq<Event>) {
    |readings| == |events| + 1 && forall k | 0 <= k < |events| :: readings[k + 1] == Tick(readings[k], events[k])
  }

  /** From an observed token on, an unchanged revision means the token never changed either. */
  lemma {:induction false} UnchangedRevisionKeepsToken(readings: seq<Reading>, events: seq<Event>, i: nat, j: nat,
      t: nat)
    requires Ticks(readings, events) && i <= j < |readings| && readings[i].token == Some(t)
    ensures readings[i].revision <= readings[j].revision
    ensures readings[i].revision == readings[j].revision ==> readings[j].token == Some(t) || readings[j].token == None
  {
    if i < j { UnchangedRevisionKeepsToken(readings, events, i, j - 1, t); }
  }

  /** Two answered observations with the same revision observed the same token, whatever happened between them. */
  lemma EqualRevisionEqualToken(readings: seq<Reading>, events: seq<Event>, i: nat, j: nat)
    requires Ticks(readings, events) && i < j < |events| && events[i].Observe? && events[j].Observe?
    requires Answered(readings[i], events[i].token).Ok? && Answered(readings[j], events[j].token).Ok?
    requires Answered(readings[i], events[i].token) == Answered(readings[j], events[j].token)
    ensures events[i].token == events[j].token
  {
    UnchangedRevisionKeepsToken(readings, events, i + 1, j, events[i].token);
    assert readings[i + 1] == Tick(readings[i], events[i]);
  }

  /** An observation that differs from the event just before it. */
  predicate News(events: seq<Event>, k: nat)
    requires k < |events|
  {
    events[k].Observe? && (k == 0 || events[k - 1] != events[k])
  }

  function NewsBefore(events: seq<Event>, k: nat): set<nat>
    requires k <= |events|
  {
    set j: nat | j < k && News(events, j)
  }

  /**
    Until it is exhausted the clock remembers exactly the last observation, unless it was
    invalidated since, and its revision counts the observations that were news.
    */
  lemma {:induction false} RevisionCountsNews(readings: seq<Reading>, events: seq<Event>, k: nat)
    requires Ticks(readings, events) && k < |readings| && readings[0] == Reading(None, 0)
    requires |events| <= 9007199254740991
    ensures readings[k].revision == |NewsBefore(events, k)|
    ensures readings[k].token == if k > 0 && events[k - 1].Observe? then Some(events[k - 1].token) else None
    ensures readings[k].revision <= k
  {
    hide NewsBefore;
    assert |NewsBefore(events, 0)| == 0 by { NoNewsYet(events); }
    if k > 0 {
      RevisionCountsNews(readings, events, k - 1);
      assert readings[k] == Tick(readings[k - 1], events[k - 1]);
      OneMoreNews(events, k - 1);
    }
  }

  lemma NoNewsYet(events: seq<Event>)
    ensures NewsBefore(events, 0) == {}
  {
  }

  lemma OneMoreNews(events: seq<Event>, k: nat)
    requires k < |events|
    ensures |NewsBefore(events, k + 1)| == |NewsBefore(events, k)| + if News(events, k) then 1 else 0
  {
    hide News;
    assert NewsBefore(events, k + 1) == NewsBefore(events, k) + if News(events, k) then {k} else {};
  }

  // ------------------------------------------------------------ history.query

  /** Where in the run and on the clock one history.query made its looks. */
  datatype HistoryCall = HistoryCall(before: nat, visit: Visit, after: nat, tick: nat, scope: Scope,
      cursor: Option<Sealed>)

  datatype Stamped = Stamped(answer: Answer, revision: nat)

  /** observe(before), the paged query, observe(after): under one hold of the clock lock. */
  function QueryHistory(h: HistorySearch, clock: Reading, before: nat, s0: Catalog, s1: Catalog, s2: Catalog,
      after: nat, call: HistoryCall): Result<Stamped, ApiError>
    requires Keyed(s1)
  {
    match Answered(clock, before)
    case Err(e) => Err(e)
    case Ok(_) => match QueryOnce(h, s0, s1, s2, call.scope, call.cursor, call.visit)
      case Err(e) => Err(e)
      case Ok(a) => match Answered(Tick(clock, Observe(before)), after)
        case Err(e) => Err(e)
        case Ok(r) => if before != after then Err(StaleHistory) else Ok(Stamped(a, r))
  }

  /** The call's two observations are consecutive clock events, and its looks at the store are in order. */
  ghost predicate Placed(states: seq<Catalog>, events: seq<Event>, c: HistoryCall) {
    && c.before <= c.visit.t0 <= c.visit.t1 <= c.visit.t2 <= c.after < |states| && Keyed(states[c.visit.t1])
    && c.tick + 1 < |events|
    && events[c.tick] == Observe(states[c.before].revision)
    && events[c.tick + 1] == Observe(states[c.after].revision)
  }

  function CallAt(h: HistorySearch, states: seq<Catalog>, readings: seq<Reading>, c: HistoryCall)
    : Result<Stamped, ApiError>
    requires c.before < |states| && c.after < |states| && c.visit.t0 < |states| && c.visit.t1 < |states|
      && c.visit.t2 < |states|
    requires Keyed(states[c.visit.t1]) && c.tick < |readings|
  {
    QueryHistory(h, readings[c.tick], states[c.before].revision, states[c.visit.t0], states[c.visit.t1],
      states[c.visit.t2], states[c.after].revision, c)
  }

  /** An answered call saw one catalog from its first to its last look. */
  lemma AnsweredSawOneCatalog(h: HistorySearch, states: seq<Catalog>, ops: seq<Mutation>, codec: Codec,
      readings: seq<Reading>, events: seq<Event>, c: HistoryCall)
    requires Run(states, ops, codec) && Ticks(readings, events) && Placed(states, events, c)
    requires CallAt(h, states, readings, c).Ok?
    ensures states[c.before].revision == states[c.visit.t1].revision == states[c.after].revision
    ensures
      Answered(readings[c.tick + 1], states[c.after].revision) == Ok(CallAt(h, states, readings, c).value.revision)
  {
    hide Run, QueryOnce;
    RevisionIdentifiesCatalog(states, ops, codec, c.before, c.visit.t1);
    RevisionIdentifiesCatalog(states, ops, codec, c.visit.t1, c.after);
  }

  /** The other direction: a query is answered when its looks find one revision and the clock is not near its end. */
  lemma QuietQueryIsAnswered(h: HistorySearch, states: seq<Catalog>, readings: seq<Reading>, events: seq<Event>,
      c: HistoryCall)
    requires Ticks(readings, events) && Placed(states, events, c) && readings[c.tick].revision + 1 < 9007199254740991
    requires states[c.before].revision == states[c.after].revision
    requires QueryOnce(h, states[c.visit.t0], states[c.visit.t1], states[c.visit.t2], c.scope, c.cursor, c.visit).Ok?
    ensures CallAt(h, states, readings, c).Ok?
    ensures CallAt(h, states, readings, c).value.answer ==
      QueryOnce(h, states[c.visit.t0], states[c.visit.t1], states[c.visit.t2], c.scope, c.cursor, c.visit).value
  {
    hide QueryOnce;
  }

  /**
    Two successful history queries stamped with the same observation revision read identical
    tables, so for equal parameters they answered from the same full list.
    */
  lemma EqualStampsSawTheSameCatalog(h: HistorySearch, states: seq<Catalog>, ops: seq<Mutation>, codec: Codec,
      readings: seq<Reading>, events: seq<Event>, a: HistoryCall, b: HistoryCall)
    requires Run(states, ops, codec) && Ticks(readings, events)
    requires Placed(states, events, a) && Placed(states, events, b) && a.tick < b.tick && a.after <= b.before
    requires CallAt(h, states, readings, a).Ok? && CallAt(h, states, readings, b).Ok?
    requires CallAt(h, states, readings, a).value.revision == CallAt(h, states, readings, b).value.revision
    ensures SameTables(states[a.visit.t1], states[b.visit.t1])
    ensures forall needle, collapse ::
              FullList(states[a.visit.t1], needle, collapse) == FullList(states[b.visit.t1], needle, collapse)
  {
    hide Run, CallAt, FullList, Keyed;
    AnsweredSawOneCatalog(h, states, ops, codec, readings, events, a);
    AnsweredSawOneCatalog(h, states, ops, codec, readings, events, b);
    EqualRevisionEqualToken(readings, events, a.tick + 1, b.tick + 1);
    RevisionIdentifiesCatalog(states, ops, codec, a.visit.t1, b.visit.t1);
    forall needle, collapse
      ensures FullList(states[a.visit.t1], needle, collapse) == FullList(states[b.visit.t1], needle, collapse)
    {
      SameTablesSameList(states[a.visit.t1], states[b.visit.t1], needle, collapse);
    }
  }
}
