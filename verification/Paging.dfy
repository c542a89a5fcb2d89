/**
  Cursor paging above the store: every page is an optimistic read between two
  looks at the catalog revision, and a cursor carries that revision, sealed,
  to the next page. Other clients mutate the store between any two commands.
  */
module Paging {
  import opened Wrappers
  import opened Tables
  import opened Mutations
  import opened Runs
  import opened Search

  const CURSOR_SECONDS: nat := 120

  datatype ApiError = StaleCursor | StaleHistory | BackendFailed | ClockExhausted

  // -------------------------------------------------------------- sealed cursors

  datatype Cursor = Cursor(token: nat, offset: nat, expires: nat)

  datatype Scope = Scope(query: string, generation: nat, owner: Option<string>, collapse: bool)

  /** The MAC, idealised: a tag names the key, the body and the scope it was made from. */
  datatype Tag = Tag(key: nat, body: Cursor, scope: Scope)

  datatype Sealed = Sealed(body: Cursor, tag: Tag)

  /** `fold` is the trimming and case folding applied to the typed query. */
  datatype HistorySearch = HistorySearch(key: nat, fold: string -> string) {
    function Encode(cursor: Cursor, scope: Scope): Sealed {
      Sealed(cursor, Tag(key, cursor, scope))
    }

    function Decode(value: Sealed, scope: Scope, elapsed: nat): Result<Cursor, ApiError> {
      if value.tag != Tag(key, value.body, scope) then Err(StaleCursor)
      else if value.body.expires <= elapsed then Err(StaleCursor)
      else Ok(value.body)
    }

    /** A cursor opens exactly under the process key and scope that sealed it, until it expires. */
    lemma DecodeIff(value: Sealed, scope: Scope, elapsed: nat, cursor: Cursor)
      ensures Decode(value, scope, elapsed) == Ok(cursor)
        <==> value == Encode(cursor, scope) && elapsed < cursor.expires
      ensures forall other: HistorySearch, scope': Scope ::
                Decode(other.Encode(cursor, scope'), scope, elapsed) == Ok(cursor) <==>
                other.key == key && scope' == scope && elapsed < cursor.expires
    {
    }
  }

  // ------------------------------------------------------------------- one page

  datatype Answer = Answer(revision: nat, entries: seq<EntrySummary>, total: nat, hasMore: bool, next: Option<Sealed>)

  /** When one request looked at the store: token, page, token; and what it asked for. */
  datatype Visit = Visit(t0: nat, t1: nat, t2: nat, elapsed: nat, limit: nat, backendOk: bool)

  function CursorFor(h: HistorySearch, token: nat, scope: Scope, given: Option<Sealed>, elapsed: nat)
    : Result<Cursor, ApiError>
  {
    match given
    case Some(value) => h.Decode(value, scope, elapsed)
    case None => Ok(Cursor(token, 0, elapsed + CURSOR_SECONDS))
  }

  function QueryOnce(h: HistorySearch, s0: Catalog, s1: Catalog, s2: Catalog, scope: Scope, given: Option<Sealed>,
      v: Visit)
    : Result<Answer, ApiError>
    requires Keyed(s1)
  {
    if !v.backendOk then Err(BackendFailed)
    else match CursorFor(h, s0.revision, scope, given, v.elapsed)
      case Err(e) => Err(e)
      case Ok(cursor) =>
        if cursor.token != s0.revision then Err(StaleCursor)
        else
          var page := LiteralPage(s1,
            HistoryQuery(h.fold(scope.query), scope.generation, cursor.offset, v.limit, scope.collapse));
          if cursor.token != s2.revision then Err(StaleCursor)
          else
            var consumed := cursor.offset + |page.entries|;
            var next := if page.hasMore then Some(h.Encode(Cursor(cursor.token, consumed, cursor.expires), scope))
              else None;
            Ok(Answer(cursor.token, page.entries, page.total, page.hasMore, next))
  }

  // ------------------------------------------------------------------ the walk

  datatype WalkResult = Complete(entries: seq<EntrySummary>) | Unfinished | Failed(error: ApiError)

  /** The looks of all requests are ordered in time and each falls on a state of the run. */
  ghost predicate Timely(states: seq<Catalog>, visits: seq<Visit>) {
    && (forall k | 0 <= k < |visits| ::
          visits[k].t0 <= visits[k].t1 <= visits[k].t2 < |states| && Keyed(states[visits[k].t1]))
    && forall k | 0 <= k < |visits| - 1 :: visits[k].t2 <= visits[k + 1].t0
  }

  lemma TimelyRest(states: seq<Catalog>, visits: seq<Visit>)
    requires Timely(states, visits) && visits != []
    ensures Timely(states, visits[1..])
  {
    hide Keyed;
    var rest := visits[1..];
    forall k | 0 <= k < |rest| ensures rest[k] == visits[k + 1] {}
  }

  /** Follow `next` until there is none; the last visit must be the one that ends it. */
  ghost function Walk(h: HistorySearch, states: seq<Catalog>, scope: Scope, visits: seq<Visit>, given: Option<Sealed>)
    : WalkResult
    requires visits != [] && Timely(states, visits)
  {
    var v := visits[0];
    TimelyRest(states, visits);
    match QueryOnce(h, states[v.t0], states[v.t1], states[v.t2], scope, given, v)
    case Err(e) => Failed(e)
    case Ok(a) =>
      if |visits| == 1 then (if a.hasMore then Unfinished else Complete(a.entries))
      else if !a.hasMore then Unfinished
      else match Walk(h, states, scope, visits[1..], a.next)
        case Complete(rest) => Complete(a.entries + rest)
        case other => other
  }

  /** A page is answered only if nothing was committed between its two looks at the token. */
  lemma PageSawOneRevision(h: HistorySearch, states: seq<Catalog>, ops: seq<Mutation>, codec: Codec, scope: Scope,
      given: Option<Sealed>, v: Visit)
    requires Run(states, ops, codec) && v.t0 <= v.t1 <= v.t2 < |states| && Keyed(states[v.t1])
    requires QueryOnce(h, states[v.t0], states[v.t1], states[v.t2], scope, given, v).Ok?
    ensures states[v.t0].revision == states[v.t1].revision == states[v.t2].revision
  {
    hide Run, LiteralPage;
    RevisionIdentifiesCatalog(states, ops, codec, v.t0, v.t1);
    RevisionIdentifiesCatalog(states, ops, codec, v.t1, v.t2);
  }

  /** Exactly when a page is answered, and that it is then the slice its cursor names. */
  lemma PageOrStale(h: HistorySearch, s0: Catalog, s1: Catalog, s2: Catalog, scope: Scope, given: Option<Sealed>,
      v: Visit)
    requires Keyed(s1) && v.backendOk
    ensures var r := QueryOnce(h, s0, s1, s2, scope, given, v);
            var cursor := CursorFor(h, s0.revision, scope, given, v.elapsed);
            && (r.Ok? <==> cursor.Ok? && cursor.value.token == s0.revision == s2.revision)
            && (r.Err? ==> r.error == StaleCursor)
            && (r.Ok? ==>
                  var all, limit := FullList(s1, h.fold(scope.query), scope.collapse),
                    Search.Min(v.limit, MAX_QUERY_LIMIT);
                  && r.value.entries == Slice(all, cursor.value.offset, limit)
                  && r.value.revision == s0.revision && r.value.total == |all|
                  && (!r.value.hasMore ==> r.value.next == None)
                  && (r.value.hasMore <==> cursor.value.offset + limit < |all|)
                  && (r.value.hasMore ==> r.value.next == Some(h.Encode(
                        Cursor(cursor.value.token, cursor.value.offset + limit, cursor.value.expires), scope))))
  {
    hide LiteralPage, FullList, Keyed;
    var cursor := CursorFor(h, s0.revision, scope, given, v.elapsed);
    if cursor.Ok? {
      PageIsSlice(s1,
        HistoryQuery(h.fold(scope.query), scope.generation, cursor.value.offset, v.limit, scope.collapse));
    }
  }

  /** Every look of every request found the same catalog revision. */
  ghost predicate AllAt(states: seq<Catalog>, visits: seq<Visit>, token: nat)
    requires Timely(states, visits)
  {
    forall k | 0 <= k < |visits| ::
      states[visits[k].t0].revision == states[visits[k].t1].revision == states[visits[k].t2].revision == token
  }

  lemma AllAtExtends(states: seq<Catalog>, visits: seq<Visit>, cursor: Cursor)
    requires |visits| > 1 && Timely(states, visits) && Timely(states, visits[1..])
      && AllAt(states, visits[1..], cursor.token)
    requires var v := visits[0]; states[v.t0].revision == states[v.t1].revision == states[v.t2].revision == cursor.token
    requires visits[1].elapsed < cursor.expires
    requires forall k | 1 <= k < |visits[1..]| :: visits[1..][k].elapsed < cursor.expires
    ensures AllAt(states, visits, cursor.token)
    ensures forall k | 1 <= k < |visits| :: visits[k].elapsed < cursor.expires
  {
    hide Keyed;
    var rest := visits[1..];
    forall k | 1 <= k < |visits|
      ensures var v := visits[k];
        states[v.t0].revision == states[v.t1].revision == states[v.t2].revision == cursor.token
      ensures visits[k].elapsed < cursor.expires
    {
      assert rest[k - 1] == visits[k];
    }
  }

  lemma TimelyFirst(states: seq<Catalog>, visits: seq<Visit>)
    requires Timely(states, visits) && visits != []
    ensures visits[0].t0 <= visits[0].t1 <= visits[0].t2 < |states| && Keyed(states[visits[0].t1])
  {}

  lemma AllAtFirst(states: seq<Catalog>, visits: seq<Visit>, token: nat)
    requires |visits| == 1 && Timely(states, visits)
    requires var v := visits[0]; states[v.t0].revision == states[v.t1].revision == states[v.t2].revision == token
    ensures AllAt(states, visits, token)
  {}

  /** From a cursor at `offset`, a completed walk returns exactly the rest of the list of the cursor's revision. */
  lemma {:induction false} WalkReturnsRest(h: HistorySearch, states: seq<Catalog>, ops: seq<Mutation>, codec: Codec,
      scope: Scope, visits: seq<Visit>, given: Option<Sealed>, cursor: Cursor)
    requires Run(states, ops, codec) && visits != [] && Timely(states, visits)
    requires CursorFor(h, states[visits[0].t0].revision, scope, given, visits[0].elapsed) == Ok(cursor)
    requires Walk(h, states, scope, visits, given).Complete?
    requires cursor.offset <= |FullList(states[visits[0].t1], h.fold(scope.query), scope.collapse)|
    ensures AllAt(states, visits, cursor.token)
    ensures forall k | 1 <= k < |visits| :: visits[k].elapsed < cursor.expires
    ensures Walk(h, states, scope, visits, given).entries ==
            FullList(states[visits[0].t1], h.fold(scope.query), scope.collapse)[cursor.offset..]
  {
    hide Run, FullList, Keyed, QueryOnce, LiteralPage, Timely, AllAt;
    TimelyFirst(states, visits);
    var v := visits[0];
    var all := FullList(states[v.t1], h.fold(scope.query), scope.collapse);
    BackendAnswered(h, states[v.t0], states[v.t1], states[v.t2], scope, given, v);
    PageOrStale(h, states[v.t0], states[v.t1], states[v.t2], scope, given, v);
    PageSawOneRevision(h, states, ops, codec, scope, given, v);
    var limit := Search.Min(v.limit, MAX_QUERY_LIMIT);
    if |visits| > 1 {
      var next := Cursor(cursor.token, cursor.offset + limit, cursor.expires);
      var rest := visits[1..];
      TimelyRest(states, visits);
      NextLooksAgree(h, states, ops, codec, scope, visits, next);
      WalkReturnsRest(h, states, ops, codec, scope, rest, Some(h.Encode(next, scope)), next);
      AllAtExtends(states, visits, cursor);
      assert all[cursor.offset..] == Slice(all, cursor.offset, limit) + all[cursor.offset + limit..];
    } else {
      AllAtFirst(states, visits, cursor.token);
    }
  }

  lemma BackendAnswered(h: HistorySearch, s0: Catalog, s1: Catalog, s2: Catalog, scope: Scope, given: Option<Sealed>,
      v: Visit)
    requires Keyed(s1) && QueryOnce(h, s0, s1, s2, scope, given, v).Ok?
    ensures v.backendOk
  {
  }

  /** The second request of a walk opened its cursor at the revision of the first, so it reads the same list. */
  lemma NextLooksAgree(h: HistorySearch, states: seq<Catalog>, ops: seq<Mutation>, codec: Codec, scope: Scope,
      visits: seq<Visit>, next: Cursor)
    requires Run(states, ops, codec) && |visits| > 1 && Timely(states, visits) && Timely(states, visits[1..])
    requires states[visits[0].t1].revision == next.token
    requires !Walk(h, states, scope, visits[1..], Some(h.Encode(next, scope))).Failed?
    ensures visits[1].elapsed < next.expires
    ensures var v := visits[1];
      CursorFor(h, states[v.t0].revision, scope, Some(h.Encode(next, scope)), v.elapsed) == Ok(next)
    ensures Keyed(states[visits[0].t1]) && Keyed(states[visits[1].t1])
    ensures FullList(states[visits[0].t1], h.fold(scope.query), scope.collapse) ==
            FullList(states[visits[1].t1], h.fold(scope.query), scope.collapse)
  {
    hide Run, FullList, Keyed, LiteralPage, QueryOnce;
    var v, given := visits[1], Some(h.Encode(next, scope));
    assert visits[1..][0] == v && visits[0].t2 <= v.t0;
    BackendAnswered(h, states[v.t0], states[v.t1], states[v.t2], scope, given, v);
    PageOrStale(h, states[v.t0], states[v.t1], states[v.t2], scope, given, v);
    PageSawOneRevision(h, states, ops, codec, scope, given, v);
    RevisionIdentifiesCatalog(states, ops, codec, visits[0].t1, v.t1);
    SameTablesSameList(states[visits[0].t1], states[v.t1], h.fold(scope.query), scope.collapse);
  }

  /**
    A completed cursor walk, with any page limits and any mutations interleaved, returns
    exactly the full ordered match list of one catalog revision: no gap, duplicate or torn
    page. Otherwise it fails, and it never outlives the first page's deadline.
    */
  lemma CursorWalkIsOneSnapshot(h: HistorySearch, states: seq<Catalog>, ops: seq<Mutation>, codec: Codec, scope: Scope,
      visits: seq<Visit>)
    requires Run(states, ops, codec) && visits != [] && Timely(states, visits)
    requires Walk(h, states, scope, visits, None).Complete?
    ensures Walk(h, states, scope, visits, None).entries ==
            FullList(states[visits[0].t1], h.fold(scope.query), scope.collapse)
    ensures AllAt(states, visits, states[visits[0].t0].revision)
    ensures forall k | 0 <= k < |visits| :: k > 0 ==> visits[k].elapsed < visits[0].elapsed + 120
  {
    hide Run, FullList, Keyed, Walk;
    var cursor := Cursor(states[visits[0].t0].revision, 0, visits[0].elapsed + CURSOR_SECONDS);
    WalkReturnsRest(h, states, ops, codec, scope, visits, None, cursor);
  }

  /** The other direction: with no commit in between and in time, no page of the walk is refused. */
  lemma {:induction false} QuietWalkNeverFails(h: HistorySearch, states: seq<Catalog>, scope: Scope, visits: seq<Visit>,
      given: Option<Sealed>, cursor: Cursor)
    requires visits != [] && Timely(states, visits) && AllAt(states, visits, cursor.token)
    requires forall k | 0 <= k < |visits| :: visits[k].backendOk
    requires forall k | 1 <= k < |visits| :: visits[k].elapsed < cursor.expires
    requires CursorFor(h, cursor.token, scope, given, visits[0].elapsed) == Ok(cursor)
    ensures !Walk(h, states, scope, visits, given).Failed?
  {
    hide FullList, Keyed, QueryOnce, LiteralPage, Timely;
    TimelyFirst(states, visits);
    var v := visits[0];
    PageOrStale(h, states[v.t0], states[v.t1], states[v.t2], scope, given, v);
    if |visits| > 1 && QueryOnce(h, states[v.t0], states[v.t1], states[v.t2], scope, given, v).value.hasMore {
      var rest := visits[1..];
      TimelyRest(states, visits);
      forall k | 0 <= k < |rest| ensures rest[k] == visits[k + 1] {}
      var next := Cursor(cursor.token, cursor.offset + Search.Min(v.limit, MAX_QUERY_LIMIT), cursor.expires);
      QuietWalkNeverFails(h, states, scope, rest, Some(h.Encode(next, scope)), next);
    }
  }

  /** So a walk from the start is not refused while nothing is committed and 120 seconds have not passed. */
  lemma FirstWalkNeverFails(h: HistorySearch, states: seq<Catalog>, scope: Scope, visits: seq<Visit>)
    requires visits != [] && Timely(states, visits) && AllAt(states, visits, states[visits[0].t0].revision)
    requires forall k | 0 <= k < |visits| :: visits[k].backendOk
    requires forall k | 1 <= k < |visits| :: visits[k].elapsed < visits[0].elapsed + 120
    ensures !Walk(h, states, scope, visits, None).Failed?
  {
    hide Keyed, Walk;
    var cursor := Cursor(states[visits[0].t0].revision, 0, visits[0].elapsed + CURSOR_SECONDS);
    QuietWalkNeverFails(h, states, scope, visits, None, cursor);
  }
}
