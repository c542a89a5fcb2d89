/**
  Edits and the store together: any number of clients begin, cancel and commit edits while
  other mutations run between any two looks at the store. A commit takes its lease, looks
  at the revision and replaces in three separate steps.
  */
module EditRuns {
  import opened Wrappers
  import opened Tables
  import opened Mutations
  import opened Runs
  import opened Outcomes
  import opened EditLeases

  /** A commit on its way: it took its lease, and later it looked at the revision. */
  datatype Flight = Taken(lease: Lease) | Looked(lease: Lease, value: Bytes)

  /** One successful replace through a lease: what it overwrote and what it wrote. */
  datatype Overwrite = Overwrite(id: LeaseId, found: Bytes, written: Bytes)

  datatype World = World(
    c: Catalog,
    shown: map<LeaseId, Shown>,   // every edit ever begun, with what its client is shown
    pending: set<LeaseId>,        // shown, not yet in the lease map
    book: map<LeaseId, Lease>,
    flights: map<LeaseId, Flight>,
    done: seq<Overwrite>)

  datatype Event =
    | Mutate(m: Mutation)
    | BeginEdit(id: LeaseId, entry: Id, asked: Option<nat>, owner: Option<string>, now: nat)
    | OpenLease(id: LeaseId)
    | TakeLease(id: LeaseId, owner: Option<string>)
    | Look(id: LeaseId, value: Bytes, maxEntryBytes: nat, now: nat)
    | ReplaceText(id: LeaseId, view: ContentView)
    | Discard(e: LeaseEvent)

  /** The replace a commit asks of the store. */
  function Asked(f: Flight, view: ContentView): Mutation
    requires f.Looked?
  {
    Mutation.Replace(f.lease.entry, f.lease.revision, f.lease.mime, f.value, view)
  }

  ghost predicate Enabled(w: World, e: Event) {
    && Keyed(w.c)
    && match e
       case Mutate(m) => m.Insert? ==> m.newId !in w.c.issued && m.newId !in w.c.entries
       case BeginEdit(id, _, _, _, _) => id !in w.shown
       case OpenLease(id) => id in w.pending && id in w.shown
       case Look(id, _, _, _) => id in w.flights && w.flights[id].Taken?
       case ReplaceText(id, _) => id in w.flights && w.flights[id].Looked?
       case Discard(e) => !e.Open? && !e.Take?
       case TakeLease(_, _) => true
  }

  ghost function Next(w: World, codec: Codec, utf8: Bytes -> bool, e: Event): World
    requires Enabled(w, e)
  {
    match e
    case Mutate(m) => w.(c := Step(w.c, codec, m))
    case BeginEdit(id, entry, asked, owner, now) =>
      (match Show(w.c, utf8, entry, asked, owner, now)
       case Err(_) => w
       case Ok(shown) => w.(shown := w.shown[id := shown], pending := w.pending + {id}))
    case OpenLease(id) => w.(book := w.book[id := w.shown[id].lease], pending := w.pending - {id})
    case TakeLease(id, owner) =>
      if Owns(w.book, id, owner) then w.(book := w.book - {id}, flights := w.flights[id := Taken(w.book[id])]) else w
    case Look(id, value, maxEntryBytes, now) =>
      var lease := w.flights[id].lease;
      if Refusal(lease, value, maxEntryBytes, now, w.c).None? then w.(flights := w.flights[id := Looked(lease, value)])
      else w.(flights := w.flights - {id})
    case ReplaceText(id, view) =>
      var f := w.flights[id];
      var n := w.(c := Step(w.c, codec, Asked(f, view)), flights := w.flights - {id});
      if Body(w.c, codec, Asked(f, view)).Ok? && f.lease.entry in w.c.payloads
      then n.(done := w.done + [Overwrite(id, w.c.payloads[f.lease.entry], f.value)]) else n
    case Discard(e) => w.(book := After(w.book, e))
  }

  ghost predicate EditRun(worlds: seq<World>, events: seq<Event>, codec: Codec, utf8: Bytes -> bool) {
    && |worlds| == |events| + 1
    && History(worlds[0].c, codec) && worlds[0] == World(worlds[0].c, map[], {}, map[], map[], [])
    && forall k | 0 <= k < |events| ::
         Enabled(worlds[k], events[k]) && worlds[k + 1] == Next(worlds[k], codec, utf8, events[k])
  }

  // ------------------------------------------------------------------ invariant

  /** The leased revision, wherever it is still current, holds exactly what was shown. */
  ghost predicate Pledged(c: Catalog, s: Shown)
    requires Keyed(c)
  {
    var e := s.lease.entry;
    && e in c.issued
    && (e in c.entries ==>
          && s.lease.revision <= c.entries[e].revision
          && (s.lease.revision == c.entries[e].revision ==> c.payloads[e] == s.value))
  }

  ghost predicate AllPledged(w: World) {
    Keyed(w.c) && forall id | id in w.shown :: Pledged(w.c, w.shown[id])
  }

  /** Every lease is pending, in the map, in flight, or gone, and it is the one its client got. */
  ghost predicate Kept(w: World) {
    && w.pending + w.book.Keys + w.flights.Keys <= w.shown.Keys
    && w.pending !! w.book.Keys !! w.flights.Keys
    && (forall id | id in w.book :: w.book[id] == w.shown[id].lease)
    && (forall id | id in w.flights :: w.flights[id].lease == w.shown[id].lease)
  }

  /** Replaces through leases are final and overwrote what was shown. */
  ghost predicate UsedOnce(w: World) {
    && (forall i | 0 <= i < |w.done| ::
          && w.done[i].id in w.shown
          && w.done[i].id !in w.pending && w.done[i].id !in w.book && w.done[i].id !in w.flights
          && w.done[i].found == w.shown[w.done[i].id].value)
    && (forall i, j | 0 <= i < j < |w.done| :: w.done[i].id != w.done[j].id)
  }

  ghost predicate Inv(w: World, codec: Codec) {
    History(w.c, codec) && AllPledged(w) && Kept(w) && UsedOnce(w)
  }

  /** A mutation of the store breaks no pledge: revisions never go back, identifiers never return. */
  lemma MutationKeepsPledge(c: Catalog, codec: Codec, m: Mutation, s: Shown)
    requires History(c, codec) && Keyed(c) && Pledged(c, s)
    requires m.Insert? ==> m.newId !in c.issued && m.newId !in c.entries
    ensures Keyed(Step(c, codec, m)) && Pledged(Step(c, codec, m), s)
  {
    hide Step, Evolves, SameTables, Contents, Keyed, SameVersion;
    StepEvolves(c, codec, m);
    RevisionsBounded(c, codec);
    CatalogAges(c, Step(c, codec, m), s.lease.entry);
    VersionHoldsPayload(c, Step(c, codec, m), s.lease.entry);
  }

  lemma RevisionsBounded(c: Catalog, codec: Codec)
    requires History(c, codec)
    ensures c.entries.Keys <= c.issued && forall x | x in c.entries :: c.entries[x].revision <= c.revision
  {
  }

  lemma VersionHoldsPayload(c: Catalog, d: Catalog, id: Id)
    requires Keyed(c) && Keyed(d)
    ensures id in c.entries && id in d.entries && SameVersion(c, d, id) ==> c.payloads[id] == d.payloads[id]
  {
  }

  lemma StoreKeepsInv(w: World, codec: Codec, m: Mutation)
    requires Inv(w, codec) && Enabled(w, Mutate(m))
    ensures History(Step(w.c, codec, m), codec)
    ensures AllPledged(w.(c := Step(w.c, codec, m)))
  {
    hide Step, History, Pledged;
    StepKeepsHistory(w.c, codec, m);
    forall id | id in w.shown ensures Pledged(Step(w.c, codec, m), w.shown[id]) {
      MutationKeepsPledge(w.c, codec, m, w.shown[id]);
    }
  }

  lemma MutateKeepsInv(w: World, codec: Codec, utf8: Bytes -> bool, e: Event)
    requires Inv(w, codec) && Enabled(w, e) && e.Mutate?
    ensures Inv(Next(w, codec, utf8, e), codec)
  {
    hide History, AllPledged, Step;
    StoreKeepsInv(w, codec, e.m);
  }

  lemma StepKeepsHistory(c: Catalog, codec: Codec, m: Mutation)
    requires History(c, codec) && Keyed(c) && (m.Insert? ==> m.newId !in c.issued && m.newId !in c.entries)
    ensures History(Step(c, codec, m), codec) && Keyed(Step(c, codec, m))
  {
    hide Body, History;
    BodyKeepsHistory(c, codec, m);
    SoundKeyed(Step(c, codec, m), codec);
  }

  lemma SoundKeyed(c: Catalog, codec: Codec)
    requires History(c, codec)
    ensures Keyed(c)
  {
  }

  lemma BeginKeepsInv(w: World, codec: Codec, utf8: Bytes -> bool, e: Event)
    requires Inv(w, codec) && Enabled(w, e) && e.BeginEdit?
    ensures Inv(Next(w, codec, utf8, e), codec)
  {
    hide History, Show, Keyed;
    if Show(w.c, utf8, e.entry, e.asked, e.owner, e.now).Ok? {
      ShownIsWholePayload(w.c, utf8, e.entry, e.asked, e.owner, e.now);
      RevisionsBounded(w.c, codec);
    }
  }

  lemma LookKeepsInv(w: World, codec: Codec, utf8: Bytes -> bool, e: Event)
    requires Inv(w, codec) && Enabled(w, e) && (e.OpenLease? || e.TakeLease? || e.Look? || e.Discard?)
    ensures Inv(Next(w, codec, utf8, e), codec)
  {
    hide History, AllPledged, Kept, UsedOnce, Next, Enabled;
    if e.Discard? {
      DiscardKeepsLeases(w, codec, utf8, e.e);
    } else {
      LookKeepsLeases(w, codec, utf8, e);
    }
    SamePledges(w, Next(w, codec, utf8, e));
  }

  lemma LookKeepsLeases(w: World, codec: Codec, utf8: Bytes -> bool, e: Event)
    requires Kept(w) && UsedOnce(w) && Enabled(w, e) && (e.OpenLease? || e.TakeLease? || e.Look?)
    ensures var n := Next(w, codec, utf8, e); Kept(n) && UsedOnce(n) && n.c == w.c && n.shown == w.shown
  {
    hide Keyed, Refusal;
  }

  lemma DiscardKeepsLeases(w: World, codec: Codec, utf8: Bytes -> bool, e: LeaseEvent)
    requires Kept(w) && UsedOnce(w) && Enabled(w, Discard(e))
    ensures var n := Next(w, codec, utf8, Discard(e)); Kept(n) && UsedOnce(n) && n.c == w.c && n.shown == w.shown
  {
    hide Keyed, UsedOnce;
    var n := Next(w, codec, utf8, Discard(e));
    assert n.book.Keys <= w.book.Keys && forall id | id in n.book :: n.book[id] == w.book[id];
    SmallerBookUsedOnce(w, n);
  }

  lemma SmallerBookUsedOnce(w: World, n: World)
    requires UsedOnce(w) && n.book.Keys <= w.book.Keys && n == w.(book := n.book)
    ensures UsedOnce(n)
  {
  }

  lemma SamePledges(w: World, n: World)
    requires n.c == w.c && n.shown == w.shown
    ensures AllPledged(w) == AllPledged(n)
  {
  }

  /** A replace that succeeds found the leased revision, so it overwrote what was shown. */
  lemma ReplaceFindsWhatWasShown(w: World, codec: Codec, id: LeaseId, view: ContentView)
    requires Inv(w, codec) && Enabled(w, ReplaceText(id, view)) && Body(w.c, codec, Asked(w.flights[id], view)).Ok?
    ensures var f := w.flights[id];
      && id in w.shown && f.lease.entry in w.c.payloads && w.c.payloads[f.lease.entry] == w.shown[id].value
      && Replaced(w.c, Step(w.c, codec, Asked(f, view)), f.lease.entry, f.lease.mime, f.value)
  {
    hide History, ReplaceBody, Replaced;
    var f := w.flights[id];
    ReplaceOutcome(w.c, codec, f.lease.entry, f.lease.revision, f.lease.mime, f.value, view);
    assert Pledged(w.c, w.shown[id]);
  }

  lemma ReplaceKeepsInv(w: World, codec: Codec, utf8: Bytes -> bool, id: LeaseId, view: ContentView)
    requires Inv(w, codec) && Enabled(w, ReplaceText(id, view))
    ensures Inv(Next(w, codec, utf8, ReplaceText(id, view)), codec)
  {
    hide History, Pledged, Step, Body, Keyed, Replaced;
    StoreKeepsInv(w, codec, Asked(w.flights[id], view));
    if Body(w.c, codec, Asked(w.flights[id], view)).Ok? { ReplaceFindsWhatWasShown(w, codec, id, view); }
  }

  lemma EventKeepsInv(w: World, codec: Codec, utf8: Bytes -> bool, e: Event)
    requires Inv(w, codec) && Enabled(w, e)
    ensures Inv(Next(w, codec, utf8, e), codec)
  {
    hide Inv, Next, Enabled;
    match e
    case Mutate(_) => MutateKeepsInv(w, codec, utf8, e);
    case BeginEdit(_, _, _, _, _) => BeginKeepsInv(w, codec, utf8, e);
    case ReplaceText(id, view) => ReplaceKeepsInv(w, codec, utf8, id, view);
    case _ => LookKeepsInv(w, codec, utf8, e);
  }

  lemma {:induction false} RunKeepsInv(worlds: seq<World>, events: seq<Event>, codec: Codec, utf8: Bytes -> bool,
      k: nat)
    requires EditRun(worlds, events, codec, utf8) && k < |worlds|
    ensures Inv(worlds[k], codec)
  {
    hide History, Next, Enabled;
    if k == 0 {
      SoundKeyed(worlds[0].c, codec);
    } else {
      RunKeepsInv(worlds, events, codec, utf8, k - 1);
      EventKeepsInv(worlds[k - 1], codec, utf8, events[k - 1]);
    }
  }

  // ------------------------------------------------------------------- theorems

  /**
    No lost update, over whole runs: each begin_edit leads to at most one successful
    replace, and that one overwrote exactly the bytes its client was shown, whatever other
    edits and mutations ran between showing, taking the lease, looking and replacing.
    */
  lemma EachEditReplacesOnceWhatWasShown(worlds: seq<World>, events: seq<Event>, codec: Codec, utf8: Bytes -> bool,
      k: nat, i: nat, j: nat)
    requires EditRun(worlds, events, codec, utf8) && k < |worlds| && i < |worlds[k].done| && j < |worlds[k].done|
    ensures worlds[k].done[i].id in worlds[k].shown
    ensures worlds[k].done[i].found == worlds[k].shown[worlds[k].done[i].id].value
    ensures worlds[k].done[i].id == worlds[k].done[j].id ==> i == j
  {
    hide History, AllPledged, Kept;
    RunKeepsInv(worlds, events, codec, utf8, k);
  }

  /** What such a replace leaves behind is the new text, in the entry's old place and category. */
  lemma ReplaceLeavesNewText(worlds: seq<World>, events: seq<Event>, codec: Codec, utf8: Bytes -> bool, k: nat)
    requires EditRun(worlds, events, codec, utf8) && k < |events| && events[k].ReplaceText?
    requires |worlds[k + 1].done| > |worlds[k].done|
    ensures var id := events[k].id;
      && id in worlds[k].flights && id in worlds[k].shown
      && var f := worlds[k].flights[id];
      && worlds[k + 1].done == worlds[k].done + [Overwrite(id, worlds[k].shown[id].value, f.value)]
      && Replaced(worlds[k].c, worlds[k + 1].c, f.lease.entry, f.lease.mime, f.value)
  {
    hide Inv, Body, Step, Replaced;
    RunKeepsInv(worlds, events, codec, utf8, k);
    ReplaceFindsWhatWasShown(worlds[k], codec, events[k].id, events[k].view);
  }

  /** The edit is neither opened later, nor open, nor on its way to the store. */
  ghost predicate Over(w: World, id: LeaseId) {
    id in w.shown && id !in w.pending && id !in w.book && id !in w.flights
  }

  lemma EventKeepsOver(w: World, codec: Codec, utf8: Bytes -> bool, e: Event, id: LeaseId)
    requires Enabled(w, e) && Over(w, id)
    ensures var n := Next(w, codec, utf8, e);
      && Over(n, id)
      && (n.done == w.done || (|n.done| == |w.done| + 1 && w.done <= n.done && n.done[|w.done|].id != id))
  {
    hide Keyed, Body, Step, Show, Refusal;
  }

  /** Once over, whether committed, refused, cancelled, expired or released, an edit replaces nothing ever after. */
  lemma {:induction false} OverStaysOver(worlds: seq<World>, events: seq<Event>, codec: Codec, utf8: Bytes -> bool,
      k: nat, j: nat, id: LeaseId)
    requires EditRun(worlds, events, codec, utf8) && k <= j < |worlds| && Over(worlds[k], id)
    ensures Over(worlds[j], id) && worlds[k].done <= worlds[j].done
    ensures forall i | |worlds[k].done| <= i < |worlds[j].done| :: worlds[j].done[i].id != id
  {
    hide Next, Enabled, Over, History;
    if k < j {
      OverStaysOver(worlds, events, codec, utf8, k, j - 1, id);
      EventKeepsOver(worlds[j - 1], codec, utf8, events[j - 1], id);
    }
  }

  /** The five steps of one edit with nothing in between, within the lease's time. */
  ghost predicate Edits(w: World, codec: Codec, utf8: Bytes -> bool, steps: seq<Event>, n: World)
    decreases steps
  {
    if steps == [] then n == w
    else Enabled(w, steps[0]) && Edits(Next(w, codec, utf8, steps[0]), codec, utf8, steps[1..], n)
  }

  lemma EditIsTaken(w: World, codec: Codec, utf8: Bytes -> bool, id: LeaseId, entry: Id, owner: Option<string>,
      now: nat)
    requires Keyed(w.c) && id !in w.shown && Show(w.c, utf8, entry, None, owner, now).Ok?
    ensures var shown := Show(w.c, utf8, entry, None, owner, now).value;
      exists n ::
        && Edits(w, codec, utf8, [BeginEdit(id, entry, None, owner, now), OpenLease(id), TakeLease(id, owner)], n)
        && n.c == w.c && n.done == w.done && id in n.flights && n.flights[id] == Taken(shown.lease)
  {
    hide Show, Keyed;
    ShownIsWholePayload(w.c, utf8, entry, None, owner, now);
    var steps := [BeginEdit(id, entry, None, owner, now), OpenLease(id), TakeLease(id, owner)];
    var w1 := Next(w, codec, utf8, steps[0]);
    var w2 := Next(w1, codec, utf8, steps[1]);
    var w3 := Next(w2, codec, utf8, steps[2]);
    assert steps[1..][1..] == [steps[2]] && steps[1..][0] == steps[1] && [steps[2]][1..] == [];
    assert Edits(w3, codec, utf8, [], w3);
    assert Edits(w2, codec, utf8, [steps[2]], w3);
    assert Edits(w1, codec, utf8, steps[1..], w3);
  }

  lemma TakenEditReplaces(w: World, codec: Codec, utf8: Bytes -> bool, id: LeaseId, value: Bytes, maxEntryBytes: nat,
      now: nat, view: ContentView)
    requires History(w.c, codec) && Keyed(w.c) && id in w.flights && w.flights[id].Taken?
    requires ReplaceThrough(w.flights[id].lease, value, maxEntryBytes, now, w.c, w.c, codec, view).Ok?
    ensures var entry := w.flights[id].lease.entry;
      && entry in w.c.payloads
      && exists n ::
           && Edits(w, codec, utf8, [Look(id, value, maxEntryBytes, now), ReplaceText(id, view)], n)
           && n.done == w.done + [Overwrite(id, w.c.payloads[entry], value)]
           && entry in n.c.payloads && n.c.payloads[entry] == value
  {
    hide ReplaceBody, History, Keyed;
    var lease := w.flights[id].lease;
    CommitSucceedsIff(lease, value, maxEntryBytes, now, w.c, w.c, codec, view);
    ReplaceOutcome(w.c, codec, lease.entry, lease.revision, lease.mime, value, view);
    PayloadThere(w.c, lease.entry);
    var steps := [Look(id, value, maxEntryBytes, now), ReplaceText(id, view)];
    var w1 := Next(w, codec, utf8, steps[0]);
    assert w1.flights[id] == Looked(lease, value) && w1.c == w.c && w1.done == w.done;
    var w2 := Next(w1, codec, utf8, steps[1]);
    PayloadThere(w2.c, lease.entry);
    assert steps[1..] == [steps[1]] && [steps[1]][1..] == [];
    assert Edits(w2, codec, utf8, [], w2);
    assert Edits(w1, codec, utf8, [steps[1]], w2);
  }

  lemma PayloadThere(c: Catalog, id: Id)
    requires Keyed(c)
    ensures id in c.entries <==> id in c.payloads
  {
  }

  lemma EditsJoin(w: World, codec: Codec, utf8: Bytes -> bool, a: seq<Event>, m: World, b: seq<Event>, n: World)
    requires Edits(w, codec, utf8, a, m) && Edits(m, codec, utf8, b, n)
    ensures Edits(w, codec, utf8, a + b, n)
    decreases a
  {
    hide Enabled, Next;
    if a == [] {
      assert a + b == b;
    } else {
      assert (a + b)[1..] == a[1..] + b;
      EditsJoin(Next(w, codec, utf8, a[0]), codec, utf8, a[1..], m, b, n);
    }
  }

  /**
    An edit that nothing disturbs does replace: begun, opened, taken, looked at and
    committed in time and within the limits it overwrites what it showed with the new text.
    */
  lemma UndisturbedEditReplaces(w: World, codec: Codec, utf8: Bytes -> bool, id: LeaseId, entry: Id,
      owner: Option<string>, value: Bytes, maxEntryBytes: nat, begun: nat, now: nat, view: ContentView)
    requires History(w.c, codec) && Keyed(w.c) && id !in w.shown && Show(w.c, utf8, entry, None, owner, begun).Ok?
    requires now < begun + 60 && |value| <= 262144 && |value| <= maxEntryBytes
    requires |value| <= w.c.policy.maxEntryBytes && |value| <= w.c.policy.maxTotalBytes
    requires w.c.revision + 1 < 9007199254740991
    requires entry in w.c.entries && |w.c.entries[entry].resolvedMime| <= 255 && |view.mime| <= 255
    ensures entry in w.c.payloads
    ensures exists n ::
      && Edits(w, codec, utf8, [BeginEdit(id, entry, None, owner, begun), OpenLease(id), TakeLease(id, owner),
                                Look(id, value, maxEntryBytes, now), ReplaceText(id, view)], n)
      && n.done == w.done + [Overwrite(id, w.c.payloads[entry], value)]
      && entry in n.c.payloads && n.c.payloads[entry] == value
  {
    hide History, Show, Keyed, Next, Enabled, Edits, ReplaceThrough;
    ShownIsWholePayload(w.c, utf8, entry, None, owner, begun);
    PayloadThere(w.c, entry);
    var shown := Show(w.c, utf8, entry, None, owner, begun).value;
    CommitSucceedsIff(shown.lease, value, maxEntryBytes, now, w.c, w.c, codec, view);
    EditIsTaken(w, codec, utf8, id, entry, owner, begun);
    var a := [BeginEdit(id, entry, None, owner, begun), OpenLease(id), TakeLease(id, owner)];
    var m :| Edits(w, codec, utf8, a, m) && m.c == w.c && m.done == w.done && id in m.flights
             && m.flights[id] == Taken(shown.lease);
    TakenEditReplaces(m, codec, utf8, id, value, maxEntryBytes, now, view);
    var b := [Look(id, value, maxEntryBytes, now), ReplaceText(id, view)];
    var n :| Edits(m, codec, utf8, b, n) && n.done == m.done + [Overwrite(id, m.c.payloads[entry], value)]
             && entry in n.c.payloads && n.c.payloads[entry] == value;
    EditsJoin(w, codec, utf8, a, m, b, n);
    assert a + b == [BeginEdit(id, entry, None, owner, begun), OpenLease(id), TakeLease(id, owner),
                     Look(id, value, maxEntryBytes, now), ReplaceText(id, view)];
  }
}
