/**
  What each mutation means to its caller: exactly when it succeeds, and what the
  row it touched then holds.
  */
module Outcomes {
  import opened Wrappers
  import opened Tables
  import opened Retention
  import opened EchoGraph
  import opened Mutations
  import opened Runs

  /** The mutated row comes out of `retain` as it went in, up to a cleared echo link. */
  lemma ConcludeKeepsRow(m: Catalog, id: Id, codec: Codec)
    requires Sound(m, codec) && Keyed(m) && id in m.entries && HasRoom(m.entries[id], m.policy)
    ensures Retain(m, m.policy, Some(id)).Ok?
    ensures var d := Retain(m, m.policy, Some(id)).value;
            && Keyed(d) && RowKept(m, d, id) && History(d, codec) && d.policy == m.policy
            && d.revision == m.revision && d.sequence == m.sequence && d.issued == m.issued
            && Conclude(m, id) == Ok((d, Row(SummaryRow(d.entries, id))))
  {
    hide Evict, Sound, Retained, RowKept, HasRoom, Keyed;
    var d := Evict(m, m.policy, Some(id));
    ConcludeSucceeds(m, id, codec);
    RetainKeepsSound(m, m.policy, Some(id), codec);
    EvictShrinks(m, m.policy, Some(id));
    EvictSequence(m, m.policy, Some(id));
  }

  lemma EvictSequence(m: Catalog, p: Policy, prot: Option<Id>)
    ensures Evict(m, p, prot).sequence == m.sequence
  {
  }

  // ------------------------------------------------------------------- insert

  predicate InsertAdmitted(c: Catalog, codec: Codec, mime: string, bytes: Bytes, view: ContentView)
    requires Keyed(c)
  {
    var twins := Twins(c, codec, mime, bytes);
    && c.policy.admission && |bytes| <= c.policy.maxEntryBytes && |bytes| <= c.policy.maxTotalBytes
    && ((twins != {} && IsCurrent(c.entries, Newest(c.entries, twins)))
        || (c.revision + 1 < MAX_REVISION
            && (twins != {} || (0 < c.policy.maxEntries && |mime| <= MAX_MIME && |view.mime| <= MAX_MIME))))
  }

  /** After a successful insert the offered bytes are the newest entry, under the offered MIME. */
  ghost predicate Stored(d: Catalog, s: EntrySummary, mime: string, bytes: Bytes)
    requires Keyed(d)
  {
    && s.id in d.entries && s == SummaryRow(d.entries, s.id) && s.current
    && d.entries[s.id].mime == mime && d.payloads[s.id] == bytes
  }

  lemma NewestByNumber(d: Catalog, id: Id, codec: Codec)
    requires Sound(d, codec) && id in d.entries && d.entries[id].recency == d.sequence
    ensures IsCurrent(d.entries, id)
  {
  }

  lemma PromotedIsStored(c: Catalog, codec: Codec, id: Id)
    requires History(c, codec) && Keyed(c) && id in c.entries && c.revision + 1 < MAX_REVISION
    ensures var r := Conclude(Promoted(Ticked(c), id), id);
            && r.Ok? && Keyed(r.value.0) && History(r.value.0, codec) && r.value.0.policy == c.policy
            && r.value.1.Row? && r.value.1.summary.id == id
            && Stored(r.value.0, r.value.1.summary, c.entries[id].mime, c.payloads[id])
  {
    hide Sound, Retained, Retain, Conclude, RowStep, Keyed;
    var m := Promoted(Ticked(c), id);
    PromotedIsSound(c, id, codec);
    SoundFacts(m, codec);
    CategoryHasRoom(c.entries, c.policy, id);
    ConcludeKeepsRow(m, id, codec);
    NewestByNumber(Retain(m, m.policy, Some(id)).value, id, codec);
  }

  lemma AppendedRowIs(c: Catalog, codec: Codec, mime: string, bytes: Bytes, view: ContentView, newId: Id)
    requires newId !in c.entries && newId !in c.payloads && newId !in c.search
    ensures var m := Appended(Ticked(c), codec, mime, bytes, view, newId);
            && newId in m.entries && newId in m.payloads && m.payloads[newId] == bytes && m.entries[newId].mime == mime
            && m.entries[newId].recency == m.sequence && m.policy == c.policy
  {
  }

  lemma AppendedIsStored(c: Catalog, codec: Codec, mime: string, bytes: Bytes, view: ContentView, newId: Id)
    requires History(c, codec) && Keyed(c) && newId !in c.issued && newId !in c.entries && c.revision + 1 < MAX_REVISION
    requires |mime| <= MAX_MIME && AllowedPayload(c.policy, bytes) && 0 < c.policy.maxEntries
    ensures var r := Conclude(Appended(Ticked(c), codec, mime, bytes, view, newId), newId);
            && r.Ok? && Keyed(r.value.0) && History(r.value.0, codec) && r.value.0.policy == c.policy
            && r.value.1.Row? && r.value.1.summary.id == newId
            && Stored(r.value.0, r.value.1.summary, mime, bytes)
  {
    hide Sound, Retained, Retain, Conclude, RowStep, Appended, Keyed;
    SoundFacts(c, codec);
    var m := Appended(Ticked(c), codec, mime, bytes, view, newId);
    AppendedRow(c, codec, mime, bytes, view, newId);
    AppendedRowIs(c, codec, mime, bytes, view, newId);
    ContentRowIsSound(c, m, newId, codec);
    assert HasRoom(m.entries[newId], m.policy);
    ConcludeKeepsRow(m, newId, codec);
    NewestByNumber(Retain(m, m.policy, Some(newId)).value, newId, codec);
  }

  /** What a successful insert answers and leaves. */
  ghost predicate Inserted(c: Catalog, codec: Codec, mime: string, bytes: Bytes, d: Catalog, reply: Reply) {
    && Keyed(c) && Keyed(d) && History(d, codec) && d.policy == c.policy
    && reply.Row? && Stored(d, reply.summary, mime, bytes)
    && (Twins(c, codec, mime, bytes) != {} ==> reply.summary.id == Newest(c.entries, Twins(c, codec, mime, bytes)))
  }

  lemma TwinHolds(c: Catalog, codec: Codec, mime: string, bytes: Bytes, id: Id)
    requires Keyed(c) && id in Twins(c, codec, mime, bytes)
    ensures id in c.entries && c.entries[id].mime == mime && c.payloads[id] == bytes
  {
  }

  lemma TwinInsertOutcome(c: Catalog, codec: Codec, mime: string, bytes: Bytes, view: ContentView, newId: Id)
    requires History(c, codec) && Keyed(c) && newId !in c.issued && newId !in c.entries
    requires Twins(c, codec, mime, bytes) != {}
    ensures var r := InsertBody(c, codec, mime, bytes, view, newId);
            && (r.Ok? <==> InsertAdmitted(c, codec, mime, bytes, view))
            && (r.Ok? ==> Inserted(c, codec, mime, bytes, r.value.0, r.value.1))
  {
    hide Sound, Retained, Conclude, Promoted, Newest, Keyed, IsCurrent, Twins, Appended;
    var id := Newest(c.entries, Twins(c, codec, mime, bytes));
    TwinHolds(c, codec, mime, bytes, id);
    if c.revision + 1 < MAX_REVISION { PromotedIsStored(c, codec, id); }
  }

  lemma NewInsertOutcome(c: Catalog, codec: Codec, mime: string, bytes: Bytes, view: ContentView, newId: Id)
    requires History(c, codec) && Keyed(c) && newId !in c.issued && newId !in c.entries
    requires Twins(c, codec, mime, bytes) == {}
    ensures var r := InsertBody(c, codec, mime, bytes, view, newId);
            && (r.Ok? <==> InsertAdmitted(c, codec, mime, bytes, view))
            && (r.Ok? ==> Inserted(c, codec, mime, bytes, r.value.0, r.value.1))
  {
    hide Sound, Retained, Conclude, Appended, Newest, IsCurrent, Twins, Stored, Promoted;
    SoundFacts(c, codec);
    if InsertAdmitted(c, codec, mime, bytes, view) { AppendedIsStored(c, codec, mime, bytes, view, newId); }
  }

  /** Insert succeeds exactly when it is admitted, and then the offered content is stored as the newest entry. */
  lemma InsertOutcome(c: Catalog, codec: Codec, mime: string, bytes: Bytes, view: ContentView, newId: Id)
    requires History(c, codec) && Keyed(c) && newId !in c.issued && newId !in c.entries
    ensures var r := InsertBody(c, codec, mime, bytes, view, newId);
            && (r.Ok? <==> InsertAdmitted(c, codec, mime, bytes, view))
            && (r.Ok? ==> && Keyed(r.value.0) && History(r.value.0, codec) && r.value.0.policy == c.policy
                          && r.value.1.Row? && Stored(r.value.0, r.value.1.summary, mime, bytes)
                          && (Twins(c, codec, mime, bytes) != {} ==>
                                r.value.1.summary.id == Newest(c.entries, Twins(c, codec, mime, bytes))))
  {
    hide InsertBody, InsertAdmitted, History, Twins, Newest, Stored, Keyed;
    if Twins(c, codec, mime, bytes) != {} {
      TwinInsertOutcome(c, codec, mime, bytes, view, newId);
    } else {
      NewInsertOutcome(c, codec, mime, bytes, view, newId);
    }
  }

  /** Offering the same content again changes nothing, for any digest function and whatever the second view says. */
  lemma InsertIsIdempotent(c: Catalog, codec: Codec, mime: string, bytes: Bytes, view: ContentView, newId: Id,
      again: ContentView, otherId: Id)
    requires History(c, codec) && Keyed(c) && newId !in c.issued && newId !in c.entries
    requires var r := InsertBody(c, codec, mime, bytes, view, newId);
      r.Ok? && Keyed(r.value.0) && otherId !in r.value.0.entries
    ensures var r := InsertBody(c, codec, mime, bytes, view, newId);
            InsertBody(r.value.0, codec, mime, bytes, again, otherId) == r
  {
    hide InsertBody, Sound, Retained, Keyed;
    InsertOutcome(c, codec, mime, bytes, view, newId);
    var (d, reply) := InsertBody(c, codec, mime, bytes, view, newId).value;
    StoredIsOwnTwin(d, codec, reply.summary, mime, bytes);
    CurrentTwinAnswers(d, codec, reply.summary, mime, bytes, again, otherId);
  }

  lemma RecencyNamesRow(es: map<Id, Entry>, x: Id, y: Id)
    requires Distinct(es) && x in es && y in es && es[x].recency == es[y].recency
    ensures x == y
  {
  }

  lemma StoredIsOwnTwin(d: Catalog, codec: Codec, s: EntrySummary, mime: string, bytes: Bytes)
    requires History(d, codec) && Keyed(d) && Stored(d, s, mime, bytes)
    ensures s.id in Twins(d, codec, mime, bytes) && Newest(d.entries, Twins(d, codec, mime, bytes)) == s.id
  {
    hide Retained, Acyclic, Newest;
    assert Faithful(d.entries[s.id], d.payloads[s.id], d.search[s.id], codec);
    var twins := Twins(d, codec, mime, bytes);
    assert s.id in twins;
    var n := Newest(d.entries, twins);
    assert d.entries[s.id].recency <= d.entries[n].recency;
    RecencyNamesRow(d.entries, n, s.id);
  }

  lemma CurrentTwinAnswers(d: Catalog, codec: Codec, s: EntrySummary, mime: string, bytes: Bytes, view: ContentView,
      newId: Id)
    requires Keyed(d) && newId !in d.entries && d.policy.admission && AllowedPayload(d.policy, bytes)
    requires s.id in Twins(d, codec, mime, bytes)
    requires Stored(d, s, mime, bytes) && Newest(d.entries, Twins(d, codec, mime, bytes)) == s.id
    ensures InsertBody(d, codec, mime, bytes, view, newId) == Ok((d, Row(s)))
  {
    hide Newest, Twins, Keyed;
  }

  // ------------------------------------------------------------------ replace

  predicate ReplaceAdmitted(c: Catalog, id: Id, expected: nat, mime: string, bytes: Bytes, view: ContentView) {
    && id in c.entries && c.entries[id].revision == expected
    && |bytes| <= c.policy.maxEntryBytes && |bytes| <= c.policy.maxTotalBytes
    && c.revision + 1 < MAX_REVISION && |mime| <= MAX_MIME && |view.mime| <= MAX_MIME
  }

  /** The new content under a new revision, in the old place of the order and the old category. */
  ghost predicate Replaced(c: Catalog, d: Catalog, id: Id, mime: string, bytes: Bytes) {
    && Keyed(d) && id in c.entries && id in d.entries && d.payloads[id] == bytes && d.entries[id].mime == mime
    && d.entries[id].revision == d.revision == c.revision + 1
    && d.entries[id].recency == c.entries[id].recency && d.entries[id].favorite == c.entries[id].favorite
  }

  lemma RewrittenRowIs(c: Catalog, codec: Codec, id: Id, mime: string, bytes: Bytes, view: ContentView)
    requires id in c.entries
    ensures var m := Overwritten(c, codec, id, mime, bytes, view);
            && id in m.entries && id in m.payloads && m.payloads[id] == bytes && m.entries[id].mime == mime
            && m.entries[id].recency == c.entries[id].recency && m.entries[id].favorite == c.entries[id].favorite
            && m.entries[id].revision == c.revision + 1 && m.policy == c.policy && m.revision == c.revision + 1
  {
  }

  /**
    Replace succeeds exactly for the expected revision within the limits. The row then
    holds the new content at a new revision, in its old place and category.
    */
  lemma ReplaceOutcome(c: Catalog, codec: Codec, id: Id, expected: nat, mime: string, bytes: Bytes, view: ContentView)
    requires History(c, codec) && Keyed(c)
    ensures var r := ReplaceBody(c, codec, id, expected, mime, bytes, view);
            && (r.Ok? <==> ReplaceAdmitted(c, id, expected, mime, bytes, view))
            && (r.Ok? ==> Replaced(c, r.value.0, id, mime, bytes))
  {
    hide Sound, Retained, Overwritten, Conclude, Keyed, SummaryRow, Replaced;
    SoundFacts(c, codec);
    if ReplaceAdmitted(c, id, expected, mime, bytes, view) { RewrittenConcluded(c, codec, id, mime, bytes, view); }
  }

  lemma RewrittenConcluded(c: Catalog, codec: Codec, id: Id, mime: string, bytes: Bytes, view: ContentView)
    requires History(c, codec) && id in c.entries && c.revision + 1 < MAX_REVISION
    requires |mime| <= MAX_MIME && AllowedPayload(c.policy, bytes)
    ensures var m := Overwritten(c, codec, id, mime, bytes, view);
            var r := Conclude(m, id);
            r.Ok? && Replaced(c, r.value.0, id, mime, bytes)
  {
    hide Sound, Retained, Retain, Conclude, RowStep, Overwritten, Keyed;
    SoundFacts(c, codec);
    var m := Overwritten(c, codec, id, mime, bytes, view);
    RewrittenRow(c, codec, id, mime, bytes, view);
    RewrittenRowIs(c, codec, id, mime, bytes, view);
    ContentRowIsSound(c, m, id, codec);
    CategoryHasRoom(c.entries, c.policy, id);
    assert HasRoom(m.entries[id], m.policy);
    ConcludeKeepsRow(m, id, codec);
  }

  // ------------------------------------------------------- favorite and removal

  /** Favorite succeeds exactly for the expected revision with room in the category, and keeps the content. */
  lemma FavoriteOutcome(c: Catalog, codec: Codec, id: Id, expected: nat, value: bool)
    requires History(c, codec) && Keyed(c)
    ensures var r := FavoriteBody(c, id, expected, value);
            && (r.Ok? <==> && id in c.entries && c.entries[id].revision == expected
                           && (c.entries[id].favorite == value
                               || (0 < (if value then c.policy.maxFavorites else c.policy.maxEntries)
                                   && c.revision + 1 < MAX_REVISION)))
            && (r.Ok? ==> var d := r.value.0;
                          && Keyed(d) && id in d.entries && d.entries[id].favorite == value
                          && d.payloads[id] == c.payloads[id] && d.entries[id].recency == c.entries[id].recency
                          && d.entries[id].revision
                               == (if c.entries[id].favorite == value then expected else c.revision + 1))
  {
    hide Sound, Retained, Retain, Moved, Keyed, IsCurrent;
    SoundFacts(c, codec);
    if id in c.entries && c.revision + 1 < MAX_REVISION
      && 0 < (if value then c.policy.maxFavorites else c.policy.maxEntries) {
      MovedConcluded(c, codec, id, value);
    }
  }

  lemma MovedConcluded(c: Catalog, codec: Codec, id: Id, value: bool)
    requires History(c, codec) && Keyed(c) && id in c.entries && c.revision + 1 < MAX_REVISION
    requires 0 < (if value then c.policy.maxFavorites else c.policy.maxEntries)
    ensures var r := Retain(Moved(c.(revision := c.revision + 1), id, value), c.policy, Some(id));
            && r.Ok? && Keyed(r.value) && id in r.value.entries && r.value.entries[id].favorite == value
            && r.value.payloads[id] == c.payloads[id] && r.value.entries[id].recency == c.entries[id].recency
            && r.value.entries[id].revision == c.revision + 1
  {
    hide Sound, Retained, Retain, Conclude, RowStep, Keyed;
    var m := Moved(c.(revision := c.revision + 1), id, value);
    MovedIsSound(c, id, value, codec);
    SoundFacts(m, codec);
    CategoryHasRoom(c.entries, c.policy, id);
    ConcludeKeepsRow(m, id, codec);
  }

  /** Bulk removal is all or nothing: it drops exactly the named rows, or reports why and drops none. */
  lemma RemoveManyOutcome(c: Catalog, targets: seq<Target>)
    requires Keyed(c)
    ensures var r := RemoveManyBody(c, targets);
            && (r.Ok? <==> targets == [] || (c.revision + 1 < MAX_REVISION && forall t | t in targets :: Names(c, t)))
            && (r == Err(NotFound) <==> exists t :: t in targets && t.id !in c.entries)
            && (r == Err(Stale) <==>
                  (forall t | t in targets :: t.id in c.entries) && exists t :: t in targets && !Names(c, t))
            && (r.Ok? ==> && r.value.0.entries.Keys == c.entries.Keys - (set t | t in targets :: t.id)
                          && r.value.0.payloads == c.payloads - (set t | t in targets :: t.id)
                          && r.value.0.revision == (if targets == [] then c.revision else c.revision + 1))
  {
    forall t ensures Names(c, t) == Matching(c, t) && (t.id in c.entries) == Present(c, t) {}
    if targets == [] { assert (set t | t in targets :: t.id) == {}; }
  }

  /** The target names a current revision of a present entry. */
  predicate Names(c: Catalog, t: Target) { t.id in c.entries && t.revision == c.entries[t.id].revision }

  // -------------------------------------------------------- uniqueness of content

  /** No two entries hold the same bytes under the same MIME. */
  ghost predicate UniqueContent(c: Catalog)
    requires Keyed(c)
  {
    forall x, y | x in c.entries && y in c.entries && x != y :: !SameContent(c, x, y)
  }

  ghost predicate SameContent(c: Catalog, x: Id, y: Id)
    requires Keyed(c) && x in c.entries && y in c.entries
  {
    c.entries[x].mime == c.entries[y].mime && c.payloads[x] == c.payloads[y]
  }

  /** Rows that are all kept, or that leave one row changed, keep whatever uniqueness the others had. */
  lemma KeptRowsStayUnique(c: Catalog, d: Catalog, id: Id)
    requires Keyed(c) && Keyed(d) && UniqueContent(c)
    requires forall x | x in d.entries && x != id :: RowKept(c, d, x)
    requires forall x | x in d.entries && x != id && id in d.entries :: !SameContent(d, x, id)
    ensures UniqueContent(d)
  {
    forall x, y | x in d.entries && y in d.entries && x != y ensures !SameContent(d, x, y) {
      if x != id && y != id {
        assert RowKept(c, d, x) && RowKept(c, d, y) && !SameContent(c, x, y);
      } else if x == id {
        assert !SameContent(d, y, id);
      }
    }
  }

  /** The contents stay unique exactly when no other surviving entry already holds the replacement under its MIME. */
  lemma UniqueAmongSurvivors(c: Catalog, codec: Codec, id: Id, expected: nat, mime: string, bytes: Bytes,
      view: ContentView)
    requires History(c, codec) && Keyed(c) && UniqueContent(c)
    requires ReplaceAdmitted(c, id, expected, mime, bytes, view)
    ensures var r := ReplaceBody(c, codec, id, expected, mime, bytes, view);
            && r.Ok? && Keyed(r.value.0)
            && (UniqueContent(r.value.0) <==>
                  forall x | x in c.entries && x in r.value.0.entries && x != id ::
                    !(c.entries[x].mime == mime && c.payloads[x] == bytes))
  {
    hide ReplaceBody, Sound, Retained;
    ReplaceOutcome(c, codec, id, expected, mime, bytes, view);
    ReplaceKeepsOthers(c, codec, id, expected, mime, bytes, view);
    var d := ReplaceBody(c, codec, id, expected, mime, bytes, view).value.0;
    if forall x | x in c.entries && x in d.entries && x != id ::
      !(c.entries[x].mime == mime && c.payloads[x] == bytes) {
      forall x | x in d.entries && x != id ensures !SameContent(d, x, id) {
        assert RowKept(c, d, x);
      }
      KeptRowsStayUnique(c, d, id);
    } else {
      var x :| x in c.entries && x in d.entries && x != id && c.entries[x].mime == mime && c.payloads[x] == bytes;
      assert RowKept(c, d, x) && SameContent(d, x, id);
    }
  }

  lemma ReplaceKeepsOthers(c: Catalog, codec: Codec, id: Id, expected: nat, mime: string, bytes: Bytes,
      view: ContentView)
    requires History(c, codec) && Keyed(c) && ReplaceAdmitted(c, id, expected, mime, bytes, view)
    ensures var r := ReplaceBody(c, codec, id, expected, mime, bytes, view); r.Ok? ==> OthersKept(c, r.value.0, id)
  {
    hide Sound, Retained, Overwritten, Conclude, Keyed, OthersKept, SummaryRow;
    SoundFacts(c, codec);
    ConcludedKeepsOthers(c, codec, id, mime, bytes, view);
  }

  ghost predicate OthersKept(c: Catalog, d: Catalog, id: Id)
    requires Keyed(c)
  {
    Keyed(d) && forall x | x in d.entries && x != id :: RowKept(c, d, x)
  }

  lemma ConcludedKeepsOthers(c: Catalog, codec: Codec, id: Id, mime: string, bytes: Bytes, view: ContentView)
    requires Sound(c, codec) && Keyed(c) && id in c.entries && c.revision + 1 < MAX_REVISION
    requires |mime| <= MAX_MIME && |bytes| <= MAX_ENTRY_BYTES
    ensures var m := Overwritten(c, codec, id, mime, bytes, view);
            var r := Conclude(m, id); r.Ok? ==> OthersKept(c, r.value.0, id)
  {
    hide Sound, Overwritten, Evict, Keyed, RowKept, RowStep, OthersKept;
    SoundFacts(c, codec);
    var m := Overwritten(c, codec, id, mime, bytes, view);
    RewrittenRow(c, codec, id, mime, bytes, view);
    RowsKept(c, m, id);
    var d := Evict(m, m.policy, Some(id));
    EvictShrinks(m, m.policy, Some(id));
    ShrinksKeepsOthers(c, m, d, id);
  }

  lemma ShrinksKeepsOthers(c: Catalog, m: Catalog, d: Catalog, id: Id)
    requires Keyed(c) && Keyed(m) && Keyed(d) && Shrinks(m, d)
    requires forall x | x in m.entries && x != id :: RowKept(c, m, x)
    ensures OthersKept(c, d, id)
  {
    forall x | x in d.entries && x != id ensures RowKept(c, d, x) {
      assert RowKept(m, d, x) && RowKept(c, m, x);
    }
  }

  lemma RowsKept(c: Catalog, m: Catalog, id: Id)
    requires Keyed(c) && Keyed(m) && RowStep(c, m, id)
    requires forall x | x in c.entries && x != id ::
      x in c.payloads && x in c.search && m.payloads[x] == c.payloads[x] && m.search[x] == c.search[x]
    ensures forall x | x in m.entries && x != id :: RowKept(c, m, x)
  {
    forall x | x in m.entries && x != id ensures RowKept(c, m, x) {
      assert SameRow(c.entries[x], m.entries[x]);
    }
  }
}
