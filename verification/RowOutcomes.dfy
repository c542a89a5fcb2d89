/** Everything else the touched row holds after an insert, a replace or a change of its favorite flag. */
module RowOutcomes {
  import opened Wrappers
  import opened Tables
  import opened Retention
  import opened Mutations
  import opened Runs
  import opened Outcomes
  import opened Eviction

  /** Every row that eviction spares is as it was, up to a cleared link. */
  lemma EvictKeepsRows(m: Catalog, p: Policy, prot: Option<Id>, id: Id)
    requires id in Evict(m, p, prot).entries
    ensures id in m.entries && SameRow(m.entries[id], Evict(m, p, prot).entries[id])
    ensures Evict(m, p, prot).revision == m.revision
  {
    hide Overflow, OverBudget, Oversized;
  }

  lemma ConcludedRow(m: Catalog, id: Id)
    requires Conclude(m, id).Ok?
    ensures var d := Conclude(m, id).value.0;
      id in d.entries && id in m.entries && SameRow(m.entries[id], d.entries[id]) && d.revision == m.revision
  {
    hide Conclude, Evict, SameRow;
    ConcludedIsEvicted(m, id);
    EvictKeepsRows(m, m.policy, Some(id), id);
  }

  /** What the resolved content says is shown of the row. */
  ghost predicate Shows(e: Entry, view: ContentView) {
    e.kind == view.kind && e.preview == view.preview && e.resolvedMime == view.mime
  }

  lemma AppendedShows(c: Catalog, codec: Codec, mime: string, bytes: Bytes, view: ContentView, newId: Id)
    requires newId !in c.entries && newId !in c.payloads && newId !in c.search
    ensures var m := Appended(Ticked(c), codec, mime, bytes, view, newId);
      && newId in m.entries && Shows(m.entries[newId], view) && !m.entries[newId].favorite
      && m.entries[newId].revision == m.revision == c.revision + 1 && m.entries[newId].recency == c.sequence + 1
      && m.entries[newId].byteSize == |bytes|
  {
  }

  /** New content becomes a regular entry, one revision later, shown as it was resolved. */
  lemma NewEntryOutcome(c: Catalog, codec: Codec, mime: string, bytes: Bytes, view: ContentView, newId: Id)
    requires History(c, codec) && Keyed(c) && newId !in c.issued && newId !in c.entries
    requires InsertBody(c, codec, mime, bytes, view, newId).Ok? && !Known(c, mime, bytes)
    ensures var (d, reply) := InsertBody(c, codec, mime, bytes, view, newId).value;
      && newId in d.entries && reply == Row(SummaryRow(d.entries, newId))
      && Shows(d.entries[newId], view) && !d.entries[newId].favorite
      && d.entries[newId].revision == d.revision == c.revision + 1
      && d.entries[newId].byteSize == |bytes|
      && forall x | x in c.entries && x in d.entries :: c.entries[x].recency < d.entries[newId].recency
  {
    hide Sound, Retained, Conclude, Twins, Newest, IsCurrent, Known, Promoted, Appended, SummaryRow, Keyed;
    SoundFacts(c, codec);
    TwinsOfKnown(c, codec, mime, bytes);
    NotYetThere(c, newId);
    AppendedShows(c, codec, mime, bytes, view, newId);
    var m := Appended(Ticked(c), codec, mime, bytes, view, newId);
    ConcludedRow(m, newId);
    RepliesRow(m, newId);
    RecencyBounded(c, codec);
  }

  lemma NotYetThere(c: Catalog, id: Id)
    requires Keyed(c) && id !in c.entries
    ensures id !in c.payloads && id !in c.search
  {
  }

  lemma RecencyBounded(c: Catalog, codec: Codec)
    requires Sound(c, codec)
    ensures forall x | x in c.entries :: c.entries[x].recency <= c.sequence
  {
  }

  lemma RepliesRow(m: Catalog, id: Id)
    requires Conclude(m, id).Ok?
    ensures var (d, reply) := Conclude(m, id).value; id in d.entries && reply == Row(SummaryRow(d.entries, id))
  {
    hide Evict, SummaryRow;
  }

  /** Known content is only renumbered: a current entry stays as it is, any other one becomes the newest. */
  lemma KnownEntryOutcome(c: Catalog, codec: Codec, mime: string, bytes: Bytes, view: ContentView, newId: Id)
    requires History(c, codec) && Keyed(c) && newId !in c.issued && newId !in c.entries
    requires InsertBody(c, codec, mime, bytes, view, newId).Ok? && Known(c, mime, bytes)
    ensures var (d, reply) := InsertBody(c, codec, mime, bytes, view, newId).value;
      && reply.Row? && reply.summary.id in c.entries && reply.summary.id in d.entries
      && var (e, f) := (c.entries[reply.summary.id], d.entries[reply.summary.id]);
      && e.mime == mime && c.payloads[reply.summary.id] == bytes
      && f.(revision := e.revision, recency := e.recency, echo := e.echo) == e
      && (if forall x | x in c.entries :: c.entries[x].recency <= e.recency then d == c
          else f.revision == d.revision == c.revision + 1)
  {
    hide History, InsertBody, Conclude, Twins, Newest, Known, Promoted, SummaryRow, Keyed;
    TwinsOfKnown(c, codec, mime, bytes);
    TwinInsert(c, codec, mime, bytes, view, newId);
    var id := Newest(c.entries, Twins(c, codec, mime, bytes));
    TwinHolds(c, codec, mime, bytes, id);
    SummaryNames(c.entries, id);
    if !IsCurrent(c.entries, id) { PromotedConcluded(c, id); }
  }

  lemma TwinInsert(c: Catalog, codec: Codec, mime: string, bytes: Bytes, view: ContentView, newId: Id)
    requires Keyed(c) && newId !in c.entries && Twins(c, codec, mime, bytes) != {}
    requires InsertBody(c, codec, mime, bytes, view, newId).Ok?
    ensures var id := Newest(c.entries, Twins(c, codec, mime, bytes));
      InsertBody(c, codec, mime, bytes, view, newId) ==
      if IsCurrent(c.entries, id) then Ok((c, Row(SummaryRow(c.entries, id))))
      else Conclude(Promoted(Ticked(c), id), id)
  {
    hide Keyed, Twins, Newest, IsCurrent, SummaryRow, Conclude, Promoted;
  }

  lemma PromotedConcluded(c: Catalog, id: Id)
    requires id in c.entries && Conclude(Promoted(Ticked(c), id), id).Ok?
    ensures var (d, reply) := Conclude(Promoted(Ticked(c), id), id).value;
      && reply.Row? && reply.summary.id == id && id in d.entries
      && d.entries[id].revision == d.revision == c.revision + 1
      && d.entries[id].(revision := c.entries[id].revision, recency := c.entries[id].recency,
                        echo := c.entries[id].echo) == c.entries[id]
  {
    hide Conclude, Promoted, SummaryRow;
    var m := Promoted(Ticked(c), id);
    PromotedRow(c, id);
    ConcludedRow(m, id);
    RepliesRow(m, id);
    SummaryNames(Conclude(m, id).value.0.entries, id);
  }

  lemma SummaryNames(es: map<Id, Entry>, id: Id)
    requires id in es
    ensures SummaryRow(es, id).id == id
  {
  }

  lemma PromotedRow(c: Catalog, id: Id)
    requires id in c.entries
    ensures var m := Promoted(Ticked(c), id);
      && id in m.entries && m.revision == c.revision + 1
      && m.entries[id] == c.entries[id].(revision := c.revision + 1, recency := c.sequence + 1)
  {
  }

  lemma OverwrittenShows(c: Catalog, codec: Codec, id: Id, mime: string, bytes: Bytes, view: ContentView)
    requires id in c.entries
    ensures var m := Overwritten(c, codec, id, mime, bytes, view);
      id in m.entries && Shows(m.entries[id], view) && m.entries[id].byteSize == |bytes|
  {
  }

  /** A replaced entry is shown as its new content was resolved. */
  lemma ReplacedEntryOutcome(c: Catalog, codec: Codec, id: Id, expected: nat, mime: string, bytes: Bytes,
      view: ContentView)
    requires History(c, codec) && Keyed(c) && ReplaceBody(c, codec, id, expected, mime, bytes, view).Ok?
    ensures var (d, reply) := ReplaceBody(c, codec, id, expected, mime, bytes, view).value;
      && id in d.entries && Shows(d.entries[id], view) && d.entries[id].byteSize == |bytes|
      && reply == Row(SummaryRow(d.entries, id))
  {
    hide Sound, Retained, Conclude, Overwritten, SummaryRow, Keyed;
    OverwrittenShows(c, codec, id, mime, bytes, view);
    var m := Overwritten(c, codec, id, mime, bytes, view);
    ConcludedRow(m, id);
    RepliesRow(m, id);
  }

  /** Changing the favorite flag changes nothing else of the entry but its revision. */
  lemma FlaggedEntryOutcome(c: Catalog, codec: Codec, id: Id, expected: nat, value: bool)
    requires History(c, codec) && Keyed(c) && FavoriteBody(c, id, expected, value).Ok?
    ensures var d := FavoriteBody(c, id, expected, value).value.0;
      && id in c.entries && id in d.entries
      && d.entries[id].(revision := expected, favorite := c.entries[id].favorite, echo := None) ==
         c.entries[id].(echo := None)
      && (c.entries[id].favorite == value ==> d == c)
  {
    hide Sound, Retained, Evict, IsCurrent, Keyed;
    if c.entries[id].favorite != value {
      EvictKeepsRows(Moved(c.(revision := c.revision + 1), id, value), c.policy, Some(id), id);
    }
  }

  // --------------------------------------------------------------------- errors

  /** Which error a replace reports, and that there is one for every case in which it does not succeed. */
  lemma ReplaceErrors(c: Catalog, codec: Codec, id: Id, expected: nat, mime: string, bytes: Bytes, view: ContentView)
    requires History(c, codec) && Keyed(c)
    ensures var r, p := ReplaceBody(c, codec, id, expected, mime, bytes, view), c.policy;
      && (r == Err(NotFound) <==> id !in c.entries)
      && (r == Err(Stale) <==> id in c.entries && c.entries[id].revision != expected)
      && (r == Err(InvalidData) <==>
            && id in c.entries && c.entries[id].revision == expected
            && (|bytes| > p.maxEntryBytes || |bytes| > p.maxTotalBytes))
      && (r.Err? ==> r.error in {NotFound, Stale, InvalidData, OperationFailed})
  {
    hide Sound, Retained, Conclude, Overwritten, SummaryRow, Keyed;
    SoundFacts(c, codec);
    if ReplaceAdmitted(c, id, expected, mime, bytes, view) {
      RewrittenConcluded(c, codec, id, mime, bytes, view);
    }
  }

  /** Which error a change of the favorite flag reports. */
  lemma FavoriteErrors(c: Catalog, codec: Codec, id: Id, expected: nat, value: bool)
    requires History(c, codec) && Keyed(c)
    ensures var r, p := FavoriteBody(c, id, expected, value), c.policy;
      && (r == Err(NotFound) <==> id !in c.entries)
      && (r == Err(Stale) <==> id in c.entries && c.entries[id].revision != expected)
      && (r == Err(InvalidData) <==>
            && id in c.entries && c.entries[id].revision == expected && c.entries[id].favorite != value
            && (if value then p.maxFavorites else p.maxEntries) == 0)
      && (r.Err? ==> r.error in {NotFound, Stale, InvalidData, OperationFailed})
  {
    hide Sound, Retained, Retain, Moved, Keyed, IsCurrent;
    SoundFacts(c, codec);
    if id in c.entries && c.revision + 1 < MAX_REVISION
      && 0 < (if value then c.policy.maxFavorites else c.policy.maxEntries) {
      MovedConcluded(c, codec, id, value);
    }
  }

  /** Which error an insert reports: closed admission first, then content that is too large or has no place. */
  lemma InsertErrors(c: Catalog, codec: Codec, mime: string, bytes: Bytes, view: ContentView, newId: Id)
    requires History(c, codec) && Keyed(c) && newId !in c.issued && newId !in c.entries
    ensures var r, p := InsertBody(c, codec, mime, bytes, view, newId), c.policy;
      && (r == Err(Unavailable) <==> !p.admission)
      && (r == Err(InvalidData) <==>
            && p.admission
            && (|bytes| > p.maxEntryBytes || |bytes| > p.maxTotalBytes
                || (!Known(c, mime, bytes) && p.maxEntries == 0 && c.revision + 1 < MAX_REVISION)))
      && (r.Err? ==> r.error in {Unavailable, InvalidData, OperationFailed})
  {
    hide Sound, Retained, Conclude, Twins, Newest, IsCurrent, Known, Promoted, Appended, SummaryRow, Keyed;
    SoundFacts(c, codec);
    TwinsOfKnown(c, codec, mime, bytes);
    NotYetThere(c, newId);
    if c.revision + 1 < MAX_REVISION && AllowedPayload(c.policy, bytes) {
      if Twins(c, codec, mime, bytes) != {} {
        PromotedConcludes(c, codec, Newest(c.entries, Twins(c, codec, mime, bytes)));
      } else if 0 < c.policy.maxEntries && |mime| <= MAX_MIME {
        AppendedConcludes(c, codec, mime, bytes, view, newId);
      }
    }
  }
}
