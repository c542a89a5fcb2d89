/**
  Which entries eviction costs: the oldest of their kind first, only when a limit is
  exceeded, and never one that a mutation still has room for.
  */
module Eviction {
  import opened Sets
  import opened Wrappers
  import opened Tables
  import opened Retention
  import opened Mutations
  import opened Runs
  import opened Outcomes
  import opened Duplicates

  // ---------------------------------------------------------------- the stages

  /** The count stage: whenever an unprotected row stays, every more recent row of its kind stays. */
  lemma OverflowKeepsNewer(es: map<Id, Entry>, prot: Option<Id>, pool: set<Id>, limit: nat, x: Id, y: Id)
    requires pool <= es.Keys && x in pool && y in pool && Some(y) != prot
    requires es[x].favorite == es[y].favorite && MoreRecent(es, x, y)
    requires y !in Overflow(es, prot, pool, limit)
    ensures x !in Overflow(es, prot, pool, limit)
  {
    OverflowKeepsTop(es, prot, pool, limit);
  }

  /** The byte stage: the same, and every favorite stays as long as any unprotected regular row does. */
  lemma BudgetKeepsNewer(es: map<Id, Entry>, prot: Option<Id>, budget: nat, x: Id, y: Id)
    requires x in es && y in es && Some(y) != prot && y !in OverBudget(es, prot, budget)
    requires (es[x].favorite == es[y].favorite && MoreRecent(es, x, y)) || (es[x].favorite && !es[y].favorite)
    ensures x !in OverBudget(es, prot, budget)
  {
    hide OverBudget;
    BudgetKeepsNewerOnes(es, prot, budget);
    assert y in es.Keys - OverBudget(es, prot, budget);
  }

  lemma BudgetKeepsNewerOnes(es: map<Id, Entry>, prot: Option<Id>, budget: nat)
    ensures KeepsNewer(es, prot, es.Keys, es.Keys - OverBudget(es, prot, budget))
  {
    hide KeepsNewer, OverBudget, Prefix;
    ByteStageKeepsLongestPrefix(es, prot, budget);
  }

  lemma CountStageKeepsNewer(c: Catalog, prot: Option<Id>, favorite: bool, limit: nat, x: Id, y: Id)
    requires x in c.entries && y in c.entries && Some(y) != prot
    requires c.entries[x].favorite == c.entries[y].favorite && MoreRecent(c.entries, x, y)
    requires y in DropOverflow(c, prot, favorite, limit).entries
    ensures x in DropOverflow(c, prot, favorite, limit).entries
  {
    hide Ahead, Unlink;
    var pool := Category(c.entries, favorite);
    if x in pool { OverflowKeepsNewer(c.entries, prot, pool, limit, x, y); }
  }

  lemma SameRecency(es: map<Id, Entry>, fs: map<Id, Entry>, x: Id, y: Id)
    requires SameOrderKeys(es, fs) && x in fs && y in fs
    ensures x in es && y in es && fs[x].favorite == es[x].favorite && fs[y].favorite == es[y].favorite
    ensures MoreRecent(fs, x, y) == MoreRecent(es, x, y)
  {
  }

  /** All stages together: a kept unprotected row keeps every more recent one of its kind that is not oversized. */
  lemma EvictKeepsNewer(c: Catalog, p: Policy, prot: Option<Id>, x: Id, y: Id)
    requires x in c.entries && (c.entries[x].byteSize <= p.maxEntryBytes || Some(x) == prot)
    requires y in Evict(c, p, prot).entries && y in c.entries && Some(y) != prot
    requires c.entries[x].favorite == c.entries[y].favorite && MoreRecent(c.entries, x, y)
    ensures x in Evict(c, p, prot).entries
  {
    hide DeleteEntries, Overflow, OverBudget, MoreRecent, SameOrderKeys;
    var c1 := DropOversized(c, p, prot);
    DropKeepsOrderKeys(c, Oversized(c.entries, prot, p.maxEntryBytes));
    var c2 := DropOverflow(c1, prot, false, p.maxEntries);
    DropKeepsOrderKeys(c1, Overflow(c1.entries, prot, Category(c1.entries, false), p.maxEntries));
    var c3 := DropOverflow(c2, prot, true, p.maxFavorites);
    DropKeepsOrderKeys(c2, Overflow(c2.entries, prot, Category(c2.entries, true), p.maxFavorites));
    DropKeepsOrderKeys(c3, OverBudget(c3.entries, prot, p.maxTotalBytes));
    SameRecency(c.entries, c1.entries, x, y);
    CountStageKeepsNewer(c1, prot, false, p.maxEntries, x, y);
    SameRecency(c1.entries, c2.entries, x, y);
    CountStageKeepsNewer(c2, prot, true, p.maxFavorites, x, y);
    SameRecency(c2.entries, c3.entries, x, y);
    BudgetKeepsNewer(c3.entries, prot, p.maxTotalBytes, x, y);
  }

  // ------------------------------------------------------- only over a limit

  /** The rows of one kind, and the bytes of all rows. */
  function OfKind(es: map<Id, Entry>, favorite: bool): set<Id> { set id | id in es && es[id].favorite == favorite }

  function KindLimit(p: Policy, favorite: bool): nat { if favorite then p.maxFavorites else p.maxEntries }

  lemma CountStageLosesOnlyOver(c: Catalog, prot: Option<Id>, favorite: bool, limit: nat, x: Id)
    requires x in c.entries && x !in DropOverflow(c, prot, favorite, limit).entries
    ensures c.entries[x].favorite == favorite && |OfKind(c.entries, favorite)| > limit
  {
    hide Unlink;
    var pool := Category(c.entries, favorite);
    assert pool == OfKind(c.entries, favorite);
    if |pool| <= limit { NoOverflow(c.entries, prot, pool, limit); }
  }

  lemma FewerOfKind(es: map<Id, Entry>, fs: map<Id, Entry>, favorite: bool)
    requires SameOrderKeys(es, fs)
    ensures |OfKind(fs, favorite)| <= |OfKind(es, favorite)| && Sum(fs, fs.Keys) <= Sum(es, es.Keys)
  {
    SubsetSize(OfKind(fs, favorite), OfKind(es, favorite));
    SumSame(es, fs, fs.Keys);
    SumSubset(es, fs.Keys, es.Keys);
  }

  /** A row is only lost when it is oversized itself, or its kind or all rows together exceed their limit. */
  lemma EvictLosesOnlyOverLimits(c: Catalog, p: Policy, prot: Option<Id>, x: Id)
    requires x in c.entries && x !in Evict(c, p, prot).entries
    ensures
      || (c.entries[x].byteSize > p.maxEntryBytes && Some(x) != prot)
      || |OfKind(c.entries, c.entries[x].favorite)| > KindLimit(p, c.entries[x].favorite)
      || Sum(c.entries, c.entries.Keys) > p.maxTotalBytes
  {
    hide DeleteEntries, Overflow, SameOrderKeys, OfKind;
    var c1 := DropOversized(c, p, prot);
    DropKeepsOrderKeys(c, Oversized(c.entries, prot, p.maxEntryBytes));
    var c2 := DropOverflow(c1, prot, false, p.maxEntries);
    DropKeepsOrderKeys(c1, Overflow(c1.entries, prot, Category(c1.entries, false), p.maxEntries));
    var c3 := DropOverflow(c2, prot, true, p.maxFavorites);
    DropKeepsOrderKeys(c2, Overflow(c2.entries, prot, Category(c2.entries, true), p.maxFavorites));
    DropKeepsOrderKeys(c3, OverBudget(c3.entries, prot, p.maxTotalBytes));
    OrderKeysCompose(c.entries, c1.entries, c2.entries);
    OrderKeysCompose(c.entries, c2.entries, c3.entries);
    FewerOfKind(c.entries, c1.entries, false);
    FewerOfKind(c.entries, c2.entries, true);
    FewerOfKind(c.entries, c3.entries, true);
    if x in c1.entries {
      SameRecency(c.entries, c1.entries, x, x);
      if x !in c2.entries {
        CountStageLosesOnlyOver(c1, prot, false, p.maxEntries, x);
      } else {
        SameRecency(c.entries, c2.entries, x, x);
        if x !in c3.entries {
          CountStageLosesOnlyOver(c2, prot, true, p.maxFavorites, x);
        } else {
          SumSubset(c3.entries, Ahead(c3.entries, prot, c3.entries.Keys, x) + {x}, c3.entries.Keys);
        }
      }
    }
  }

  // -------------------------------------------------------------- whole mutations

  /** The tables ahead of eviction, in a mutation that touches row `id` only. */
  ghost predicate Prepared(c: Catalog, m: Catalog, id: Id) {
    && id in m.entries && c.entries.Keys <= m.entries.Keys && m.policy == c.policy
    && m.entries[id].revision == c.revision + 1
    && forall x | x in c.entries && x != id :: SameRow(c.entries[x], m.entries[x])
  }

  lemma RowStepIsPrepared(c: Catalog, m: Catalog, id: Id)
    requires RowStep(c, m, id)
    ensures Prepared(c, m, id)
  {
  }

  lemma PreparedEvictsOldest(c: Catalog, m: Catalog, id: Id, x: Id, y: Id)
    requires Prepared(c, m, id) && x in c.entries && y in c.entries && y != id
    requires Retained(c.entries, c.policy) && id in Evict(m, m.policy, Some(id)).entries
    requires c.entries[x].favorite == c.entries[y].favorite && MoreRecent(c.entries, x, y)
    requires y in Evict(m, m.policy, Some(id)).entries
    ensures x in Evict(m, m.policy, Some(id)).entries
  {
    hide Evict;
    if x != id {
      assert SameRow(c.entries[x], m.entries[x]) && SameRow(c.entries[y], m.entries[y]);
      EvictKeepsNewer(m, m.policy, Some(id), x, y);
    }
  }

  lemma ConcludedIsEvicted(m: Catalog, id: Id)
    requires Conclude(m, id).Ok?
    ensures var d := Conclude(m, id).value.0; d == Evict(m, m.policy, Some(id)) && id in d.entries
  {
    hide Evict, IsCurrent;
  }

  /** An insert, replace or favorite that changes anything touches one row and then evicts around it. */
  ghost predicate Touches(c: Catalog, d: Catalog, id: Id, before: Catalog) {
    Prepared(c, before, id) && d == Evict(before, before.policy, Some(id)) && id in d.entries
  }

  lemma PromotedTouches(c: Catalog, codec: Codec, id: Id)
    requires Sound(c, codec) && id in c.entries && c.revision + 1 < MAX_REVISION
    ensures var m := Promoted(Ticked(c), id); Conclude(m, id).Ok? ==> Touches(c, Conclude(m, id).value.0, id, m)
  {
    hide Sound, Evict, Conclude, Promoted, RowStep, Prepared;
    var m := Promoted(Ticked(c), id);
    PromotedIsSound(c, id, codec);
    RowStepIsPrepared(c, m, id);
    if Conclude(m, id).Ok? { ConcludedIsEvicted(m, id); }
  }

  lemma AppendedTouches(c: Catalog, codec: Codec, mime: string, bytes: Bytes, view: ContentView, newId: Id)
    requires Sound(c, codec) && Keyed(c) && newId !in c.issued && newId !in c.entries && c.revision + 1 < MAX_REVISION
    requires |mime| <= MAX_MIME && |bytes| <= MAX_ENTRY_BYTES && newId !in c.payloads && newId !in c.search
    ensures var m := Appended(Ticked(c), codec, mime, bytes, view, newId);
      Conclude(m, newId).Ok? ==> Touches(c, Conclude(m, newId).value.0, newId, m)
  {
    hide Sound, Evict, Conclude, Appended, RowStep, Prepared;
    var m := Appended(Ticked(c), codec, mime, bytes, view, newId);
    SoundFacts(c, codec);
    AppendedRow(c, codec, mime, bytes, view, newId);
    RowStepIsPrepared(c, m, newId);
    if Conclude(m, newId).Ok? { ConcludedIsEvicted(m, newId); }
  }

  lemma OverwrittenTouches(c: Catalog, codec: Codec, id: Id, mime: string, bytes: Bytes, view: ContentView)
    requires Keyed(c) && id in c.entries && c.revision + 1 < MAX_REVISION
    requires |mime| <= MAX_MIME && |bytes| <= MAX_ENTRY_BYTES
    ensures var m := Overwritten(c, codec, id, mime, bytes, view);
      Conclude(m, id).Ok? ==> Touches(c, Conclude(m, id).value.0, id, m)
  {
    hide Evict, Conclude, Overwritten, RowStep, Prepared;
    var m := Overwritten(c, codec, id, mime, bytes, view);
    RewrittenRow(c, codec, id, mime, bytes, view);
    RowStepIsPrepared(c, m, id);
    if Conclude(m, id).Ok? { ConcludedIsEvicted(m, id); }
  }

  lemma MovedTouches(c: Catalog, codec: Codec, id: Id, value: bool)
    requires Sound(c, codec) && id in c.entries && c.revision + 1 < MAX_REVISION
    ensures var m := Moved(c.(revision := c.revision + 1), id, value);
      var r := Retain(m, c.policy, Some(id)); r.Ok? ==> Touches(c, r.value, id, m)
  {
    hide Sound, Evict, RowStep, Prepared, Moved;
    MovedIsSound(c, id, value, codec);
    RowStepIsPrepared(c, Moved(c.(revision := c.revision + 1), id, value), id);
    MovedKeepsPolicy(c, id, value);
  }

  lemma MovedKeepsPolicy(c: Catalog, id: Id, value: bool)
    requires id in c.entries
    ensures Moved(c.(revision := c.revision + 1), id, value).policy == c.policy
  {
  }

  lemma InsertTouches(c: Catalog, codec: Codec, m: Mutation) returns (id: Id, before: Catalog)
    requires History(c, codec) && Keyed(c) && m.Insert? && m.newId !in c.issued && m.newId !in c.entries
    requires Body(c, codec, m).Ok? && Body(c, codec, m).value.0 != c
    ensures Touches(c, Body(c, codec, m).value.0, id, before)
  {
    hide Sound, Retained, Conclude, Twins, Newest, IsCurrent, SummaryRow, Touches, Promoted, Appended;
    SoundFacts(c, codec);
    var twins := Twins(c, codec, m.mime, m.bytes);
    if twins != {} {
      id := Newest(c.entries, twins);
      before := Promoted(Ticked(c), id);
      PromotedTouches(c, codec, id);
    } else {
      id := m.newId;
      before := Appended(Ticked(c), codec, m.mime, m.bytes, m.view, id);
      AppendedTouches(c, codec, m.mime, m.bytes, m.view, id);
    }
  }

  lemma MutationTouches(c: Catalog, codec: Codec, m: Mutation) returns (id: Id, before: Catalog)
    requires History(c, codec) && Keyed(c) && (m.Insert? ==> m.newId !in c.issued && m.newId !in c.entries)
    requires (m.Insert? || m.Replace? || m.Favorite?) && Body(c, codec, m).Ok? && Body(c, codec, m).value.0 != c
    ensures Touches(c, Body(c, codec, m).value.0, id, before)
  {
    hide Sound, Retained, Conclude, IsCurrent, SummaryRow, Touches, Overwritten, Moved, Retain, InsertBody, Keyed;
    SoundFacts(c, codec);
    match m
    case Insert(_, _, _, _) => id, before := InsertTouches(c, codec, m);
    case Replace(target, _, mime, bytes, view) =>
      id, before := target, Overwritten(c, codec, target, mime, bytes, view);
      OverwrittenTouches(c, codec, target, mime, bytes, view);
    case Favorite(target, _, value) =>
      id, before := target, Moved(c.(revision := c.revision + 1), target, value);
      MovedTouches(c, codec, target, value);
  }

  /**
    A full history gives up its oldest entries: if a mutation leaves an entry that it did
    not touch, it leaves every more recent entry of the same kind.
    */
  lemma MutationEvictsOldest(c: Catalog, codec: Codec, m: Mutation, x: Id, y: Id)
    requires History(c, codec) && Keyed(c) && (m.Insert? ==> m.newId !in c.issued && m.newId !in c.entries)
    requires m.Insert? || m.Replace? || m.Favorite?
    requires x in c.entries && y in c.entries && c.entries[x].favorite == c.entries[y].favorite
    requires MoreRecent(c.entries, x, y)
    requires var d := Step(c, codec, m).entries; y in d && d[y].revision == c.entries[y].revision
    ensures x in Step(c, codec, m).entries
  {
    hide Sound, Retained, Body, Evict, MoreRecent, Keyed;
    if Body(c, codec, m).Ok? && Body(c, codec, m).value.0 != c {
      var id, before := MutationTouches(c, codec, m);
      RevisionsBound(c, codec, y);
      EvictKeepsRevision(before, before.policy, Some(id), y);
      PreparedEvictsOldest(c, before, id, x, y);
    }
  }

  lemma RevisionsBound(c: Catalog, codec: Codec, y: Id)
    requires Sound(c, codec) && y in c.entries
    ensures c.entries[y].revision <= c.revision
  {
  }

  lemma EvictKeepsRevision(m: Catalog, p: Policy, prot: Option<Id>, y: Id)
    requires y in Evict(m, p, prot).entries
    ensures y in m.entries && Evict(m, p, prot).entries[y].revision == m.entries[y].revision
  {
    hide Overflow, OverBudget, Oversized;
  }

  // ---------------------------------------------------------- within the limits

  /** Eviction keeps all of a table that is within the limits. */
  lemma EvictKeepsAllWithin(m: Catalog, p: Policy, prot: Option<Id>)
    requires forall x | x in m.entries :: m.entries[x].byteSize <= p.maxEntryBytes
    requires |OfKind(m.entries, false)| <= p.maxEntries && |OfKind(m.entries, true)| <= p.maxFavorites
    requires Sum(m.entries, m.entries.Keys) <= p.maxTotalBytes
    ensures Evict(m, p, prot) == m
  {
    hide Evict;
    assert Category(m.entries, false) == OfKind(m.entries, false);
    assert Category(m.entries, true) == OfKind(m.entries, true);
    OnlyBytesEvict(m, p, prot);
    forall id | id in m.entries ensures Running(m.entries, prot, id) <= p.maxTotalBytes {
      SumSubset(m.entries, Ahead(m.entries, prot, m.entries.Keys, id) + {id}, m.entries.Keys);
    }
    assert OverBudget(m.entries, prot, p.maxTotalBytes) == {};
    DeleteNothing(m);
  }

  /** Every reachable history is within its policy, in numbers. */
  lemma StoreRespectsPolicy(states: seq<Catalog>, ops: seq<Mutation>, codec: Codec, k: nat)
    requires Run(states, ops, codec) && k < |states|
    ensures Keyed(states[k])
    ensures var es, p := states[k].entries, states[k].policy;
      && (forall x | x in es :: |states[k].payloads[x]| <= p.maxEntryBytes <= 67108864)
      && |OfKind(es, false)| <= p.maxEntries <= 100000
      && |OfKind(es, true)| <= p.maxFavorites <= 10000
      && Sum(es, es.Keys) <= p.maxTotalBytes
  {
    hide Run, History;
    RunKeepsHistory(states, ops, codec, k);
    HistoryWithin(states[k], codec);
  }

  lemma HistoryWithin(c: Catalog, codec: Codec)
    requires History(c, codec)
    ensures Keyed(c) && ValidPolicy(c.policy)
    ensures forall x | x in c.entries :: |c.payloads[x]| <= c.policy.maxEntryBytes
    ensures |OfKind(c.entries, false)| <= c.policy.maxEntries && |OfKind(c.entries, true)| <= c.policy.maxFavorites
    ensures Sum(c.entries, c.entries.Keys) <= c.policy.maxTotalBytes
  {
    hide Bounded, Distinct, Sum;
    assert Category(c.entries, false) == OfKind(c.entries, false);
    assert Category(c.entries, true) == OfKind(c.entries, true);
    forall x | x in c.entries ensures c.entries[x].byteSize == |c.payloads[x]| {
      assert Faithful(c.entries[x], c.payloads[x], c.search[x], codec);
    }
  }

  /** Row `id` is new or moved to a kind, or only renumbered; the bytes of the others are unchanged. */
  lemma PreparedWithin(c: Catalog, m: Catalog, id: Id)
    requires Retained(c.entries, c.policy) && Prepared(c, m, id) && m.entries.Keys == c.entries.Keys + {id}
    requires m.entries[id].byteSize <= c.policy.maxEntryBytes
    requires
      || (id in c.entries && c.entries[id].favorite == m.entries[id].favorite)
      || |OfKind(c.entries, m.entries[id].favorite)| < KindLimit(c.policy, m.entries[id].favorite)
    requires if id in c.entries then c.entries[id].byteSize == m.entries[id].byteSize
      else Sum(c.entries, c.entries.Keys) + m.entries[id].byteSize <= c.policy.maxTotalBytes
    ensures Evict(m, m.policy, Some(id)) == m
  {
    hide Evict;
    assert Category(c.entries, false) == OfKind(c.entries, false);
    assert Category(c.entries, true) == OfKind(c.entries, true);
    PreparedKinds(c, m, id, false);
    PreparedKinds(c, m, id, true);
    PreparedSum(c, m, id);
    forall x | x in m.entries ensures m.entries[x].byteSize <= m.policy.maxEntryBytes {
      if x != id { assert SameRow(c.entries[x], m.entries[x]); }
    }
    EvictKeepsAllWithin(m, m.policy, Some(id));
  }

  lemma PreparedKinds(c: Catalog, m: Catalog, id: Id, favorite: bool)
    requires Prepared(c, m, id) && m.entries.Keys == c.entries.Keys + {id}
    ensures m.entries[id].favorite != favorite ==> |OfKind(m.entries, favorite)| <= |OfKind(c.entries, favorite)|
    ensures id in c.entries && c.entries[id].favorite == m.entries[id].favorite ==>
      |OfKind(m.entries, favorite)| <= |OfKind(c.entries, favorite)|
    ensures |OfKind(m.entries, favorite)| <= |OfKind(c.entries, favorite)| + 1
  {
    forall x | x in c.entries && x != id ensures m.entries[x].favorite == c.entries[x].favorite {
      assert SameRow(c.entries[x], m.entries[x]);
    }
    GrownSize(OfKind(m.entries, favorite), OfKind(c.entries, favorite), id);
    if OfKind(m.entries, favorite) <= OfKind(c.entries, favorite) {
      SubsetSize(OfKind(m.entries, favorite), OfKind(c.entries, favorite));
    }
  }

  lemma PreparedSum(c: Catalog, m: Catalog, id: Id)
    requires Prepared(c, m, id) && m.entries.Keys == c.entries.Keys + {id}
    requires id in c.entries ==> c.entries[id].byteSize == m.entries[id].byteSize
    ensures Sum(m.entries, m.entries.Keys) ==
      Sum(c.entries, c.entries.Keys) + if id in c.entries then 0 else m.entries[id].byteSize
  {
    forall x | x in c.entries && x != id ensures m.entries[x].byteSize == c.entries[x].byteSize {
      assert SameRow(c.entries[x], m.entries[x]);
    }
    if id in c.entries {
      assert m.entries.Keys == c.entries.Keys;
    } else {
      SumRemove(m.entries, m.entries.Keys, id);
      assert m.entries.Keys - {id} == c.entries.Keys;
    }
    SumSame(c.entries, m.entries, c.entries.Keys);
  }

  /** Content that the history holds already. */
  predicate Known(c: Catalog, mime: string, bytes: Bytes)
    requires Keyed(c)
  {
    exists x :: x in c.entries && c.entries[x].mime == mime && c.payloads[x] == bytes
  }

  lemma TwinsOfKnown(c: Catalog, codec: Codec, mime: string, bytes: Bytes)
    requires History(c, codec) && Keyed(c)
    ensures Twins(c, codec, mime, bytes) != {} <==> Known(c, mime, bytes)
  {
    hide Distinct, Bounded, Retained, Twins;
    if Known(c, mime, bytes) {
      var x :| x in c.entries && c.entries[x].mime == mime && c.payloads[x] == bytes;
      if Twins(c, codec, mime, bytes) == {} { NoTwinMeansNew(c, codec, mime, bytes, x); }
    }
    forall x | x in Twins(c, codec, mime, bytes) ensures Known(c, mime, bytes) {
      TwinHolds(c, codec, mime, bytes, x);
    }
  }

  /** An insert loses nothing while there is room for the new content, or when it is known already. */
  lemma InsertKeepsAllWithRoom(c: Catalog, codec: Codec, mime: string, bytes: Bytes, view: ContentView, newId: Id)
    requires History(c, codec) && Keyed(c) && newId !in c.issued && newId !in c.entries
    requires InsertBody(c, codec, mime, bytes, view, newId).Ok?
    requires Known(c, mime, bytes)
      || (|OfKind(c.entries, false)| < c.policy.maxEntries
          && Sum(c.entries, c.entries.Keys) + |bytes| <= c.policy.maxTotalBytes)
    ensures InsertBody(c, codec, mime, bytes, view, newId).value.0.entries.Keys ==
      c.entries.Keys + if Known(c, mime, bytes) then {} else {newId}
  {
    hide Sound, Retained, Conclude, Twins, Newest, IsCurrent, SummaryRow, Known, Promoted, Appended, OfKind, Keyed;
    SoundFacts(c, codec);
    TwinsOfKnown(c, codec, mime, bytes);
    var twins := Twins(c, codec, mime, bytes);
    if twins != {} {
      if !IsCurrent(c.entries, Newest(c.entries, twins)) { PromotedKeepsAll(c, codec, Newest(c.entries, twins)); }
    } else {
      AppendedKeepsAll(c, codec, mime, bytes, view, newId);
    }
  }

  lemma PromotedKeepsAll(c: Catalog, codec: Codec, id: Id)
    requires History(c, codec) && id in c.entries && c.revision + 1 < MAX_REVISION
    ensures var r := Conclude(Promoted(Ticked(c), id), id); r.Ok? ==> r.value.0.entries.Keys == c.entries.Keys
  {
    hide Sound, Conclude, Evict, RowStep, Prepared, OfKind, Sum, IsCurrent;
    var m := Promoted(Ticked(c), id);
    PromotedIsSound(c, id, codec);
    RowStepIsPrepared(c, m, id);
    PreparedWithin(c, m, id);
    if Conclude(m, id).Ok? { ConcludedIsEvicted(m, id); }
  }

  lemma AppendedKeepsAll(c: Catalog, codec: Codec, mime: string, bytes: Bytes, view: ContentView, newId: Id)
    requires History(c, codec) && Keyed(c) && newId !in c.issued && newId !in c.entries && c.revision + 1 < MAX_REVISION
    requires |mime| <= MAX_MIME && AllowedPayload(c.policy, bytes) && newId !in c.payloads && newId !in c.search
    requires |OfKind(c.entries, false)| < c.policy.maxEntries
    requires Sum(c.entries, c.entries.Keys) + |bytes| <= c.policy.maxTotalBytes
    ensures var r := Conclude(Appended(Ticked(c), codec, mime, bytes, view, newId), newId);
      r.Ok? ==> r.value.0.entries.Keys == c.entries.Keys + {newId}
  {
    hide Sound, Conclude, Evict, Appended, RowStep, Prepared, OfKind, Sum, Retained;
    var m := Appended(Ticked(c), codec, mime, bytes, view, newId);
    SoundFacts(c, codec);
    AppendedRow(c, codec, mime, bytes, view, newId);
    RowStepIsPrepared(c, m, newId);
    RowStepKeys(c, m, newId);
    PreparedWithin(c, m, newId);
    if Conclude(m, newId).Ok? { ConcludedIsEvicted(m, newId); }
  }

  lemma RowStepKeys(c: Catalog, m: Catalog, id: Id)
    requires RowStep(c, m, id)
    ensures m.entries.Keys == c.entries.Keys + {id} && m.policy == c.policy
  {
  }

  /** Changing the favorite flag loses nothing while the other kind has room. */
  lemma FavoriteKeepsAllWithRoom(c: Catalog, codec: Codec, id: Id, expected: nat, value: bool)
    requires History(c, codec) && Keyed(c) && FavoriteBody(c, id, expected, value).Ok?
    requires |OfKind(c.entries, value)| < KindLimit(c.policy, value) || c.entries[id].favorite == value
    ensures FavoriteBody(c, id, expected, value).value.0.entries.Keys == c.entries.Keys
  {
    hide History, Retain, Moved, OfKind, IsCurrent, Keyed;
    if c.entries[id].favorite != value { MovedKeepsAll(c, codec, id, value); }
  }

  lemma MovedKeepsAll(c: Catalog, codec: Codec, id: Id, value: bool)
    requires History(c, codec) && id in c.entries && c.revision + 1 < MAX_REVISION
    requires |OfKind(c.entries, value)| < KindLimit(c.policy, value)
    ensures var r := Retain(Moved(c.(revision := c.revision + 1), id, value), c.policy, Some(id));
      r.Ok? ==> r.value.entries.Keys == c.entries.Keys
  {
    hide Sound, Retained, Retain, RowStep, Prepared, OfKind, Sum;
    var m := Moved(c.(revision := c.revision + 1), id, value);
    MovedIsSound(c, id, value, codec);
    RowStepIsPrepared(c, m, id);
    SizesWithin(c, id);
    PreparedWithin(c, m, id);
    RetainIsEvict(m, c.policy, Some(id));
  }

  lemma RetainIsEvict(m: Catalog, p: Policy, prot: Option<Id>)
    ensures Retain(m, p, prot).Ok? ==> Retain(m, p, prot).value == Evict(m, p, prot)
  {
    hide Evict;
  }

  lemma SizesWithin(c: Catalog, id: Id)
    requires Retained(c.entries, c.policy) && id in c.entries
    ensures c.entries[id].byteSize <= c.policy.maxEntryBytes
  {
  }
}
