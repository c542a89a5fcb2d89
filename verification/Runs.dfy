/**
  Whole runs of the store: what a catalog revision, and the revision of one
  entry, identify over any sequence of mutations.
  */
module Runs {
  import opened Wrappers
  import opened Tables
  import opened Retention
  import opened Mutations

  /** `states[k + 1]` is `states[k]` after `ops[k]`; identifiers are never drawn twice. */
  ghost predicate Run(states: seq<Catalog>, ops: seq<Mutation>, codec: Codec) {
    && |states| == |ops| + 1
    && History(states[0], codec)
    && forall k | 0 <= k < |ops| ::
         && Keyed(states[k])
         && (ops[k].Insert? ==> ops[k].newId !in states[k].issued && ops[k].newId !in states[k].entries)
         && states[k + 1] == Step(states[k], codec, ops[k])
  }

  /** Well-formedness, acyclic echoes and the retention limits hold in every reachable state. */
  lemma {:induction false} RunKeepsHistory(states: seq<Catalog>, ops: seq<Mutation>, codec: Codec, k: nat)
    requires Run(states, ops, codec) && k < |states|
    ensures History(states[k], codec)
  {
    hide History;
    if k > 0 {
      RunKeepsHistory(states, ops, codec, k - 1);
      BodyKeepsHistory(states[k - 1], codec, ops[k - 1]);
    }
  }

  /** The empty schema is a possible first state. */
  lemma EmptyIsHistory(codec: Codec)
    ensures History(EMPTY_CATALOG, codec)
    ensures EMPTY_CATALOG.entries == map[] && EMPTY_CATALOG.artifacts == map[] && EMPTY_CATALOG.revision == 0
    ensures EMPTY_CATALOG.policy == Policy(false, 1000, 100, 16777216, 268435456)
  {
    var rank: map<Id, nat> := map[];
    assert EchoGraph.Ranked(EMPTY_CATALOG.entries, rank);
    assert Category(EMPTY_CATALOG.entries, false) == {} == Category(EMPTY_CATALOG.entries, true);
  }

  // ------------------------------------------------------- one step, row by row

  ghost predicate SameTables(c: Catalog, d: Catalog) {
    && d.revision == c.revision && d.issued == c.issued
    && d.entries == c.entries && d.payloads == c.payloads && d.search == c.search
  }

  ghost predicate RowKept(c: Catalog, d: Catalog, id: Id)
    requires Keyed(c) && Keyed(d)
  {
    && id in c.entries && id in d.entries && SameRow(c.entries[id], d.entries[id])
    && d.payloads[id] == c.payloads[id] && d.search[id] == c.search[id]
  }

  /** One revision later: every row is kept, or carries the new revision and is not a returned old identifier. */
  ghost predicate Evolves(c: Catalog, d: Catalog)
    requires Keyed(c) && Keyed(d)
  {
    && d.revision == c.revision + 1 && c.issued <= d.issued
    && forall id | id in d.entries ::
         RowKept(c, d, id) || (d.entries[id].revision == d.revision && (id in c.entries || id !in c.issued))
  }

  ghost predicate Shrinks(c: Catalog, d: Catalog)
    requires Keyed(c) && Keyed(d)
  {
    d.revision == c.revision && d.issued == c.issued && forall id | id in d.entries :: RowKept(c, d, id)
  }

  lemma DeletionShrinks(c: Catalog, victims: set<Id>)
    requires Keyed(c)
    ensures Keyed(DeleteEntries(c, victims)) && Shrinks(c, DeleteEntries(c, victims))
  {
  }

  lemma ShrinksCompose(c: Catalog, d: Catalog, e: Catalog)
    requires Keyed(c) && Keyed(d) && Keyed(e) && Shrinks(c, d) && Shrinks(d, e)
    ensures Shrinks(c, e)
  {
    hide Keyed;
    forall id | id in e.entries ensures RowKept(c, e, id) {
      assert RowKept(d, e, id) && RowKept(c, d, id);
    }
  }

  lemma EvictShrinks(c: Catalog, p: Policy, prot: Option<Id>)
    requires Keyed(c)
    ensures Keyed(Evict(c, p, prot)) && Shrinks(c, Evict(c, p, prot))
  {
    hide DeleteEntries, Shrinks, Keyed;
    var c1 := DropOversized(c, p, prot);
    DeletionShrinks(c, Oversized(c.entries, prot, p.maxEntryBytes));
    var c2 := DropOverflow(c1, prot, false, p.maxEntries);
    DeletionShrinks(c1, Overflow(c1.entries, prot, Category(c1.entries, false), p.maxEntries));
    var c3 := DropOverflow(c2, prot, true, p.maxFavorites);
    DeletionShrinks(c2, Overflow(c2.entries, prot, Category(c2.entries, true), p.maxFavorites));
    DeletionShrinks(c3, OverBudget(c3.entries, prot, p.maxTotalBytes));
    ShrinksCompose(c, c1, c2);
    ShrinksCompose(c, c2, c3);
    ShrinksCompose(c, c3, DropOverBudget(c3, p, prot));
  }

  lemma EvolvesThenShrinks(c: Catalog, m: Catalog, d: Catalog)
    requires Keyed(c) && Keyed(m) && Keyed(d) && Evolves(c, m) && Shrinks(m, d)
    ensures Evolves(c, d)
  {
    hide Keyed;
    forall id | id in d.entries
      ensures RowKept(c, d, id) || (d.entries[id].revision == d.revision && (id in c.entries || id !in c.issued))
    {
      assert RowKept(m, d, id);
      assert RowKept(c, m, id) || (m.entries[id].revision == m.revision && (id in c.entries || id !in c.issued));
    }
  }

  lemma RowStepEvolves(c: Catalog, d: Catalog, id: Id)
    requires Keyed(c) && Keyed(d) && RowStep(c, d, id) && (id in c.entries || id !in c.issued)
    requires forall x | x in c.entries && x != id :: d.payloads[x] == c.payloads[x] && d.search[x] == c.search[x]
    ensures Evolves(c, d)
  {
    forall x | x in d.entries && x != id ensures RowKept(c, d, x) {
      assert SameRow(c.entries[x], d.entries[x]);
    }
  }

  lemma ConcludeEvolves(c: Catalog, m: Catalog, id: Id)
    requires Keyed(c) && Keyed(m) && Evolves(c, m)
    ensures Concludes(c, Conclude(m, id))
  {
    hide Evict, Evolves, Shrinks, Keyed;
    EvictShrinks(m, m.policy, Some(id));
    EvolvesThenShrinks(c, m, Evict(m, m.policy, Some(id)));
  }

  lemma PromotedEvolves(c: Catalog, id: Id, codec: Codec)
    requires Sound(c, codec) && id in c.entries && c.revision + 1 < MAX_REVISION
    ensures Concludes(c, Conclude(Promoted(Ticked(c), id), id))
  {
    hide Sound, RowStep, Evolves, Conclude;
    SoundFacts(c, codec);
    PromotedIsSound(c, id, codec);
    SoundFacts(Promoted(Ticked(c), id), codec);
    RowStepEvolves(c, Promoted(Ticked(c), id), id);
    ConcludeEvolves(c, Promoted(Ticked(c), id), id);
  }

  lemma AppendedEvolves(c: Catalog, codec: Codec, mime: string, bytes: Bytes, view: ContentView, newId: Id)
    requires Keyed(c) && c.entries.Keys <= c.issued && newId !in c.issued && c.revision + 1 < MAX_REVISION
    requires |mime| <= MAX_MIME && |bytes| <= MAX_ENTRY_BYTES && newId !in c.entries
    ensures Concludes(c, Conclude(Appended(Ticked(c), codec, mime, bytes, view, newId), newId))
  {
    hide Appended, RowStep, Evolves, Conclude;
    AppendedRow(c, codec, mime, bytes, view, newId);
    RowStepEvolves(c, Appended(Ticked(c), codec, mime, bytes, view, newId), newId);
    ConcludeEvolves(c, Appended(Ticked(c), codec, mime, bytes, view, newId), newId);
  }

  lemma RewrittenEvolves(c: Catalog, codec: Codec, id: Id, mime: string, bytes: Bytes, view: ContentView)
    requires Keyed(c) && id in c.entries && c.revision + 1 < MAX_REVISION
    requires |mime| <= MAX_MIME && |bytes| <= MAX_ENTRY_BYTES
    ensures Concludes(c, Conclude(Overwritten(c, codec, id, mime, bytes, view), id))
  {
    hide Conclude, Overwritten, RowStep, Evolves;
    var d := Overwritten(c, codec, id, mime, bytes, view);
    RewrittenRow(c, codec, id, mime, bytes, view);
    RowStepEvolves(c, d, id);
    ConcludeEvolves(c, d, id);
  }

  lemma MovedEvolves(c: Catalog, codec: Codec, id: Id, value: bool)
    requires Sound(c, codec) && id in c.entries && c.revision + 1 < MAX_REVISION
    ensures var r := Retain(Moved(c.(revision := c.revision + 1), id, value), c.policy, Some(id));
            r.Ok? ==> Keyed(r.value) && Evolves(c, r.value)
  {
    hide Evict, Sound, Keyed, RowStep, Evolves, Shrinks;
    var m := Moved(c.(revision := c.revision + 1), id, value);
    SoundFacts(c, codec);
    MovedIsSound(c, id, value, codec);
    SoundFacts(m, codec);
    RowStepEvolves(c, m, id);
    EvictShrinks(m, c.policy, Some(id));
    EvolvesThenShrinks(c, m, Evict(m, c.policy, Some(id)));
  }

  ghost predicate Concludes(c: Catalog, r: Committed)
    requires Keyed(c)
  {
    r.Ok? ==> Keyed(r.value.0) && (SameTables(c, r.value.0) || Evolves(c, r.value.0))
  }

  lemma InsertEvolves(c: Catalog, codec: Codec, mime: string, bytes: Bytes, view: ContentView, newId: Id)
    requires Sound(c, codec) && Keyed(c) && newId !in c.issued && newId !in c.entries
    ensures Concludes(c, InsertBody(c, codec, mime, bytes, view, newId))
  {
    hide Conclude, Sound, Twins, Promoted, Appended, SummaryRow, Newest, Keyed, IsCurrent, Evolves;
    SoundFacts(c, codec);
    var twins := Twins(c, codec, mime, bytes);
    if c.revision + 1 < MAX_REVISION && AllowedPayload(c.policy, bytes) {
      if twins != {} {
        PromotedEvolves(c, Newest(c.entries, twins), codec);
      } else if |mime| <= MAX_MIME {
        AppendedEvolves(c, codec, mime, bytes, view, newId);
      }
    }
  }

  lemma ReplaceEvolves(c: Catalog, codec: Codec, id: Id, expected: nat, mime: string, bytes: Bytes, view: ContentView)
    requires Sound(c, codec) && Keyed(c)
    ensures Concludes(c, ReplaceBody(c, codec, id, expected, mime, bytes, view))
  {
    hide Conclude, Sound, Overwritten, SummaryRow, Keyed, Evolves;
    SoundFacts(c, codec);
    if id in c.entries && c.revision + 1 < MAX_REVISION && AllowedPayload(c.policy, bytes) && |mime| <= MAX_MIME {
      RewrittenEvolves(c, codec, id, mime, bytes, view);
    }
  }

  lemma FavoriteEvolves(c: Catalog, codec: Codec, id: Id, expected: nat, value: bool)
    requires Sound(c, codec) && Keyed(c)
    ensures Concludes(c, FavoriteBody(c, id, expected, value))
  {
    hide Retain, Sound, SummaryRow, Moved, Evolves, Keyed;
    if id in c.entries && c.revision + 1 < MAX_REVISION { MovedEvolves(c, codec, id, value); }
  }

  lemma BumpedShrinkEvolves(c: Catalog, d: Catalog)
    requires Keyed(c) && Keyed(d) && Shrinks(c, d)
    ensures Bump(d).Ok? ==> Keyed(Bump(d).value) && Evolves(c, Bump(d).value)
  {
    if Bump(d).Ok? {
      var b := Bump(d).value;
      forall id | id in b.entries ensures RowKept(c, b, id) {
        assert RowKept(c, d, id);
      }
    }
  }

  lemma RemovalEvolves(c: Catalog, victims: set<Id>)
    requires Keyed(c)
    ensures Bump(DeleteEntries(c, victims)).Ok? ==>
      var d := Bump(DeleteEntries(c, victims)).value; Keyed(d) && Evolves(c, d)
  {
    hide DeleteEntries, Bump, Evolves, Keyed;
    DeletionShrinks(c, victims);
    BumpedShrinkEvolves(c, DeleteEntries(c, victims));
  }

  lemma RemoveManyEvolves(c: Catalog, targets: seq<Target>)
    requires Keyed(c)
    ensures Concludes(c, RemoveManyBody(c, targets))
  {
    hide DeleteEntries, Bump, Evolves, Keyed, Matching, Present;
    RemovalEvolves(c, set t | t in targets :: t.id);
  }

  lemma WipeEvolves(c: Catalog)
    requires Keyed(c)
    ensures Concludes(c, WipeBody(c))
  {
    hide DeleteEntries, Bump, Evolves, Keyed;
    RemovalEvolves(c, c.entries.Keys);
  }

  lemma ApplyPolicyEvolves(c: Catalog, p: Policy)
    requires Keyed(c)
    ensures Concludes(c, ApplyPolicyBody(c, p))
  {
    hide Evict, Evolves, ValidPolicy;
    var m := c.(policy := p);
    EvictShrinks(m, p, None);
    var d := Evict(m, p, None);
    forall id | id in d.entries ensures RowKept(c, d, id) {
      assert RowKept(m, d, id);
    }
    BumpedShrinkEvolves(c, d);
  }

  /** Artifacts and policy are no part of the history's content. */
  lemma OtherTablesEvolve(c: Catalog, d: Catalog)
    requires Keyed(c) && d == c.(artifacts := d.artifacts, policy := d.policy)
    ensures Keyed(d) && SameTables(c, d)
  {
  }

  lemma MetadataEvolves(c: Catalog, codec: Codec, m: Mutation)
    requires Keyed(c) && (m.RegisterArtifact? || m.ForgetArtifact? || m.CloseAdmission?)
    ensures Concludes(c, Body(c, codec, m))
  {
    hide Keyed, SameTables, Evolves, ArtifactAccepted;
    if Body(c, codec, m).Ok? { OtherTablesEvolve(c, Body(c, codec, m).value.0); }
  }

  lemma BodyEvolves(c: Catalog, codec: Codec, m: Mutation)
    requires Sound(c, codec) && Keyed(c) && (m.Insert? ==> m.newId !in c.issued && m.newId !in c.entries)
    ensures Concludes(c, Body(c, codec, m))
  {
    hide Concludes, Sound, Keyed, InsertBody, ReplaceBody, FavoriteBody, RemoveManyBody, WipeBody, ApplyPolicyBody,
         RegisterArtifactBody;
    match m
    case Insert(mime, bytes, view, newId) => InsertEvolves(c, codec, mime, bytes, view, newId);
    case Replace(id, expected, mime, bytes, view) => ReplaceEvolves(c, codec, id, expected, mime, bytes, view);
    case Favorite(id, expected, value) => FavoriteEvolves(c, codec, id, expected, value);
    case RemoveMany(targets) => RemoveManyEvolves(c, targets);
    case Wipe => WipeEvolves(c);
    case ApplyPolicy(p) => ApplyPolicyEvolves(c, p);
    case _ => MetadataEvolves(c, codec, m);
  }

  /**
    Every call either leaves rows, payloads and search untouched, or advances the revision
    by one and stamps every row it changed; only an echo link is cleared without a stamp.
    */
  lemma StepEvolves(c: Catalog, codec: Codec, m: Mutation)
    requires History(c, codec) && Keyed(c) && (m.Insert? ==> m.newId !in c.issued && m.newId !in c.entries)
    ensures var d := Step(c, codec, m); Keyed(d) && (SameTables(c, d) || Evolves(c, d))
  {
    hide Sound, Retained, Body, Evolves, Keyed;
    BodyEvolves(c, codec, m);
  }

  // ------------------------------------------------------------ over whole runs

  /** Equal catalog revisions mean equal rows, payloads and search text; a revision never goes back. */
  lemma {:induction false} RevisionIdentifiesCatalog(states: seq<Catalog>, ops: seq<Mutation>, codec: Codec, i: nat,
      j: nat)
    requires Run(states, ops, codec) && i <= j < |states|
    ensures states[i].revision <= states[j].revision
    ensures states[i].revision == states[j].revision ==> SameTables(states[i], states[j])
  {
    hide History, Step;
    if i < j {
      RevisionIdentifiesCatalog(states, ops, codec, i, j - 1);
      RunKeepsHistory(states, ops, codec, j - 1);
      StepEvolves(states[j - 1], codec, ops[j - 1]);
    }
  }

  /** Everything about a row but its echo link, which may be cleared without a new revision. */
  ghost predicate SameVersion(c: Catalog, d: Catalog, id: Id)
    requires Keyed(c) && Keyed(d) && id in c.entries && id in d.entries
  {
    && c.entries[id].(echo := None) == d.entries[id].(echo := None)
    && c.payloads[id] == d.payloads[id] && c.search[id] == d.search[id]
  }

  /** If the row is still there its revision did not go back, and the same revision is the same version. */
  ghost predicate Aged(c: Catalog, d: Catalog, id: Id)
    requires Keyed(c) && Keyed(d) && id in c.entries
  {
    id in d.entries ==>
      && c.entries[id].revision <= d.entries[id].revision
      && (c.entries[id].revision == d.entries[id].revision ==> SameVersion(c, d, id))
  }

  lemma AgedTwice(c: Catalog, d: Catalog, e: Catalog, id: Id)
    requires Keyed(c) && Keyed(d) && Keyed(e) && id in c.entries && Aged(c, d, id)
    requires id in e.entries ==> id in d.entries && Aged(d, e, id)
    ensures Aged(c, e, id)
  {
    hide Keyed;
  }

  /** An identifier that is gone stays gone; one that stays has a revision that never goes back. */
  lemma {:induction false} EntryOverTime(states: seq<Catalog>, ops: seq<Mutation>, codec: Codec, i: nat, j: nat, id: Id)
    requires Run(states, ops, codec) && i <= j < |states| && id in states[i].entries
    ensures Keyed(states[i]) && Keyed(states[j]) && id in states[j].issued
    ensures Aged(states[i], states[j], id)
    ensures id in states[j].entries && j > i ==> id in states[j - 1].entries
    decreases j
  {
    hide Run, Keyed, SameVersion, Aged;
    EntryWasIssued(states, ops, codec, i, id);
    if i < j {
      EntryOverTime(states, ops, codec, i, j - 1, id);
      EntryStep(states, ops, codec, j - 1, id);
      AgedTwice(states[i], states[j - 1], states[j], id);
    } else {
      AgedSelf(states[i], id);
    }
  }

  lemma EntryWasIssued(states: seq<Catalog>, ops: seq<Mutation>, codec: Codec, k: nat, id: Id)
    requires Run(states, ops, codec) && k < |states| && id in states[k].entries
    ensures Keyed(states[k]) && id in states[k].issued
  {
    hide Run;
    RunFacts(states, ops, codec, k);
  }

  lemma AgedSelf(c: Catalog, id: Id)
    requires Keyed(c) && id in c.entries
    ensures Aged(c, c, id)
  {
  }

  lemma RunFacts(states: seq<Catalog>, ops: seq<Mutation>, codec: Codec, k: nat)
    requires Run(states, ops, codec) && k < |states|
    ensures Keyed(states[k]) && states[k].entries.Keys <= states[k].issued
    ensures forall id | id in states[k].entries :: 0 < states[k].entries[id].revision <= states[k].revision
  {
    RunKeepsHistory(states, ops, codec, k);
  }

  lemma EntryStep(states: seq<Catalog>, ops: seq<Mutation>, codec: Codec, k: nat, id: Id)
    requires Run(states, ops, codec) && k + 1 < |states| && id in states[k].issued
    ensures Keyed(states[k]) && Keyed(states[k + 1]) && id in states[k + 1].issued
    ensures id in states[k + 1].entries ==> id in states[k].entries && Aged(states[k], states[k + 1], id)
  {
    hide History, Step, Keyed, Evolves, SameTables, Aged;
    RunKeepsHistory(states, ops, codec, k);
    RunFacts(states, ops, codec, k);
    RunFacts(states, ops, codec, k + 1);
    StepEvolves(states[k], codec, ops[k]);
    CatalogAges(states[k], states[k + 1], id);
  }

  lemma CatalogAges(c: Catalog, d: Catalog, id: Id)
    requires Keyed(c) && Keyed(d) && (SameTables(c, d) || Evolves(c, d)) && id in c.issued
    requires forall x | x in c.entries :: c.entries[x].revision <= c.revision
    ensures id in d.issued
    ensures id in d.entries ==> id in c.entries && Aged(c, d, id)
  {
    hide Keyed;
    if id in d.entries && !SameTables(c, d) {
      assert RowKept(c, d, id) || d.entries[id].revision == d.revision;
    }
  }

  /** An (id, revision) pair names one payload, one MIME, one favorite flag and one recency, for ever. */
  lemma VersionIdentifiesContent(states: seq<Catalog>, ops: seq<Mutation>, codec: Codec, i: nat, j: nat, id: Id)
    requires Run(states, ops, codec) && i < |states| && j < |states|
    requires id in states[i].entries && id in states[j].entries
    requires states[i].entries[id].revision == states[j].entries[id].revision
    ensures Keyed(states[i]) && Keyed(states[j]) && SameVersion(states[i], states[j], id)
  {
    hide Run;
    if i <= j {
      EntryOverTime(states, ops, codec, i, j, id);
    } else {
      EntryOverTime(states, ops, codec, j, i, id);
    }
  }
}
