/**
  `replace` does not look for entries that already hold the replacement. When exactly
  that leaves two entries with equal content, and a history in which it does.
  */
module Duplicates {
  import opened Wrappers
  import opened Tables
  import opened Retention
  import opened EchoGraph
  import opened Mutations
  import opened Runs
  import opened Outcomes

  /** The bytes up to and including `x` in the eviction order once entry `id` holds `bytes`. */
  function Needed(c: Catalog, id: Id, bytes: Bytes, x: Id): nat
    requires x in c.entries
  {
    if x == id then |bytes|
    else |bytes| + Sum(c.entries, (Ahead(c.entries, Some(id), c.entries.Keys, x) + {x}) - {id})
  }

  /** `m` is `c` with other content in row `id`, as far as eviction looks at it. */
  ghost predicate Resized(c: Catalog, m: Catalog, id: Id, size: nat) {
    && m.entries.Keys == c.entries.Keys && id in c.entries && m.entries[id].byteSize == size && m.policy == c.policy
    && (forall x | x in c.entries ::
      m.entries[x].favorite == c.entries[x].favorite && m.entries[x].recency == c.entries[x].recency)
    && (forall x | x in c.entries && x != id :: m.entries[x].byteSize == c.entries[x].byteSize)
  }

  lemma RewrittenIsResized(c: Catalog, codec: Codec, id: Id, mime: string, bytes: Bytes, view: ContentView)
    requires id in c.entries
    ensures var m := Overwritten(c, codec, id, mime, bytes, view);
      Resized(c, m, id, |bytes|)
  {}

  lemma RunningAfterResize(c: Catalog, m: Catalog, id: Id, bytes: Bytes, x: Id)
    requires Resized(c, m, id, |bytes|) && x in c.entries
    ensures Running(m.entries, Some(id), x) == Needed(c, id, bytes, x)
  {
    var before := Ahead(m.entries, Some(id), m.entries.Keys, x);
    assert before == Ahead(c.entries, Some(id), c.entries.Keys, x);
    if x == id {
      assert before == {};
      SumRemove(m.entries, {x}, x);
      assert Sum(m.entries, {x} - {x}) == 0;
      assert before + {x} == {x};
    } else {
      assert id in before;
      SumRemove(m.entries, before + {x}, id);
      SumSame(m.entries, c.entries, (before + {x}) - {id});
    }
  }

  /** Within the per-entry and per-category limits only the byte stage can evict. */
  lemma OnlyBytesEvict(m: Catalog, p: Policy, prot: Option<Id>)
    requires forall id | id in m.entries :: m.entries[id].byteSize <= p.maxEntryBytes
    requires |Category(m.entries, false)| <= p.maxEntries && |Category(m.entries, true)| <= p.maxFavorites
    ensures Evict(m, p, prot) == DropOverBudget(m, p, prot)
  {
    assert Oversized(m.entries, prot, p.maxEntryBytes) == {};
    NoOverflow(m.entries, prot, Category(m.entries, false), p.maxEntries);
    NoOverflow(m.entries, prot, Category(m.entries, true), p.maxFavorites);
    DeleteNothing(m);
  }

  lemma ResizedLimits(c: Catalog, m: Catalog, id: Id, size: nat)
    requires Resized(c, m, id, size) && Retained(c.entries, c.policy) && size <= c.policy.maxEntryBytes
    ensures forall x | x in m.entries :: m.entries[x].byteSize <= m.policy.maxEntryBytes
    ensures |Category(m.entries, false)| <= m.policy.maxEntries && |Category(m.entries, true)| <= m.policy.maxFavorites
  {
    assert Category(m.entries, false) == Category(c.entries, false);
    assert Category(m.entries, true) == Category(c.entries, true);
  }

  /** Which rows a replace leaves: those for which the new bytes, and everything ranked above them, leave room. */
  lemma ReplaceSurvivors(c: Catalog, codec: Codec, id: Id, expected: nat, mime: string, bytes: Bytes, view: ContentView)
    requires History(c, codec) && Keyed(c) && ReplaceAdmitted(c, id, expected, mime, bytes, view)
    ensures var r := ReplaceBody(c, codec, id, expected, mime, bytes, view);
      && r.Ok?
      && forall x ::
        x in r.value.0.entries <==> x in c.entries && Needed(c, id, bytes, x) <= c.policy.maxTotalBytes
  {
    hide Sound, Overwritten, Resized, Needed, Running, Keyed, SummaryRow, Retained, Evict, Replaced;
    ReplaceOutcome(c, codec, id, expected, mime, bytes, view);
    var m := Overwritten(c, codec, id, mime, bytes, view);
    RewrittenIsResized(c, codec, id, mime, bytes, view);
    ResizedLimits(c, m, id, |bytes|);
    ResizedKeys(c, m, id, |bytes|);
    OnlyBytesEvict(m, m.policy, Some(id));
    forall x | x in c.entries ensures Running(m.entries, Some(id), x) == Needed(c, id, bytes, x) {
      RunningAfterResize(c, m, id, bytes, x);
    }
  }

  lemma ResizedKeys(c: Catalog, m: Catalog, id: Id, size: nat)
    requires Resized(c, m, id, size)
    ensures m.entries.Keys == c.entries.Keys && m.policy == c.policy
  {}

  /** Another entry that holds the replacement already and will not be evicted. */
  predicate SurvivingTwin(c: Catalog, id: Id, mime: string, bytes: Bytes, x: Id)
    requires Keyed(c)
  {
    && x in c.entries && x != id && c.entries[x].mime == mime && c.payloads[x] == bytes
    && Needed(c, id, bytes, x) <= c.policy.maxTotalBytes
  }

  /**
    A replace keeps the contents unique if and only if no other entry that the total
    limit spares holds the replacement: a condition on the history before the call.
    */
  lemma ReplaceKeepsUniqueIff(c: Catalog, codec: Codec, id: Id, expected: nat, mime: string, bytes: Bytes,
      view: ContentView)
    requires History(c, codec) && Keyed(c) && UniqueContent(c)
    requires ReplaceAdmitted(c, id, expected, mime, bytes, view)
    ensures var r := ReplaceBody(c, codec, id, expected, mime, bytes, view);
      && r.Ok? && Keyed(r.value.0)
      && (UniqueContent(r.value.0) <==> forall x :: !SurvivingTwin(c, id, mime, bytes, x))
  {
    hide History, ReplaceBody, Needed, UniqueContent;
    UniqueAmongSurvivors(c, codec, id, expected, mime, bytes, view);
    ReplaceSurvivors(c, codec, id, expected, mime, bytes, view);
    var d := ReplaceBody(c, codec, id, expected, mime, bytes, view).value.0;
    forall x ensures SurvivingTwin(c, id, mime, bytes, x)
      <==> x in c.entries && x in d.entries && x != id && c.entries[x].mime == mime && c.payloads[x] == bytes {}
  }

  // -------------------------------------------------------- over whole runs

  lemma ShrinkKeepsUnique(m: Catalog, d: Catalog)
    requires Keyed(m) && Keyed(d) && Shrinks(m, d) && UniqueContent(m)
    ensures UniqueContent(d)
  {
    forall x, y | x in d.entries && y in d.entries && x != y ensures !SameContent(d, x, y) {
      assert RowKept(m, d, x) && RowKept(m, d, y) && !SameContent(m, x, y);
    }
  }

  /** Eviction around the mutated row cannot make contents equal. */
  lemma ConcludeKeepsUnique(m: Catalog, id: Id)
    requires Keyed(m) && UniqueContent(m)
    ensures var r := Conclude(m, id); r.Ok? ==> Keyed(r.value.0) && UniqueContent(r.value.0)
  {
    hide Evict, Keyed, UniqueContent, Shrinks;
    EvictShrinks(m, m.policy, Some(id));
    ShrinkKeepsUnique(m, Evict(m, m.policy, Some(id)));
  }

  /** The same identifiers with the same MIME types and payloads. */
  ghost predicate SameContents(c: Catalog, m: Catalog) {
    && m.entries.Keys == c.entries.Keys && m.payloads == c.payloads && m.search.Keys == c.search.Keys
    && forall x | x in c.entries :: m.entries[x].mime == c.entries[x].mime
  }

  lemma SameContentsStayUnique(c: Catalog, m: Catalog)
    requires Keyed(c) && Keyed(m) && SameContents(c, m) && UniqueContent(c)
    ensures UniqueContent(m)
  {
    forall x, y | x in m.entries && y in m.entries && x != y ensures !SameContent(m, x, y) {
      assert !SameContent(c, x, y);
    }
  }

  lemma NoTwinMeansNew(c: Catalog, codec: Codec, mime: string, bytes: Bytes, x: Id)
    requires Keyed(c) && Contents(c, codec) && x in c.entries && Twins(c, codec, mime, bytes) == {}
    ensures !(c.entries[x].mime == mime && c.payloads[x] == bytes)
  {
    assert Faithful(c.entries[x], c.payloads[x], c.search[x], codec);
    assert x !in Twins(c, codec, mime, bytes);
  }

  /** One more row, whose content no other row has. */
  lemma NewRowStaysUnique(c: Catalog, m: Catalog, newId: Id)
    requires Keyed(c) && Keyed(m) && UniqueContent(c) && m.entries.Keys == c.entries.Keys + {newId}
    requires forall x | x in c.entries && x != newId ::
      m.entries[x].mime == c.entries[x].mime && m.payloads[x] == c.payloads[x]
    requires forall x | x in c.entries && x != newId :: !SameContent(m, x, newId)
    ensures UniqueContent(m)
  {
    forall x, y | x in m.entries && y in m.entries && x != y ensures !SameContent(m, x, y) {
      if x != newId && y != newId { assert !SameContent(c, x, y); }
    }
  }

  lemma AppendedStaysUnique(c: Catalog, codec: Codec, mime: string, bytes: Bytes, view: ContentView, newId: Id)
    requires Sound(c, codec) && Keyed(c) && UniqueContent(c) && c.revision + 1 < MAX_REVISION
    requires newId !in c.issued && newId !in c.entries && Twins(c, codec, mime, bytes) == {}
    requires |mime| <= MAX_MIME && |bytes| <= MAX_ENTRY_BYTES
    ensures newId !in c.payloads && newId !in c.search
    ensures var m := Appended(Ticked(c), codec, mime, bytes, view, newId); Keyed(m) && UniqueContent(m)
  {
    hide Appended, Twins, Keyed, Distinct, Bounded, Acyclic, Contents, Faithful, UniqueContent, ContentRow, SameContent;
    SoundFacts(c, codec);
    NotYetKeyed(c, newId);
    AppendedRow(c, codec, mime, bytes, view, newId);
    AppendedRowIs(c, codec, mime, bytes, view, newId);
    var m := Appended(Ticked(c), codec, mime, bytes, view, newId);
    ContentRowKeepsOthers(c, m, newId, codec);
    forall x | x in c.entries ensures !SameContent(m, x, newId) {
      NoTwinMeansNew(c, codec, mime, bytes, x);
      DifferentContent(m, x, newId);
    }
    NewRowStaysUnique(c, m, newId);
  }

  lemma ContentRowKeepsOthers(c: Catalog, m: Catalog, id: Id, codec: Codec)
    requires Keyed(c) && ContentRow(c, m, id, codec)
    ensures Keyed(m) && m.entries.Keys == c.entries.Keys + {id}
    ensures forall x | x in c.entries && x != id ::
      m.entries[x].mime == c.entries[x].mime && m.payloads[x] == c.payloads[x]
  {
    forall x | x in c.entries && x != id ensures m.entries[x].mime == c.entries[x].mime {
      assert SameRow(c.entries[x], m.entries[x]);
    }
  }

  lemma DifferentContent(m: Catalog, x: Id, y: Id)
    requires Keyed(m) && x in m.entries && y in m.entries
    requires !(m.entries[x].mime == m.entries[y].mime && m.payloads[x] == m.payloads[y])
    ensures !SameContent(m, x, y)
  {}

  lemma NotYetKeyed(c: Catalog, id: Id)
    requires Keyed(c) && id !in c.entries
    ensures id !in c.payloads && id !in c.search
  {}

  lemma InsertKeepsUnique(c: Catalog, codec: Codec, mime: string, bytes: Bytes, view: ContentView, newId: Id)
    requires Sound(c, codec) && Keyed(c) && UniqueContent(c) && newId !in c.issued && newId !in c.entries
    ensures var r := InsertBody(c, codec, mime, bytes, view, newId);
      r.Ok? ==> Keyed(r.value.0) && UniqueContent(r.value.0)
  {
    hide Sound, Keyed, UniqueContent, Conclude, Appended, Twins, Newest, IsCurrent, SummaryRow;
    SoundFacts(c, codec);
    var twins := Twins(c, codec, mime, bytes);
    if c.revision + 1 < MAX_REVISION && AllowedPayload(c.policy, bytes) {
      if twins != {} {
        PromotedStaysUnique(c, codec, Newest(c.entries, twins));
      } else if |mime| <= MAX_MIME {
        AppendedStaysUnique(c, codec, mime, bytes, view, newId);
        ConcludeKeepsUnique(Appended(Ticked(c), codec, mime, bytes, view, newId), newId);
      }
    }
  }

  lemma PromotedStaysUnique(c: Catalog, codec: Codec, id: Id)
    requires Sound(c, codec) && Keyed(c) && UniqueContent(c) && id in c.entries && c.revision + 1 < MAX_REVISION
    ensures var r := Conclude(Promoted(Ticked(c), id), id); r.Ok? ==> Keyed(r.value.0) && UniqueContent(r.value.0)
  {
    hide Sound, UniqueContent, Conclude, RowStep;
    var m := Promoted(Ticked(c), id);
    PromotedIsSound(c, id, codec);
    SoundFacts(m, codec);
    SameContentsStayUnique(c, m);
    ConcludeKeepsUnique(m, id);
  }

  lemma MovedKeepsContents(c: Catalog, id: Id, value: bool)
    requires id in c.entries
    ensures SameContents(c, Moved(c.(revision := c.revision + 1), id, value))
    ensures Moved(c.(revision := c.revision + 1), id, value).policy == c.policy
  {}

  lemma FavoriteKeepsUnique(c: Catalog, codec: Codec, id: Id, expected: nat, value: bool)
    requires Sound(c, codec) && Keyed(c) && UniqueContent(c)
    ensures var r := FavoriteBody(c, id, expected, value); r.Ok? ==> Keyed(r.value.0) && UniqueContent(r.value.0)
  {
    hide Sound, UniqueContent, Evict, RowStep, Shrinks, IsCurrent, Moved, Keyed, SameContents;
    if id in c.entries && c.revision + 1 < MAX_REVISION {
      var m := Moved(c.(revision := c.revision + 1), id, value);
      MovedIsSound(c, id, value, codec);
      SoundFacts(m, codec);
      MovedKeepsContents(c, id, value);
      SameContentsStayUnique(c, m);
      EvictShrinks(m, m.policy, Some(id));
      ShrinkKeepsUnique(m, Evict(m, m.policy, Some(id)));
    }
  }

  lemma BumpKeepsUnique(c: Catalog, d: Catalog)
    requires Keyed(c) && Keyed(d) && Shrinks(c, d) && UniqueContent(c)
    ensures Bump(d).Ok? ==> Keyed(Bump(d).value) && UniqueContent(Bump(d).value)
  {
    hide UniqueContent, Shrinks;
    ShrinkKeepsUnique(c, d);
    if Bump(d).Ok? { SameContentsStayUnique(d, Bump(d).value); }
  }

  lemma RemovalKeepsUnique(c: Catalog, victims: set<Id>)
    requires Keyed(c) && UniqueContent(c)
    ensures var r := Bump(DeleteEntries(c, victims)); r.Ok? ==> Keyed(r.value) && UniqueContent(r.value)
  {
    hide DeleteEntries, Keyed, UniqueContent, Shrinks, Bump;
    DeletionShrinks(c, victims);
    BumpKeepsUnique(c, DeleteEntries(c, victims));
  }

  lemma ApplyPolicyKeepsUnique(c: Catalog, p: Policy)
    requires Keyed(c) && UniqueContent(c)
    ensures var r := ApplyPolicyBody(c, p); r.Ok? ==> Keyed(r.value.0) && UniqueContent(r.value.0)
  {
    hide Evict, UniqueContent, Shrinks, Bump, ValidPolicy;
    var m := c.(policy := p);
    SameContentsStayUnique(c, m);
    EvictShrinks(m, p, None);
    BumpKeepsUnique(m, Evict(m, p, None));
  }

  lemma SameTablesStayUnique(c: Catalog, d: Catalog)
    requires Keyed(c) && UniqueContent(c) && d == c.(artifacts := d.artifacts, policy := d.policy)
    ensures Keyed(d) && UniqueContent(d)
  {
    hide UniqueContent;
    SameContentsStayUnique(c, d);
  }

  lemma MetadataKeepsUnique(c: Catalog, codec: Codec, m: Mutation)
    requires Keyed(c) && UniqueContent(c) && (m.RegisterArtifact? || m.ForgetArtifact? || m.CloseAdmission?)
    ensures var r := Body(c, codec, m); r.Ok? ==> Keyed(r.value.0) && UniqueContent(r.value.0)
  {
    hide UniqueContent, Keyed;
    if Body(c, codec, m).Ok? { SameTablesStayUnique(c, Body(c, codec, m).value.0); }
  }

  /** A replace that will succeed although a surviving entry holds the replacement already. */
  ghost predicate Duplicating(c: Catalog, m: Mutation)
    requires Keyed(c)
  {
    && m.Replace? && ReplaceAdmitted(c, m.id, m.expected, m.mime, m.bytes, m.view)
    && exists x :: SurvivingTwin(c, m.id, m.mime, m.bytes, x)
  }

  ghost predicate KeepsUnique(r: Committed) {
    r.Ok? ==> Keyed(r.value.0) && UniqueContent(r.value.0)
  }

  lemma OtherBodyKeepsUnique(c: Catalog, codec: Codec, m: Mutation)
    requires Sound(c, codec) && Keyed(c) && UniqueContent(c) && !m.Replace?
    requires m.Insert? ==> m.newId !in c.issued && m.newId !in c.entries
    ensures KeepsUnique(Body(c, codec, m))
  {
    hide Sound, Keyed, UniqueContent, InsertBody, FavoriteBody, ApplyPolicyBody, DeleteEntries, Bump, Matching, Present;
    match m
    case Insert(mime, bytes, view, newId) => InsertKeepsUnique(c, codec, mime, bytes, view, newId);
    case Favorite(id, expected, value) => FavoriteKeepsUnique(c, codec, id, expected, value);
    case RemoveMany(targets) => RemovalKeepsUnique(c, set t | t in targets :: t.id);
    case Wipe => RemovalKeepsUnique(c, c.entries.Keys);
    case ApplyPolicy(p) => ApplyPolicyKeepsUnique(c, p);
    case _ => MetadataKeepsUnique(c, codec, m);
  }

  /** Every call keeps contents unique, except exactly a replace by content that a surviving entry holds. */
  lemma StepKeepsUniqueIff(c: Catalog, codec: Codec, m: Mutation)
    requires History(c, codec) && Keyed(c) && UniqueContent(c)
    requires m.Insert? ==> m.newId !in c.issued && m.newId !in c.entries
    ensures var d := Step(c, codec, m); Keyed(d) && (UniqueContent(d) <==> !Duplicating(c, m))
  {
    hide Sound, Retained, Keyed, UniqueContent, SurvivingTwin, ReplaceAdmitted, ReplaceBody;
    if m.Replace? {
      ReplaceOutcome(c, codec, m.id, m.expected, m.mime, m.bytes, m.view);
      if ReplaceAdmitted(c, m.id, m.expected, m.mime, m.bytes, m.view) {
        ReplaceKeepsUniqueIff(c, codec, m.id, m.expected, m.mime, m.bytes, m.view);
      }
    } else {
      hide Body;
      OtherBodyKeepsUnique(c, codec, m);
    }
  }

  /** Contents stay unique over a run if and only if none of its replaces duplicates a surviving entry. */
  lemma ContentsStayUniqueIff(states: seq<Catalog>, ops: seq<Mutation>, codec: Codec)
    requires Run(states, ops, codec) && Keyed(states[0]) && UniqueContent(states[0])
    ensures (forall k | 0 <= k < |states| :: Keyed(states[k]))
    ensures (forall k | 0 <= k < |states| :: UniqueContent(states[k]))
      <==> (forall k | 0 <= k < |ops| :: !Duplicating(states[k], ops[k]))
  {
    hide History, Keyed, UniqueContent, Duplicating, Step;
    forall k: nat | k < |states| ensures Keyed(states[k]) { RunFacts(states, ops, codec, k); }
    if forall k | 0 <= k < |ops| :: !Duplicating(states[k], ops[k]) {
      forall k: nat | k < |states| ensures UniqueContent(states[k]) { UniqueWithoutDuplicating(states, ops, codec, k); }
    }
    if forall k | 0 <= k < |states| :: UniqueContent(states[k]) {
      forall k: nat | k < |ops| ensures !Duplicating(states[k], ops[k]) { NextUniqueIff(states, ops, codec, k); }
    }
  }

  lemma NextUniqueIff(states: seq<Catalog>, ops: seq<Mutation>, codec: Codec, k: nat)
    requires Run(states, ops, codec) && k < |ops| && Keyed(states[k]) && UniqueContent(states[k])
    ensures Keyed(states[k + 1]) && (UniqueContent(states[k + 1]) <==> !Duplicating(states[k], ops[k]))
  {
    hide History, Keyed, UniqueContent, Duplicating, Step;
    RunKeepsHistory(states, ops, codec, k);
    StepKeepsUniqueIff(states[k], codec, ops[k]);
  }

  lemma {:induction false} UniqueWithoutDuplicating(states: seq<Catalog>, ops: seq<Mutation>, codec: Codec, k: nat)
    requires Run(states, ops, codec) && Keyed(states[0]) && UniqueContent(states[0]) && k < |states|
    requires forall i | 0 <= i < |ops| :: Keyed(states[i]) && !Duplicating(states[i], ops[i])
    ensures Keyed(states[k]) && UniqueContent(states[k])
  {
    hide Run, Keyed, UniqueContent, Duplicating;
    if k > 0 {
      UniqueWithoutDuplicating(states, ops, codec, k - 1);
      RunLength(states, ops, codec);
      NextUniqueIff(states, ops, codec, k - 1);
    }
  }

  lemma RunLength(states: seq<Catalog>, ops: seq<Mutation>, codec: Codec)
    requires Run(states, ops, codec)
    ensures |states| == |ops| + 1
  {
    hide History, Keyed, Step;
  }

  // ------------------------------------------------------------------- witness

  function TextView(): ContentView { ContentView(Text, "text/plain", "", None) }

  function TextEntry(n: nat, codec: Codec, bytes: Bytes): Entry {
    Entry(n, false, n, "text/plain", "text/plain", None, |bytes|, codec.digest(bytes), "", Text)
  }

  /** Two entries of one byte each. */
  function TwoEntries(codec: Codec): Catalog {
    EMPTY_CATALOG.(
      entries := map[1 := TextEntry(1, codec, [65]), 2 := TextEntry(2, codec, [66])],
      payloads := map[1 := [65], 2 := [66]],
      search := map[1 := IndexedRow(codec, "text/plain", [65]), 2 := IndexedRow(codec, "text/plain", [66])],
      revision := 2, sequence := 2, issued := {1, 2})
  }

  lemma TwoEntriesAreKeyed(codec: Codec)
    ensures Keyed(TwoEntries(codec))
  {
    var c := TwoEntries(codec);
    assert c.entries.Keys == {1, 2} && c.payloads.Keys == {1, 2} && c.search.Keys == {1, 2};
  }

  lemma TwoEntriesAreContents(codec: Codec)
    requires Keyed(TwoEntries(codec))
    ensures Contents(TwoEntries(codec), codec)
  {
    hide Keyed;
    var c := TwoEntries(codec);
    forall id | id in c.entries ensures Faithful(c.entries[id], c.payloads[id], c.search[id], codec) {
      assert id == 1 || id == 2;
    }
  }

  lemma TwoEntriesAreNumbered(codec: Codec)
    ensures Bounded(TwoEntries(codec)) && Distinct(TwoEntries(codec).entries) && Acyclic(TwoEntries(codec).entries)
  {
    var c := TwoEntries(codec);
    assert c.entries.Keys == {1, 2};
    assert Ranked(c.entries, map[1 := 0, 2 := 0]);
  }

  lemma TwoEntriesAreRetained(codec: Codec)
    ensures Retained(TwoEntries(codec).entries, TwoEntries(codec).policy)
  {
    var c := TwoEntries(codec);
    assert c.entries.Keys == {1, 2};
    assert Category(c.entries, false) == {1, 2} && Category(c.entries, true) == {};
    SumRemove(c.entries, {1, 2}, 2);
    SumRemove(c.entries, {1}, 1);
    assert {1, 2} - {2} == {1} && {1} - {1} == {};
  }

  lemma TwoEntriesIsHistory(codec: Codec)
    ensures History(TwoEntries(codec), codec) && Keyed(TwoEntries(codec)) && UniqueContent(TwoEntries(codec))
  {
    hide Retained, Contents, Bounded, Distinct, Acyclic;
    TwoEntriesAreKeyed(codec);
    TwoEntriesAreContents(codec);
    TwoEntriesAreNumbered(codec);
    TwoEntriesAreRetained(codec);
  }

  /** Replacing the second entry by the content of the first leaves both. */
  lemma ReplaceCanDuplicate(codec: Codec)
    ensures var c := TwoEntries(codec);
      && Keyed(c) && UniqueContent(c)
      && var r := ReplaceBody(c, codec, 2, 2, "text/plain", [65], TextView());
         r.Ok? && Keyed(r.value.0) && !UniqueContent(r.value.0)
  {
    hide ReplaceBody, History, UniqueContent;
    var c := TwoEntries(codec);
    TwoEntriesIsHistory(codec);
    ReplaceKeepsUniqueIff(c, codec, 2, 2, "text/plain", [65], TextView());
    TwinSurvives(codec);
  }

  lemma TwinSurvives(codec: Codec)
    requires Keyed(TwoEntries(codec))
    ensures SurvivingTwin(TwoEntries(codec), 2, "text/plain", [65], 1)
  {
    var c := TwoEntries(codec);
    assert (Ahead(c.entries, Some(2), c.entries.Keys, 1) + {1}) - {2} == {1};
    SumRemove(c.entries, {1}, 1);
    assert {1} - {1} == {};
  }
}
