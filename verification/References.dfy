/**
  What entries refer to: the entry they echo and the generated files they name. Both follow
  the content over every run, so no file that is still in use is offered for cleanup.
  */
module References {
  import opened Wrappers
  import opened Tables
  import opened Retention
  import opened Mutations
  import opened Runs
  import opened Outcomes
  import opened Eviction

  // ----------------------------------------------------------------- echo links

  /** `fs` has some rows of `es`, and a link is cleared exactly where its source is gone. */
  ghost predicate LinksFollow(es: map<Id, Entry>, fs: map<Id, Entry>) {
    && fs.Keys <= es.Keys
    && forall x | x in fs ::
         fs[x].echo == if es[x].echo.Some? && es[x].echo.value in fs then es[x].echo else None
  }

  ghost predicate LinksLive(es: map<Id, Entry>) {
    forall x | x in es :: es[x].echo.Some? ==> es[x].echo.value in es
  }

  lemma DeletionLinks(c: Catalog, victims: set<Id>)
    requires LinksLive(c.entries)
    ensures var d := DeleteEntries(c, victims); LinksFollow(c.entries, d.entries) && LinksLive(d.entries)
  {
  }

  lemma LinksCompose(es: map<Id, Entry>, fs: map<Id, Entry>, gs: map<Id, Entry>)
    requires LinksFollow(es, fs) && LinksFollow(fs, gs)
    ensures LinksFollow(es, gs)
  {
  }

  lemma EvictionLinks(m: Catalog, p: Policy, prot: Option<Id>)
    requires LinksLive(m.entries)
    ensures LinksFollow(m.entries, Evict(m, p, prot).entries)
  {
    hide DeleteEntries, LinksFollow, LinksLive;
    var c1 := DropOversized(m, p, prot);
    DeletionLinks(m, Oversized(m.entries, prot, p.maxEntryBytes));
    var c2 := DropOverflow(c1, prot, false, p.maxEntries);
    DeletionLinks(c1, Overflow(c1.entries, prot, Category(c1.entries, false), p.maxEntries));
    var c3 := DropOverflow(c2, prot, true, p.maxFavorites);
    DeletionLinks(c2, Overflow(c2.entries, prot, Category(c2.entries, true), p.maxFavorites));
    DeletionLinks(c3, OverBudget(c3.entries, prot, p.maxTotalBytes));
    LinksCompose(m.entries, c1.entries, c2.entries);
    LinksCompose(m.entries, c2.entries, c3.entries);
    LinksCompose(m.entries, c3.entries, DropOverBudget(c3, p, prot).entries);
  }

  /** The content names a registered file that is unmodified, and entry `source` is the one it was generated from. */
  ghost predicate NamesFileOf(c: Catalog, view: ContentView, source: Id) {
    exists path, record: Artifact, stat: FileStat ::
      && path in c.artifacts && c.artifacts[path] == record && record.source == source
      && view.image == Some(LocalImage(path, Some(stat), Some(record.identity)))
      && stat.device == record.device && stat.inode == record.inode && stat.owner == record.owner
  }

  lemma SourceIsNamed(c: Catalog, id: Id, view: ContentView, s: Id)
    ensures EchoSource(c, id, view) == Some(s) <==> s != id && s in c.entries && NamesFileOf(c, view, s)
  {
    if EchoSource(c, id, view) == Some(s) {
      var image := view.image.value;
      var record := c.artifacts[image.path];
      assert view.image == Some(LocalImage(image.path, Some(FileStat(record.device, record.inode, record.owner)),
                                           Some(record.identity)));
    }
  }

  lemma SameFiles(c: Catalog, m: Catalog, view: ContentView, s: Id)
    requires m.artifacts == c.artifacts
    ensures NamesFileOf(m, view, s) == NamesFileOf(c, view, s)
  {
  }

  lemma WrittenEcho(c: Catalog, codec: Codec, id: Id, mime: string, bytes: Bytes, view: ContentView, s: Id)
    requires id in c.entries && id !in c.payloads && id !in c.search && c.entries[id].echo == None
    ensures WriteContent(c, codec, id, mime, bytes, view).entries[id].echo == Some(s) <==>
      s != id && s in c.entries && NamesFileOf(c, view, s)
  {
    hide NamesFileOf;
    SourceIsNamed(c, id, view, s);
  }

  lemma AppendedEcho(c: Catalog, codec: Codec, mime: string, bytes: Bytes, view: ContentView, newId: Id, s: Id)
    requires newId !in c.entries && newId !in c.payloads && newId !in c.search
    ensures var m := Appended(Ticked(c), codec, mime, bytes, view, newId);
      newId in m.entries && (m.entries[newId].echo == Some(s) <==> s in c.entries && NamesFileOf(c, view, s))
  {
    hide WriteContent, NamesFileOf;
    var t := Ticked(c);
    var m := t.(entries := t.entries[newId := NewEntry(t, codec, mime, bytes, view)], issued := t.issued + {newId});
    WrittenEcho(m, codec, newId, mime, bytes, view, s);
    SameFiles(c, m, view, s);
    WrittenRows(m, codec, newId, mime, bytes, view);
  }

  lemma WrittenRows(m: Catalog, codec: Codec, id: Id, mime: string, bytes: Bytes, view: ContentView)
    requires id in m.entries && id !in m.payloads && id !in m.search
    ensures WriteContent(m, codec, id, mime, bytes, view).entries.Keys == m.entries.Keys
  {
  }

  lemma KeyedLinks(c: Catalog)
    requires Keyed(c)
    ensures LinksLive(c.entries)
  {
  }

  /** New content echoes exactly the surviving entry whose registered and unmodified file it names. */
  lemma InsertedEchoIff(c: Catalog, codec: Codec, mime: string, bytes: Bytes, view: ContentView, newId: Id, s: Id)
    requires History(c, codec) && Keyed(c) && newId !in c.issued && newId !in c.entries
    requires InsertBody(c, codec, mime, bytes, view, newId).Ok? && !Known(c, mime, bytes)
    ensures var d := InsertBody(c, codec, mime, bytes, view, newId).value.0;
      && newId in d.entries
      && (d.entries[newId].echo == Some(s) <==> s in c.entries && s in d.entries && NamesFileOf(c, view, s))
  {
    hide Sound, Retained, Conclude, Twins, Newest, IsCurrent, SummaryRow, Known, Promoted, Appended, NamesFileOf,
      LinksFollow, LinksLive, RowStep, Evict;
    SoundFacts(c, codec);
    TwinsOfKnown(c, codec, mime, bytes);
    var m := Appended(Ticked(c), codec, mime, bytes, view, newId);
    AppendedRow(c, codec, mime, bytes, view, newId);
    AppendedEcho(c, codec, mime, bytes, view, newId, s);
    KeyedLinks(m);
    ConcludedIsEvicted(m, newId);
    EvictionLinks(m, m.policy, Some(newId));
    FollowedLink(m.entries, Conclude(m, newId).value.0.entries, newId, s);
  }

  lemma FollowedLink(es: map<Id, Entry>, fs: map<Id, Entry>, id: Id, s: Id)
    requires LinksFollow(es, fs) && id in fs
    ensures id in es && (fs[id].echo == Some(s) <==> es[id].echo == Some(s) && s in fs)
  {
  }

  /** The same for a replaced entry: its old link is gone and the new content decides. */
  lemma ReplacedEchoIff(c: Catalog, codec: Codec, id: Id, expected: nat, mime: string, bytes: Bytes, view: ContentView,
      s: Id)
    requires History(c, codec) && Keyed(c) && ReplaceBody(c, codec, id, expected, mime, bytes, view).Ok?
    ensures var d := ReplaceBody(c, codec, id, expected, mime, bytes, view).value.0;
      && id in d.entries
      && (d.entries[id].echo == Some(s) <==> s != id && s in d.entries && NamesFileOf(c, view, s))
  {
    hide Sound, Retained, Conclude, IsCurrent, SummaryRow, Overwritten, NamesFileOf, LinksFollow, LinksLive, RowStep,
      Evict;
    SoundFacts(c, codec);
    var m := Overwritten(c, codec, id, mime, bytes, view);
    RewrittenRow(c, codec, id, mime, bytes, view);
    OverwrittenEcho(c, codec, id, mime, bytes, view, s);
    KeyedLinks(m);
    ConcludedIsEvicted(m, id);
    EvictionLinks(m, m.policy, Some(id));
    FollowedLink(m.entries, Conclude(m, id).value.0.entries, id, s);
    FollowedKeys(m.entries, Conclude(m, id).value.0.entries);
  }

  lemma FollowedKeys(es: map<Id, Entry>, fs: map<Id, Entry>)
    requires LinksFollow(es, fs)
    ensures fs.Keys <= es.Keys
  {
  }

  lemma OverwrittenEcho(c: Catalog, codec: Codec, id: Id, mime: string, bytes: Bytes, view: ContentView, s: Id)
    requires Keyed(c) && id in c.entries && c.revision + 1 < MAX_REVISION
    ensures var m := Overwritten(c, codec, id, mime, bytes, view);
      && id in m.entries && m.entries.Keys == c.entries.Keys
      && (m.entries[id].echo == Some(s) <==> s != id && s in c.entries && NamesFileOf(c, view, s))
  {
    hide WriteContent, Rewritten, NamesFileOf;
    var m := Rewritten(c.(revision := c.revision + 1), codec, id, mime, bytes, view);
    RewrittenShape(c, codec, id, mime, bytes, view);
    RewrittenKeepsArtifacts(c, codec, id, mime, bytes, view);
    WrittenEcho(m, codec, id, mime, bytes, view, s);
    SameFiles(c, m, view, s);
    WrittenRows(m, codec, id, mime, bytes, view);
  }

  lemma RewrittenKeepsArtifacts(c: Catalog, codec: Codec, id: Id, mime: string, bytes: Bytes, view: ContentView)
    requires id in c.entries
    ensures Rewritten(c.(revision := c.revision + 1), codec, id, mime, bytes, view).artifacts == c.artifacts
  {
  }

  /** The link of row x is kept, or cleared because its source is gone or among `cleared`. */
  ghost predicate EchoKept(es: map<Id, Entry>, fs: map<Id, Entry>, x: Id, cleared: set<Id>)
    requires x in es && x in fs
  {
    fs[x].echo ==
    if es[x].echo.Some? && es[x].echo.value in fs && es[x].echo.value !in cleared then es[x].echo else None
  }

  lemma FollowedIsKept(es: map<Id, Entry>, ms: map<Id, Entry>, fs: map<Id, Entry>, x: Id, cleared: set<Id>)
    requires LinksFollow(ms, fs) && x in es && x in fs
    requires x in ms && ms[x].echo == if es[x].echo.Some? && es[x].echo.value in cleared then None else es[x].echo
    ensures EchoKept(es, fs, x, cleared)
  {
  }

  lemma ConcludedEcho(c: Catalog, m: Catalog, id: Id, x: Id, cleared: set<Id>)
    requires Keyed(m) && x in c.entries && Conclude(m, id).Ok? && x in Conclude(m, id).value.0.entries
    requires x in m.entries
    requires m.entries[x].echo ==
      if c.entries[x].echo.Some? && c.entries[x].echo.value in cleared then None else c.entries[x].echo
    ensures EchoKept(c.entries, Conclude(m, id).value.0.entries, x, cleared)
  {
    hide Conclude, Evict, LinksFollow, LinksLive, EchoKept, Keyed;
    ConcludedIsEvicted(m, id);
    KeyedLinks(m);
    EvictionLinks(m, m.policy, Some(id));
    FollowedIsKept(c.entries, m.entries, Conclude(m, id).value.0.entries, x, cleared);
  }

  lemma AppendedOthers(c: Catalog, codec: Codec, mime: string, bytes: Bytes, view: ContentView, newId: Id, x: Id)
    requires newId !in c.entries && newId !in c.payloads && newId !in c.search && x in c.entries
    ensures var m := Appended(Ticked(c), codec, mime, bytes, view, newId);
      x in m.entries && m.entries[x] == c.entries[x]
  {
  }

  lemma OverwrittenOthers(c: Catalog, codec: Codec, id: Id, mime: string, bytes: Bytes, view: ContentView, x: Id)
    requires id in c.entries && x in c.entries && x != id
    ensures var m := Overwritten(c, codec, id, mime, bytes, view);
      x in m.entries && m.entries[x] == Unlink(c.entries[x], {id})
  {
  }

  lemma InsertKeepsEcho(c: Catalog, codec: Codec, mime: string, bytes: Bytes, view: ContentView, newId: Id, x: Id)
    requires History(c, codec) && Keyed(c) && newId !in c.issued && newId !in c.entries && x in c.entries
    requires var r := InsertBody(c, codec, mime, bytes, view, newId); r.Ok? && x in r.value.0.entries
    ensures EchoKept(c.entries, InsertBody(c, codec, mime, bytes, view, newId).value.0.entries, x, {})
  {
    hide Sound, Retained, Conclude, Twins, Newest, IsCurrent, SummaryRow, EchoKept, Appended, RowStep, ContentRow,
      Promoted;
    SoundFacts(c, codec);
    var twins := Twins(c, codec, mime, bytes);
    if twins != {} && IsCurrent(c.entries, Newest(c.entries, twins)) {
      LiveLinkKept(c, x);
    } else if twins != {} {
      PromotedKeepsEcho(c, codec, Newest(c.entries, twins), x);
    } else {
      AppendedRow(c, codec, mime, bytes, view, newId);
      ContentRowKeyed(c, Appended(Ticked(c), codec, mime, bytes, view, newId), newId, codec);
      AppendedOthers(c, codec, mime, bytes, view, newId, x);
      ConcludedEcho(c, Appended(Ticked(c), codec, mime, bytes, view, newId), newId, x, {});
    }
  }

  lemma PromotedKeepsEcho(c: Catalog, codec: Codec, id: Id, x: Id)
    requires Sound(c, codec) && id in c.entries && x in c.entries && c.revision + 1 < MAX_REVISION
    requires var r := Conclude(Promoted(Ticked(c), id), id); r.Ok? && x in r.value.0.entries
    ensures EchoKept(c.entries, Conclude(Promoted(Ticked(c), id), id).value.0.entries, x, {})
  {
    hide Sound, Conclude, EchoKept, RowStep, Keyed;
    PromotedIsSound(c, id, codec);
    SoundFacts(Promoted(Ticked(c), id), codec);
    ConcludedEcho(c, Promoted(Ticked(c), id), id, x, {});
  }

  lemma LiveLinkKept(c: Catalog, x: Id)
    requires Keyed(c) && x in c.entries
    ensures EchoKept(c.entries, c.entries, x, {})
  {
  }

  lemma ReplaceKeepsEcho(c: Catalog, codec: Codec, id: Id, expected: nat, mime: string, bytes: Bytes, view: ContentView,
      x: Id)
    requires History(c, codec) && Keyed(c) && x in c.entries && x != id
    requires var r := ReplaceBody(c, codec, id, expected, mime, bytes, view); r.Ok? && x in r.value.0.entries
    ensures EchoKept(c.entries, ReplaceBody(c, codec, id, expected, mime, bytes, view).value.0.entries, x, {id})
  {
    hide Sound, Retained, Conclude, IsCurrent, SummaryRow, EchoKept, Overwritten, RowStep, ContentRow, Keyed;
    SoundFacts(c, codec);
    var m := Overwritten(c, codec, id, mime, bytes, view);
    RewrittenRow(c, codec, id, mime, bytes, view);
    ContentRowKeyed(c, m, id, codec);
    OverwrittenOthers(c, codec, id, mime, bytes, view, x);
    ConcludedEcho(c, m, id, x, {id});
  }

  lemma FavoriteKeepsEcho(c: Catalog, codec: Codec, id: Id, expected: nat, value: bool, x: Id)
    requires History(c, codec) && Keyed(c) && x in c.entries
    requires var r := FavoriteBody(c, id, expected, value); r.Ok? && x in r.value.0.entries
    ensures EchoKept(c.entries, FavoriteBody(c, id, expected, value).value.0.entries, x, {})
  {
    hide Sound, Retained, Evict, IsCurrent, EchoKept, RowStep, LinksFollow, LinksLive, Keyed;
    SoundFacts(c, codec);
    LiveLinkKept(c, x);
    if c.entries[id].favorite != value {
      var m := Moved(c.(revision := c.revision + 1), id, value);
      MovedIsSound(c, id, value, codec);
      SoundFacts(m, codec);
      KeyedLinks(m);
      EvictionLinks(m, c.policy, Some(id));
      FollowedIsKept(c.entries, m.entries, Evict(m, c.policy, Some(id)).entries, x, {});
    }
  }

  lemma RemovalKeepsEcho(c: Catalog, codec: Codec, m: Mutation, x: Id)
    requires History(c, codec) && Keyed(c) && x in c.entries && !m.Insert? && !m.Replace? && !m.Favorite?
    requires x in Step(c, codec, m).entries
    ensures EchoKept(c.entries, Step(c, codec, m).entries, x, {})
  {
    hide Sound, Retained, Evict, EchoKept, LinksFollow, LinksLive, DeleteEntries, Matching, Present, ValidPolicy,
      ArtifactAccepted, Keyed;
    LiveLinkKept(c, x);
    KeyedLinks(c);
    match m
    case RemoveMany(targets) => DeletedLinkKept(c, set t | t in targets :: t.id, x);
    case Wipe => DeletedLinkKept(c, c.entries.Keys, x);
    case ApplyPolicy(p) =>
      EvictionLinks(c.(policy := p), p, None);
      if x in Evict(c.(policy := p), p, None).entries {
        FollowedIsKept(c.entries, c.entries, Evict(c.(policy := p), p, None).entries, x, {});
      }
    case _ =>
  }

  lemma DeletedLinkKept(c: Catalog, victims: set<Id>, x: Id)
    requires LinksLive(c.entries) && x in c.entries
    ensures x in DeleteEntries(c, victims).entries ==>
      EchoKept(c.entries, DeleteEntries(c, victims).entries, x, {})
  {
  }

  /**
    A mutation clears the link of an entry it does not rewrite exactly when the source is
    gone or was itself rewritten; otherwise the link stays what it was.
    */
  lemma StepKeepsEcho(c: Catalog, codec: Codec, m: Mutation, x: Id)
    requires History(c, codec) && Keyed(c) && (m.Insert? ==> m.newId !in c.issued && m.newId !in c.entries)
    requires x in c.entries && x in Step(c, codec, m).entries && !(m.Replace? && m.id == x)
    ensures var d := Step(c, codec, m);
      d.entries[x].echo ==
      if && c.entries[x].echo.Some? && c.entries[x].echo.value in d.entries
         && !(m.Replace? && c.entries[x].echo.value == m.id && Body(c, codec, m).Ok?)
      then c.entries[x].echo else None
  {
    hide Sound, Retained, InsertBody, ReplaceBody, FavoriteBody, Keyed;
    if Body(c, codec, m).Err? {
      LiveLinkKept(c, x);
    } else {
      match m
      case Insert(mime, bytes, view, newId) => InsertKeepsEcho(c, codec, mime, bytes, view, newId, x);
      case Replace(id, expected, mime, bytes, view) => ReplaceKeepsEcho(c, codec, id, expected, mime, bytes, view, x);
      case Favorite(id, expected, value) => FavoriteKeepsEcho(c, codec, id, expected, value, x);
      case _ => RemovalKeepsEcho(c, codec, m, x);
    }
  }

  // -------------------------------------------------------------- named files

  /** The links are exactly the paths that the payloads name. */
  ghost predicate LinksMatch(c: Catalog, codec: Codec)
    requires Keyed(c)
  {
    forall id, path :: (id, path) in c.links <==> id in c.entries && path in codec.paths(c.payloads[id])
  }

  lemma DeletionMatches(c: Catalog, victims: set<Id>, codec: Codec)
    requires Keyed(c) && LinksMatch(c, codec)
    ensures var d := DeleteEntries(c, victims); Keyed(d) && LinksMatch(d, codec)
  {
    DeletionShrinks(c, victims);
  }

  lemma EvictionMatches(m: Catalog, p: Policy, prot: Option<Id>, codec: Codec)
    requires Keyed(m) && LinksMatch(m, codec)
    ensures var d := Evict(m, p, prot); Keyed(d) && LinksMatch(d, codec)
  {
    hide DeleteEntries, Keyed, LinksMatch;
    var c1 := DropOversized(m, p, prot);
    DeletionMatches(m, Oversized(m.entries, prot, p.maxEntryBytes), codec);
    var c2 := DropOverflow(c1, prot, false, p.maxEntries);
    DeletionMatches(c1, Overflow(c1.entries, prot, Category(c1.entries, false), p.maxEntries), codec);
    var c3 := DropOverflow(c2, prot, true, p.maxFavorites);
    DeletionMatches(c2, Overflow(c2.entries, prot, Category(c2.entries, true), p.maxFavorites), codec);
    DeletionMatches(c3, OverBudget(c3.entries, prot, p.maxTotalBytes), codec);
  }

  /** Content written into a row whose old links are gone. */
  lemma WrittenMatches(c: Catalog, m: Catalog, codec: Codec, id: Id, mime: string, bytes: Bytes, view: ContentView)
    requires Keyed(c) && LinksMatch(c, codec) && id in m.entries && id !in m.payloads && id !in m.search
    requires m.entries.Keys == c.entries.Keys + {id} && m.payloads == c.payloads - {id}
    requires forall l :: l in m.links <==> l in c.links && l.0 != id
    ensures var d := WriteContent(m, codec, id, mime, bytes, view); Keyed(d) ==> LinksMatch(d, codec)
  {
    hide WriteContent;
    var d := WriteContent(m, codec, id, mime, bytes, view);
    WrittenLinks(m, codec, id, mime, bytes, view);
    if Keyed(d) {
      forall x, path ensures (x, path) in d.links <==> x in d.entries && path in codec.paths(d.payloads[x]) {
        assert (x, path) in m.links <==> (x, path) in c.links && x != id;
      }
    }
  }

  lemma WrittenLinks(m: Catalog, codec: Codec, id: Id, mime: string, bytes: Bytes, view: ContentView)
    requires id in m.entries && id !in m.payloads && id !in m.search
    ensures var d := WriteContent(m, codec, id, mime, bytes, view);
      && d.entries.Keys == m.entries.Keys && d.payloads == m.payloads[id := bytes]
      && forall x, path :: (x, path) in d.links <==> (x, path) in m.links || (x == id && path in codec.paths(bytes))
  {
  }

  lemma AppendedMatches(c: Catalog, codec: Codec, mime: string, bytes: Bytes, view: ContentView, newId: Id)
    requires Keyed(c) && LinksMatch(c, codec) && newId !in c.entries && newId !in c.payloads && newId !in c.search
    ensures var m := Appended(Ticked(c), codec, mime, bytes, view, newId); Keyed(m) ==> LinksMatch(m, codec)
  {
    hide WriteContent, LinksMatch;
    var t := Ticked(c);
    var m := t.(entries := t.entries[newId := NewEntry(t, codec, mime, bytes, view)], issued := t.issued + {newId});
    WrittenMatches(c, m, codec, newId, mime, bytes, view);
  }

  lemma OverwrittenMatches(c: Catalog, codec: Codec, id: Id, mime: string, bytes: Bytes, view: ContentView)
    requires Keyed(c) && LinksMatch(c, codec) && id in c.entries && c.revision + 1 < MAX_REVISION
    ensures var m := Overwritten(c, codec, id, mime, bytes, view); Keyed(m) ==> LinksMatch(m, codec)
  {
    hide WriteContent, LinksMatch, Rewritten, Keyed;
    var m := Rewritten(c.(revision := c.revision + 1), codec, id, mime, bytes, view);
    RewrittenShape(c, codec, id, mime, bytes, view);
    RewrittenLinks(c, codec, id, mime, bytes, view);
    WrittenMatches(c, m, codec, id, mime, bytes, view);
  }

  lemma RewrittenLinks(c: Catalog, codec: Codec, id: Id, mime: string, bytes: Bytes, view: ContentView)
    requires id in c.entries
    ensures forall l ::
      l in Rewritten(c.(revision := c.revision + 1), codec, id, mime, bytes, view).links <==> l in c.links && l.0 != id
  {
  }

  /** Other rows, counters, policy and registered files do not matter. */
  lemma SameContentsMatch(c: Catalog, d: Catalog, codec: Codec)
    requires Keyed(c) && LinksMatch(c, codec)
    requires d.entries.Keys == c.entries.Keys && d.payloads == c.payloads && d.links == c.links
    ensures Keyed(d) ==> LinksMatch(d, codec)
  {
  }

  lemma ConcludedMatches(m: Catalog, id: Id, codec: Codec)
    requires Keyed(m) && LinksMatch(m, codec)
    ensures Conclude(m, id).Ok? ==> var d := Conclude(m, id).value.0; Keyed(d) && LinksMatch(d, codec)
  {
    hide Evict, Keyed, LinksMatch, Conclude;
    if Conclude(m, id).Ok? {
      ConcludedIsEvicted(m, id);
      EvictionMatches(m, m.policy, Some(id), codec);
    }
  }

  lemma InsertMatches(c: Catalog, codec: Codec, mime: string, bytes: Bytes, view: ContentView, newId: Id)
    requires Sound(c, codec) && Keyed(c) && newId !in c.issued && newId !in c.entries && LinksMatch(c, codec)
    ensures var r := InsertBody(c, codec, mime, bytes, view, newId);
      r.Ok? ==> Keyed(r.value.0) && LinksMatch(r.value.0, codec)
  {
    hide Sound, LinksMatch, Conclude, Appended, Twins, Newest, IsCurrent, SummaryRow, Promoted, RowStep;
    SoundFacts(c, codec);
    var twins := Twins(c, codec, mime, bytes);
    if c.revision + 1 < MAX_REVISION && AllowedPayload(c.policy, bytes) {
      if twins != {} {
        PromotedMatches(c, codec, Newest(c.entries, twins));
      } else if |mime| <= MAX_MIME {
        AppendedRow(c, codec, mime, bytes, view, newId);
        AppendedMatches(c, codec, mime, bytes, view, newId);
        ConcludedMatches(Appended(Ticked(c), codec, mime, bytes, view, newId), newId, codec);
      }
    }
  }

  lemma PromotedMatches(c: Catalog, codec: Codec, id: Id)
    requires Sound(c, codec) && Keyed(c) && LinksMatch(c, codec) && id in c.entries && c.revision + 1 < MAX_REVISION
    ensures var r := Conclude(Promoted(Ticked(c), id), id);
      r.Ok? ==> Keyed(r.value.0) && LinksMatch(r.value.0, codec)
  {
    hide Sound, Keyed, LinksMatch, Conclude, RowStep;
    var m := Promoted(Ticked(c), id);
    PromotedIsSound(c, id, codec);
    SoundFacts(m, codec);
    SameContentsMatch(c, m, codec);
    ConcludedMatches(m, id, codec);
  }

  lemma ReplaceMatches(c: Catalog, codec: Codec, id: Id, expected: nat, mime: string, bytes: Bytes, view: ContentView)
    requires Sound(c, codec) && Keyed(c) && LinksMatch(c, codec)
    ensures var r := ReplaceBody(c, codec, id, expected, mime, bytes, view);
      r.Ok? ==> Keyed(r.value.0) && LinksMatch(r.value.0, codec)
  {
    hide Sound, LinksMatch, Conclude, Overwritten, SummaryRow, RowStep, Keyed;
    SoundFacts(c, codec);
    if id in c.entries && c.revision + 1 < MAX_REVISION && AllowedPayload(c.policy, bytes) && |mime| <= MAX_MIME {
      var m := Overwritten(c, codec, id, mime, bytes, view);
      RewrittenRow(c, codec, id, mime, bytes, view);
      ContentRowKeyed(c, m, id, codec);
      OverwrittenMatches(c, codec, id, mime, bytes, view);
      ConcludedMatches(m, id, codec);
    }
  }

  lemma ContentRowKeyed(c: Catalog, m: Catalog, id: Id, codec: Codec)
    requires ContentRow(c, m, id, codec)
    ensures Keyed(m)
  {
  }

  lemma FavoriteMatches(c: Catalog, codec: Codec, id: Id, expected: nat, value: bool)
    requires Sound(c, codec) && Keyed(c) && LinksMatch(c, codec)
    ensures var r := FavoriteBody(c, id, expected, value);
      r.Ok? ==> Keyed(r.value.0) && LinksMatch(r.value.0, codec)
  {
    hide Sound, Keyed, LinksMatch, Evict, RowStep, SummaryRow;
    if id in c.entries && c.revision + 1 < MAX_REVISION {
      var m := Moved(c.(revision := c.revision + 1), id, value);
      MovedIsSound(c, id, value, codec);
      SoundFacts(m, codec);
      SameContentsMatch(c, m, codec);
      EvictionMatches(m, c.policy, Some(id), codec);
    }
  }

  lemma BumpedMatches(d: Catalog, codec: Codec)
    requires Keyed(d) && LinksMatch(d, codec)
    ensures Bump(d).Ok? ==> Keyed(Bump(d).value) && LinksMatch(Bump(d).value, codec)
  {
  }

  lemma RemovalMatches(c: Catalog, victims: set<Id>, codec: Codec)
    requires Keyed(c) && LinksMatch(c, codec)
    ensures var r := Bump(DeleteEntries(c, victims)); r.Ok? ==> Keyed(r.value) && LinksMatch(r.value, codec)
  {
    hide DeleteEntries, Bump, Keyed, LinksMatch;
    DeletionMatches(c, victims, codec);
    BumpedMatches(DeleteEntries(c, victims), codec);
  }

  lemma ApplyPolicyMatches(c: Catalog, codec: Codec, p: Policy)
    requires Keyed(c) && LinksMatch(c, codec)
    ensures var r := ApplyPolicyBody(c, p); r.Ok? ==> Keyed(r.value.0) && LinksMatch(r.value.0, codec)
  {
    hide Evict, Bump, LinksMatch, ValidPolicy;
    var m := c.(policy := p);
    SameContentsMatch(c, m, codec);
    EvictionMatches(m, p, None, codec);
    BumpedMatches(Evict(m, p, None), codec);
  }

  lemma MetadataMatches(c: Catalog, codec: Codec, m: Mutation)
    requires Keyed(c) && LinksMatch(c, codec) && (m.RegisterArtifact? || m.ForgetArtifact? || m.CloseAdmission?)
    ensures var r := Body(c, codec, m); r.Ok? ==> Keyed(r.value.0) && LinksMatch(r.value.0, codec)
  {
    hide LinksMatch, ArtifactAccepted, Keyed, SameTables;
    if Body(c, codec, m).Ok? {
      OtherTablesEvolve(c, Body(c, codec, m).value.0);
      SameContentsMatch(c, Body(c, codec, m).value.0, codec);
    }
  }

  lemma RemoveManyMatches(c: Catalog, codec: Codec, targets: seq<Target>)
    requires Keyed(c) && LinksMatch(c, codec)
    ensures var r := RemoveManyBody(c, targets); r.Ok? ==> Keyed(r.value.0) && LinksMatch(r.value.0, codec)
  {
    hide DeleteEntries, Bump, Keyed, LinksMatch, Matching, Present;
    RemovalMatches(c, set t | t in targets :: t.id, codec);
  }

  lemma WipeMatches(c: Catalog, codec: Codec)
    requires Keyed(c) && LinksMatch(c, codec)
    ensures var r := WipeBody(c); r.Ok? ==> Keyed(r.value.0) && LinksMatch(r.value.0, codec)
  {
    hide DeleteEntries, Bump, Keyed, LinksMatch;
    RemovalMatches(c, c.entries.Keys, codec);
  }

  lemma StepMatches(c: Catalog, codec: Codec, m: Mutation)
    requires History(c, codec) && Keyed(c) && LinksMatch(c, codec)
    requires m.Insert? ==> m.newId !in c.issued && m.newId !in c.entries
    ensures var d := Step(c, codec, m); Keyed(d) && LinksMatch(d, codec)
  {
    hide Sound, Retained, Keyed, LinksMatch, InsertBody, ReplaceBody, FavoriteBody, RemoveManyBody, WipeBody,
      ApplyPolicyBody, RegisterArtifactBody;
    match m
    case Insert(mime, bytes, view, newId) => InsertMatches(c, codec, mime, bytes, view, newId);
    case Replace(id, expected, mime, bytes, view) => ReplaceMatches(c, codec, id, expected, mime, bytes, view);
    case Favorite(id, expected, value) => FavoriteMatches(c, codec, id, expected, value);
    case RemoveMany(targets) => RemoveManyMatches(c, codec, targets);
    case Wipe => WipeMatches(c, codec);
    case ApplyPolicy(p) => ApplyPolicyMatches(c, codec, p);
    case _ => MetadataMatches(c, codec, m);
  }

  /** Over any run the recorded links are exactly the paths that the payloads name. */
  lemma {:induction false} LinksFollowContent(states: seq<Catalog>, ops: seq<Mutation>, codec: Codec, k: nat)
    requires Run(states, ops, codec) && k < |states| && Keyed(states[0]) && LinksMatch(states[0], codec)
    ensures Keyed(states[k]) && LinksMatch(states[k], codec)
  {
    hide History, Keyed, LinksMatch, Step;
    if k > 0 {
      LinksFollowContent(states, ops, codec, k - 1);
      RunKeepsHistory(states, ops, codec, k - 1);
      StepMatches(states[k - 1], codec, ops[k - 1]);
    }
  }

  /** The files old enough to be offered for cleanup: neither their source nor any link to them is left. */
  function Candidates(c: Catalog, age: nat): set<Path> {
    set path | path in c.artifacts && c.artifacts[path].createdAt <= age
      && c.artifacts[path].source !in c.entries && forall l | l in c.links :: l.1 != path
  }

  /** In every reachable state those are exactly the old files whose source is gone and that no payload names. */
  lemma CandidatesAreUnused(states: seq<Catalog>, ops: seq<Mutation>, codec: Codec, k: nat, age: nat,
      path: Path)
    requires Run(states, ops, codec) && k < |states| && Keyed(states[0]) && LinksMatch(states[0], codec)
    ensures Keyed(states[k])
    ensures var c := states[k];
      path in Candidates(c, age) <==>
        && path in c.artifacts && c.artifacts[path].createdAt <= age && c.artifacts[path].source !in c.entries
        && forall id | id in c.entries :: path !in codec.paths(c.payloads[id])
  {
    hide Run;
    LinksFollowContent(states, ops, codec, k);
    var c := states[k];
    if path in c.artifacts && forall l | l in c.links :: l.1 != path {
      forall id | id in c.entries ensures path !in codec.paths(c.payloads[id]) {
        assert (id, path).1 == path;
      }
    }
    forall l | l in c.links && l.1 == path ensures l.0 in c.entries && path in codec.paths(c.payloads[l.0]) {
      assert l == (l.0, path);
    }
  }
}
