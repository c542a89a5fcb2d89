/**
  The transaction body of every mutation, as a function from the tables it reads
  to the tables it would commit, and the invariant that each of them keeps.
  */
module Mutations {
  import opened Wrappers
  import opened Tables
  import opened Retention
  import opened EchoGraph

  const MAX_ARTIFACTS: nat := 4096
  const MAX_TIMESTAMP: nat := 0x7FFF_FFFF_FFFF_FFFF

  datatype FileStat = FileStat(device: nat, inode: nat, owner: nat)

  datatype LocalImage = LocalImage(path: Path, stat: Option<FileStat>, identity: Option<string>)

  /** What content resolution and the file system say about one payload. */
  datatype ContentView = ContentView(
    kind: Kind, mime: string, preview: string, image: Option<LocalImage>)

  datatype Target = Target(id: Id, revision: nat)

  datatype Mutation =
    | Insert(mime: string, bytes: Bytes, view: ContentView, newId: Id)
    | Replace(id: Id, expected: nat, mime: string, bytes: Bytes, view: ContentView)
    | Favorite(id: Id, expected: nat, value: bool)
    | RemoveMany(targets: seq<Target>)
    | Wipe
    | ApplyPolicy(policy: Policy)
    | RegisterArtifact(path: Path, record: Artifact)
    | ForgetArtifact(path: Path)
    | CloseAdmission

  datatype Reply = Done | Row(summary: EntrySummary)

  type Committed = Result<(Catalog, Reply), Error>

  // ------------------------------------------------------------ shared pieces

  predicate AllowedPayload(p: Policy, bytes: Bytes) {
    |bytes| <= p.maxEntryBytes && |bytes| <= p.maxTotalBytes
  }

  /** Digest, MIME and length narrow the candidates; payload equality decides. */
  function Twins(c: Catalog, codec: Codec, mime: string, bytes: Bytes): (r: set<Id>)
    requires Keyed(c)
    ensures r <= c.entries.Keys
  {
    set id | id in c.entries && c.entries[id].digest == codec.digest(bytes) && c.entries[id].mime == mime &&
             c.entries[id].byteSize == |bytes| && c.payloads[id] == bytes
  }

  /** ORDER BY recency DESC, id LIMIT 1. */
  function Newest(es: map<Id, Entry>, ids: set<Id>): (r: Id)
    requires ids <= es.Keys && ids != {}
    ensures r in ids && forall x | x in ids :: es[x].recency <= es[r].recency
  {
    NewestExists(es, ids);
    var r :| r in ids && forall x | x in ids && x != r :: Newer(es, r, x);
    r
  }

  predicate Newer(es: map<Id, Entry>, x: Id, y: Id)
    requires x in es && y in es
  {
    es[x].recency > es[y].recency || (es[x].recency == es[y].recency && x < y)
  }

  lemma NewestExists(es: map<Id, Entry>, ids: set<Id>)
    requires ids <= es.Keys && ids != {}
    ensures exists r :: r in ids && forall x | x in ids && x != r :: Newer(es, r, x)
  {
    var r := FindNewest(es, ids);
  }

  lemma FindNewest(es: map<Id, Entry>, ids: set<Id>) returns (r: Id)
    requires ids <= es.Keys && ids != {}
    ensures r in ids && forall x | x in ids && x != r :: Newer(es, r, x)
  {
    var a :| a in ids;
    if ids == {a} { return a; }
    var b := FindNewest(es, ids - {a});
    r := if Newer(es, a, b) then a else b;
    forall x | x in ids && x != r ensures Newer(es, r, x) {
      assert x == a || x == b || Newer(es, b, x);
    }
  }

  /** A URI payload echoes the entry whose registered, unmodified generated file it names. */
  function EchoSource(c: Catalog, id: Id, view: ContentView): Option<Id> {
    if view.image.None? || view.image.value.path !in c.artifacts then None
    else
      var image := view.image.value;
      var record := c.artifacts[image.path];
      if record.source != id && record.source in c.entries
         && image.stat == Some(FileStat(record.device, record.inode, record.owner))
         && image.identity == Some(record.identity)
      then Some(record.source) else None
  }

  function WriteContent(c: Catalog, codec: Codec, id: Id, mime: string, bytes: Bytes, view: ContentView): Catalog
    requires id in c.entries && id !in c.payloads && id !in c.search
  {
    var source := EchoSource(c, id, view);
    c.(payloads := c.payloads[id := bytes],
       search := c.search[id := IndexedRow(codec, mime, bytes)],
       links := c.links + set p | p in codec.paths(bytes) :: (id, p),
       entries := if source.Some? then c.entries[id := c.entries[id].(echo := source)] else c.entries)
  }

  function Conclude(c: Catalog, id: Id): Committed {
    match Retain(c, c.policy, Some(id))
    case Err(e) => Err(e)
    case Ok(d) => if id in d.entries then Ok((d, Row(SummaryRow(d.entries, id)))) else Err(NotFound)
  }

  // ------------------------------------------------------------------- insert

  function Promoted(c: Catalog, id: Id): Catalog
    requires id in c.entries
  {
    c.(entries := c.entries[id := c.entries[id].(revision := c.revision, recency := c.sequence)])
  }

  function NewEntry(c: Catalog, codec: Codec, mime: string, bytes: Bytes, view: ContentView): Entry {
    Entry(c.revision, false, c.sequence, mime, view.mime, None, |bytes|, codec.digest(bytes), view.preview, view.kind)
  }

  function Appended(c: Catalog, codec: Codec, mime: string, bytes: Bytes, view: ContentView, newId: Id): Catalog
    requires newId !in c.entries && newId !in c.payloads && newId !in c.search
  {
    var d := c.(entries := c.entries[newId := NewEntry(c, codec, mime, bytes, view)], issued := c.issued + {newId});
    WriteContent(d, codec, newId, mime, bytes, view)
  }

  function InsertBody(c: Catalog, codec: Codec, mime: string, bytes: Bytes, view: ContentView, newId: Id): Committed
    requires Keyed(c) && newId !in c.entries
  {
    if !c.policy.admission then Err(Unavailable)
    else if !AllowedPayload(c.policy, bytes) then Err(InvalidData)
    else
      var twins := Twins(c, codec, mime, bytes);
      if twins != {} && IsCurrent(c.entries, Newest(c.entries, twins)) then
        Ok((c, Row(SummaryRow(c.entries, Newest(c.entries, twins)))))
      else match Bump(c)
        case Err(e) => Err(e)
        case Ok(b) =>
          var n := b.(sequence := b.sequence + 1);
          if twins != {} then Conclude(Promoted(n, Newest(c.entries, twins)), Newest(c.entries, twins))
          else if c.policy.maxEntries == 0 then Err(InvalidData)
          else if |mime| > MAX_MIME || |view.mime| > MAX_MIME then Err(OperationFailed)
          else Conclude(Appended(n, codec, mime, bytes, view, newId), newId)
  }

  // ------------------------------------------------------------------ replace

  /** The UPDATE of the row itself, the clearing of inbound echoes and the DELETEs of its old content. */
  function Rewritten(c: Catalog, codec: Codec, id: Id, mime: string, bytes: Bytes, view: ContentView): Catalog
    requires id in c.entries
  {
    var e := c.entries[id].(revision := c.revision, mime := mime, byteSize := |bytes|, digest := codec.digest(bytes),
                            preview := view.preview, kind := view.kind, resolvedMime := view.mime, echo := None);
    c.(entries := map x | x in c.entries :: if x == id then e else Unlink(c.entries[x], {id}),
       payloads := c.payloads - {id},
       search := c.search - {id},
       links := set l | l in c.links && l.0 != id)
  }

  /** The replaced row with its new content, before eviction. */
  function Overwritten(c: Catalog, codec: Codec, id: Id, mime: string, bytes: Bytes, view: ContentView): Catalog
    requires id in c.entries
  {
    WriteContent(Rewritten(c.(revision := c.revision + 1), codec, id, mime, bytes, view), codec, id, mime, bytes, view)
  }

  function ReplaceBody(c: Catalog, codec: Codec, id: Id, expected: nat, mime: string, bytes: Bytes, view: ContentView)
    : Committed
    requires Keyed(c)
  {
    match Summary(c, id, Some(expected))
    case Err(e) => Err(e)
    case Ok(_) =>
      if !AllowedPayload(c.policy, bytes) then Err(InvalidData)
      else match Bump(c)
        case Err(e) => Err(e)
        case Ok(_) =>
          if |mime| > MAX_MIME || |view.mime| > MAX_MIME then Err(OperationFailed)
          else Conclude(Overwritten(c, codec, id, mime, bytes, view), id)
  }

  // ----------------------------------------------- favorite, removal, policy

  function Moved(c: Catalog, id: Id, value: bool): Catalog
    requires id in c.entries
  {
    c.(entries := c.entries[id := c.entries[id].(favorite := value, revision := c.revision)])
  }

  function FavoriteBody(c: Catalog, id: Id, expected: nat, value: bool): Committed {
    match Summary(c, id, Some(expected))
    case Err(e) => Err(e)
    case Ok(s) =>
      if s.favorite == value then Ok((c, Done))
      else if (value && c.policy.maxFavorites == 0) || (!value && c.policy.maxEntries == 0) then Err(InvalidData)
      else match Bump(c)
        case Err(e) => Err(e)
        case Ok(b) => match Retain(Moved(b, id, value), c.policy, Some(id))
          case Err(e) => Err(e)
          case Ok(d) => Ok((d, Done))
  }

  predicate Present(c: Catalog, t: Target) { t.id in c.entries }

  predicate Matching(c: Catalog, t: Target) { t.id in c.entries && c.entries[t.id].revision == t.revision }

  function RemoveManyBody(c: Catalog, targets: seq<Target>): Committed {
    if targets == [] then Ok((c, Done))
    else if exists t | t in targets :: !Matching(c, t) then
      if exists t | t in targets :: !Present(c, t) then Err(NotFound) else Err(Stale)
    else match Bump(DeleteEntries(c, set t | t in targets :: t.id))
      case Err(e) => Err(e)
      case Ok(b) => Ok((b, Done))
  }

  function WipeBody(c: Catalog): Committed {
    match Bump(DeleteEntries(c, c.entries.Keys))
    case Err(e) => Err(e)
    case Ok(b) => Ok((b, Done))
  }

  function ApplyPolicyBody(c: Catalog, p: Policy): Committed {
    if !ValidPolicy(p) then Err(InvalidData)
    else if c.policy == p then Ok((c, Done))
    else match Retain(c.(policy := p), p, None)
      case Err(e) => Err(e)
      case Ok(d) => match Bump(d)
        case Err(e) => Err(e)
        case Ok(b) => Ok((b, Done))
  }

  predicate ArtifactAccepted(path: Path, record: Artifact) {
    0 < |path| <= 32768 && path[0] == '/' && |record.identity| <= 256 && record.createdAt <= MAX_TIMESTAMP
  }

  function RegisterArtifactBody(c: Catalog, path: Path, record: Artifact): Committed {
    if !ArtifactAccepted(path, record) then Err(InvalidData)
    else if |c.artifacts| >= MAX_ARTIFACTS && path !in c.artifacts then Err(InvalidData)
    else Ok((c.(artifacts := c.artifacts[path := record]), Done))
  }

  function Body(c: Catalog, codec: Codec, m: Mutation): Committed
    requires Keyed(c) && (m.Insert? ==> m.newId !in c.entries)
  {
    match m
    case Insert(mime, bytes, view, newId) => InsertBody(c, codec, mime, bytes, view, newId)
    case Replace(id, expected, mime, bytes, view) => ReplaceBody(c, codec, id, expected, mime, bytes, view)
    case Favorite(id, expected, value) => FavoriteBody(c, id, expected, value)
    case RemoveMany(targets) => RemoveManyBody(c, targets)
    case Wipe => WipeBody(c)
    case ApplyPolicy(p) => ApplyPolicyBody(c, p)
    case RegisterArtifact(path, record) => RegisterArtifactBody(c, path, record)
    case ForgetArtifact(path) => Ok((c.(artifacts := c.artifacts - {path}), Done))
    case CloseAdmission => Ok((c.(policy := c.policy.(admission := false)), Done))
  }

  /** What a call leaves behind: an error rolls everything back. */
  function Step(c: Catalog, codec: Codec, m: Mutation): Catalog
    requires Keyed(c) && (m.Insert? ==> m.newId !in c.entries)
  {
    match Body(c, codec, m) case Ok((d, _)) => d case Err(_) => c
  }

  // ----------------------------------------------------------- the invariant

  ghost predicate Sound(c: Catalog, codec: Codec) {
    Keyed(c) && Contents(c, codec) && Bounded(c) && Distinct(c.entries) && ValidPolicy(c.policy) && Acyclic(c.entries)
  }

  ghost predicate History(c: Catalog, codec: Codec) {
    Sound(c, codec) && Retained(c.entries, c.policy)
  }

  lemma SoundFacts(c: Catalog, codec: Codec)
    requires Sound(c, codec)
    ensures Keyed(c) && ValidPolicy(c.policy) && c.entries.Keys <= c.issued
  {
  }

  lemma DeletionKeepsSound(c: Catalog, victims: set<Id>, codec: Codec)
    requires Sound(c, codec)
    ensures Sound(DeleteEntries(c, victims), codec)
  {
    hide DeleteEntries, Distinct, Contents;
    var d := DeleteEntries(c, victims);
    DeleteIsWithout(c, victims);
    DeleteKeepsContents(c, d, victims, codec);
    DeleteKeepsNumbers(c, d, victims);
    FewerLinksStayAcyclic(c.entries, d.entries);
  }

  lemma RetainKeepsSound(c: Catalog, p: Policy, prot: Option<Id>, codec: Codec)
    requires Sound(c, codec)
    ensures Sound(Evict(c, p, prot), codec)
    ensures Evict(c, p, prot).policy == c.policy
  {
    var c1 := DropOversized(c, p, prot);
    DeletionKeepsSound(c, Oversized(c.entries, prot, p.maxEntryBytes), codec);
    var c2 := DropOverflow(c1, prot, false, p.maxEntries);
    DeletionKeepsSound(c1, Overflow(c1.entries, prot, Category(c1.entries, false), p.maxEntries), codec);
    var c3 := DropOverflow(c2, prot, true, p.maxFavorites);
    DeletionKeepsSound(c2, Overflow(c2.entries, prot, Category(c2.entries, true), p.maxFavorites), codec);
    DeletionKeepsSound(c3, OverBudget(c3.entries, prot, p.maxTotalBytes), codec);
  }

  /** The mutated row survives `retain`, so its final lookup answers, and all limits hold again. */
  lemma ConcludeSucceeds(c: Catalog, id: Id, codec: Codec)
    requires Sound(c, codec) && id in c.entries && HasRoom(c.entries[id], c.policy)
    ensures Retain(c, c.policy, Some(id)).Ok? && History(Retain(c, c.policy, Some(id)).value, codec)
    ensures Conclude(c, id).Ok? && History(Conclude(c, id).value.0, codec) && id in Conclude(c, id).value.0.entries
  {
    RetainEstablishesLimits(c, c.policy, Some(id));
    RetainKeepsSound(c, c.policy, Some(id), codec);
  }

  lemma BumpKeepsSound(c: Catalog, codec: Codec)
    requires Sound(c, codec) && Bump(c).Ok?
    ensures Sound(Bump(c).value, codec)
  {
    var b := Bump(c).value;
    assert forall id | id in c.entries :: Faithful(c.entries[id], c.payloads[id], c.search[id], codec);
  }

  lemma CategoryHasRoom(es: map<Id, Entry>, p: Policy, id: Id)
    requires Retained(es, p) && id in es
    ensures HasRoom(es[id], p)
  {
    assert id in Category(es, es[id].favorite);
    assert es.Keys == {id} + (es.Keys - {id});
    SumRemove(es, es.Keys, id);
  }

  // ------------------------------------------------- one row changes, per mutation

  /** `d` is one revision later than `c`, and only row `id` is new or changed. */
  ghost predicate RowStep(c: Catalog, d: Catalog, id: Id) {
    && d.revision == c.revision + 1 < MAX_REVISION && c.sequence <= d.sequence <= c.sequence + 1
    && d.policy == c.policy && c.issued + {id} <= d.issued + c.entries.Keys && c.issued <= d.issued
    && d.entries.Keys == c.entries.Keys + {id}
    && (forall x | x in c.entries && x != id :: SameRow(c.entries[x], d.entries[x]))
    && d.entries[id].revision == d.revision
    && (if d.sequence == c.sequence then id in c.entries && d.entries[id].recency == c.entries[id].recency
        else d.entries[id].recency == d.sequence)
  }

  /** Equal up to a cleared echo link, which is the one thing a mutation of another row may do. */
  ghost predicate SameRow(e: Entry, f: Entry) {
    f == e || f == e.(echo := None)
  }

  lemma RowStepKeepsNumbers(c: Catalog, d: Catalog, id: Id)
    requires Bounded(c) && Distinct(c.entries) && RowStep(c, d, id)
    ensures Bounded(d) && Distinct(d.entries)
  {
    forall x | x in d.entries
      ensures 0 < d.entries[x].revision <= d.revision && 0 < d.entries[x].recency <= d.sequence
    {
      assert x == id || SameRow(c.entries[x], d.entries[x]);
    }
    forall x, y | x in d.entries && y in d.entries && x != y
      ensures d.entries[x].revision != d.entries[y].revision && d.entries[x].recency != d.entries[y].recency
    {
      assert x == id || SameRow(c.entries[x], d.entries[x]);
      assert y == id || SameRow(c.entries[y], d.entries[y]);
    }
  }

  lemma RowStepKeepsContents(c: Catalog, d: Catalog, id: Id, codec: Codec)
    requires Keyed(c) && Contents(c, codec) && Keyed(d) && RowStep(c, d, id)
    requires forall x | x in c.entries && x != id :: d.payloads[x] == c.payloads[x] && d.search[x] == c.search[x]
    requires Faithful(d.entries[id], d.payloads[id], d.search[id], codec)
    ensures Contents(d, codec)
  {
    forall x | x in d.entries && x != id ensures Faithful(d.entries[x], d.payloads[x], d.search[x], codec) {
      OtherRowFaithful(c.entries[x], d.entries[x], c.payloads[x], c.search[x], codec);
    }
  }

  lemma OtherRowFaithful(e: Entry, f: Entry, payload: Bytes, row: SearchRow, codec: Codec)
    requires Faithful(e, payload, row, codec) && SameRow(e, f)
    ensures Faithful(f, payload, row, codec)
  {
  }

  lemma RowStepKeepsSound(c: Catalog, d: Catalog, id: Id, codec: Codec)
    requires Sound(c, codec) && Keyed(d) && RowStep(c, d, id) && Acyclic(d.entries)
    requires forall x | x in c.entries && x != id :: d.payloads[x] == c.payloads[x] && d.search[x] == c.search[x]
    requires Faithful(d.entries[id], d.payloads[id], d.search[id], codec)
    ensures Sound(d, codec)
  {
    RowStepKeepsNumbers(c, d, id);
    RowStepKeepsContents(c, d, id, codec);
  }

  function Ticked(c: Catalog): Catalog { c.(revision := c.revision + 1, sequence := c.sequence + 1) }

  /** Only the metadata of row `id` changes, and neither its content nor any link. */
  lemma MetadataRowIsSound(c: Catalog, d: Catalog, id: Id, codec: Codec)
    requires Sound(c, codec) && id in c.entries && RowStep(c, d, id)
    requires d.payloads == c.payloads && d.search == c.search && d.links == c.links
    requires d.entries[id] == c.entries[id].(revision := d.entries[id].revision, recency := d.entries[id].recency,
                                             favorite := d.entries[id].favorite)
    requires forall x | x in c.entries :: d.entries[x].echo == c.entries[x].echo
    ensures Sound(d, codec)
  {
    hide Distinct, Bounded, Acyclic;
    assert d.entries.Keys == c.entries.Keys;
    assert Faithful(c.entries[id], c.payloads[id], c.search[id], codec);
    FewerLinksStayAcyclic(c.entries, d.entries);
    RowStepKeepsSound(c, d, id, codec);
  }

  lemma PromotedIsSound(c: Catalog, id: Id, codec: Codec)
    requires Sound(c, codec) && id in c.entries && c.revision + 1 < MAX_REVISION
    ensures Sound(Promoted(Ticked(c), id), codec) && RowStep(c, Promoted(Ticked(c), id), id)
  {
    hide Sound;
    SoundFacts(c, codec);
    MetadataRowIsSound(c, Promoted(Ticked(c), id), id, codec);
  }

  lemma MovedIsSound(c: Catalog, id: Id, value: bool, codec: Codec)
    requires Sound(c, codec) && id in c.entries && c.revision + 1 < MAX_REVISION
    ensures var d := Moved(c.(revision := c.revision + 1), id, value); Sound(d, codec) && RowStep(c, d, id)
  {
    hide Sound;
    SoundFacts(c, codec);
    MetadataRowIsSound(c, Moved(c.(revision := c.revision + 1), id, value), id, codec);
  }

  /** Row `id` gets new content; the other rows keep theirs and none of them points at `id`. */
  ghost predicate ContentRow(c: Catalog, d: Catalog, id: Id, codec: Codec) {
    && Keyed(d) && RowStep(c, d, id)
    && (forall x | x in c.entries && x != id ::
          x in c.payloads && x in c.search && d.payloads[x] == c.payloads[x] && d.search[x] == c.search[x])
    && Faithful(d.entries[id], d.payloads[id], d.search[id], codec)
    && NoInbound(d.entries, id)
    && (d.entries[id].echo.Some? ==> d.entries[id].echo.value in c.entries)
  }

  lemma ContentRowIsSound(c: Catalog, d: Catalog, id: Id, codec: Codec)
    requires Sound(c, codec) && ContentRow(c, d, id, codec)
    ensures Sound(d, codec)
  {
    forall x | x in d.entries && x != id ensures d.entries[x].echo == None || d.entries[x].echo == c.entries[x].echo {
      assert SameRow(c.entries[x], d.entries[x]);
    }
    LinkFromUnreferencedRow(c.entries, d.entries, id);
    RowStepKeepsSound(c, d, id, codec);
  }

  /** What `write_content` does to a row whose child rows do not exist yet. */
  ghost predicate Written(m: Catalog, d: Catalog, codec: Codec, id: Id, mime: string, bytes: Bytes) {
    && id in m.entries && id in d.entries && id in d.search
    && d.entries.Keys == m.entries.Keys
    && (forall x | x in m.entries && x != id :: d.entries[x] == m.entries[x])
    && d.entries[id].(echo := m.entries[id].echo) == m.entries[id]
    && (d.entries[id].echo == m.entries[id].echo
        || (d.entries[id].echo.Some? && d.entries[id].echo.value in m.entries && d.entries[id].echo.value != id))
    && d.payloads == m.payloads[id := bytes]
    && d.search == m.search[id := IndexedRow(codec, mime, bytes)]
    && (forall l | l in d.links :: l in m.links || l.0 == id)
    && d.revision == m.revision && d.sequence == m.sequence && d.policy == m.policy && d.issued == m.issued
  }

  lemma WriteContentIsWritten(m: Catalog, codec: Codec, id: Id, mime: string, bytes: Bytes, view: ContentView)
    requires id in m.entries && id !in m.payloads && id !in m.search
    ensures Written(m, WriteContent(m, codec, id, mime, bytes, view), codec, id, mime, bytes)
  {
  }

  lemma WrittenKeepsKeyed(c: Catalog, m: Catalog, d: Catalog, codec: Codec, id: Id, mime: string, bytes: Bytes)
    requires Keyed(c) && Written(m, d, codec, id, mime, bytes) && m.entries.Keys == c.entries.Keys + {id}
    requires m.payloads == c.payloads - {id} && m.search == c.search - {id}
    requires forall l | l in m.links :: l in c.links
    requires m.entries[id].echo == None
    requires forall x | x in c.entries && x != id :: m.entries[x] == Unlink(c.entries[x], {id})
    ensures Keyed(d) && NoInbound(d.entries, id)
  {
    assert forall l | l in d.links :: l.0 in d.entries;
    forall x | x in d.entries && x != id
      ensures d.entries[x].echo != Some(id) && (d.entries[x].echo.Some? ==> d.entries[x].echo.value in d.entries)
    {
      assert d.entries[x] == Unlink(c.entries[x], {id}) && x in c.entries;
    }
  }

  lemma WrittenKeepsRowStep(c: Catalog, m: Catalog, d: Catalog, codec: Codec, id: Id, mime: string, bytes: Bytes)
    requires Written(m, d, codec, id, mime, bytes) && RowStep(c, m, id)
    ensures RowStep(c, d, id)
  {
    forall x | x in c.entries && x != id ensures SameRow(c.entries[x], d.entries[x]) {
      assert SameRow(c.entries[x], m.entries[x]);
    }
  }

  /** A row rewritten with no inbound link, then given its content. */
  lemma WrittenIsContentRow(c: Catalog, m: Catalog, d: Catalog, codec: Codec, id: Id, mime: string, bytes: Bytes)
    requires Keyed(c) && Written(m, d, codec, id, mime, bytes) && RowStep(c, m, id)
      && m.entries.Keys == c.entries.Keys + {id}
    requires m.payloads == c.payloads - {id} && m.search == c.search - {id}
    requires c.payloads.Keys == c.search.Keys == c.entries.Keys
    requires forall l | l in m.links :: l in c.links
    requires m.entries[id].echo == None
    requires forall x | x in c.entries && x != id :: m.entries[x] == Unlink(c.entries[x], {id})
    requires m.entries[id].byteSize == |bytes| <= MAX_ENTRY_BYTES
    requires m.entries[id].digest == codec.digest(bytes) && m.entries[id].mime == mime && |mime| <= MAX_MIME
    ensures ContentRow(c, d, id, codec)
  {
    hide Keyed, RowStep, NoInbound, Unlink;
    WrittenKeepsKeyed(c, m, d, codec, id, mime, bytes);
    WrittenKeepsRowStep(c, m, d, codec, id, mime, bytes);
    assert d.payloads[id] == bytes;
    forall x | x in c.entries && x != id
      ensures x in c.payloads && x in c.search && d.payloads[x] == c.payloads[x] && d.search[x] == c.search[x]
    {
      assert x in m.payloads && x in m.search;
    }
  }

  lemma NewRowStep(c: Catalog, m: Catalog, newId: Id, e: Entry)
    requires newId !in c.entries && c.revision + 1 < MAX_REVISION
    requires m == Ticked(c).(entries := c.entries[newId := e], issued := c.issued + {newId})
    requires e.revision == m.revision && e.recency == m.sequence
    ensures RowStep(c, m, newId)
  {
  }

  lemma AppendedRow(c: Catalog, codec: Codec, mime: string, bytes: Bytes, view: ContentView, newId: Id)
    requires Keyed(c) && c.entries.Keys <= c.issued && newId !in c.issued && c.revision + 1 < MAX_REVISION
    requires |mime| <= MAX_MIME && |bytes| <= MAX_ENTRY_BYTES
    ensures var d := Appended(Ticked(c), codec, mime, bytes, view, newId);
            ContentRow(c, d, newId, codec) && d.entries[newId].byteSize == |bytes| && !d.entries[newId].favorite
  {
    hide WriteContent, ContentRow, RowStep;
    var t := Ticked(c);
    var m := t.(entries := t.entries[newId := NewEntry(t, codec, mime, bytes, view)], issued := t.issued + {newId});
    var d := WriteContent(m, codec, newId, mime, bytes, view);
    NewRowStep(c, m, newId, NewEntry(t, codec, mime, bytes, view));
    assert m.payloads == c.payloads - {newId} && m.search == c.search - {newId};
    WriteContentIsWritten(m, codec, newId, mime, bytes, view);
    forall x | x in c.entries ensures m.entries[x] == Unlink(c.entries[x], {newId}) {}
    WrittenIsContentRow(c, m, d, codec, newId, mime, bytes);
  }

  /** The replaced row without its child rows: no other row points at it any more. */
  lemma RewrittenShape(c: Catalog, codec: Codec, id: Id, mime: string, bytes: Bytes, view: ContentView)
    requires Keyed(c) && id in c.entries && c.revision + 1 < MAX_REVISION
    ensures var m := Rewritten(c.(revision := c.revision + 1), codec, id, mime, bytes, view);
            && m.entries.Keys == c.entries.Keys && m.payloads == c.payloads - {id} && m.search == c.search - {id}
            && (forall l | l in m.links :: l in c.links) && m.policy == c.policy
            && m.entries[id].echo == None && m.entries[id].mime == mime && m.entries[id].byteSize == |bytes|
            && m.entries[id].digest == codec.digest(bytes) && m.entries[id].favorite == c.entries[id].favorite
            && (forall x | x in c.entries && x != id :: m.entries[x] == Unlink(c.entries[x], {id}))
  {
  }

  lemma RewrittenStep(c: Catalog, codec: Codec, id: Id, mime: string, bytes: Bytes, view: ContentView)
    requires Keyed(c) && id in c.entries && c.revision + 1 < MAX_REVISION
    ensures RowStep(c, Rewritten(c.(revision := c.revision + 1), codec, id, mime, bytes, view), id)
  {
    hide Keyed;
  }

  lemma WrittenKeepsRest(m: Catalog, d: Catalog, codec: Codec, id: Id, mime: string, bytes: Bytes)
    requires Written(m, d, codec, id, mime, bytes)
    ensures d.entries[id].byteSize == m.entries[id].byteSize && d.entries[id].favorite == m.entries[id].favorite
    ensures d.policy == m.policy
  {
  }

  lemma RewrittenRow(c: Catalog, codec: Codec, id: Id, mime: string, bytes: Bytes, view: ContentView)
    requires Keyed(c) && id in c.entries && c.revision + 1 < MAX_REVISION
    requires |mime| <= MAX_MIME && |bytes| <= MAX_ENTRY_BYTES
    ensures var d := Overwritten(c, codec, id, mime, bytes, view);
            && id in d.entries && ContentRow(c, d, id, codec) && d.entries[id].byteSize == |bytes|
            && d.entries[id].favorite == c.entries[id].favorite && d.policy == c.policy
  {
    hide Rewritten, WriteContent, Written, ContentRow, RowStep, Unlink, Keyed;
    var m := Rewritten(c.(revision := c.revision + 1), codec, id, mime, bytes, view);
    RewrittenShape(c, codec, id, mime, bytes, view);
    RewrittenStep(c, codec, id, mime, bytes, view);
    WriteContentIsWritten(m, codec, id, mime, bytes, view);
    var d := WriteContent(m, codec, id, mime, bytes, view);
    WrittenKeys(m, d, codec, id, mime, bytes);
    WrittenKeepsRest(m, d, codec, id, mime, bytes);
    KeyedTables(c);
    WrittenIsContentRow(c, m, d, codec, id, mime, bytes);
  }

  lemma KeyedTables(c: Catalog)
    requires Keyed(c)
    ensures c.payloads.Keys == c.search.Keys == c.entries.Keys
  {
  }

  lemma WrittenKeys(m: Catalog, d: Catalog, codec: Codec, id: Id, mime: string, bytes: Bytes)
    requires Written(m, d, codec, id, mime, bytes)
    ensures id in m.entries && id in d.entries
  {
  }

  // --------------------------------------------------- every mutation, every state

  lemma PromotedConcludes(c: Catalog, codec: Codec, id: Id)
    requires History(c, codec) && id in c.entries && c.revision + 1 < MAX_REVISION
    ensures var r := Conclude(Promoted(Ticked(c), id), id);
      r.Ok? && History(r.value.0, codec) && id in r.value.0.entries
  {
    hide Conclude, Retain, Sound, Retained, RowStep;
    PromotedIsSound(c, id, codec);
    CategoryHasRoom(c.entries, c.policy, id);
    ConcludeSucceeds(Promoted(Ticked(c), id), id, codec);
  }

  lemma AppendedConcludes(c: Catalog, codec: Codec, mime: string, bytes: Bytes, view: ContentView, newId: Id)
    requires History(c, codec) && newId !in c.issued && c.revision + 1 < MAX_REVISION
    requires |mime| <= MAX_MIME && AllowedPayload(c.policy, bytes) && 0 < c.policy.maxEntries && newId !in c.entries
    ensures newId !in c.payloads && newId !in c.search
    ensures var r := Conclude(Appended(Ticked(c), codec, mime, bytes, view, newId), newId);
            r.Ok? && History(r.value.0, codec) && newId in r.value.0.entries
  {
    hide Conclude, Retain, Sound, Retained, Appended;
    SoundFacts(c, codec);
    AppendedRow(c, codec, mime, bytes, view, newId);
    var d := Appended(Ticked(c), codec, mime, bytes, view, newId);
    ContentRowIsSound(c, d, newId, codec);
    assert HasRoom(d.entries[newId], d.policy);
    ConcludeSucceeds(d, newId, codec);
  }

  lemma RewrittenConcludes(c: Catalog, codec: Codec, id: Id, mime: string, bytes: Bytes, view: ContentView)
    requires History(c, codec) && id in c.entries && c.revision + 1 < MAX_REVISION
    requires |mime| <= MAX_MIME && AllowedPayload(c.policy, bytes)
    ensures var r := Conclude(Overwritten(c, codec, id, mime, bytes, view), id);
            r.Ok? && History(r.value.0, codec) && id in r.value.0.entries
  {
    hide Conclude, Retain, Sound, Retained, Overwritten, RowStep;
    SoundFacts(c, codec);
    var d := Overwritten(c, codec, id, mime, bytes, view);
    RewrittenRow(c, codec, id, mime, bytes, view);
    ContentRowIsSound(c, d, id, codec);
    CategoryHasRoom(c.entries, c.policy, id);
    assert HasRoom(d.entries[id], d.policy);
    ConcludeSucceeds(d, id, codec);
  }

  lemma MovedConcludes(c: Catalog, codec: Codec, id: Id, value: bool)
    requires History(c, codec) && id in c.entries && c.revision + 1 < MAX_REVISION
    requires 0 < (if value then c.policy.maxFavorites else c.policy.maxEntries)
    ensures var r := Retain(Moved(c.(revision := c.revision + 1), id, value), c.policy, Some(id));
            r.Ok? && History(r.value, codec) && id in r.value.entries
  {
    hide Conclude, Retain, Sound, Retained, RowStep;
    MovedIsSound(c, id, value, codec);
    CategoryHasRoom(c.entries, c.policy, id);
    RetainEstablishesLimits(Moved(c.(revision := c.revision + 1), id, value), c.policy, Some(id));
    ConcludeSucceeds(Moved(c.(revision := c.revision + 1), id, value), id, codec);
  }

  lemma InsertKeepsHistory(c: Catalog, codec: Codec, mime: string, bytes: Bytes, view: ContentView, newId: Id)
    requires History(c, codec) && newId !in c.issued && newId !in c.entries
    ensures var r := InsertBody(c, codec, mime, bytes, view, newId); r.Ok? ==> History(r.value.0, codec)
  {
    hide Conclude, Sound, Retained, Twins, Promoted, Appended, SummaryRow, Newest, Keyed, IsCurrent;
    SoundFacts(c, codec);
    var twins := Twins(c, codec, mime, bytes);
    if c.revision + 1 < MAX_REVISION && AllowedPayload(c.policy, bytes) {
      if twins != {} {
        PromotedConcludes(c, codec, Newest(c.entries, twins));
      } else if 0 < c.policy.maxEntries && |mime| <= MAX_MIME {
        AppendedConcludes(c, codec, mime, bytes, view, newId);
      }
    }
  }

  lemma ReplaceKeepsHistory(c: Catalog, codec: Codec, id: Id, expected: nat, mime: string, bytes: Bytes,
      view: ContentView)
    requires History(c, codec)
    ensures var r := ReplaceBody(c, codec, id, expected, mime, bytes, view); r.Ok? ==> History(r.value.0, codec)
  {
    hide Conclude, Sound, Retained, Overwritten, SummaryRow, Keyed;
    SoundFacts(c, codec);
    if id in c.entries && c.revision + 1 < MAX_REVISION && AllowedPayload(c.policy, bytes) && |mime| <= MAX_MIME {
      RewrittenConcludes(c, codec, id, mime, bytes, view);
    }
  }

  lemma FavoriteKeepsHistory(c: Catalog, codec: Codec, id: Id, expected: nat, value: bool)
    requires History(c, codec)
    ensures var r := FavoriteBody(c, id, expected, value); r.Ok? ==> History(r.value.0, codec)
  {
    hide Retain, Sound, Retained, SummaryRow, Moved;
    if id in c.entries && c.revision + 1 < MAX_REVISION
      && 0 < (if value then c.policy.maxFavorites else c.policy.maxEntries) {
      MovedConcludes(c, codec, id, value);
    }
  }

  lemma DeletionKeepsHistory(c: Catalog, codec: Codec, victims: set<Id>)
    requires History(c, codec) && c.revision + 1 < MAX_REVISION
    ensures History(Bump(DeleteEntries(c, victims)).value, codec)
  {
    DeletionKeepsSound(c, victims, codec);
    DropKeepsOrderKeys(c, victims);
    SubsetRetained(c.entries, DeleteEntries(c, victims).entries, c.policy);
    BumpKeepsSound(DeleteEntries(c, victims), codec);
  }

  lemma OtherPolicyIsSound(c: Catalog, codec: Codec, p: Policy)
    requires Sound(c, codec) && ValidPolicy(p)
    ensures Sound(c.(policy := p), codec)
  {
    assert forall id | id in c.entries :: Faithful(c.entries[id], c.payloads[id], c.search[id], codec);
  }

  lemma ApplyPolicyKeepsHistory(c: Catalog, codec: Codec, p: Policy)
    requires History(c, codec)
    ensures var r := ApplyPolicyBody(c, p); r.Ok? ==> History(r.value.0, codec)
  {
    hide Evict, Sound, Retained, SameOrderKeys;
    if ValidPolicy(p) {
      var m := c.(policy := p);
      OtherPolicyIsSound(c, codec, p);
      RetainEstablishesLimits(m, p, None);
      RetainKeepsSound(m, p, None, codec);
      var d := Retain(m, p, None).value;
      if Bump(d).Ok? { BumpKeepsSound(d, codec); }
    }
  }

  lemma RemoveManyKeepsHistory(c: Catalog, codec: Codec, targets: seq<Target>)
    requires History(c, codec)
    ensures var r := RemoveManyBody(c, targets); r.Ok? ==> History(r.value.0, codec)
  {
    hide History, DeleteEntries, Matching, Present;
    if c.revision + 1 < MAX_REVISION { DeletionKeepsHistory(c, codec, set t | t in targets :: t.id); }
    DeletionKeepsRevision(c, set t | t in targets :: t.id);
  }

  lemma WipeKeepsHistory(c: Catalog, codec: Codec)
    requires History(c, codec)
    ensures var r := WipeBody(c); r.Ok? ==> History(r.value.0, codec)
  {
    hide History, DeleteEntries;
    if c.revision + 1 < MAX_REVISION { DeletionKeepsHistory(c, codec, c.entries.Keys); }
    DeletionKeepsRevision(c, c.entries.Keys);
  }

  lemma DeletionKeepsRevision(c: Catalog, victims: set<Id>)
    ensures DeleteEntries(c, victims).revision == c.revision
  {}

  lemma MetadataKeepsHistory(c: Catalog, d: Catalog, codec: Codec)
    requires History(c, codec)
    requires d == c.(artifacts := d.artifacts, policy := c.policy.(admission := d.policy.admission))
    ensures History(d, codec)
  {
    hide Acyclic, Distinct, Faithful;
    assert forall id | id in c.entries :: Faithful(c.entries[id], c.payloads[id], c.search[id], codec);
  }

  lemma MetadataBodyKeepsHistory(c: Catalog, codec: Codec, m: Mutation)
    requires History(c, codec) && Keyed(c) && (m.RegisterArtifact? || m.ForgetArtifact? || m.CloseAdmission?)
    ensures var r := Body(c, codec, m); r.Ok? ==> History(r.value.0, codec)
  {
    hide History, Keyed, ArtifactAccepted;
    MetadataKeepsHistory(c, Step(c, codec, m), codec);
  }

  /**
    Every transaction body keeps the tables well formed, the echo graph acyclic and
    the history within its retention limits, whatever the policy and the digest.
    */
  lemma BodyKeepsHistory(c: Catalog, codec: Codec, m: Mutation)
    requires History(c, codec) && (m.Insert? ==> m.newId !in c.issued)
    ensures var r := Body(c, codec, m); r.Ok? ==> History(r.value.0, codec)
  {
    hide Sound, Retained, InsertBody, ReplaceBody, FavoriteBody, RemoveManyBody, WipeBody, ApplyPolicyBody,
         RegisterArtifactBody;
    SoundFacts(c, codec);
    match m
    case Insert(mime, bytes, view, newId) => InsertKeepsHistory(c, codec, mime, bytes, view, newId);
    case Replace(id, expected, mime, bytes, view) => ReplaceKeepsHistory(c, codec, id, expected, mime, bytes, view);
    case Favorite(id, expected, value) => FavoriteKeepsHistory(c, codec, id, expected, value);
    case RemoveMany(targets) => RemoveManyKeepsHistory(c, codec, targets);
    case Wipe => WipeKeepsHistory(c, codec);
    case ApplyPolicy(p) => ApplyPolicyKeepsHistory(c, codec, p);
    case _ => MetadataBodyKeepsHistory(c, codec, m);
  }
}
