/**
  The relational tables of the history store, and the statements that act on a
  whole table: the cascading row deletion, the `revision`/`sequence` counters of
  `store_meta`, and the metadata projection of one row.
  */
module Tables {
  import opened Wrappers

  // Identifiers are compared by the `id` tie-breaker of every ORDER BY, so they
  // are numbers; Option<Id> stands for the empty "nothing is protected" string.
  type Id = nat
  newtype byte = x: int | 0 <= x < 256
  type Bytes = seq<byte>
  type Path = string
  type Digest = nat

  const MAX_REVISION: nat := 9_007_199_254_740_991
  const MAX_ENTRY_BYTES: nat := 64 * 1024 * 1024
  const MAX_MIME: nat := 255
  const INDEXED_BYTES: nat := 64 * 1024

  datatype Error = Unavailable | NotFound | Stale | InvalidData | OperationFailed

  datatype Kind = Text | Link | Image | Files | Html | Json | Color | Binary

  datatype Policy = Policy(
    admission: bool, maxEntries: nat, maxFavorites: nat, maxEntryBytes: nat, maxTotalBytes: nat)

  datatype Entry = Entry(
    revision: nat, favorite: bool, recency: nat, mime: string, resolvedMime: string,
    echo: Option<Id>, byteSize: nat, digest: Digest, preview: string, kind: Kind)

  /** `search_content`: an oversized document keeps its content but indexes nothing. */
  datatype SearchRow = SearchRow(content: string, indexed: string, complete: bool)

  /** What is computed from content: its digest, searchable text, the width of a text and the paths it names. */
  datatype Codec = Codec(
    digest: Bytes -> Digest,
    text: (string, Bytes) -> string,
    width: string -> nat,
    paths: Bytes -> set<Path>)

  /** The search row of a payload: an oversized text is kept but not indexed. */
  function IndexedRow(codec: Codec, mime: string, payload: Bytes): SearchRow {
    var text := codec.text(mime, payload);
    var complete := codec.width(text) <= INDEXED_BYTES;
    SearchRow(text, if complete then text else "", complete)
  }

  datatype Artifact = Artifact(source: Id, identity: string, createdAt: nat, device: nat, inode: nat, owner: nat)

  datatype Catalog = Catalog(
    entries: map<Id, Entry>,
    payloads: map<Id, Bytes>,
    search: map<Id, SearchRow>,
    links: set<(Id, Path)>,
    artifacts: map<Path, Artifact>,
    policy: Policy,
    revision: nat,
    sequence: nat,
    issued: set<Id>)  // every identifier a fresh UUID was ever drawn as

  datatype EntrySummary = EntrySummary(
    id: Id, revision: nat, kind: Kind, mime: string, byteSize: nat, favorite: bool, preview: string, current: bool)

  /** The freshly created schema. */
  const EMPTY_CATALOG: Catalog :=
    Catalog(map[], map[], map[], {}, map[], Policy(false, 1000, 100, 16777216, 268435456), 0, 0, {})

  // ---------------------------------------------------------------- statements

  /** DELETE FROM entries: child rows CASCADE, echo references SET NULL. */
  function DeleteEntries(c: Catalog, victims: set<Id>): Catalog {
    c.(entries := map id | id in c.entries && id !in victims :: Unlink(c.entries[id], victims),
       payloads := c.payloads - victims,
       search := c.search - victims,
       links := set l | l in c.links && l.0 !in victims)
  }

  function Unlink(e: Entry, victims: set<Id>): Entry {
    if e.echo.Some? && e.echo.value in victims then e.(echo := None) else e
  }

  /** UPDATE store_meta SET revision=revision+1, under its CHECK constraint. */
  function Bump(c: Catalog): Result<Catalog, Error> {
    if c.revision + 1 < MAX_REVISION then Ok(c.(revision := c.revision + 1)) else Err(OperationFailed)
  }

  predicate IsCurrent(es: map<Id, Entry>, id: Id)
    requires id in es
  {
    forall x | x in es :: es[x].recency <= es[id].recency
  }

  function SummaryRow(es: map<Id, Entry>, id: Id): EntrySummary
    requires id in es
  {
    var e := es[id];
    EntrySummary(id, e.revision, e.kind, e.resolvedMime, e.byteSize, e.favorite, e.preview, IsCurrent(es, id))
  }

  function Summary(c: Catalog, id: Id, expected: Option<nat>): Result<EntrySummary, Error> {
    if id !in c.entries then Err(NotFound)
    else if expected.Some? && expected.value != c.entries[id].revision then Err(Stale)
    else Ok(SummaryRow(c.entries, id))
  }

  // ---------------------------------------------------------- well-formedness

  predicate ValidPolicy(p: Policy) {
    p.maxEntries <= 100_000 && p.maxFavorites <= 10_000 && 0 < p.maxEntryBytes <= MAX_ENTRY_BYTES && 0 < p.maxTotalBytes
  }

  /** Every entry owns exactly one payload row and one search row; no reference dangles. */
  ghost predicate Keyed(c: Catalog) {
    && c.payloads.Keys == c.entries.Keys
    && c.search.Keys == c.entries.Keys
    && (forall l | l in c.links :: l.0 in c.entries)
    && (forall id | id in c.entries :: c.entries[id].echo.Some? ==> c.entries[id].echo.value in c.entries)
  }

  ghost predicate Faithful(e: Entry, payload: Bytes, row: SearchRow, codec: Codec) {
    && e.byteSize == |payload| <= MAX_ENTRY_BYTES
    && e.digest == codec.digest(payload)
    && |e.mime| <= MAX_MIME
    && row == IndexedRow(codec, e.mime, payload)
  }

  ghost predicate Contents(c: Catalog, codec: Codec)
    requires Keyed(c)
  {
    forall id | id in c.entries :: Faithful(c.entries[id], c.payloads[id], c.search[id], codec)
  }

  ghost predicate Bounded(c: Catalog) {
    && c.sequence <= c.revision < MAX_REVISION
    && c.entries.Keys <= c.issued
    && forall id | id in c.entries ::
         0 < c.entries[id].revision <= c.revision && 0 < c.entries[id].recency <= c.sequence
  }

  ghost predicate Distinct(es: map<Id, Entry>) {
    forall x, y | x in es && y in es && x != y ::
      es[x].revision != es[y].revision && es[x].recency != es[y].recency
  }

  /** `d` is `c` without the rows `victims`: what a row deletion does, seen from the survivors. */
  ghost predicate Without(c: Catalog, d: Catalog, victims: set<Id>) {
    && d.entries.Keys == c.entries.Keys - victims
    && d.payloads == c.payloads - victims
    && d.search == c.search - victims
    && (forall l :: l in d.links <==> l in c.links && l.0 !in victims)
    && (forall id | id in d.entries :: d.entries[id] == Unlink(c.entries[id], victims))
    && d.revision == c.revision && d.sequence == c.sequence && d.issued == c.issued
    && d.policy == c.policy && d.artifacts == c.artifacts
  }

  lemma DeleteIsWithout(c: Catalog, victims: set<Id>)
    ensures Without(c, DeleteEntries(c, victims), victims)
  {
  }

  lemma DeleteKeepsContents(c: Catalog, d: Catalog, victims: set<Id>, codec: Codec)
    requires Keyed(c) && Contents(c, codec) && Without(c, d, victims)
    ensures Keyed(d) && Contents(d, codec)
  {
    forall id | id in d.entries ensures d.entries[id].echo.Some? ==> d.entries[id].echo.value in d.entries {
      assert d.entries[id] == Unlink(c.entries[id], victims);
      assert id in c.entries;
    }
    forall id | id in d.entries ensures Faithful(d.entries[id], d.payloads[id], d.search[id], codec) {
      assert Faithful(c.entries[id], c.payloads[id], c.search[id], codec);
    }
  }

  lemma DeleteKeepsNumbers(c: Catalog, d: Catalog, victims: set<Id>)
    requires Bounded(c) && Distinct(c.entries) && Without(c, d, victims)
    ensures Bounded(d) && Distinct(d.entries)
  {
    forall id | id in d.entries
      ensures 0 < d.entries[id].revision <= d.revision && 0 < d.entries[id].recency <= d.sequence
    {
      assert d.entries[id] == Unlink(c.entries[id], victims) && id in c.entries;
    }
    forall x, y | x in d.entries && y in d.entries && x != y
      ensures d.entries[x].revision != d.entries[y].revision && d.entries[x].recency != d.entries[y].recency
    {
      assert d.entries[x] == Unlink(c.entries[x], victims) && d.entries[y] == Unlink(c.entries[y], victims);
      assert x in c.entries && y in c.entries;
    }
  }

  lemma DeleteNothing(c: Catalog)
    ensures DeleteEntries(c, {}) == c
  {
    assert (map id | id in c.entries && id !in {} :: Unlink(c.entries[id], {})) == c.entries;
    assert (set l | l in c.links && l.0 !in {}) == c.links;
    assert c.payloads - {} == c.payloads && c.search - {} == c.search;
  }

  /** A non-empty history has exactly one newest entry, the one every page flags as current. */
  lemma OneCurrentEntry(es: map<Id, Entry>)
    requires Distinct(es) && es != map[]
    ensures exists id :: id in es && IsCurrent(es, id) && forall x | x in es :: IsCurrent(es, x) ==> x == id
  {
    var id := NewestOf(es, es.Keys);
    forall x | x in es && IsCurrent(es, x) ensures x == id {
      assert es[id].recency <= es[x].recency <= es[id].recency;
    }
  }

  lemma NewestOf(es: map<Id, Entry>, ids: set<Id>) returns (id: Id)
    requires ids <= es.Keys && ids != {}
    ensures id in ids && forall x | x in ids :: es[x].recency <= es[id].recency
  {
    id :| id in ids;
    var rest := ids - {id};
    if rest != {} {
      var best := NewestOf(es, rest);
      if es[id].recency < es[best].recency { id := best; }
    }
    assert forall x | x in ids :: x == id || x in rest || es[x].recency <= es[id].recency;
  }
}
