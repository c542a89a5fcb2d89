/**
  Edit leases: a client is shown the full text of one entry revision, and may
  later overwrite exactly that text, once.
  */
module EditLeases {
  import opened Wrappers
  import opened Tables
  import opened Mutations
  import opened Runs
  import opened Outcomes

  const MAX_EDIT_BYTES: nat := 256 * 1024
  const LEASE_SECONDS: nat := 60

  datatype EditError = NotEditable | UnknownLease | Expired | TooLarge | StaleEntry | Backend(error: Error)

  datatype Lease = Lease(owner: Option<string>, entry: Id, revision: nat, mime: string, expires: nat)

  // ----------------------------------------------------------- what is shown

  /** A bounded decode of the payload: `text` only if the prefix is valid UTF-8. */
  datatype Details = Details(entry: EntrySummary, text: Option<Bytes>, truncated: bool)

  function LoadDetails(c: Catalog, utf8: Bytes -> bool, id: Id, revision: Option<nat>): Result<Details, EditError>
    requires Keyed(c)
  {
    if id !in c.entries then Err(Backend(NotFound))
    else if revision.Some? && revision.value != c.entries[id].revision then Err(StaleEntry)
    else
      var bytes := c.payloads[id];
      var prefix := if |bytes| > MAX_EDIT_BYTES then bytes[..MAX_EDIT_BYTES] else bytes;
      Ok(Details(SummaryRow(c.entries, id), if utf8(prefix) then Some(prefix) else None, |bytes| > MAX_EDIT_BYTES))
  }

  function EditableValue(d: Details): Result<Bytes, EditError> {
    if d.entry.kind !in {Text, Link, Html, Json, Color} || d.truncated then Err(NotEditable)
    else if d.text.None? then Err(NotEditable)
    else if |d.text.value| > MAX_EDIT_BYTES then Err(NotEditable)
    else Ok(d.text.value)
  }

  datatype Shown = Shown(lease: Lease, value: Bytes)

  /** begin_edit against one state of the store. */
  function Show(c: Catalog, utf8: Bytes -> bool, id: Id, revision: Option<nat>, owner: Option<string>, now: nat)
    : Result<Shown, EditError>
    requires Keyed(c)
  {
    match LoadDetails(c, utf8, id, revision)
    case Err(e) => Err(e)
    case Ok(d) => match EditableValue(d)
      case Err(e) => Err(e)
      case Ok(value) => Ok(Shown(Lease(owner, d.entry.id, d.entry.revision, d.entry.mime, now + LEASE_SECONDS), value))
  }

  /** What is shown is the whole payload of the leased revision, never a prefix of it. */
  lemma ShownIsWholePayload(c: Catalog, utf8: Bytes -> bool, id: Id, revision: Option<nat>, owner: Option<string>,
      now: nat)
    requires Keyed(c) && Show(c, utf8, id, revision, owner, now).Ok?
    ensures var s := Show(c, utf8, id, revision, owner, now).value;
            && s.lease.entry == id && id in c.entries && s.lease.revision == c.entries[id].revision
            && s.value == c.payloads[id] && |s.value| <= MAX_EDIT_BYTES
            && s.lease.owner == owner && s.lease.mime == c.entries[id].resolvedMime && s.lease.expires == now + 60
            && (revision.Some? ==> revision.value == s.lease.revision)
  {
    hide Keyed;
  }

  /** An edit begins exactly for the revision asked for, of a kind of text whose whole payload is short valid text. */
  lemma EditBeginsIff(c: Catalog, utf8: Bytes -> bool, id: Id, revision: Option<nat>, owner: Option<string>, now: nat)
    requires Keyed(c)
    ensures Show(c, utf8, id, revision, owner, now).Ok? <==>
      && id in c.entries && (revision == None || revision == Some(c.entries[id].revision))
      && c.entries[id].kind != Image && c.entries[id].kind != Files && c.entries[id].kind != Binary
      && |c.payloads[id]| <= 262144 && utf8(c.payloads[id])
  {
    hide Keyed;
  }

  // ------------------------------------------------------------- the commit

  /** What EditLease::replace checks ahead of the store: the lease's time, the length, and a look at the revision. */
  function Refusal(lease: Lease, value: Bytes, maxEntryBytes: nat, now: nat, seen: Catalog): Option<EditError> {
    if lease.expires <= now then Some(Expired)
    else if |value| > MAX_EDIT_BYTES || |value| > maxEntryBytes then Some(TooLarge)
    else if lease.entry !in seen.entries then Some(Backend(NotFound))
    else if seen.entries[lease.entry].revision != lease.revision then Some(StaleEntry)
    else None
  }

  /** EditLease::replace: these checks, then the store's own replace. */
  function ReplaceThrough(lease: Lease, value: Bytes, maxEntryBytes: nat, now: nat, seen: Catalog, c: Catalog,
      codec: Codec, view: ContentView): Result<Catalog, EditError>
    requires Keyed(c)
  {
    match Refusal(lease, value, maxEntryBytes, now, seen)
    case Some(e) => Err(e)
    case None => match ReplaceBody(c, codec, lease.entry, lease.revision, lease.mime, value, view)
      case Err(e) => Err(Backend(e))
      case Ok((d, _)) => Ok(d)
  }

  /** Exactly when a commit succeeds: in time, within the limits, and nobody changed or removed the entry. */
  lemma CommitSucceedsIff(lease: Lease, value: Bytes, maxEntryBytes: nat, now: nat, seen: Catalog, c: Catalog,
      codec: Codec, view: ContentView)
    requires History(c, codec) && Keyed(c)
    ensures ReplaceThrough(lease, value, maxEntryBytes, now, seen, c, codec, view).Ok? <==>
      && now < lease.expires && |value| <= 262144 && |value| <= maxEntryBytes
      && lease.entry in seen.entries && seen.entries[lease.entry].revision == lease.revision
      && lease.entry in c.entries && c.entries[lease.entry].revision == lease.revision
      && |value| <= c.policy.maxEntryBytes && |value| <= c.policy.maxTotalBytes
      && c.revision + 1 < 9007199254740991 && |lease.mime| <= 255 && |view.mime| <= 255
  {
    hide ReplaceBody, History, Keyed, Replaced;
    ReplaceOutcome(c, codec, lease.entry, lease.revision, lease.mime, value, view);
  }

  /**
    No lost update. Whatever happened between showing and committing, a commit that
    succeeds overwrites exactly the full bytes that were shown, in the same place and
    category, and leaves the new text behind.
    */
  lemma CommitOverwritesWhatWasShown(states: seq<Catalog>, ops: seq<Mutation>, codec: Codec, utf8: Bytes -> bool,
      i: nat, look: nat, j: nat, id: Id, asked: Option<nat>, owner: Option<string>, shownAt: nat, value: Bytes,
      maxEntryBytes: nat, now: nat, view: ContentView)
    requires Run(states, ops, codec) && i <= look <= j < |states|
    requires Keyed(states[i]) && Keyed(states[j])
    requires Show(states[i], utf8, id, asked, owner, shownAt).Ok?
    requires var lease := Show(states[i], utf8, id, asked, owner, shownAt).value.lease;
             ReplaceThrough(lease, value, maxEntryBytes, now, states[look], states[j], codec, view).Ok?
    ensures var shown := Show(states[i], utf8, id, asked, owner, shownAt).value;
            var d := ReplaceThrough(shown.lease, value, maxEntryBytes, now, states[look], states[j], codec, view).value;
            && id in states[i].entries && id in states[j].entries
            && states[j].payloads[id] == shown.value == states[i].payloads[id]
            && SameVersion(states[i], states[j], id)
            && Replaced(states[j], d, id, shown.lease.mime, value)
            && now < shownAt + LEASE_SECONDS
  {
    hide Run, ReplaceBody, Keyed, Replaced, Show;
    ShownIsWholePayload(states[i], utf8, id, asked, owner, shownAt);
    ShownLease(states[i], utf8, id, asked, owner, shownAt);
    RunKeepsHistory(states, ops, codec, j);
    var lease := Show(states[i], utf8, id, asked, owner, shownAt).value.lease;
    ReplaceOutcome(states[j], codec, id, lease.revision, lease.mime, value, view);
    VersionIdentifiesContent(states, ops, codec, i, j, id);
  }

  lemma ShownLease(c: Catalog, utf8: Bytes -> bool, id: Id, revision: Option<nat>, owner: Option<string>, now: nat)
    requires Keyed(c) && Show(c, utf8, id, revision, owner, now).Ok?
    ensures Show(c, utf8, id, revision, owner, now).value.lease.expires == now + LEASE_SECONDS
  {
  }

  // ------------------------------------------------------------ the lease map

  type LeaseId = nat

  datatype LeaseEvent =
    | Open(id: LeaseId, lease: Lease)
    | Take(id: LeaseId, owner: Option<string>)
    | Cancel(id: LeaseId, owner: Option<string>)
    | Purge(now: nat)
    | Release(client: string)
    | Clear

  predicate Owns(edits: map<LeaseId, Lease>, id: LeaseId, owner: Option<string>) {
    id in edits && edits[id].owner == owner
  }

  function After(edits: map<LeaseId, Lease>, e: LeaseEvent): map<LeaseId, Lease> {
    match e
    case Open(id, lease) => edits[id := lease]
    case Take(id, owner) => if Owns(edits, id, owner) then edits - {id} else edits
    case Cancel(id, owner) => if Owns(edits, id, owner) then edits - {id} else edits
    case Purge(now) => map id | id in edits && edits[id].expires > now :: edits[id]
    case Release(owner) => map id | id in edits && edits[id].owner != Some(owner) :: edits[id]
    case Clear => map[]
  }

  class LeaseBook {
    var edits: map<LeaseId, Lease>

    constructor ()
      ensures edits == map[]
    {
      edits := map[];
    }

    method Begin(id: LeaseId, lease: Lease)
      modifies this
      ensures edits == After(old(edits), Open(id, lease))
    {
      edits := edits[id := lease];
    }

    /** Removal happens before the lease is used, so a lease leads to at most one replace. */
    method TakeForCommit(id: LeaseId, owner: Option<string>) returns (r: Result<Lease, EditError>)
      modifies this
      ensures edits == After(old(edits), Take(id, owner))
      ensures r == if Owns(old(edits), id, owner) then Ok(old(edits)[id]) else Err(UnknownLease)
      ensures r.Ok? ==> id !in edits
    {
      if id in edits && edits[id].owner == owner {
        r := Ok(edits[id]);
        edits := edits - {id};
      } else {
        r := Err(UnknownLease);
      }
    }

    method CancelEdit(id: LeaseId, owner: Option<string>) returns (cancelled: bool)
      modifies this
      ensures edits == After(old(edits), Cancel(id, owner)) && cancelled == Owns(old(edits), id, owner)
    {
      cancelled := id in edits && edits[id].owner == owner;
      if cancelled { edits := edits - {id}; }
    }

    method PurgeExpired(now: nat)
      modifies this
      ensures edits == After(old(edits), Purge(now))
    {
      edits := map id | id in edits && edits[id].expires > now :: edits[id];
    }

    /** A lease-changing request: the lapsed leases go first, so a commit is only ever handed a live one. */
    method Dispatch(request: LeaseEvent, now: nat) returns (taken: Result<Option<Lease>, EditError>, cancelled: bool)
      requires request.Open? || request.Take? || request.Cancel?
      modifies this
      ensures edits == After(After(old(edits), Purge(now)), request)
      ensures taken.Ok? && request.Take? ==>
        && Owns(old(edits), request.id, request.owner) && taken.value == Some(old(edits)[request.id])
        && now < old(edits)[request.id].expires && request.id !in edits
      ensures taken == Err(UnknownLease) <==>
        request.Take? && !(Owns(old(edits), request.id, request.owner) && now < old(edits)[request.id].expires)
      ensures cancelled <==>
        request.Cancel? && Owns(old(edits), request.id, request.owner) && now < old(edits)[request.id].expires
    {
      PurgeExpired(now);
      taken, cancelled := Ok(None), false;
      match request
      case Open(id, lease) => Begin(id, lease);
      case Take(id, owner) =>
        var lease := TakeForCommit(id, owner);
        taken := if lease.Ok? then Ok(Some(lease.value)) else Err(lease.error);
      case Cancel(id, owner) => cancelled := CancelEdit(id, owner);
    }

    /** A wipe takes every lease. */
    method ClearAll()
      modifies this
      ensures edits == After(old(edits), Clear) && edits == map[]
    {
      edits := map[];
    }

    /** Every lease of the owner goes; those of its peers, and those without an owner, stay as they are. */
    method ReleaseOwner(owner: string)
      modifies this
      ensures edits == After(old(edits), Release(owner))
      ensures forall id :: !Owns(edits, id, Some(owner))
      ensures forall id, other | other != Some(owner) && Owns(old(edits), id, other) ::
        Owns(edits, id, other) && edits[id] == old(edits)[id]
    {
      edits := map id | id in edits && edits[id].owner != Some(owner) :: edits[id];
    }
  }

  /** Lease identifiers are fresh UUIDs: none is opened twice. */
  ghost predicate LeaseRun(books: seq<map<LeaseId, Lease>>, events: seq<LeaseEvent>) {
    && |books| == |events| + 1
    && (forall k | 0 <= k < |events| :: books[k + 1] == After(books[k], events[k]))
    && forall i, j | 0 <= i < j < |events| && events[i].Open? && events[j].Open? :: events[i].id != events[j].id
  }

  lemma {:induction false} GoneStaysGone(books: seq<map<LeaseId, Lease>>, events: seq<LeaseEvent>, opening: nat, i: nat,
      j: nat, id: LeaseId)
    requires LeaseRun(books, events) && opening < i <= j < |books|
    requires events[opening].Open? && events[opening].id == id && id !in books[i]
    ensures id !in books[j]
  {
    if i < j { GoneStaysGone(books, events, opening, i, j - 1, id); }
  }

  /** Each lease is handed to at most one commit, and to none once it was cancelled, released or purged. */
  lemma LeaseIsUsedOnce(books: seq<map<LeaseId, Lease>>, events: seq<LeaseEvent>, opening: nat, i: nat, j: nat,
      id: LeaseId)
    requires LeaseRun(books, events) && opening < i < j < |events|
    requires events[opening].Open? && events[opening].id == id
    requires (events[i].Take? && events[i].id == id && Owns(books[i], id, events[i].owner)) || id !in books[i + 1]
    ensures events[j].Take? && events[j].id == id ==> !Owns(books[j], id, events[j].owner)
  {
    assert books[i + 1] == After(books[i], events[i]);
    GoneStaysGone(books, events, opening, i + 1, j, id);
  }
}
