/**
  The storage owner's connection: one transaction at a time over the durable
  tables, fenced for good once the outcome of a commit or rollback is unknown.
  */
module Database {
  import opened Wrappers
  import opened Tables
  import opened Retention
  import opened Mutations

  /** COMMIT may fail before or after the write became durable. */
  datatype CommitOutcome = Acknowledged | DurableUnacknowledged | Lost

  /** What the engine and the file system answer during one transaction. */
  datatype Engine = Engine(begins: bool, commit: CommitOutcome, sidecarsProtected: bool, rollsBack: bool)

  datatype Outcome = Outcome(disk: Catalog, blocked: bool, reply: Result<Reply, Error>)

  /** BEGIN IMMEDIATE, the body, then COMMIT and sidecar protection, or ROLLBACK. */
  function Transact(disk: Catalog, body: Committed, engine: Engine): Outcome {
    if !engine.begins then Outcome(disk, false, Err(OperationFailed))
    else match body
      case Ok((d, v)) =>
        if engine.commit == Lost then Outcome(disk, true, Err(Unavailable))
        else if engine.commit == DurableUnacknowledged || !engine.sidecarsProtected
        then Outcome(d, true, Err(Unavailable))
        else Outcome(d, false, Ok(v))
      case Err(e) => if engine.rollsBack then Outcome(disk, false, Err(e)) else Outcome(disk, true, Err(Unavailable))
  }

  /** The argument checks that precede any transaction. */
  function Precheck(m: Mutation): Option<Result<Reply, Error>> {
    match m
    case ApplyPolicy(p) => if ValidPolicy(p) then None else Some(Err(InvalidData))
    case RegisterArtifact(path, record) => if ArtifactAccepted(path, record) then None else Some(Err(InvalidData))
    case RemoveMany(targets) => if targets == [] then Some(Ok(Done)) else None
    case _ => None
  }

  /** One queued call on the storage owner. */
  function Call(disk: Catalog, blocked: bool, codec: Codec, m: Mutation, engine: Engine): Outcome
    requires Keyed(disk) && (m.Insert? ==> m.newId !in disk.entries)
  {
    if blocked then Outcome(disk, true, Err(Unavailable))
    else if Precheck(m).Some? then Outcome(disk, false, Precheck(m).value)
    else Transact(disk, Body(disk, codec, m), engine)
  }

  /** A statement that failed, or the reply of the closure that ran to its end. */
  function Closed(r: Result<Reply, Error>, tables: Catalog): Committed {
    match r case Ok(v) => Ok((tables, v)) case Err(e) => Err(e)
  }

  predicate Joins(c: Catalog, t: Target, matching: bool) { if matching then Matching(c, t) else Present(c, t) }

  /** How many targets join an entry, by identifier and revision or by identifier alone. */
  function JoinedCount(c: Catalog, targets: seq<Target>, matching: bool): nat {
    if targets == [] then 0
    else
      JoinedCount(c, targets[..|targets| - 1], matching) + if Joins(c, targets[|targets| - 1], matching) then 1 else 0
  }

  /** The count reaches the number of targets exactly when every single target joins. */
  lemma {:induction false} JoinedCountIsAll(c: Catalog, targets: seq<Target>, matching: bool)
    ensures JoinedCount(c, targets, matching) <= |targets|
    ensures JoinedCount(c, targets, matching) == |targets| <==> forall t | t in targets :: Joins(c, t, matching)
  {
    hide Joins;
    if targets != [] {
      var init, t := targets[..|targets| - 1], targets[|targets| - 1];
      JoinedCountIsAll(c, init, matching);
      assert forall x :: x in targets <==> x in init || x == t by { assert targets == init + [t]; }
    }
  }

  class Connection {
    const codec: Codec
    var disk: Catalog    // what a restart would recover
    var tables: Catalog  // the view of the open transaction
    var blocked: bool

    ghost predicate Valid()
      reads this
    {
      History(disk, codec)
    }

    constructor (codec: Codec)
      ensures Valid() && this.codec == codec && disk == EMPTY_CATALOG && !blocked
    {
      this.codec := codec;
      disk := EMPTY_CATALOG;
      tables := EMPTY_CATALOG;
      blocked := false;
      new;
      assert EchoGraph.Ranked(EMPTY_CATALOG.entries, map[]);
      assert Category(EMPTY_CATALOG.entries, false) == {} == Category(EMPTY_CATALOG.entries, true);
    }

    /** COMMIT of `tables` after a successful closure, ROLLBACK after a failed one. */
    method Finish(r: Result<Reply, Error>, engine: Engine) returns (reply: Result<Reply, Error>)
      requires engine.begins
      modifies this`disk, this`blocked
      ensures (disk, blocked, reply) ==
              var o := Transact(old(disk), Closed(r, tables), engine);
              (o.disk, if o.blocked then true else old(blocked), o.reply)
    {
      match r {
        case Ok(v) =>
          if engine.commit != Lost { disk := tables; }
          if engine.commit != Acknowledged || !engine.sidecarsProtected {
            blocked := true;
            return Err(Unavailable);
          }
          reply := Ok(v);
        case Err(e) =>
          if !engine.rollsBack {
            blocked := true;
            return Err(Unavailable);
          }
          reply := Err(e);
      }
    }

    // ------------------------------------------------------ transaction closures

    method RetainRows(policy: Policy, prot: Option<Id>) returns (r: Result<(), Error>)
      modifies this`tables
      ensures tables == Evict(old(tables), policy, prot)
      ensures r.Ok? <==> prot.None? || prot.value in tables.entries
      ensures r.Err? ==> r.error == NotFound
    {
      tables := DeleteEntries(tables, Oversized(tables.entries, prot, policy.maxEntryBytes));
      ghost var entry := tables;
      ghost var regular := DropOverflow(entry, prot, false, policy.maxEntries);
      var limits := [(false, policy.maxEntries), (true, policy.maxFavorites)];
      for i := 0 to 2
        invariant limits == [(false, policy.maxEntries), (true, policy.maxFavorites)]
        invariant i == 0 ==> tables == entry
        invariant i == 1 ==> tables == regular
        invariant i == 2 ==> tables == DropOverflow(regular, prot, true, policy.maxFavorites)
      {
        var (favorite, limit) := limits[i];
        tables := DropOverflow(tables, prot, favorite, limit);
      }
      tables := DeleteEntries(tables, OverBudget(tables.entries, prot, policy.maxTotalBytes));
      if prot.Some? && prot.value !in tables.entries { return Err(NotFound); }
      r := Ok(());
    }

    /** Eviction around the mutated row, then its summary. */
    method RetainAndSummarize(policy: Policy, id: Id) returns (r: Result<Reply, Error>)
      requires policy == tables.policy
      modifies this`tables
      ensures Closed(r, tables) == Conclude(old(tables), id)
    {
      hide Evict, IsCurrent;
      var kept := RetainRows(policy, Some(id));
      if kept.Err? { return Err(kept.error); }
      r := Ok(Row(SummaryRow(tables.entries, id)));
    }

    method WriteRow(id: Id, mime: string, bytes: Bytes, view: ContentView)
      requires id in tables.entries && id !in tables.payloads && id !in tables.search
      modifies this`tables
      ensures tables == WriteContent(old(tables), codec, id, mime, bytes, view) && tables.policy == old(tables.policy)
      ensures id in tables.payloads && tables.payloads[id] == bytes && id in tables.search
      ensures var text, row := codec.text(mime, bytes), tables.search[id];
        row.content == text && row.complete == (codec.width(text) <= 65536)
        && row.indexed == if row.complete then text else ""
      ensures forall p :: p in codec.paths(bytes) ==> (id, p) in tables.links
    {
      tables := tables.(payloads := tables.payloads[id := bytes]);
      var content := codec.text(mime, bytes);
      var complete := codec.width(content) <= INDEXED_BYTES;
      var indexed := if complete then content else "";
      tables := tables.(search := tables.search[id := SearchRow(content, indexed, complete)]);
      tables := tables.(links := tables.links + set p | p in codec.paths(bytes) :: (id, p));
      var source := EchoSource(tables, id, view);
      if source.Some? {
        tables := tables.(entries := tables.entries[id := tables.entries[id].(echo := source)]);
      }
    }

    /** The five statements of `replace` ahead of `write_content`. */
    method RewriteRow(id: Id, mime: string, bytes: Bytes, view: ContentView)
      requires id in tables.entries
      modifies this`tables
      ensures tables == Rewritten(old(tables), codec, id, mime, bytes, view)
      ensures id in tables.entries && id !in tables.payloads && id !in tables.search
      ensures tables.policy == old(tables.policy)
    {
      ghost var before := tables;
      var e := tables.entries[id].(
        revision := tables.revision, mime := mime, byteSize := |bytes|, digest := codec.digest(bytes),
        preview := view.preview, kind := view.kind, resolvedMime := view.mime, echo := None);
      tables := tables.(entries := tables.entries[id := e]);
      tables := tables.(entries := map x | x in tables.entries :: Unlink(tables.entries[x], {id}));
      assert tables.entries == Rewritten(before, codec, id, mime, bytes, view).entries;
      tables := tables.(payloads := tables.payloads - {id});
      tables := tables.(search := tables.search - {id});
      tables := tables.(links := set l | l in tables.links && l.0 != id);
    }

    method AppendRow(policy: Policy, mime: string, bytes: Bytes, view: ContentView, newId: Id)
      returns (r: Result<Reply, Error>)
      requires policy == tables.policy
      requires newId !in tables.entries && newId !in tables.payloads && newId !in tables.search
      modifies this`tables
      ensures Closed(r, tables) == Conclude(Appended(old(tables), codec, mime, bytes, view, newId), newId)
    {
      hide Conclude, WriteContent;
      tables := tables.(entries := tables.entries[newId := NewEntry(tables, codec, mime, bytes, view)],
                        issued := tables.issued + {newId});
      WriteRow(newId, mime, bytes, view);
      r := RetainAndSummarize(policy, newId);
    }

    method InsertClosure(mime: string, bytes: Bytes, view: ContentView, newId: Id) returns (r: Result<Reply, Error>)
      requires Keyed(tables) && newId !in tables.entries
      modifies this`tables
      ensures Closed(r, tables) == InsertBody(old(tables), codec, mime, bytes, view, newId)
    {
      hide Conclude, IsCurrent, SummaryRow, Twins, Newest, Appended, Promoted, AllowedPayload;
      var policy := tables.policy;
      if !policy.admission { return Err(Unavailable); }
      if !AllowedPayload(policy, bytes) { return Err(InvalidData); }
      var candidates := Twins(tables, codec, mime, bytes);
      var id := newId;
      if candidates != {} {
        id := Newest(tables.entries, candidates);
        // Observing the current content again changes nothing.
        if IsCurrent(tables.entries, id) { return Ok(Row(SummaryRow(tables.entries, id))); }
      }
      if tables.revision + 1 >= MAX_REVISION { return Err(OperationFailed); }
      tables := tables.(revision := tables.revision + 1);
      tables := tables.(sequence := tables.sequence + 1);
      if candidates != {} {
        r := PromoteRow(policy, id);
      } else {
        if policy.maxEntries == 0 { return Err(InvalidData); }
        if |mime| > MAX_MIME || |view.mime| > MAX_MIME { return Err(OperationFailed); }
        r := AppendRow(policy, mime, bytes, view, id);
      }
    }

    method PromoteRow(policy: Policy, id: Id) returns (r: Result<Reply, Error>)
      requires policy == tables.policy && id in tables.entries
      modifies this`tables
      ensures Closed(r, tables) == Conclude(Promoted(old(tables), id), id)
    {
      hide Conclude;
      var e := tables.entries[id].(revision := tables.revision, recency := tables.sequence);
      tables := tables.(entries := tables.entries[id := e]);
      r := RetainAndSummarize(policy, id);
    }

    method ReplaceRow(policy: Policy, id: Id, mime: string, bytes: Bytes, view: ContentView)
      returns (r: Result<Reply, Error>)
      requires policy == tables.policy && id in tables.entries
      modifies this`tables
      ensures var m := Rewritten(old(tables), codec, id, mime, bytes, view);
              Closed(r, tables) == Conclude(WriteContent(m, codec, id, mime, bytes, view), id)
    {
      hide Conclude, WriteContent;
      RewriteRow(id, mime, bytes, view);
      WriteRow(id, mime, bytes, view);
      r := RetainAndSummarize(policy, id);
    }

    method ReplaceClosure(id: Id, expected: nat, mime: string, bytes: Bytes, view: ContentView)
      returns (r: Result<Reply, Error>)
      requires Keyed(tables)
      modifies this`tables
      ensures Closed(r, tables) == ReplaceBody(old(tables), codec, id, expected, mime, bytes, view)
    {
      hide Conclude, SummaryRow, Rewritten, WriteContent, Keyed, AllowedPayload;
      var before := Summary(tables, id, Some(expected));
      if before.Err? { return Err(before.error); }
      var policy := tables.policy;
      if !AllowedPayload(policy, bytes) { return Err(InvalidData); }
      if tables.revision + 1 >= MAX_REVISION { return Err(OperationFailed); }
      tables := tables.(revision := tables.revision + 1);
      if |mime| > MAX_MIME || |view.mime| > MAX_MIME { return Err(OperationFailed); }
      r := ReplaceRow(policy, id, mime, bytes, view);
    }

    method FavoriteClosure(id: Id, expected: nat, value: bool) returns (r: Result<Reply, Error>)
      modifies this`tables
      ensures Closed(r, tables) == FavoriteBody(old(tables), id, expected, value)
    {
      hide Evict, IsCurrent;
      var before := Summary(tables, id, Some(expected));
      if before.Err? { return Err(before.error); }
      if before.value.favorite == value { return Ok(Done); }
      var policy := tables.policy;
      if (value && policy.maxFavorites == 0) || (!value && policy.maxEntries == 0) { return Err(InvalidData); }
      if tables.revision + 1 >= MAX_REVISION { return Err(OperationFailed); }
      tables := tables.(revision := tables.revision + 1);
      var e := tables.entries[id].(favorite := value, revision := tables.revision);
      tables := tables.(entries := tables.entries[id := e]);
      var kept := RetainRows(policy, Some(id));
      if kept.Err? { return Err(kept.error); }
      r := Ok(Done);
    }

    method ApplyPolicyClosure(policy: Policy) returns (r: Result<Reply, Error>)
      requires ValidPolicy(policy)
      modifies this`tables
      ensures Closed(r, tables) == ApplyPolicyBody(old(tables), policy)
    {
      hide Evict;
      if tables.policy == policy { return Ok(Done); }
      tables := tables.(policy := policy);
      var _ := RetainRows(policy, None);
      if tables.revision + 1 >= MAX_REVISION { return Err(OperationFailed); }
      tables := tables.(revision := tables.revision + 1);
      r := Ok(Done);
    }

    /** SELECT count(*) FROM targets JOIN entries: every target counts once, repeated ones each time. */
    method CountJoined(targets: seq<Target>, matching: bool) returns (n: nat)
      ensures n == JoinedCount(tables, targets, matching)
    {
      n := 0;
      var i := 0;
      while i < |targets|
        invariant i <= |targets| && n == JoinedCount(tables, targets[..i], matching)
      {
        assert targets[..i + 1][..i] == targets[..i];
        if Joins(tables, targets[i], matching) {
          n := n + 1;
        }
        i := i + 1;
      }
      assert targets[..|targets|] == targets;
    }

    /** The counts decide as the statement over all targets does. */
    method RemoveManyClosure(targets: seq<Target>) returns (r: Result<Reply, Error>)
      requires targets != []
      modifies this`tables
      ensures Closed(r, tables) == RemoveManyBody(old(tables), targets)
    {
      hide JoinedCount;
      JoinedCountIsAll(tables, targets, true);
      JoinedCountIsAll(tables, targets, false);
      assert forall t :: Joins(tables, t, true) == Matching(tables, t) && Joins(tables, t, false) == Present(tables, t);
      var valid := CountJoined(targets, true);
      if valid != |targets| {
        var present := CountJoined(targets, false);
        return Err(if present != |targets| then NotFound else Stale);
      }
      tables := DeleteEntries(tables, set t | t in targets :: t.id);
      if tables.revision + 1 >= MAX_REVISION { return Err(OperationFailed); }
      tables := tables.(revision := tables.revision + 1);
      r := Ok(Done);
    }

    method WipeClosure() returns (r: Result<Reply, Error>)
      modifies this`tables
      ensures Closed(r, tables) == WipeBody(old(tables))
      ensures r.Ok? ==> tables.entries == map[] && tables.revision == old(tables.revision) + 1
    {
      tables := DeleteEntries(tables, tables.entries.Keys);
      if tables.revision + 1 >= MAX_REVISION { return Err(OperationFailed); }
      tables := tables.(revision := tables.revision + 1);
      r := Ok(Done);
    }

    // ---------------------------------------------------------------- entry point

    /** Runs one queued call: the fence, the argument check, then one transaction. */
    method Execute(m: Mutation, engine: Engine) returns (reply: Result<Reply, Error>)
      requires Valid() && (m.Insert? ==> m.newId !in disk.issued && m.newId !in disk.entries)
      modifies this
      ensures Valid()
      ensures Keyed(old(disk))
      ensures Outcome(disk, blocked, reply) == Call(old(disk), old(blocked), codec, m, engine)
    {
      hide InsertBody, ReplaceBody, FavoriteBody, RemoveManyBody, WipeBody, ApplyPolicyBody, RegisterArtifactBody,
        Sound, Retained;
      SoundFacts(disk, codec);
      BodyKeepsHistory(disk, codec, m);
      if blocked { return Err(Unavailable); }
      var refused := Precheck(m);
      if refused.Some? { return refused.value; }
      if !engine.begins { return Err(OperationFailed); }
      tables := disk;
      var r: Result<Reply, Error>;
      match m {
        case Insert(mime, bytes, view, newId) => r := InsertClosure(mime, bytes, view, newId);
        case Replace(id, expected, mime, bytes, view) => r := ReplaceClosure(id, expected, mime, bytes, view);
        case Favorite(id, expected, value) => r := FavoriteClosure(id, expected, value);
        case RemoveMany(targets) => r := RemoveManyClosure(targets);
        case Wipe => r := WipeClosure();
        case ApplyPolicy(p) => r := ApplyPolicyClosure(p);
        case RegisterArtifact(path, record) => r := RegisterClosure(path, record);
        case ForgetArtifact(path) => tables := tables.(artifacts := tables.artifacts - {path}); r := Ok(Done);
        case CloseAdmission => tables := tables.(policy := tables.policy.(admission := false)); r := Ok(Done);
      }
      reply := Finish(r, engine);
    }

    method RegisterClosure(path: Path, record: Artifact) returns (r: Result<Reply, Error>)
      requires ArtifactAccepted(path, record)
      modifies this`tables
      ensures Closed(r, tables) == RegisterArtifactBody(old(tables), path, record)
    {
      if |tables.artifacts| >= MAX_ARTIFACTS && path !in tables.artifacts { return Err(InvalidData); }
      tables := tables.(artifacts := tables.artifacts[path := record]);
      r := Ok(Done);
    }
  }
}
