/**
  The owner registry above the operation backend: admission by reservation, bounded
  records, and the revisions published for each operation. Every call is one section
  under the book lock, so a run is a sequence of calls.
  */
module OperationBook {
  import opened Sets
  import opened Wrappers

  type Id = nat
  type Owner = Option<nat>

  const RETENTION: nat := 300
  const MAX_ACTIVE: nat := 64
  const MAX_OWNER_ACTIVE: nat := 16
  const MAX_RECORDS: nat := 256

  /**
    The backend's whole report on an operation, its message included; `Unknown` is the
    outcome recorded when the backend forgot it.
    */
  datatype Status = Started(body: nat) | Ended(outcome: nat) | Unknown

  datatype Record = Record(owner: Owner, status: Status, revision: nat, updated: nat) {
    predicate Active() { status.Started? }
  }

  /** What asking the backend for an operation came to. */
  datatype Answer = Unavailable | Known(status: Status) | Absent(listed: bool)

  // ------------------------------------------------------- the book as a value

  datatype State = State(
    records: map<Id, Record>,
    pending: map<Id, Owner>,        // live reservations
    registered: set<Id>,            // those whose operation was registered already
    published: map<Id, seq<Status>> // per operation, what was published at revision 1, 2, ...
  )

  datatype Call =
    | Reserve(id: Id, owner: Owner, now: nat)
    | Register(reservation: Id, id: Id, status: Status, evicted: Option<Id>, now: nat)
    | DropReservation(id: Id)
    | Refresh(id: Id, answer: Answer, now: nat)
    | Prune(now: nat)

  function Pruned(records: map<Id, Record>, now: nat): map<Id, Record> {
    map id | id in records && (records[id].Active() || now < records[id].updated + RETENTION) :: records[id]
  }

  function ActiveIds(records: map<Id, Record>): set<Id> {
    set id | id in records && records[id].Active()
  }

  function OwnActive(records: map<Id, Record>, owner: Owner): set<Id> {
    set id | id in records && records[id].Active() && records[id].owner == owner
  }

  function OwnPending(pending: map<Id, Owner>, owner: Owner): set<Id> {
    set id | id in pending && pending[id] == owner
  }

  predicate Admits(records: map<Id, Record>, pending: map<Id, Owner>, owner: Owner) {
    && |pending.Keys| + |ActiveIds(records)| < MAX_ACTIVE
    && |OwnPending(pending, owner)| + |OwnActive(records, owner)| < MAX_OWNER_ACTIVE
  }

  /** The record that a full book gives up: an oldest one among those that ended, if any. */
  predicate IsVictim(records: map<Id, Record>, evicted: Option<Id>) {
    if |records.Keys| < MAX_RECORDS then evicted == None
    else match evicted
      case None => forall id | id in records :: records[id].Active()
      case Some(v) => v in records && !records[v].Active()
                      && forall id | id in records && !records[id].Active() :: records[v].updated <= records[id].updated
  }

  function Evicted(records: map<Id, Record>, evicted: Option<Id>): map<Id, Record> {
    if evicted.Some? then records - {evicted.value} else records
  }

  /** The report a refresh records for an active operation, if it differs from the recorded one. */
  function Discovered(recorded: Status, answer: Answer): Option<Status> {
    match answer
    case Known(status) => if status == recorded then None else Some(status)
    case Absent(false) => Some(Unknown)
    case _ => None
  }

  predicate Enabled(s: State, c: Call) {
    match c
    case Reserve(id, _, _) => id !in s.pending
    case Register(r, id, _, evicted, now) =>
      r in s.pending && r !in s.registered && id !in s.published && IsVictim(Pruned(s.records, now), evicted)
    case _ => true
  }

  function Next(s: State, c: Call): State
    requires Enabled(s, c)
  {
    match c
    case Prune(now) => s.(records := Pruned(s.records, now))
    case Reserve(id, owner, now) =>
      var records := Pruned(s.records, now);
      if Admits(records, s.pending, owner) then s.(records := records, pending := s.pending[id := owner])
      else s.(records := records)
    case Register(r, id, status, evicted, now) =>
      var kept := Evicted(Pruned(s.records, now), evicted);
      s.(records := kept[id := Record(s.pending[r], status, 1, now)], registered := s.registered + {r},
         published := s.published[id := [status]])
    case DropReservation(id) => s.(pending := s.pending - {id}, registered := s.registered - {id})
    case Refresh(id, answer, now) =>
      if id !in s.records || !s.records[id].Active() || Discovered(s.records[id].status, answer).None? then s
      else
        var r := s.records[id];
        var found := Discovered(r.status, answer).value;
        s.(records := s.records[id := r.(status := found, revision := r.revision + 1, updated := now)],
           published := s.published[id := (if id in s.published then s.published[id] else []) + [found]])
  }

  const EMPTY: State := State(map[], map[], {}, map[])

  ghost predicate Run(states: seq<State>, calls: seq<Call>) {
    && |states| == |calls| + 1 && states[0] == EMPTY
    && forall k | 0 <= k < |calls| :: Enabled(states[k], calls[k]) && states[k + 1] == Next(states[k], calls[k])
  }

  // --------------------------------------------------------- the book in place

  class Book {
    var records: map<Id, Record>
    var pending: map<Id, Owner>
    ghost var registered: set<Id>
    ghost var published: map<Id, seq<Status>>

    ghost function Value(): State
      reads this
    {
      State(records, pending, registered, published)
    }

    constructor ()
      ensures Value() == EMPTY
    {
      records, pending, registered, published := map[], map[], {}, map[];
    }

    method PruneRecords(now: nat)
      modifies this
      ensures Value() == Next(old(Value()), Prune(now))
    {
      records := map id | id in records && (records[id].Active() || now < records[id].updated + RETENTION) ::
        records[id];
    }

    method Count(owner: Owner) returns (active: nat, own: nat)
      ensures active == |pending.Keys| + |ActiveIds(records)|
      ensures own == |OwnPending(pending, owner)| + |OwnActive(records, owner)|
    {
      assert ActiveIds(records) - records.Keys == {} && OwnActive(records, owner) - records.Keys == {};
      assert |pending| == |pending.Keys| by { assert pending.Keys == set id | id in pending; }
      active, own := |pending|, |OwnPending(pending, owner)|;
      var rest := records.Keys;
      while rest != {}
        invariant rest <= records.Keys
        invariant active == |pending.Keys| + |ActiveIds(records) - rest|
        invariant own == |OwnPending(pending, owner)| + |OwnActive(records, owner) - rest|
        decreases |rest|
      {
        var id :| id in rest;
        TakenSize(ActiveIds(records), rest, id);
        TakenSize(OwnActive(records, owner), rest, id);
        if records[id].Active() {
          active := active + 1;
          own := own + if records[id].owner == owner then 1 else 0;
        }
        rest := rest - {id};
      }
    }

    method TryReserve(id: Id, owner: Owner, now: nat) returns (admitted: bool)
      requires id !in pending
      modifies this
      ensures Value() == Next(old(Value()), Reserve(id, owner, now))
      ensures admitted <==> id in pending
    {
      PruneRecords(now);
      var active, own := Count(owner);
      admitted := active < MAX_ACTIVE && own < MAX_OWNER_ACTIVE;
      if admitted {
        pending := pending[id := owner];
      }
    }

    method OldestEnded() returns (oldest: Option<Id>)
      ensures match oldest
        case None => forall id | id in records :: records[id].Active()
        case Some(v) => v in records && !records[v].Active()
                        && forall id | id in records && !records[id].Active() ::
                          records[v].updated <= records[id].updated
    {
      oldest := None;
      var rest := records.Keys;
      while rest != {}
        invariant rest <= records.Keys
        invariant oldest.None? ==> forall id | id in records.Keys - rest :: records[id].Active()
        invariant oldest.Some? ==> oldest.value in records && !records[oldest.value].Active()
        invariant oldest.Some? ==>
          forall id | id in records.Keys - rest && !records[id].Active() ::
            records[oldest.value].updated <= records[id].updated
        decreases |rest|
      {
        var id :| id in rest;
        if !records[id].Active() && (oldest.None? || records[id].updated < records[oldest.value].updated) {
          oldest := Some(id);
        }
        rest := rest - {id};
      }
    }

    method RegisterOperation(ghost reservation: Id, owner: Owner, id: Id, status: Status, now: nat)
      returns (ghost evicted: Option<Id>)
      requires reservation in pending && reservation !in registered && pending[reservation] == owner
      requires id !in published
      modifies this
      ensures Enabled(old(Value()), Register(reservation, id, status, evicted, now))
      ensures Value() == Next(old(Value()), Register(reservation, id, status, evicted, now))
    {
      PruneRecords(now);
      evicted := None;
      assert records.Keys == set i | i in records;
      if |records| >= MAX_RECORDS {
        var oldest := OldestEnded();
        evicted := oldest;
        if oldest.Some? {
          records := records - {oldest.value};
        }
      }
      records := records[id := Record(owner, status, 1, now)];
      registered := registered + {reservation};
      published := published[id := [status]];
    }

    /** A reservation leaves the book when its request is done, however it ended. */
    method Release(id: Id)
      modifies this
      ensures Value() == Next(old(Value()), DropReservation(id))
    {
      pending, registered := pending - {id}, registered - {id};
    }

    method RefreshOperation(id: Id, answer: Answer, now: nat)
      modifies this
      ensures Value() == Next(old(Value()), Refresh(id, answer, now))
    {
      if id !in records || !records[id].Active() {
        return;
      }
      var current: Status;
      match answer {
        case Unavailable => return;
        case Known(status) => current := status;
        case Absent(listed) =>
          if listed {
            return;
          }
          current := Unknown;
      }
      var record := records[id];
      if record.status != current {
        records := records[id := record.(status := current, revision := record.revision + 1, updated := now)];
        published := published[id := (if id in published then published[id] else []) + [current]];
      }
    }
  }

  // --------------------------------------------------------------------- bounds

  function Unregistered(s: State): set<Id> { s.pending.Keys - s.registered }

  function OwnUnregistered(s: State, owner: Owner): set<Id> { OwnPending(s.pending, owner) - s.registered }

  predicate OwnerBounded(s: State, o: Owner) {
    |OwnActive(s.records, o)| + |OwnUnregistered(s, o)| <= MAX_OWNER_ACTIVE
  }

  ghost predicate Bounded(s: State) {
    && s.registered <= s.pending.Keys
    && |ActiveIds(s.records)| + |Unregistered(s)| <= MAX_ACTIVE
    && (forall o: Owner :: OwnerBounded(s, o))
    && |s.records.Keys| <= MAX_RECORDS
  }

  /** Fewer active records and fewer open reservations cannot break a bound. */
  lemma ShrinkingKeepsBounds(s: State, n: State)
    requires Bounded(s) && n.registered <= n.pending.Keys && |n.records.Keys| <= MAX_RECORDS
    requires ActiveIds(n.records) <= ActiveIds(s.records) && Unregistered(n) <= Unregistered(s)
    requires forall o: Owner :: OwnActive(n.records, o) <= OwnActive(s.records, o)
    requires forall o: Owner :: OwnUnregistered(n, o) <= OwnUnregistered(s, o)
    ensures Bounded(n)
  {
    SubsetSize(ActiveIds(n.records), ActiveIds(s.records));
    SubsetSize(Unregistered(n), Unregistered(s));
    forall o: Owner ensures OwnerBounded(n, o) {
      assert OwnerBounded(s, o);
      SubsetSize(OwnActive(n.records, o), OwnActive(s.records, o));
      SubsetSize(OwnUnregistered(n, o), OwnUnregistered(s, o));
    }
  }

  lemma PruneKeepsBounds(s: State, now: nat)
    requires Bounded(s)
    ensures Bounded(s.(records := Pruned(s.records, now)))
  {
    var n := s.(records := Pruned(s.records, now));
    SubsetSize(n.records.Keys, s.records.Keys);
    ShrinkingKeepsBounds(s, n);
  }

  lemma AdmissionKeepsBounds(s: State, id: Id, owner: Owner)
    requires Bounded(s) && id !in s.pending && Admits(s.records, s.pending, owner)
    ensures Bounded(s.(pending := s.pending[id := owner]))
  {
    hide OwnerBounded, OwnPending, OwnActive;
    var n := s.(pending := s.pending[id := owner]);
    assert Unregistered(n) <= Unregistered(s) + {id} <= s.pending.Keys + {id};
    GrownSize(Unregistered(n), s.pending.Keys, id);
    forall o: Owner ensures OwnerBounded(n, o) {
      assert OwnerBounded(s, o);
      AdmissionKeepsOwner(s, id, owner, o);
    }
  }

  lemma AdmissionKeepsOwner(s: State, id: Id, owner: Owner, o: Owner)
    requires OwnerBounded(s, o) && id !in s.pending && Admits(s.records, s.pending, owner)
    ensures OwnerBounded(s.(pending := s.pending[id := owner]), o)
  {
    var n := s.(pending := s.pending[id := owner]);
    if o == owner {
      GrownSize(OwnUnregistered(n, o), OwnPending(s.pending, o), id);
    } else {
      SubsetSize(OwnUnregistered(n, o), OwnUnregistered(s, o));
    }
  }

  lemma SomeEnded(s: State)
    requires Bounded(s) && |s.records.Keys| >= MAX_RECORDS
    ensures exists id :: id in s.records && !s.records[id].Active()
  {
    if forall id | id in s.records :: s.records[id].Active() {
      SubsetSize(s.records.Keys, ActiveIds(s.records));
    }
  }

  /** A full book always has a record that ended: at most 64 are active. */
  lemma EvictionMakesRoom(s: State, evicted: Option<Id>)
    requires Bounded(s) && IsVictim(s.records, evicted)
    ensures |Evicted(s.records, evicted).Keys| < MAX_RECORDS
    ensures ActiveIds(Evicted(s.records, evicted)) == ActiveIds(s.records)
  {
    if |s.records.Keys| >= MAX_RECORDS {
      SomeEnded(s);
      assert Evicted(s.records, evicted).Keys == s.records.Keys - {evicted.value};
    }
  }

  lemma RegistrationKeepsBounds(s: State, kept: map<Id, Record>, r: Id, id: Id, status: Status, now: nat)
    requires Bounded(s) && r in s.pending && r !in s.registered && |kept.Keys| < MAX_RECORDS
    requires forall i | i in kept :: i in s.records && kept[i] == s.records[i]
    ensures Bounded(s.(records := kept[id := Record(s.pending[r], status, 1, now)], registered := s.registered + {r}))
  {
    hide OwnerBounded, OwnPending, OwnActive;
    var n := s.(records := kept[id := Record(s.pending[r], status, 1, now)], registered := s.registered + {r});
    GrownSize(n.records.Keys, kept.Keys, id);
    ShrunkSize(Unregistered(n), Unregistered(s), r);
    GrownSize(ActiveIds(n.records), ActiveIds(s.records), id);
    forall o: Owner ensures OwnerBounded(n, o) {
      assert OwnerBounded(s, o);
      RegistrationKeepsOwner(s, n, kept, r, id, Record(s.pending[r], status, 1, now), o);
    }
  }

  lemma RegistrationKeepsOwner(s: State, n: State, kept: map<Id, Record>, r: Id, id: Id, record: Record, o: Owner)
    requires OwnerBounded(s, o) && r in s.pending && r !in s.registered
    requires forall i | i in kept :: i in s.records && kept[i] == s.records[i]
    requires record.owner == s.pending[r] && n.records == kept[id := record]
    requires n.pending == s.pending && n.registered == s.registered + {r}
    ensures OwnerBounded(n, o)
  {
    if o == s.pending[r] {
      ShrunkSize(OwnUnregistered(n, o), OwnUnregistered(s, o), r);
      GrownSize(OwnActive(n.records, o), OwnActive(s.records, o), id);
    } else {
      SubsetSize(OwnActive(n.records, o), OwnActive(s.records, o));
      SubsetSize(OwnUnregistered(n, o), OwnUnregistered(s, o));
    }
  }

  lemma CallKeepsBounds(s: State, c: Call)
    requires Bounded(s) && Recorded(s) && Enabled(s, c)
    ensures Bounded(Next(s, c))
  {
    hide Bounded, Admits;
    match c
    case Prune(now) => PruneKeepsBounds(s, now);
    case Reserve(id, owner, now) =>
      PruneKeepsBounds(s, now);
      var p := s.(records := Pruned(s.records, now));
      if Admits(p.records, s.pending, owner) { AdmissionKeepsBounds(p, id, owner); }
    case Register(r, id, status, evicted, now) =>
      PruneKeepsBounds(s, now);
      var p := s.(records := Pruned(s.records, now));
      EvictionMakesRoom(p, evicted);
      RegistrationKeepsBounds(p, Evicted(p.records, evicted), r, id, status, now);
      PublicationIsApart(Next(s, c), p.(records := Next(s, c).records, registered := Next(s, c).registered));
    case DropReservation(id) => DropKeepsBounds(s, id);
    case Refresh(id, answer, now) => RefreshKeepsBounds(s, id, answer, now);
  }

  lemma PublicationIsApart(s: State, n: State)
    requires Bounded(n) && s == n.(published := s.published)
    ensures Bounded(s)
  {
    ShrinkingKeepsBounds(n, s);
  }

  lemma DropKeepsBounds(s: State, id: Id)
    requires Bounded(s)
    ensures Bounded(Next(s, DropReservation(id)))
  {
    ShrinkingKeepsBounds(s, Next(s, DropReservation(id)));
  }

  lemma RefreshKeepsBounds(s: State, id: Id, answer: Answer, now: nat)
    requires Bounded(s)
    ensures Bounded(Next(s, Refresh(id, answer, now)))
  {
    var n := Next(s, Refresh(id, answer, now));
    assert n.records.Keys == s.records.Keys;
    ShrinkingKeepsBounds(s, n);
  }

  // --------------------------------------------------------------- publications

  /** What may be published for one operation: running reports, each news to the last, then at most one outcome. */
  ghost predicate Lifecycle(p: seq<Status>) {
    p != [] && forall i | 0 <= i < |p| - 1 :: p[i].Started? && p[i] != p[i + 1]
  }

  ghost predicate Recorded(s: State) {
    && (forall id | id in s.published :: Lifecycle(s.published[id]))
    && (forall id | id in s.records ::
          id in s.published && s.records[id].revision == |s.published[id]|
            && s.records[id].status == s.published[id][|s.published[id]| - 1])
  }

  lemma CallKeepsRecorded(s: State, c: Call)
    requires Recorded(s) && Enabled(s, c)
    ensures Recorded(Next(s, c))
  {
    match c
    case Register(r, id, status, evicted, now) => RegisterKeepsRecorded(s, r, id, status, evicted, now);
    case Refresh(id, answer, now) => RefreshKeepsRecorded(s, id, answer, now);
    case _ =>
  }

  lemma RegisterKeepsRecorded(s: State, r: Id, id: Id, status: Status, evicted: Option<Id>, now: nat)
    requires Recorded(s) && Enabled(s, Register(r, id, status, evicted, now))
    ensures Recorded(Next(s, Register(r, id, status, evicted, now)))
  {
    hide IsVictim;
  }

  lemma RefreshKeepsRecorded(s: State, id: Id, answer: Answer, now: nat)
    requires Recorded(s)
    ensures Recorded(Next(s, Refresh(id, answer, now)))
  {}

  lemma {:induction false} RunKeepsInv(states: seq<State>, calls: seq<Call>, k: nat)
    requires Run(states, calls) && k < |states|
    ensures Bounded(states[k]) && Recorded(states[k])
  {
    if k == 0 {
      StartBounded();
    } else {
      RunKeepsInv(states, calls, k - 1);
      CallKeepsBounds(states[k - 1], calls[k - 1]);
      CallKeepsRecorded(states[k - 1], calls[k - 1]);
    }
  }

  lemma StartBounded()
    ensures Bounded(EMPTY)
  {
    assert ActiveIds(EMPTY.records) == {} && Unregistered(EMPTY) == {};
    forall o: Owner ensures OwnerBounded(EMPTY, o) {
      assert OwnActive(EMPTY.records, o) == {} && OwnUnregistered(EMPTY, o) == {};
    }
  }

  /** Admission is bounded overall and per owner, and so is the number of records. */
  lemma RegistryIsBounded(states: seq<State>, calls: seq<Call>, k: nat, owner: Owner)
    requires Run(states, calls) && k < |states|
    ensures |ActiveIds(states[k].records)| + |Unregistered(states[k])| <= 64
    ensures |OwnActive(states[k].records, owner)| + |OwnUnregistered(states[k], owner)| <= 16
    ensures |states[k].records| <= 256
  {
    RunKeepsInv(states, calls, k);
    assert OwnerBounded(states[k], owner);
    assert states[k].records.Keys == set id | id in states[k].records;
  }

  function Last(p: seq<Status>): Status
    requires p != []
  {
    p[|p| - 1]
  }

  lemma CallOnlyPublishesMore(s: State, c: Call, id: Id)
    requires Recorded(s) && Enabled(s, c) && id in s.published
    ensures id in Next(s, c).published && s.published[id] <= Next(s, c).published[id]
    ensures !Last(s.published[id]).Started? ==> Next(s, c).published[id] == s.published[id]
  {}

  /** Revisions only grow, a status is never replaced, and an outcome is the last thing published. */
  lemma {:induction false} OutcomeIsNeverReverted(states: seq<State>, calls: seq<Call>, i: nat, j: nat, id: Id)
    requires Run(states, calls) && i <= j < |states| && id in states[i].published
    ensures Lifecycle(states[i].published[id])
    ensures id in states[j].published && states[i].published[id] <= states[j].published[id]
    ensures !Last(states[i].published[id]).Started? ==> states[j].published[id] == states[i].published[id]
  {
    hide Bounded, Next, Enabled;
    RunKeepsInv(states, calls, i);
    if i < j {
      OutcomeIsNeverReverted(states, calls, i, j - 1, id);
      RunKeepsInv(states, calls, j - 1);
      CallOnlyPublishesMore(states[j - 1], calls[j - 1], id);
    }
  }

  lemma CallKeepsActive(s: State, c: Call, id: Id)
    requires Recorded(s) && Enabled(s, c) && id in s.records && s.records[id].Active()
    ensures id in Next(s, c).records && Next(s, c).records[id].owner == s.records[id].owner
    ensures Next(s, c).records[id] == s.records[id] || Next(s, c).records[id].revision == s.records[id].revision + 1
  {}

  /** No call drops the record of an operation that is still active, and any news takes the next revision. */
  lemma ActiveRecordIsKept(states: seq<State>, calls: seq<Call>, k: nat, id: Id)
    requires Run(states, calls) && k < |calls| && id in states[k].records && states[k].records[id].Active()
    ensures id in states[k + 1].records && states[k + 1].records[id].owner == states[k].records[id].owner
    ensures states[k + 1].records[id] == states[k].records[id]
      || states[k + 1].records[id].revision == states[k].records[id].revision + 1
  {
    hide Bounded, Next, Enabled;
    RunKeepsInv(states, calls, k);
    CallKeepsActive(states[k], calls[k], id);
  }

  /** The backend reports a running operation the same way each time, as its registry of operations does. */
  predicate Steady(s: State, c: Call) {
    c.Refresh? && c.answer.Known? && c.answer.status.Started? && c.id in s.records ==>
      c.answer.status == s.records[c.id].status
  }

  ghost predicate StartThenOutcome(p: seq<Status>) { |p| == 1 || (|p| == 2 && p[0].Started? && !p[1].Started?) }

  lemma SteadyCallPublishesOutcome(s: State, c: Call, id: Id)
    requires Recorded(s) && Enabled(s, c) && Steady(s, c)
    requires id in s.published ==> StartThenOutcome(s.published[id])
    ensures id in Next(s, c).published ==> StartThenOutcome(Next(s, c).published[id])
  {}

  /** With such a backend an operation is published at revision 1 and, once it ended, at revision 2, and never else. */
  lemma {:induction false} SteadyMeansTwoRevisions(states: seq<State>, calls: seq<Call>, k: nat, id: Id)
    requires Run(states, calls) && k < |states| && forall i | 0 <= i < |calls| :: Steady(states[i], calls[i])
    ensures id in states[k].published ==> StartThenOutcome(states[k].published[id])
  {
    hide Bounded, Next, Enabled, Steady, StartThenOutcome;
    if k > 0 {
      SteadyMeansTwoRevisions(states, calls, k - 1, id);
      RunKeepsInv(states, calls, k - 1);
      SteadyCallPublishesOutcome(states[k - 1], calls[k - 1], id);
    }
  }

  // ---------------------------------------------------------- what each call means

  /** The operations that still run, and those of one owner; the reservations of one owner. */
  function Running(records: map<Id, Record>): set<Id> { set id | id in records && records[id].status.Started? }

  function RunningOf(records: map<Id, Record>, owner: Owner): set<Id> {
    set id | id in records && records[id].status.Started? && records[id].owner == owner
  }

  function ReservedBy(pending: map<Id, Owner>, owner: Owner): set<Id> { set id | id in pending && pending[id] == owner }

  /** A reservation is granted exactly while fewer than 64 slots are taken in all and fewer than 16 by its owner. */
  lemma ReservedIff(s: State, id: Id, owner: Owner, now: nat)
    requires id !in s.pending
    ensures var n := Next(s, Reserve(id, owner, now));
      if |s.pending.Keys| + |Running(s.records)| < 64
         && |ReservedBy(s.pending, owner)| + |RunningOf(s.records, owner)| < 16
      then n.pending == s.pending[id := owner] else n.pending == s.pending
  {
    var kept := Pruned(s.records, now);
    assert ActiveIds(kept) == Running(s.records) && OwnActive(kept, owner) == RunningOf(s.records, owner);
    assert OwnPending(s.pending, owner) == ReservedBy(s.pending, owner);
  }

  /** A reservation ends with its request, and no other one with it. */
  lemma ReservationEnds(s: State, id: Id)
    ensures var n := Next(s, DropReservation(id));
      && id !in n.pending && n.records == s.records && n.published == s.published
      && forall other | other != id ::
           (other in n.pending <==> other in s.pending)
           && (other in s.pending ==> n.pending[other] == s.pending[other])
  {
  }

  /** A registered operation is recorded under the owner of its reservation and published at revision 1. */
  lemma RegisteredAs(s: State, r: Id, id: Id, status: Status, evicted: Option<Id>, now: nat)
    requires Enabled(s, Register(r, id, status, evicted, now))
    ensures var n := Next(s, Register(r, id, status, evicted, now));
      && id in n.records && n.records[id] == Record(s.pending[r], status, 1, now)
      && id in n.published && n.published[id] == [status] && n.pending == s.pending
  {
    hide IsVictim;
  }

  /** What a refresh finds is what the record says afterwards; every change takes one more revision and is published. */
  lemma RefreshedAs(states: seq<State>, calls: seq<Call>, k: nat, id: Id, answer: Answer, now: nat)
    requires Run(states, calls) && k < |calls| && calls[k] == Refresh(id, answer, now)
    requires id in states[k].records && states[k].records[id].status.Started?
    ensures id in states[k + 1].records && id in states[k].published && id in states[k + 1].published
    ensures var r, n := states[k].records[id], states[k + 1].records[id];
      && (answer.Known? ==> n.status == answer.status)
      && (answer == Absent(false) ==> n.status == Unknown)
      && (answer == Unavailable || answer == Absent(true) ==> n == r)
      && n.owner == r.owner
      && (if n.status == r.status then n == r && states[k + 1].published == states[k].published
          else && n.revision == r.revision + 1 && n.updated == now
               && states[k + 1].published[id] == states[k].published[id] + [n.status])
  {
    hide Bounded;
    RunKeepsInv(states, calls, k);
  }

  /** A refresh changes nothing of an operation that ended. */
  lemma EndedIsNotRefreshed(s: State, id: Id, answer: Answer, now: nat)
    requires id !in s.records || !s.records[id].status.Started?
    ensures Next(s, Refresh(id, answer, now)) == s
  {
  }

  /** The time at which a call that looks at the clock looks at it. */
  function Clock(c: Call): nat {
    match c
    case Reserve(_, _, now) => now
    case Register(_, _, _, _, now) => now
    case Prune(now) => now
    case _ => 0
  }

  /**
    A record is only lost when its operation ended, and then only 300 seconds after its
    outcome, or to a registration into a full book that holds no older outcome.
    */
  lemma RecordLostOnlyIf(s: State, c: Call, id: Id)
    requires Enabled(s, c) && id in s.records && id !in Next(s, c).records
    ensures !s.records[id].status.Started?
    ensures
      || Clock(c) >= s.records[id].updated + 300
      || (c.Register? && |s.records.Keys| >= 256
          && forall other | other in s.records && other in Next(s, c).records && other != c.id
                            && !s.records[other].status.Started? ::
               s.records[id].updated <= s.records[other].updated)
  {
    if c.Register? {
      var kept := Pruned(s.records, c.now);
      SubsetSize(kept.Keys, s.records.Keys);
    }
  }

  /** And an outcome is indeed forgotten by the first call that looks at the clock 300 seconds after it. */
  lemma OldOutcomeIsForgotten(s: State, c: Call, id: Id)
    requires Enabled(s, c) && (c.Prune? || c.Reserve? || (c.Register? && c.id != id))
    requires id in s.records && !s.records[id].status.Started? && Clock(c) >= s.records[id].updated + 300
    ensures id !in Next(s, c).records
  {
    hide IsVictim;
  }
}
