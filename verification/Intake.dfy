/**
  Capture intake: announced offers, running transfers and their byte reservations. The
  protocol objects, the gate's answers and the outcome of each read are inputs.
  */
module Intake {
  import opened Sets
  import opened Wrappers

  const MAX_OFFERS: nat := 64
  const MAX_TRANSFERS: nat := 4
  const TOTAL_BYTES: nat := 128 * 1024 * 1024

  /** An offer with the types it can still be asked for, best first. */
  datatype Pending = Pending(seat: nat, mimes: seq<nat>)

  datatype Receiving = Receiving(pending: Pending, mime: nat, generation: nat)

  /** `admitted`: the generation the gate admits, if open; `piped`: the pipe and buffer could be made. */
  datatype Opening = Opening(admitted: Option<nat>, piped: bool)

  datatype Outcome = Running | Blank(opening: Opening) | Complete(sent: bool) | Broken

  /** What one round of `receive` finds for one transfer. */
  datatype Tick = Tick(accepted: bool, outcome: Outcome)

  /** A transfer started for the offer's next type, when the gate, the types and the pipe allow it. */
  function Begun(p: Pending, o: Opening): seq<Receiving> {
    if o.admitted.Some? && p.mimes != [] && o.piped
    then [Receiving(p.(mimes := p.mimes[1..]), p.mimes[0], o.admitted.value)] else []
  }

  /** What becomes of one transfer in a round: it runs on, gives way to the next type, or ends. */
  function Kept(r: Receiving, t: Tick): (k: seq<Receiving>)
    ensures |k| <= 1
  {
    if !t.accepted then []
    else match t.outcome
      case Running => [r]
      case Blank(o) => Begun(r.pending, o)
      case _ => []
  }

  /** Bytes reserved by n transfers or jobs of a session. */
  function Bytes(n: nat, limit: nat): nat { n * (limit + 1) }

  lemma BytesAdd(m: nat, n: nat, limit: nat)
    ensures Bytes(m + n, limit) == Bytes(m, limit) + Bytes(n, limit)
    ensures Bytes(1, limit) == limit + 1
  {}

  function Round(taken: seq<Receiving>, ticks: seq<Tick>): (k: seq<Receiving>)
    requires |taken| == |ticks|
    ensures |k| <= |taken|
  {
    if taken == [] then []
    else Round(taken[..|taken| - 1], ticks[..|ticks| - 1]) + Kept(taken[|taken| - 1], ticks[|ticks| - 1])
  }

  function Submitted(ticks: seq<Tick>): nat {
    if ticks == [] then 0
    else
      var t := ticks[|ticks| - 1];
      Submitted(ticks[..|ticks| - 1]) + if t.accepted && t.outcome.Complete? && t.outcome.sent then 1 else 0
  }

  lemma SubmittedOne(t: Tick)
    ensures Submitted([t]) == if t.accepted && t.outcome.Complete? && t.outcome.sent then 1 else 0
  {
    assert [t][..0] == [];
  }

  function WithoutSeat(transfers: seq<Receiving>, seat: nat): (r: seq<Receiving>)
    ensures |r| <= |transfers|
    ensures forall t :: t in r <==> t in transfers && t.pending.seat != seat
  {
    if transfers == [] then []
    else
      var last := transfers[|transfers| - 1];
      WithoutSeat(transfers[..|transfers| - 1], seat) + if last.pending.seat != seat then [last] else []
  }

  class State {
    const limit: nat                   // the largest entry that is captured
    const skipInitial: bool
    var ready: bool
    var offers: map<nat, Pending>
    var transfers: seq<Receiving>
    var used: nat                      // reserved bytes, of transfers and of submitted jobs
    ghost var jobs: nat                // submitted jobs that still hold their reservation

    /** `inHand` counts transfers that a round has taken out and not dealt with yet. */
    ghost predicate Balanced(inHand: nat)
      reads this
    {
      && |transfers| + inHand <= 4
      && |offers.Keys| + |transfers| + inHand <= 64
      && used == Bytes(|transfers| + inHand + jobs, limit)
      && used <= 134217728
    }

    ghost predicate Valid()
      reads this
    {
      Balanced(0)
    }

    constructor (limit: nat, skipInitial: bool)
      ensures Valid() && offers == map[] && transfers == [] && jobs == 0 && !ready
    {
      this.limit, this.skipInitial := limit, skipInitial;
      ready, offers, transfers, used, jobs := false, map[], [], 0, 0;
    }

    /** Announcing beyond 64 live offers is ignored. */
    method Offer(id: nat, p: Pending)
      requires Valid()
      modifies `offers
      ensures Valid()
      ensures offers == if old(|offers.Keys| + |transfers|) < 64 then old(offers)[id := p] else old(offers)
    {
      assert |offers| == |offers.Keys| by { assert offers.Keys == set i | i in offers; }
      if |offers| + |transfers| >= MAX_OFFERS {
        return;
      }
      offers := offers[id := p];
      assert offers.Keys == old(offers.Keys) + {id};
    }

    method Reserve(bytes: nat) returns (ok: bool)
      modifies `used
      ensures ok <==> old(used) + bytes <= TOTAL_BYTES
      ensures used == old(used) + if ok then bytes else 0
    {
      ok := used + bytes <= TOTAL_BYTES;
      if ok {
        used := used + bytes;
      }
    }

    /** A start needs a free slot, an open gate, a type left to ask for, budget, and a pipe. */
    method Start(p: Pending, o: Opening, ghost inHand: nat)
      requires Balanced(inHand) && |transfers| + inHand + 1 + |offers.Keys| <= MAX_OFFERS
      requires inHand > 0 ==> |transfers| + inHand < MAX_TRANSFERS
      modifies `transfers, `used
      ensures Balanced(inHand)
      ensures var room := old(|transfers|) < 4 && old(used) + limit + 1 <= 134217728;
        transfers == old(transfers) + if room then Begun(p, o) else []
    {
      hide Bytes;
      if |transfers| >= MAX_TRANSFERS || o.admitted.None? || p.mimes == [] {
        return;
      }
      BytesAdd(|transfers| + inHand + jobs, 1, limit);
      var reserved := Reserve(limit + 1);
      if !reserved {
        return;
      }
      if o.piped {
        transfers := transfers + [Receiving(p.(mimes := p.mimes[1..]), p.mimes[0], o.admitted.value)];
      } else {
        used := used - (limit + 1);
      }
    }

    method Select(id: nat, o: Opening)
      requires Valid()
      modifies `offers, `transfers, `used
      ensures Valid() && offers == old(offers) - {id}
      ensures id !in old(offers) || (skipInitial && !ready) ==> transfers == old(transfers)
      ensures id in old(offers) && !(skipInitial && !ready) ==>
        var room := old(|transfers|) < 4 && old(used) + limit + 1 <= 134217728;
        transfers == old(transfers) + if room then Begun(old(offers)[id], o) else []
    {
      if id !in offers {
        return;
      }
      var p := offers[id];
      offers := offers - {id};
      assert offers.Keys == old(offers.Keys) - {id};
      if skipInitial && !ready {
        return;
      }
      Start(p, o, 0);
    }

    /**
      One transfer of a round. A blank one always finds the slot and the budget for its
      fallback: only the gate, the types and the pipe decide whether it starts.
      */
    method Advance(r: Receiving, t: Tick, ghost inHand: nat)
      requires Balanced(inHand + 1)
      modifies `transfers, `used, `jobs
      ensures Balanced(inHand)
      ensures transfers == old(transfers) + Kept(r, t)
      ensures jobs == old(jobs) + Submitted([t])
    {
      hide Bytes;
      assert [t][..0] == [];
      BytesAdd(|transfers| + inHand + jobs, 1, limit);
      if t.accepted && t.outcome.Running? {
        transfers := transfers + [r];
      } else if t.accepted && t.outcome.Complete? && t.outcome.sent {
        jobs := jobs + 1;          // the reservation moves into the job
      } else {
        used := used - (limit + 1);
        if t.accepted && t.outcome.Blank? {
          Start(r.pending, t.outcome.opening, inHand);
        }
      }
    }

    /** One round over all transfers: the list is taken out and rebuilt in place. */
    method Receive(ticks: seq<Tick>)
      requires Valid() && |ticks| == |transfers|
      modifies `transfers, `used, `jobs
      ensures Valid()
      ensures transfers == Round(old(transfers), ticks)
      ensures jobs == old(jobs) + Submitted(ticks)
    {
      hide Bytes, Kept;
      var taken := transfers;
      transfers := [];
      var i := 0;
      while i < |taken|
        invariant i <= |taken| && Balanced(|taken| - i)
        invariant transfers == Round(taken[..i], ticks[..i]) && jobs == old(jobs) + Submitted(ticks[..i])
      {
        assert taken[..i + 1][..i] == taken[..i] && ticks[..i + 1][..i] == ticks[..i];
        SubmittedOne(ticks[i]);
        Advance(taken[i], ticks[i], |taken| - i - 1);
        i := i + 1;
      }
      assert taken[..|taken|] == taken && ticks[..|taken|] == ticks;
    }

    /** The ingest thread is done with a job, or the queue rejected it. */
    method JobDropped()
      requires Valid() && jobs > 0
      modifies `used, `jobs
      ensures Valid() && jobs == old(jobs) - 1
    {
      hide Bytes;
      BytesAdd(|transfers| + jobs - 1, 1, limit);
      used, jobs := used - (limit + 1), jobs - 1;
    }

    /** Removing a seat drops its offers and transfers, and releases what they reserved. */
    method RemoveSeat(seat: nat)
      requires Valid()
      modifies `offers, `transfers, `used
      ensures Valid() && transfers == WithoutSeat(old(transfers), seat)
      ensures offers == map id | id in old(offers) && old(offers)[id].seat != seat :: old(offers)[id]
    {
      hide Bytes;
      ghost var before := offers.Keys;
      offers := map id | id in offers && offers[id].seat != seat :: offers[id];
      SubsetSize(offers.Keys, before);
      var kept := WithoutSeat(transfers, seat);
      BytesAdd(|kept| + jobs, |transfers| - |kept|, limit);
      used := used - Bytes(|transfers| - |kept|, limit);
      transfers := kept;
    }
  }

  // ------------------------------------------------------------- many rounds

  /** The transfers of repeated rounds in which those of an offer keep turning out blank. */
  function Fallbacks(p: Pending, openings: seq<Opening>): (asked: seq<Receiving>)
    ensures |asked| <= |openings|
    decreases openings
  {
    if openings == [] || Begun(p, openings[0]) == [] then []
    else Begun(p, openings[0]) + Fallbacks(Begun(p, openings[0])[0].pending, openings[1..])
  }

  /**
    The types asked for are a prefix of the offer's types: in order, none twice, never
    beyond the last; each under the generation admitted then, for the offer's seat; and
    they end only when the types, the gate or the pipe do.
    */
  lemma {:induction false} FallbacksFollowTheOffer(p: Pending, openings: seq<Opening>)
    ensures var asked := Fallbacks(p, openings);
      && |asked| <= |p.mimes|
      && (forall k | 0 <= k < |asked| ::
            && asked[k].mime == p.mimes[k] && asked[k].pending == Pending(p.seat, p.mimes[k + 1..])
            && openings[k].admitted == Some(asked[k].generation) && openings[k].piped)
      && (|asked| < |p.mimes| && |asked| < |openings| ==>
            openings[|asked|].admitted.None? || !openings[|asked|].piped)
    decreases openings
  {
    if openings != [] && Begun(p, openings[0]) != [] {
      var next := Begun(p, openings[0])[0].pending;
      FallbacksFollowTheOffer(next, openings[1..]);
      var rest := Fallbacks(next, openings[1..]);
      forall k | 0 < k < |Fallbacks(p, openings)|
        ensures Fallbacks(p, openings)[k] == rest[k - 1] && openings[k] == openings[1..][k - 1]
        ensures next.mimes[k - 1] == p.mimes[k] && next.mimes[k..] == p.mimes[k + 1..]
      {}
    }
  }

  /** What a round leaves of one transfer: itself while it runs, or its fallback when it was blank. */
  ghost predicate LeftBy(k: Receiving, r: Receiving, t: Tick) {
    && t.accepted
    && match t.outcome
       case Running => k == r
       case Blank(o) =>
         && o.piped && o.admitted == Some(k.generation)
         && r.pending == Pending(k.pending.seat, [k.mime] + k.pending.mimes)
       case _ => false
  }

  lemma KeptIsLeft(k: Receiving, r: Receiving, t: Tick)
    ensures k in Kept(r, t) <==> LeftBy(k, r, t)
  {
    if k in Kept(r, t) && t.outcome.Blank? {
      assert r.pending.mimes == [r.pending.mimes[0]] + r.pending.mimes[1..];
    }
    if LeftBy(k, r, t) && t.outcome.Blank? {
      assert r.pending.mimes[1..] == k.pending.mimes;
    }
  }

  /** After a round exactly those transfers are there that the round leaves of the old ones. */
  lemma {:induction false} RoundLeaves(taken: seq<Receiving>, ticks: seq<Tick>, k: Receiving)
    requires |taken| == |ticks|
    ensures k in Round(taken, ticks) <==> exists i | 0 <= i < |taken| :: LeftBy(k, taken[i], ticks[i])
  {
    hide Kept, LeftBy;
    if taken != [] {
      var n := |taken| - 1;
      RoundLeaves(taken[..n], ticks[..n], k);
      KeptIsLeft(k, taken[n], ticks[n]);
      assert (exists i | 0 <= i < |taken| :: LeftBy(k, taken[i], ticks[i])) <==>
        ((exists i | 0 <= i < n :: LeftBy(k, taken[..n][i], ticks[..n][i])) || LeftBy(k, taken[n], ticks[n]));
    }
  }

  /** The transfers that completed in the round and that the job queue took. */
  function Handed(ticks: seq<Tick>): set<nat> {
    set i: nat | i < |ticks| && ticks[i].accepted && ticks[i].outcome == Complete(true)
  }

  /** And exactly those are the submitted jobs. */
  lemma {:induction false} SubmittedCounts(ticks: seq<Tick>)
    ensures Submitted(ticks) == |Handed(ticks)|
  {
    if ticks != [] {
      var n := |ticks| - 1;
      SubmittedCounts(ticks[..n]);
      assert Handed(ticks) ==
        Handed(ticks[..n]) + if ticks[n].accepted && ticks[n].outcome == Complete(true) then {n} else {};
    }
  }

  lemma RoundOneMore(a: seq<Receiving>, s: seq<Tick>, r: Receiving, t: Tick)
    requires |a| == |s|
    ensures Round(a + [r], s + [t]) == Round(a, s) + Kept(r, t)
  {
    hide Kept;
    assert (a + [r])[..|a|] == a && (s + [t])[..|s|] == s;
  }

  lemma RoundOfNothing()
    ensures Round([], []) == []
  {
  }

  /** A round treats its transfers in order and independently of each other. */
  lemma {:induction false} RoundOfParts(a: seq<Receiving>, s: seq<Tick>, b: seq<Receiving>, t: seq<Tick>)
    requires |a| == |s| && |b| == |t|
    ensures Round(a + b, s + t) == Round(a, s) + Round(b, t)
  {
    hide Round, Kept;
    if b == [] {
      RoundOfNothing();
      assert a + b == a && s + t == s && b == [] && t == [];
      assert Round(a, s) + [] == Round(a, s);
    } else {
      var k := |b| - 1;
      RoundOfParts(a, s, b[..k], t[..k]);
      RoundOneMore(a + b[..k], s + t[..k], b[k], t[k]);
      RoundOneMore(b[..k], t[..k], b[k], t[k]);
      assert b[..k] + [b[k]] == b && t[..k] + [t[k]] == t;
      assert a + b[..k] + [b[k]] == a + b && s + t[..k] + [t[k]] == s + t;
    }
  }
}
