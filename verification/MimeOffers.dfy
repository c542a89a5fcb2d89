/**
  The MIME policy of a clipboard offer: offered types are added one by one, one bad type
  or an oversized offer rejects everything, and `next` hands out the best type of each
  rank. A type is the string of its bytes.
  */
module MimeOffers {
  import opened Wrappers

  type Mime = string

  const MAX_OFFERS: nat := 64
  const MAX_BYTES: nat := 8192
  const MAX_LENGTH: nat := 96
  const RANKS: nat := 6

  // ---------------------------------------------------------------- one offer

  predicate Bad(m: Mime) {
    || m == "application/x-shelllist-sensitive" || m == "x-kde-passwordManagerHint"
    || m == "" || |m| > MAX_LENGTH
    || exists i | 0 <= i < |m| :: !(' ' <= m[i] <= '~')
  }

  /** The type without its parameters. */
  function Essence(m: Mime): (e: string)
    ensures e <= m && ';' !in e
    ensures |e| < |m| ==> m[|e|] == ';'
  {
    if m == "" || m[0] == ';' then "" else [m[0]] + Essence(m[1..])
  }

  function Rank(m: Mime): (r: Option<nat>)
    ensures r.Some? ==> r.value < RANKS
  {
    var e := Essence(m);
    if e == "text/plain" || e == "UTF8_STRING" || e == "STRING" || e == "TEXT" then Some(0)
    else if "image/" <= e then Some(1)
    else if "x-special/" <= e || e == "application/x-gnome-copied-files" then Some(2)
    else if e == "chromium/x-web-custom-data" then Some(3)
    else if "chromium/x-internal" <= e then None
    else if "text/" <= e then Some(4)
    else if '/' in e && 'a' <= e[0] <= 'z' then Some(5)
    else None
  }

  predicate Plain(m: Mime) { ';' !in m }

  // ------------------------------------------------------- the policy as a fold

  datatype Mimes = Mimes(choices: seq<Option<Mime>>, count: nat, bytes: nat, rejected: bool)

  const EMPTY: Mimes := Mimes([None, None, None, None, None, None], 0, 0, false)

  function Chosen(choices: seq<Option<Mime>>, m: Mime): seq<Option<Mime>>
    requires |choices| == RANKS
  {
    match Rank(m)
    case None => choices
    case Some(r) =>
      if choices[r].None? || (!Plain(choices[r].value) && Plain(m)) then choices[r := Some(m)] else choices
  }

  function Added(s: Mimes, m: Mime): Mimes
    requires |s.choices| == RANKS
  {
    if s.rejected then s
    else
      var t := s.(count := s.count + 1, bytes := s.bytes + |m|);
      if Bad(m) || t.count > MAX_OFFERS || t.bytes > MAX_BYTES then t.(rejected := true)
      else t.(choices := Chosen(s.choices, m))
  }

  /** The first filled choice from rank `r` on, and the choices without it. */
  function Taken(choices: seq<Option<Mime>>, r: nat): (Option<Mime>, seq<Option<Mime>>)
    requires r <= |choices|
    decreases |choices| - r
  {
    if r == |choices| then (None, choices)
    else if choices[r].Some? then (choices[r], choices[r := None])
    else Taken(choices, r + 1)
  }

  function Offered(offers: seq<Mime>): (s: Mimes)
    ensures |s.choices| == RANKS
  {
    if offers == [] then EMPTY else Added(Offered(offers[..|offers| - 1]), offers[|offers| - 1])
  }

  // ----------------------------------------------------------- policy in place

  class OfferedMimes {
    const choices: array<Option<Mime>>
    var count: nat
    var bytes: nat
    var rejected: bool

    ghost predicate Valid() { choices.Length == RANKS }

    ghost function Value(): (s: Mimes)
      reads this, choices
    {
      Mimes(choices[..], count, bytes, rejected)
    }

    constructor ()
      ensures Valid() && fresh(choices) && Value() == EMPTY
    {
      choices := new Option<Mime>[6](_ => None);
      count, bytes, rejected := 0, 0, false;
    }

    method Add(m: Mime)
      requires Valid()
      modifies this, choices
      ensures Value() == Added(old(Value()), m)
    {
      if rejected {
        return;
      }
      count, bytes := count + 1, bytes + |m|;
      rejected := Bad(m) || count > MAX_OFFERS || bytes > MAX_BYTES;
      if rejected {
        return;
      }
      match Rank(m) {
        case None =>
        case Some(r) =>
          if choices[r].None? || (!Plain(choices[r].value) && Plain(m)) {
            choices[r] := Some(m);
          }
      }
    }

    method Next() returns (m: Option<Mime>)
      requires Valid()
      modifies choices
      ensures old(rejected) ==> m == None && Value() == old(Value())
      ensures !old(rejected) ==> (m, Value().choices) == Taken(old(Value().choices), 0)
    {
      if rejected {
        return None;
      }
      ghost var before := choices[..];
      var r := 0;
      while r < choices.Length
        invariant r <= choices.Length && choices[..] == before
        invariant Taken(before, 0) == Taken(before, r)
      {
        if choices[r].Some? {
          m := choices[r];
          choices[r] := None;
          return;
        }
        r := r + 1;
      }
      m := None;
    }
  }

  // ----------------------------------------------------------------- rejection

  function TotalBytes(offers: seq<Mime>): nat {
    if offers == [] then 0 else TotalBytes(offers[..|offers| - 1]) + |offers[|offers| - 1]|
  }

  predicate Rejects(offers: seq<Mime>) {
    (exists m | m in offers :: Bad(m)) || |offers| > MAX_OFFERS || TotalBytes(offers) > MAX_BYTES
  }

  /** An offer is rejected exactly when it holds a bad type, too many types, or too many bytes. */
  lemma {:induction false} RejectedIff(offers: seq<Mime>)
    ensures Offered(offers).rejected <==> Rejects(offers)
    ensures !Rejects(offers) ==> Offered(offers).count == |offers| && Offered(offers).bytes == TotalBytes(offers)
  {
    if offers != [] {
      var init, last := offers[..|offers| - 1], offers[|offers| - 1];
      RejectedIff(init);
      assert offers == init + [last];
      assert forall m :: m in offers <==> m in init || m == last;
    }
  }

  lemma {:induction false} TotalBytesAppend(a: seq<Mime>, b: seq<Mime>)
    ensures TotalBytes(a + b) == TotalBytes(a) + TotalBytes(b)
  {
    if b == [] {
      assert a + b == a;
    } else {
      assert (a + b)[..|a + b| - 1] == a + b[..|b| - 1];
      TotalBytesAppend(a, b[..|b| - 1]);
    }
  }

  lemma WithoutOne(b: seq<Mime>, i: nat)
    requires i < |b|
    ensures multiset(b) == multiset(b[..i] + b[i + 1..]) + multiset{b[i]}
    ensures TotalBytes(b) == TotalBytes(b[..i] + b[i + 1..]) + |b[i]|
  {
    var one := [b[i]];
    assert b == b[..i] + one + b[i + 1..];
    TotalBytesAppend(b[..i] + one, b[i + 1..]);
    TotalBytesAppend(b[..i], one);
    TotalBytesAppend(b[..i], b[i + 1..]);
    assert one[..0] == [];
  }

  lemma {:induction false} TotalBytesOfPermutation(a: seq<Mime>, b: seq<Mime>)
    requires multiset(a) == multiset(b)
    ensures TotalBytes(a) == TotalBytes(b)
  {
    if a == [] {
      assert |multiset(b)| == |b|;
    } else {
      var k := |a| - 1;
      WithoutOne(a, k);
      assert a[..k] + a[k + 1..] == a[..k];
      assert a[k] in multiset(b);
      var i :| 0 <= i < |b| && b[i] == a[k];
      WithoutOne(b, i);
      Cancel(multiset(a[..k]), multiset(b[..i] + b[i + 1..]), a[k]);
      TotalBytesOfPermutation(a[..k], b[..i] + b[i + 1..]);
    }
  }

  lemma Cancel<T>(x: multiset<T>, y: multiset<T>, v: T)
    requires x + multiset{v} == y + multiset{v}
    ensures x == y
  {
    assert x == x + multiset{v} - multiset{v};
    assert y == y + multiset{v} - multiset{v};
  }

  /** The order in which a client announces its types cannot hide a rejected one. */
  lemma RejectionIgnoresOrder(a: seq<Mime>, b: seq<Mime>)
    requires multiset(a) == multiset(b)
    ensures Offered(a).rejected == Offered(b).rejected
  {
    RejectedIff(a);
    RejectedIff(b);
    TotalBytesOfPermutation(a, b);
    assert |a| == |multiset(a)| == |b|;
    assert forall m :: m in a <==> m in multiset(a);
    assert forall m :: m in b <==> m in multiset(b);
  }

  /** Nothing offered later undoes a rejection. */
  lemma {:induction false} RejectionIsPermanent(offers: seq<Mime>, more: seq<Mime>)
    requires Offered(offers).rejected
    ensures Offered(offers + more) == Offered(offers)
  {
    if more == [] {
      assert offers + more == offers;
    } else {
      assert (offers + more)[..|offers + more| - 1] == offers + more[..|more| - 1];
      RejectionIsPermanent(offers, more[..|more| - 1]);
    }
  }

  // --------------------------------------------------------------------- choice

  predicate Wanted(m: Mime, r: nat, plainOnly: bool) { Rank(m) == Some(r) && (plainOnly ==> Plain(m)) }

  /** The first offered type of a rank, optionally among those without parameters only. */
  function First(offers: seq<Mime>, r: nat, plainOnly: bool): (m: Option<Mime>)
    ensures m.Some? ==> Wanted(m.value, r, plainOnly)
  {
    if offers == [] then None
    else
      var earlier := First(offers[..|offers| - 1], r, plainOnly);
      if earlier.Some? then earlier
      else if Wanted(offers[|offers| - 1], r, plainOnly) then Some(offers[|offers| - 1])
      else None
  }

  /** It is indeed the first: no wanted type stands before it, and none at all when there is no first. */
  lemma {:induction false} FirstIsFirst(offers: seq<Mime>, r: nat, plainOnly: bool) returns (i: nat)
    ensures i <= |offers| && forall j | 0 <= j < i :: !Wanted(offers[j], r, plainOnly)
    ensures First(offers, r, plainOnly) == if i < |offers| then Some(offers[i]) else None
  {
    hide Wanted;
    i := 0;
    if offers != [] {
      i := FirstIsFirst(offers[..|offers| - 1], r, plainOnly);
      if i == |offers| - 1 && !Wanted(offers[i], r, plainOnly) { i := i + 1; }
    }
  }

  /** The first type of the rank without parameters, else the first one at all. */
  function Choice(offers: seq<Mime>, r: nat): Option<Mime> {
    if First(offers, r, true).Some? then First(offers, r, true) else First(offers, r, false)
  }

  lemma NonePlain(offers: seq<Mime>, r: nat)
    requires First(offers, r, true).None?
    ensures First(offers, r, false).Some? ==> !Plain(First(offers, r, false).value)
  {
    var i := FirstIsFirst(offers, r, true);
    var j := FirstIsFirst(offers, r, false);
  }

  lemma ChoiceOfOne(init: seq<Mime>, last: Mime, choices: seq<Option<Mime>>, r: nat)
    requires |choices| == RANKS && r < RANKS && choices[r] == Choice(init, r)
    ensures Chosen(choices, last)[r] == Choice(init + [last], r)
  {
    assert (init + [last])[..|init|] == init;
    if First(init, r, true).None? { NonePlain(init, r); }
  }

  lemma {:induction false} ChoicesAreBest(offers: seq<Mime>)
    requires !Rejects(offers)
    ensures forall r | 0 <= r < RANKS :: Offered(offers).choices[r] == Choice(offers, r)
  {
    RejectedIff(offers);
    if offers == [] {
      assert forall r | 0 <= r < RANKS :: EMPTY.choices[r] == None;
    } else {
      var init, last := offers[..|offers| - 1], offers[|offers| - 1];
      assert offers == init + [last];
      RejectedIff(init);
      ChoicesAreBest(init);
      forall r | 0 <= r < RANKS ensures Offered(offers).choices[r] == Choice(offers, r) {
        ChoiceOfOne(init, last, Offered(init).choices, r);
      }
    }
  }

  /** The best type of every rank from `r` on, in rank order. */
  function Ranked(offers: seq<Mime>, r: nat): seq<Mime>
    decreases RANKS - r
  {
    if r >= RANKS then []
    else (if Choice(offers, r).Some? then [Choice(offers, r).value] else []) + Ranked(offers, r + 1)
  }

  /** What repeated calls of `next` hand out. */
  function Drained(choices: seq<Option<Mime>>, calls: nat): seq<Option<Mime>>
    decreases calls
  {
    if calls == 0 then [] else [Taken(choices, 0).0] + Drained(Taken(choices, 0).1, calls - 1)
  }

  /** The values of `s`, then nothing, `calls` answers in all. */
  function Padded(s: seq<Mime>, calls: nat): seq<Option<Mime>> {
    if calls == 0 then []
    else if s == [] then [None] + Padded(s, calls - 1)
    else [Some(s[0])] + Padded(s[1..], calls - 1)
  }

  /** `choices` still holds exactly the best types of the ranks from `r` on. */
  ghost predicate HoldsFrom(offers: seq<Mime>, choices: seq<Option<Mime>>, r: nat) {
    && |choices| == RANKS && r <= RANKS
    && (forall k | 0 <= k < r :: choices[k] == None)
    && (forall k | r <= k < RANKS :: choices[k] == Choice(offers, k))
  }

  lemma {:induction false} TakenSkips(choices: seq<Option<Mime>>, r: nat, k: nat)
    requires r <= k <= |choices| && forall i | r <= i < k :: choices[i] == None
    ensures Taken(choices, r) == Taken(choices, k)
    decreases k - r
  {
    if r < k { TakenSkips(choices, r + 1, k); }
  }

  lemma {:induction false} DrainedFrom(offers: seq<Mime>, choices: seq<Option<Mime>>, r: nat, calls: nat)
    requires HoldsFrom(offers, choices, r)
    ensures Drained(choices, calls) == Padded(Ranked(offers, r), calls)
    decreases calls, RANKS - r
  {
    hide Choice;
    if calls > 0 {
      TakenSkips(choices, 0, r);
      if r == RANKS {
        DrainedFrom(offers, choices, r, calls - 1);
      } else if choices[r] == None {
        assert Ranked(offers, r) == [] + Ranked(offers, r + 1) == Ranked(offers, r + 1);
        DrainedFrom(offers, choices, r + 1, calls);
      } else {
        assert Ranked(offers, r)[1..] == Ranked(offers, r + 1);
        DrainedFrom(offers, choices[r := None], r + 1, calls - 1);
      }
    }
  }

  /**
    The policy: for an offer that is not rejected, successive calls of `next` yield for
    each rank in order the first type without parameters, else the first type, and then
    nothing; for a rejected offer they yield nothing at all.
    */
  lemma NextYieldsBestPerRank(offers: seq<Mime>, calls: nat)
    requires !Rejects(offers)
    ensures !Offered(offers).rejected
    ensures Drained(Offered(offers).choices, calls) == Padded(Ranked(offers, 0), calls)
  {
    RejectedIff(offers);
    ChoicesAreBest(offers);
    DrainedFrom(offers, Offered(offers).choices, 0, calls);
  }
}
