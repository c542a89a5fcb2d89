/** One clipboard transfer: a bounded, timed read of the offered bytes, chunk by chunk. */
module Transfers {
  import opened Tables
  import opened Wrappers

  const IDLE: nat := 5
  const TOTAL: nat := 15
  const CHUNK: nat := 64 * 1024

  /** What one non-blocking read came to. */
  datatype Read = Eof | Chunk(bytes: Bytes) | NotReady | Broken

  datatype Error = TimedOut | TooLarge | ReadFailed

  datatype Tick = Tick(now: nat, read: Read)

  predicate IsWhitespace(b: byte) { b == 0x20 || b == 0x09 || b == 0x0A || b == 0x0C || b == 0x0D }

  predicate Nonblank(data: Bytes) { exists i | 0 <= i < |data| :: !IsWhitespace(data[i]) }

  datatype State = State(data: Bytes, nonblank: bool, progress: nat)

  /** How many bytes the next read may return; one more than the limit is asked for to notice an excess. */
  function Room(limit: nat, length: nat): int { if limit + 1 - length < CHUNK then limit + 1 - length else CHUNK }

  function After(s: State, limit: nat, started: nat, tick: Tick): Result<State, Error>
  {
    if tick.now >= s.progress + IDLE || tick.now >= started + TOTAL then Err(TimedOut)
    else match tick.read
      case Broken => Err(ReadFailed)
      case Chunk(bytes) =>
        if |s.data| + |bytes| > limit then Err(TooLarge)
        else Ok(State(s.data + bytes, s.nonblank || Nonblank(bytes), tick.now))
      case _ => Ok(s)
  }

  class Transfer {
    const limit: nat
    const started: nat
    var data: Bytes
    var nonblank: bool
    var progress: nat

    ghost predicate Valid()
      reads this
    {
      |data| <= limit && nonblank == Nonblank(data)
    }

    ghost function Value(): State
      reads this
    {
      State(data, nonblank, progress)
    }

    constructor (limit: nat, now: nat)
      ensures Valid() && this.limit == limit && started == now && Value() == State([], false, now)
    {
      this.limit, started := limit, now;
      data, nonblank, progress := [], false, now;
    }

    /** A read never asks for zero bytes, so an empty answer really is the end of the data. */
    method Receive(tick: Tick) returns (done: Result<bool, Error>)
      requires Valid()
      requires tick.read.Chunk? ==> 0 < |tick.read.bytes| <= Room(limit, |data|)
      modifies this
      ensures Room(limit, |old(data)|) > 0
      ensures done.Ok? ==> Valid() && After(old(Value()), limit, started, tick) == Ok(Value())
      ensures done.Err? ==> After(old(Value()), limit, started, tick) == Err(done.error)
      ensures done == Ok(true) <==> done.Ok? && tick.read == Eof
    {
      if tick.now >= progress + IDLE || tick.now >= started + TOTAL {
        return Err(TimedOut);
      }
      match tick.read {
        case Eof => return Ok(true);
        case NotReady => return Ok(false);
        case Broken => return Err(ReadFailed);
        case Chunk(bytes) =>
          if |data| + |bytes| > limit {
            return Err(TooLarge);
          }
          NonblankAppend(data, bytes);
          progress, nonblank, data := tick.now, nonblank || Nonblank(bytes), data + bytes;
          return Ok(false);
      }
    }
  }

  lemma NonblankAppend(a: Bytes, b: Bytes)
    ensures Nonblank(a + b) <==> Nonblank(a) || Nonblank(b)
  {
    if Nonblank(a) {
      var i :| 0 <= i < |a| && !IsWhitespace(a[i]);
      assert (a + b)[i] == a[i];
    }
    if Nonblank(b) {
      var i :| 0 <= i < |b| && !IsWhitespace(b[i]);
      assert (a + b)[|a| + i] == b[i];
    }
  }

  /** A read asks for at least one byte, at most 64 KiB, and at most one byte beyond the limit. */
  lemma RoomIs(limit: nat, length: nat)
    requires length <= limit
    ensures 1 <= Room(limit, length) <= 65536 && length + Room(limit, length) <= limit + 1
    ensures Room(limit, length) < 65536 ==> length + Room(limit, length) == limit + 1
  {
  }

  // --------------------------------------------------------------- whole transfer

  function Received(ticks: seq<Tick>): Bytes {
    if ticks == [] then []
    else Received(ticks[..|ticks| - 1]) + (if ticks[|ticks| - 1].read.Chunk? then ticks[|ticks| - 1].read.bytes else [])
  }

  /** The last instant at which bytes arrived. */
  function LastProgress(ticks: seq<Tick>, started: nat): nat {
    if ticks == [] then started
    else if ticks[|ticks| - 1].read.Chunk? then ticks[|ticks| - 1].now
    else LastProgress(ticks[..|ticks| - 1], started)
  }

  predicate TickAllowed(ticks: seq<Tick>, k: nat, limit: nat, started: nat)
    requires k < |ticks|
  {
    && ticks[k].now < LastProgress(ticks[..k], started) + 5
    && ticks[k].now < started + 15
    && ticks[k].read != Broken
    && (ticks[k].read.Chunk? ==> |Received(ticks[..k + 1])| <= limit)
  }

  predicate AllAllowed(ticks: seq<Tick>, limit: nat, started: nat) {
    forall k: nat | k < |ticks| :: TickAllowed(ticks, k, limit, started)
  }

  lemma AllowedExtends(ticks: seq<Tick>, limit: nat, started: nat)
    requires ticks != []
    ensures AllAllowed(ticks, limit, started) <==>
      AllAllowed(ticks[..|ticks| - 1], limit, started) && TickAllowed(ticks, |ticks| - 1, limit, started)
  {
    var init := ticks[..|ticks| - 1];
    forall i: nat | i < |init| ensures TickAllowed(ticks, i, limit, started) == TickAllowed(init, i, limit, started) {
      assert init[..i] == ticks[..i] && init[..i + 1] == ticks[..i + 1];
    }
  }

  function Transferred(ticks: seq<Tick>, limit: nat, started: nat): Result<State, Error> {
    if ticks == [] then Ok(State([], false, started))
    else match Transferred(ticks[..|ticks| - 1], limit, started)
      case Err(e) => Err(e)
      case Ok(s) => After(s, limit, started, ticks[|ticks| - 1])
  }

  /** A transfer is blank exactly when it holds nothing but spaces, tabs, line feeds, form feeds and returns. */
  lemma BlankIff(ticks: seq<Tick>, limit: nat, started: nat)
    requires Transferred(ticks, limit, started).Ok?
    ensures !Transferred(ticks, limit, started).value.nonblank <==>
      forall b | b in Received(ticks) :: b as int in {32, 9, 10, 12, 13}
  {
    TransferSurvivesIff(ticks, limit, started);
    var data := Received(ticks);
    if b :| b in data && b as int !in {32, 9, 10, 12, 13} {
      var i :| 0 <= i < |data| && data[i] == b;
    }
    if i :| 0 <= i < |data| && !IsWhitespace(data[i]) {
      assert data[i] in data;
    }
  }

  /**
    A transfer survives exactly when no read failed, none came 5 seconds after the last
    bytes or 15 seconds after the start, and the bytes never exceeded the limit; it then
    holds exactly the bytes received, and is blank exactly when they are all whitespace.
    */
  lemma {:induction false} TransferSurvivesIff(ticks: seq<Tick>, limit: nat, started: nat)
    ensures Transferred(ticks, limit, started).Ok? <==> AllAllowed(ticks, limit, started)
    ensures Transferred(ticks, limit, started).Ok? ==>
      Transferred(ticks, limit, started).value
        == State(Received(ticks), Nonblank(Received(ticks)), LastProgress(ticks, started))
    ensures Transferred(ticks, limit, started).Ok? ==> |Received(ticks)| <= limit
  {
    if ticks != [] {
      var init, k := ticks[..|ticks| - 1], |ticks| - 1;
      TransferSurvivesIff(init, limit, started);
      assert ticks[..k + 1] == ticks;
      if ticks[k].read.Chunk? {
        NonblankAppend(Received(init), ticks[k].read.bytes);
      } else {
        assert Received(ticks) == Received(init);
      }
      AllowedExtends(ticks, limit, started);
    }
  }
}
