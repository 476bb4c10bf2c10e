/** The per-request append sequencer: what one locked region of a state object
    does, as mutable objects. The interleavings of many callers over these
    regions are the subject of module AppendProtocol. */
module AppendSequence {

  /** Ten minutes in nanoseconds, the retention of an idle state. */
  const RETENTION: int := 600_000_000_000

  const MAX_SEQ: int := 0x7fff_ffff_ffff_ffff
  const MIN_SEQ: int := -0x8000_0000_0000_0000

  /** Numbers are signed 64-bit integers and incrementing wraps around. */
  function Increment(n: int): int {
    if n == MAX_SEQ then MIN_SEQ else n + 1
  }

  datatype Core = Core(next: int, processing: bool)

  datatype Outcome = Granted | Stale | Wait

  function Normalised(next: int): int {
    if next <= 0 then 1 else next
  }

  /** The decision taken under the lock by one turn of the acquire loop. */
  function Decide(c: Core, seqno: int): (Core, Outcome) {
    var next := Normalised(c.next);
    if seqno == 1 && next > 1 then
      if c.processing then (Core(next, true), Wait) else (Core(1, true), Granted)
    else if seqno < next then (Core(next, c.processing), Stale)
    else if seqno == next && !c.processing then (Core(next, true), Granted)
    else (Core(next, c.processing), Wait)
  }

  predicate Releases(c: Core, seqno: int) {
    seqno > 0 && c.processing && c.next == seqno
  }

  /** Releasing a ticket frees the state and moves on to the following number;
      any other release leaves it alone. */
  function AfterRelease(c: Core, seqno: int): Core {
    if Releases(c, seqno) then Core(Increment(c.next), false) else c
  }

  /** The zero time stands for a state that was never used. */
  predicate IsExpired(processing: bool, updatedAt: int, cutoff: int) {
    !processing && updatedAt != 0 && updatedAt < cutoff
  }

  class ReadyChannel {
    var closed: bool

    constructor ()
      ensures !closed
    {
      closed := false;
    }
  }

  class State {
    var next: int
    var processing: bool
    var ready: ReadyChannel?
    var updatedAt: int

    constructor (now: int)
      ensures Value() == Core(1, false) && updatedAt == now
      ensures ready != null && fresh(ready) && !ready.closed
    {
      next, processing, updatedAt := 1, false, now;
      ready := new ReadyChannel();
    }

    function Value(): Core
      reads this
    {
      Core(next, processing)
    }

    /** One locked region of acquire. A waiting caller leaves with the channel
        that was current while it held the lock. */
    method TryAcquire(seqno: int, now: int) returns (outcome: Outcome, captured: ReadyChannel)
      modifies this
      ensures (Value(), outcome) == Decide(old(Value()), seqno)
      ensures updatedAt == now
      ensures captured == ready
      ensures if old(ready) == null then fresh(captured) && !captured.closed else captured == old(ready)
    {
      if next <= 0 {
        next := 1;
      }
      if ready == null {
        ready := new ReadyChannel();
      }
      captured := ready;
      updatedAt := now;
      if seqno == 1 && next > 1 {
        if processing {
          return Wait, captured;
        }
        next := 1;
        processing := true;
        return Granted, captured;
      }
      if seqno < next {
        outcome := Stale;
      } else if seqno == next && !processing {
        processing := true;
        outcome := Granted;
      } else {
        outcome := Wait;
      }
    }

    /** An effective release closes exactly the channel that waiters captured
        and installs a fresh one. */
    method Release(seqno: int, now: int)
      requires Releases(Value(), seqno) ==> ready != null && !ready.closed
      modifies this, ready
      ensures Value() == AfterRelease(old(Value()), seqno)
      ensures updatedAt == if seqno > 0 then now else old(updatedAt)
      ensures if seqno > 0 && old(processing) && old(next) == seqno
              then !processing && old(ready) != null && old(ready).closed && ready != null && fresh(ready) && !ready.closed
              else Value() == old(Value()) && ready == old(ready) && (ready != null ==> ready.closed == old(ready.closed))
    {
      if seqno <= 0 {
        return;
      }
      if processing && next == seqno {
        processing := false;
        next := Increment(next);
        ready.closed := true;
        ready := new ReadyChannel();
      }
      updatedAt := now;
    }

    method Expired(cutoff: int) returns (expired: bool)
      ensures expired == IsExpired(processing, updatedAt, cutoff)
    {
      if processing {
        return false;
      }
      expired := updatedAt != 0 && updatedAt < cutoff;
    }

    method Touch(now: int)
      modifies this`updatedAt
      ensures updatedAt == now
    {
      updatedAt := now;
    }
  }

  class Tracker {
    var states: map<string, State>

    constructor ()
      ensures states == map[]
    {
      states := map[];
    }

    ghost predicate Survives(key: string, cutoff: int)
      requires key in states
      reads this, states.Values
    {
      !IsExpired(states[key].processing, states[key].updatedAt, cutoff)
    }

    /** Deletes the expired states. Keys may be visited in any order. */
    method Sweep(cutoff: int)
      modifies this`states
      ensures states == map key | key in old(states) && old(Survives(key, cutoff)) :: old(states)[key]
    {
      ghost var before := states;
      var todo := states.Keys;
      while todo != {}
        invariant todo <= before.Keys
        invariant states == map key | key in before && (key in todo || old(Survives(key, cutoff))) :: before[key]
        decreases |todo|
      {
        var key :| key in todo;
        var expired := states[key].Expired(cutoff);
        if expired {
          states := states - {key};
        }
        todo := todo - {key};
      }
    }

    /** Sweeps the table, then finds or creates the state of a request. */
    method FindState(requestId: string, now: int) returns (state: State)
      modifies this, states.Values
      ensures requestId in states && states[requestId] == state && state.updatedAt == now
      ensures states.Keys == (set key | key in old(states) && old(Survives(key, now - RETENTION))) + {requestId}
      ensures forall key :: key in states && key != requestId ==> key in old(states) && states[key] == old(states[key])
      ensures if requestId in old(states) && old(Survives(requestId, now - RETENTION))
              then state == old(states[requestId]) && state.Value() == old(states[requestId].Value()) && state.ready == old(states[requestId].ready)
              else fresh(state) && state.Value() == Core(1, false) && state.ready != null && fresh(state.ready) && !state.ready.closed
      ensures forall key :: key in old(states) && old(states[key]) != state ==>
                old(states[key]).Value() == old(states[key].Value()) && old(states[key]).updatedAt == old(states[key].updatedAt)
    {
      Sweep(now - RETENTION);
      if requestId in states {
        state := states[requestId];
        state.Touch(now);
        return;
      }
      state := new State(now);
      states := states[requestId := state];
    }
  }
}
