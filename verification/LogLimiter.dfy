/** The log rate limiter: one allowed message per key and window, entries that
    expire when unused and an oldest-first bound on the table. Times are in
    nanoseconds; keys are already trimmed. */
module LogLimiter {

  const TTL: int := 300_000_000_000
  const DEFAULT_WINDOW: int := 30_000_000_000
  const MAX_KEYS: nat := 1024

  datatype Entry = Entry(nextAllowed: int, lastSeen: int, suppressed: nat)

  type Table = map<string, Entry>

  // ----- pruning

  function Unexpired(t: Table, now: int): Table {
    map key | key in t && t[key].lastSeen >= now - TTL :: t[key]
  }

  predicate OldestFirst(t: Table, evicted: set<string>) {
    && evicted <= t.Keys
    && forall e, k :: e in evicted && k in t && k !in evicted ==> t[e].lastSeen <= t[k].lastSeen
  }

  /** These keys are what the capacity bound may remove: none below the bound, and
      otherwise just enough of the least recently seen ones. */
  predicate OldestOverflow(t: Table, evicted: set<string>) {
    && OldestFirst(t, evicted)
    && |t.Keys - evicted| == (if |t.Keys| >= MAX_KEYS then MAX_KEYS - 1 else |t.Keys|)
  }

  function Pruned(t: Table, now: int, evicted: set<string>): Table {
    Unexpired(t, now) - evicted
  }

  // ----- the answer to one call

  function Answered(t: Table, window: int, key: string, now: int): Table {
    if key !in t then t[key := Entry(now + window, now, 0)]
    else if now < t[key].nextAllowed then t[key := t[key].(lastSeen := now, suppressed := t[key].suppressed + 1)]
    else t[key := Entry(now + window, now, 0)]
  }

  predicate Allowed(t: Table, key: string, now: int) {
    key !in t || now >= t[key].nextAllowed
  }

  function Reported(t: Table, key: string, now: int): nat {
    if key in t && Allowed(t, key, now) then t[key].suppressed else 0
  }

  class Limiter {
    const window: int
    var entries: Table

    constructor (window: int)
      ensures this.window == (if window <= 0 then 30_000_000_000 else window)
      ensures entries == map[]
    {
      this.window := if window <= 0 then DEFAULT_WINDOW else window;
      entries := map[];
    }

    /** The key seen least recently; the empty string only for an empty table. */
    method FindOldest() returns (oldestKey: string)
      requires "" !in entries
      ensures entries != map[] ==> oldestKey in entries
      ensures forall key :: key in entries ==> oldestKey in entries && entries[oldestKey].lastSeen <= entries[key].lastSeen
    {
      oldestKey := "";
      var oldestSeen := 0;
      var todo := entries.Keys;
      while todo != {}
        invariant todo <= entries.Keys
        invariant oldestKey == "" ==> todo == entries.Keys
        invariant oldestKey != "" ==> oldestKey in entries && oldestSeen == entries[oldestKey].lastSeen
        invariant forall key :: key in entries && key !in todo ==> oldestKey != "" && oldestSeen <= entries[key].lastSeen
        decreases |todo|
      {
        var key :| key in todo;
        if oldestKey == "" || entries[key].lastSeen < oldestSeen {
          oldestKey := key;
          oldestSeen := entries[key].lastSeen;
        }
        todo := todo - {key};
      }
    }

    method Expire(now: int)
      modifies this`entries
      ensures entries == Unexpired(old(entries), now)
    {
      var cutoff := now - TTL;
      var todo := entries.Keys;
      while todo != {}
        invariant todo <= old(entries).Keys
        invariant entries == map key | key in old(entries) && (key in todo || old(entries)[key].lastSeen >= cutoff) :: old(entries)[key]
        decreases |todo|
      {
        var key :| key in todo;
        if entries[key].lastSeen < cutoff {
          entries := entries - {key};
        }
        todo := todo - {key};
      }
    }

    method EnforceCapacity() returns (ghost evicted: set<string>)
      requires "" !in entries
      modifies this`entries
      ensures OldestOverflow(old(entries), evicted) && entries == old(entries) - evicted
    {
      evicted := {};
      ghost var before := entries;
      assert before.Keys - {} == before.Keys;
      while |entries| >= MAX_KEYS
        invariant entries == before - evicted && "" !in entries
        invariant OldestFirst(before, evicted)
        invariant |entries.Keys| == |before.Keys - evicted|
        invariant evicted == {} ==> |entries.Keys| == |before.Keys|
        invariant evicted != {} ==> |before.Keys| >= MAX_KEYS && |entries.Keys| >= MAX_KEYS - 1
        decreases |entries|
      {
        var oldestKey := FindOldest();
        assert entries.Keys != {};
        EvictOne(before, evicted, oldestKey);
        entries := entries - {oldestKey};
        evicted := evicted + {oldestKey};
      }
    }

    method Prune(now: int) returns (ghost evicted: set<string>)
      requires "" !in entries
      modifies this`entries
      ensures OldestOverflow(Unexpired(old(entries), now), evicted)
      ensures entries == Pruned(old(entries), now, evicted)
    {
      Expire(now);
      evicted := EnforceCapacity();
    }

    /** The answer once the table is pruned. */
    method Answer(key: string, now: int) returns (suppressed: nat, ok: bool)
      modifies this`entries
      ensures entries == Answered(old(entries), window, key, now)
      ensures ok == Allowed(old(entries), key, now) && suppressed == Reported(old(entries), key, now)
    {
      if key !in entries {
        entries := entries[key := Entry(now + window, now, 0)];
        return 0, true;
      }
      var entry := entries[key];
      if now < entry.nextAllowed {
        entries := entries[key := entry.(lastSeen := now, suppressed := entry.suppressed + 1)];
        return 0, false;
      }
      suppressed := entry.suppressed;
      entries := entries[key := Entry(now + window, now, 0)];
      ok := true;
    }

    method ShouldLog(key: string, now: int) returns (suppressed: nat, ok: bool, ghost evicted: set<string>)
      requires "" !in entries
      modifies this`entries
      ensures "" !in entries
      ensures Effect(old(entries), Call(key, now, evicted, suppressed, ok))
      ensures entries == After(old(entries), window, Call(key, now, evicted, suppressed, ok))
    {
      if key == "" {
        return 0, true, {};
      }
      evicted := Prune(now);
      suppressed, ok := Answer(key, now);
    }
  }

  lemma EvictOne(t: Table, evicted: set<string>, key: string)
    requires OldestFirst(t, evicted) && key in t - evicted
    requires forall k :: k in t - evicted ==> t[key].lastSeen <= t[k].lastSeen
    ensures OldestFirst(t, evicted + {key})
    ensures t - evicted - {key} == t - (evicted + {key})
    ensures |(t - (evicted + {key})).Keys| == |t.Keys - (evicted + {key})| == |t.Keys - evicted| - 1
  {
    assert t.Keys - (evicted + {key}) == (t.Keys - evicted) - {key};
    assert (t - (evicted + {key})).Keys == t.Keys - (evicted + {key});
    forall e, k | e in evicted + {key} && k in t && k !in evicted + {key}
      ensures t[e].lastSeen <= t[k].lastSeen
    {
      assert k in t - evicted;
    }
  }

  // ----- whole runs

  /** One call with its outcome and the keys the capacity bound evicted. */
  datatype Call = Call(key: string, now: int, evicted: set<string>, suppressed: nat, ok: bool)

  predicate Effect(t: Table, c: Call) {
    if c.key == "" then c.ok && c.suppressed == 0 && c.evicted == {}
    else
      var p := Pruned(t, c.now, c.evicted);
      && OldestOverflow(Unexpired(t, c.now), c.evicted)
      && c.ok == Allowed(p, c.key, c.now)
      && c.suppressed == Reported(p, c.key, c.now)
  }

  function After(t: Table, window: int, c: Call): Table {
    if c.key == "" then t else Answered(Pruned(t, c.now, c.evicted), window, c.key, c.now)
  }

  predicate Step(before: Table, window: int, c: Call, after: Table) {
    Effect(before, c) && after == After(before, window, c)
  }

  predicate StepAt(tables: seq<Table>, calls: seq<Call>, window: int, i: nat)
    requires |tables| == |calls| + 1 && i < |calls|
  {
    Step(tables[i], window, calls[i], tables[i + 1])
  }

  /** Calls from the empty table on, in the order in which they take the lock. Each
      call reads its clock before that, so the times may come in any order. */
  ghost predicate IsRun(tables: seq<Table>, calls: seq<Call>, window: int) {
    && |tables| == |calls| + 1
    && tables[0] == map[]
    && forall i :: 0 <= i < |calls| ==> StepAt(tables, calls, window, i)
  }

  lemma StepIsBounded(t: Table, window: int, c: Call)
    requires Effect(t, c) && |t.Keys| <= MAX_KEYS
    ensures |After(t, window, c).Keys| <= MAX_KEYS
  {
    if c.key != "" {
      var p := Pruned(t, c.now, c.evicted);
      assert p.Keys == Unexpired(t, c.now).Keys - c.evicted;
      assert |p.Keys| <= MAX_KEYS - 1;
      assert After(t, window, c).Keys == p.Keys + {c.key};
    }
  }

  /** The table never holds more keys than its bound. */
  lemma {:induction false} TableIsBounded(tables: seq<Table>, calls: seq<Call>, window: int, i: nat)
    requires IsRun(tables, calls, window) && i <= |calls|
    ensures |tables[i]| <= 1024
  {
    if i > 0 {
      TableIsBounded(tables, calls, window, i - 1);
      assert StepAt(tables, calls, window, i - 1);
      StepIsBounded(tables[i - 1], window, calls[i - 1]);
    }
  }

  /** The bound evicts nothing from a table of fewer than 1024 live keys, and one key
      for a table that is full. */
  lemma EvictionIff(t: Table, c: Call)
    requires Effect(t, c) && c.key != "" && |t.Keys| <= 1024
    ensures c.evicted <= Unexpired(t, c.now).Keys
    ensures |c.evicted| == if |Unexpired(t, c.now).Keys| == 1024 then 1 else 0
    ensures forall e, k :: e in c.evicted && k in Unexpired(t, c.now) && k !in c.evicted ==> t[e].lastSeen <= t[k].lastSeen
  {
    var live := Unexpired(t, c.now);
    assert live.Keys <= t.Keys;
    Fewer(live.Keys, t.Keys);
    assert live.Keys == (live.Keys - c.evicted) + c.evicted;
  }

  lemma {:induction false} Fewer(a: set<string>, b: set<string>)
    requires a <= b
    ensures |a| <= |b|
  {
    assert b == a + (b - a);
  }

  // ----- spacing

  /** No call takes the lock more than this long after reading its clock: times go
      back by at most that much. */
  ghost predicate Delayed(calls: seq<Call>, delay: int) {
    forall i, j :: 0 <= i < j < |calls| ==> calls[i].now <= calls[j].now + delay
  }

  /** Times at which the calls took the lock, in order, each within the delay after
      the clock was read. */
  predicate LockTimes(calls: seq<Call>, delay: int, locked: seq<int>) {
    && |locked| == |calls|
    && (forall i :: 0 <= i < |calls| ==> calls[i].now <= locked[i] <= calls[i].now + delay)
    && (forall i, j :: 0 <= i < j < |calls| ==> locked[i] <= locked[j])
  }

  /** The latest clock reading of the first n calls, or this one if it is later. */
  function Latest(calls: seq<Call>, n: nat, first: int): int
    requires n <= |calls|
  {
    if n == 0 then first
    else
      var before := Latest(calls, n - 1, first);
      if before < calls[n - 1].now then calls[n - 1].now else before
  }

  lemma {:induction false} LatestGrows(calls: seq<Call>, n: nat, m: nat, first: int)
    requires n <= m <= |calls|
    ensures Latest(calls, n, first) <= Latest(calls, m, first)
    ensures n > 0 ==> calls[n - 1].now <= Latest(calls, m, first)
    decreases m
  {
    if n < m {
      LatestGrows(calls, n, m - 1, first);
    }
  }

  lemma {:induction false} LatestIsWithin(calls: seq<Call>, delay: int, n: nat, i: nat)
    requires Delayed(calls, delay) && delay >= 0 && n <= i + 1 && i < |calls|
    ensures Latest(calls, n, calls[0].now) <= calls[i].now + delay
    decreases n
  {
    if n > 0 {
      LatestIsWithin(calls, delay, n - 1, i);
    }
  }

  function LatestTimes(calls: seq<Call>): seq<int> {
    seq(|calls|, i requires 0 <= i < |calls| => Latest(calls, i + 1, calls[0].now))
  }

  lemma LockTimesExist(calls: seq<Call>, delay: int)
    requires Delayed(calls, delay) && delay >= 0
    ensures LockTimes(calls, delay, LatestTimes(calls))
  {
    forall i | 0 <= i < |calls|
      ensures calls[i].now <= LatestTimes(calls)[i] <= calls[i].now + delay
    {
      LatestGrows(calls, i + 1, i + 1, calls[0].now);
      LatestIsWithin(calls, delay, i + 1, i);
    }
    forall i, j | 0 <= i < j < |calls|
      ensures LatestTimes(calls)[i] <= LatestTimes(calls)[j]
    {
      LatestGrows(calls, i + 1, j + 1, calls[0].now);
    }
  }

  /** Going back by at most the delay is the same as having lock times. */
  lemma DelayedIff(calls: seq<Call>, delay: int)
    requires delay >= 0
    ensures Delayed(calls, delay) <==> exists locked :: LockTimes(calls, delay, locked)
  {
    if Delayed(calls, delay) {
      LockTimesExist(calls, delay);
    }
    if locked :| LockTimes(calls, delay, locked) {
      forall i, j | 0 <= i < j < |calls|
        ensures calls[i].now <= calls[j].now + delay
      {
        assert calls[i].now <= locked[i] <= locked[j] <= calls[j].now + delay;
      }
    }
  }

  /** Since call i the key was not evicted by the capacity bound before call j. */
  predicate KeptBetween(calls: seq<Call>, key: string, i: nat, j: nat) {
    forall m :: i < m <= j && m < |calls| ==> key !in calls[m].evicted
  }

  /** Two allowed calls of one key, which stayed out of the evictions between them. */
  predicate AllowedTwice(calls: seq<Call>, i: nat, j: nat) {
    && i < j < |calls| && calls[i].key == calls[j].key != "" && calls[i].ok && calls[j].ok
    && KeptBetween(calls, calls[i].key, i, j)
  }

  /** The entry of a key forbids it until a time, having been seen since another. */
  predicate Guards(t: Table, key: string, since: int, until: int) {
    key in t && t[key].nextAllowed >= until && t[key].lastSeen >= since
  }

  /** A call that neither evicts the key nor lets it expire keeps the guard. */
  lemma StepGuards(t: Table, window: int, c: Call, key: string, since: int, until: int)
    requires Effect(t, c) && Guards(t, key, since, until) && key !in c.evicted
    requires since <= c.now <= since + TTL && window > 0
    ensures Guards(After(t, window, c), key, since, until)
  {
  }

  lemma AllowedGuards(t: Table, window: int, c: Call)
    requires Effect(t, c) && c.ok && c.key != ""
    ensures Guards(After(t, window, c), c.key, c.now, c.now + window)
  {
  }

  /** If call j comes less than a window after the allowed call i, then the entry of
      the key is there all the time between them and forbids it. */
  lemma {:induction false} EntryGuardsWindow(tables: seq<Table>, calls: seq<Call>, window: int, delay: int, i: nat, m: nat, j: nat)
    requires IsRun(tables, calls, window) && Delayed(calls, delay) && window > 0 && delay >= 0 && window + 2 * delay <= TTL + 1
    requires i <= m < j < |calls| && calls[i].key != "" && calls[i].ok && KeptBetween(calls, calls[i].key, i, m)
    requires calls[j].now < calls[i].now + window
    ensures Guards(tables[m + 1], calls[i].key, calls[i].now - delay, calls[i].now + window)
    decreases m
  {
    assert StepAt(tables, calls, window, m);
    if m > i {
      EntryGuardsWindow(tables, calls, window, delay, i, m - 1, j);
      assert calls[i].now <= calls[m].now + delay && calls[m].now <= calls[j].now + delay;
      StepGuards(tables[m], window, calls[m], calls[i].key, calls[i].now - delay, calls[i].now + window);
    } else {
      AllowedGuards(tables[m], window, calls[m]);
    }
  }

  lemma GuardDenies(t: Table, c: Call, since: int, until: int)
    requires Effect(t, c) && c.key != "" && Guards(t, c.key, since, until) && c.key !in c.evicted
    requires c.now <= since + TTL && c.now < until
    ensures !c.ok
  {
  }

  /** Two allowed calls of a key are at least one window apart, unless the capacity
      bound evicted the key in between. Neither expiry nor calls that take the lock
      late can break this as long as the window and twice the delay are no longer
      than an entry lives. */
  lemma AllowedCallsAreSpaced(tables: seq<Table>, calls: seq<Call>, window: int, delay: int, i: nat, j: nat)
    requires IsRun(tables, calls, window) && Delayed(calls, delay) && window > 0 && delay >= 0 && window + 2 * delay <= TTL + 1
    requires AllowedTwice(calls, i, j)
    ensures calls[j].now - calls[i].now >= window
  {
    if calls[j].now < calls[i].now + window {
      EntryGuardsWindow(tables, calls, window, delay, i, j - 1, j);
      assert StepAt(tables, calls, window, j);
      GuardDenies(tables[j], calls[j], calls[i].now - delay, calls[i].now + window);
      assert false;
    }
  }

  /** The table with just this entry. */
  function Single(key: string, e: Entry): Table {
    map[key := e]
  }

  lemma EvictNothing(t: Table)
    requires |t.Keys| < MAX_KEYS
    ensures OldestOverflow(t, {}) && t - {} == t
  {
    assert t.Keys - {} == t.Keys;
  }

  /** A call that removes nothing. */
  lemma PlainStep(t: Table, window: int, key: string, now: int)
    requires key != "" && Unexpired(t, now) == t && |t.Keys| < MAX_KEYS
    ensures Step(t, window, Call(key, now, {}, Reported(t, key, now), Allowed(t, key, now)), Answered(t, window, key, now))
  {
    EvictNothing(t);
  }

  lemma SingleIsKept(key: string, e: Entry, now: int)
    requires e.lastSeen >= now - TTL
    ensures Unexpired(Single(key, e), now) == Single(key, e) && |Single(key, e).Keys| < MAX_KEYS
  {
    assert Single(key, e).Keys == {key};
  }

  lemma FirstCall(window: int, key: string, now: int)
    requires key != ""
    ensures Step(map[], window, Call(key, now, {}, 0, true), Single(key, Entry(now + window, now, 0)))
  {
    var empty: Table := map[];
    assert Unexpired(empty, now) == empty;
    PlainStep(empty, window, key, now);
  }

  /** A denied call that read its clock earlier sets the time of last use back. */
  lemma LateDeniedCall(window: int, key: string, now: int)
    requires key != "" && now < window && now <= 0
    ensures Step(Single(key, Entry(window, 0, 0)), window, Call(key, now, {}, 0, false), Single(key, Entry(window, now, 1)))
  {
    SingleIsKept(key, Entry(window, 0, 0), now);
    PlainStep(Single(key, Entry(window, 0, 0)), window, key, now);
    assert Answered(Single(key, Entry(window, 0, 0)), window, key, now) == Single(key, Entry(window, now, 1));
  }

  lemma CallOfAnotherKey(window: int, was: string, key: string, now: int, e: Entry)
    requires key != "" && e.lastSeen < now - TTL
    ensures Step(Single(was, e), window, Call(key, now, {}, 0, true), Single(key, Entry(now + window, now, 0)))
  {
    assert Unexpired(Single(was, e), now) == map[];
    FirstCall(window, key, now);
  }

  lemma AllowedAgain(window: int, other: string, key: string, now: int, e: Entry)
    requires key != "" && key != other && e.lastSeen >= now - TTL
    ensures Step(Single(other, e), window, Call(key, now, {}, 0, true), Single(other, e)[key := Entry(now + window, now, 0)])
  {
    SingleIsKept(other, e, now);
    PlainStep(Single(other, e), window, key, now);
  }

  lemma FourCalls(t: seq<Table>, c: seq<Call>, window: int)
    requires |t| == 5 && |c| == 4 && t[0] == map[]
    requires StepAt(t, c, window, 0) && StepAt(t, c, window, 1) && StepAt(t, c, window, 2) && StepAt(t, c, window, 3)
    ensures IsRun(t, c, window)
  {
  }

  /** The times of the calls that break the law: k is allowed, a call for k that read
      its clock earlier is denied and sets the time of last use back, a call for x
      lets k expire and k, again with an older clock reading, is allowed too early. */
  function LateTimes(delay: int): seq<int> {
    [0, -delay, TTL + 1 - delay, if TTL + 1 - delay < 0 then -delay else TTL + 1 - 2 * delay]
  }

  function LateCalls(k: string, x: string, delay: int): seq<Call> {
    var at := LateTimes(delay);
    [Call(k, at[0], {}, 0, true), Call(k, at[1], {}, 0, false), Call(x, at[2], {}, 0, true), Call(k, at[3], {}, 0, true)]
  }

  function LateTables(k: string, x: string, window: int, delay: int): seq<Table> {
    var at := LateTimes(delay);
    var last := Entry(at[2] + window, at[2], 0);
    [map[], Single(k, Entry(window, 0, 0)), Single(k, Entry(window, at[1], 1)), Single(x, last),
     Single(x, last)[k := Entry(at[3] + window, at[3], 0)]]
  }

  lemma LateCallsAreDelayed(k: string, x: string, delay: int)
    requires k != "" && delay >= 0
    ensures Delayed(LateCalls(k, x, delay), delay) && AllowedTwice(LateCalls(k, x, delay), 0, 3)
  {
  }

  lemma StepIntro(t: seq<Table>, c: seq<Call>, window: int, i: nat, before: Table, call: Call, after: Table)
    requires |t| == |c| + 1 && i < |c| && t[i] == before && c[i] == call && t[i + 1] == after
    requires Step(before, window, call, after)
    ensures StepAt(t, c, window, i)
  {
  }

  lemma LateStep0(k: string, x: string, window: int, delay: int)
    requires k != ""
    ensures StepAt(LateTables(k, x, window, delay), LateCalls(k, x, delay), window, 0)
  {
    FirstCall(window, k, 0);
  }

  lemma LateStep1(k: string, x: string, window: int, delay: int)
    requires k != "" && window > 0 && delay >= 0
    ensures StepAt(LateTables(k, x, window, delay), LateCalls(k, x, delay), window, 1)
  {
    LateDeniedCall(window, k, -delay);
    StepIntro(LateTables(k, x, window, delay), LateCalls(k, x, delay), window, 1,
              Single(k, Entry(window, 0, 0)), Call(k, -delay, {}, 0, false), Single(k, Entry(window, -delay, 1)));
  }

  lemma LateStep2(k: string, x: string, window: int, delay: int)
    requires x != ""
    ensures StepAt(LateTables(k, x, window, delay), LateCalls(k, x, delay), window, 2)
  {
    CallOfAnotherKey(window, k, x, TTL + 1 - delay, Entry(window, -delay, 1));
  }

  lemma LateStep3(k: string, x: string, window: int, delay: int)
    requires k != "" && k != x && delay >= 0
    ensures StepAt(LateTables(k, x, window, delay), LateCalls(k, x, delay), window, 3)
  {
    var at := LateTimes(delay);
    var last := Entry(at[2] + window, at[2], 0);
    AllowedAgain(window, x, k, at[3], last);
    StepIntro(LateTables(k, x, window, delay), LateCalls(k, x, delay), window, 3,
              Single(x, last), Call(k, at[3], {}, 0, true), Single(x, last)[k := Entry(at[3] + window, at[3], 0)]);
  }

  lemma LateCallsBreakSpacing(k: string, x: string, window: int, delay: int)
    requires k != "" && x != "" && k != x && window > 0 && delay >= 0 && window + 2 * delay > TTL + 1
    ensures var calls := LateCalls(k, x, delay);
            && IsRun(LateTables(k, x, window, delay), calls, window) && Delayed(calls, delay) && AllowedTwice(calls, 0, 3)
            && calls[3].now - calls[0].now < window
  {
    LateStep0(k, x, window, delay);
    LateStep1(k, x, window, delay);
    LateStep2(k, x, window, delay);
    LateStep3(k, x, window, delay);
    FourCalls(LateTables(k, x, window, delay), LateCalls(k, x, delay), window);
    LateCallsAreDelayed(k, x, delay);
  }

  /** The spacing law, as a statement about a window and a delay. */
  ghost predicate Spaces(window: int, delay: int) {
    forall tables, calls: seq<Call>, i: nat, j: nat :: IsRun(tables, calls, window) && Delayed(calls, delay) && AllowedTwice(calls, i, j) ==>
      calls[j].now - calls[i].now >= window
  }

  /** Spacing is guaranteed if and only if the window and twice the longest delay are
      no longer than an entry lives. A limiter's window is always positive. */
  lemma SpacingIff(window: int, delay: int)
    requires window > 0 && delay >= 0
    ensures Spaces(window, delay) <==> window + 2 * delay <= 300_000_000_001
  {
    if window + 2 * delay <= TTL + 1 {
      forall tables, calls: seq<Call>, i: nat, j: nat | IsRun(tables, calls, window) && Delayed(calls, delay) && AllowedTwice(calls, i, j)
        ensures calls[j].now - calls[i].now >= window
      {
        AllowedCallsAreSpaced(tables, calls, window, delay, i, j);
      }
    } else {
      LateCallsBreakSpacing("k", "x", window, delay);
    }
  }

  /** The default window tolerates delays of 135 seconds, and no nanosecond more. */
  lemma DefaultWindowSpaces(delay: int)
    requires delay >= 0
    ensures Spaces(30_000_000_000, delay) <==> delay <= 135_000_000_000
  {
    SpacingIff(DEFAULT_WINDOW, delay);
  }

  // ----- what an entry remembers

  lemma StepOrigin(t: Table, window: int, c: Call, after: Table, key: string)
    requires Step(t, window, c, after) && key in after
    ensures (c.key == key && c.ok && after[key].nextAllowed == c.now + window)
         || (key in t && t[key].nextAllowed == after[key].nextAllowed)
  {
  }

  /** The entry stems from the allowed call i, which set its next allowed time. */
  predicate Origin(t: Table, calls: seq<Call>, window: int, key: string, i: nat)
    requires key in t && i < |calls|
  {
    calls[i].key == key && calls[i].ok && t[key].nextAllowed == calls[i].now + window
  }

  lemma OriginStep(tables: seq<Table>, calls: seq<Call>, window: int, m: nat, key: string)
    requires IsRun(tables, calls, window) && m < |calls| && key in tables[m + 1]
    ensures Origin(tables[m + 1], calls, window, key, m)
         || (key in tables[m] && tables[m][key].nextAllowed == tables[m + 1][key].nextAllowed)
  {
    assert StepAt(tables, calls, window, m);
    StepOrigin(tables[m], window, calls[m], tables[m + 1], key);
  }

  lemma {:induction false} EntryHasOrigin(tables: seq<Table>, calls: seq<Call>, window: int, m: nat, key: string) returns (i: nat)
    requires IsRun(tables, calls, window) && m <= |calls| && key in tables[m]
    ensures i < m && Origin(tables[m], calls, window, key, i)
    decreases m
  {
    assert m > 0;
    OriginStep(tables, calls, window, m - 1, key);
    i := m - 1;
    if !Origin(tables[m], calls, window, key, i) {
      i := EntryHasOrigin(tables, calls, window, m - 1, key);
    }
  }

  lemma StepSeen(t: Table, window: int, c: Call, after: Table, key: string)
    requires Step(t, window, c, after) && key in after && key != ""
    ensures c.key == key ==> after[key].lastSeen == c.now
    ensures c.key != key ==> key in t && after[key].lastSeen == t[key].lastSeen
  {
  }

  lemma SeenStep(tables: seq<Table>, calls: seq<Call>, window: int, m: nat, key: string)
    requires IsRun(tables, calls, window) && m < |calls| && key in tables[m + 1] && key != ""
    ensures calls[m].key == key ==> tables[m + 1][key].lastSeen == calls[m].now
    ensures calls[m].key != key ==> key in tables[m] && tables[m + 1][key].lastSeen == tables[m][key].lastSeen
  {
    assert StepAt(tables, calls, window, m);
    StepSeen(tables[m], window, calls[m], tables[m + 1], key);
  }

  /** Each entry remembers the time of the last call that asked about its key, which
      is the age that expiry and eviction go by. */
  lemma {:induction false} LastSeenIsLatest(tables: seq<Table>, calls: seq<Call>, window: int, m: nat, key: string) returns (i: nat)
    requires IsRun(tables, calls, window) && m <= |calls| && key in tables[m] && key != ""
    ensures i < m && calls[i].key == key && tables[m][key].lastSeen == calls[i].now
    ensures forall j :: i < j < m ==> calls[j].key != key
    decreases m
  {
    assert m > 0;
    SeenStep(tables, calls, window, m - 1, key);
    i := m - 1;
    if calls[i].key != key {
      i := LastSeenIsLatest(tables, calls, window, m - 1, key);
    }
  }

  lemma DeniedHasEntry(t: Table, c: Call)
    requires Effect(t, c) && !c.ok
    ensures c.key in t && c.now < t[c.key].nextAllowed
  {
  }

  /** A call is denied only when an allowed call of its key, earlier in lock order, is
      less than a window old. */
  lemma DeniedOnlyWithinWindow(tables: seq<Table>, calls: seq<Call>, window: int, j: nat) returns (i: nat)
    requires IsRun(tables, calls, window) && j < |calls| && !calls[j].ok
    ensures i < j && calls[i].key == calls[j].key && calls[i].ok && calls[j].now - calls[i].now < window
  {
    assert StepAt(tables, calls, window, j);
    DeniedHasEntry(tables[j], calls[j]);
    i := EntryHasOrigin(tables, calls, window, j, calls[j].key);
  }

  // ----- conservation of suppressed calls

  function Pending(t: Table, key: string): nat {
    if key in t then t[key].suppressed else 0
  }

  /** The denied calls of a key among the first n. */
  function DeniedCount(calls: seq<Call>, key: string, n: nat): nat
    requires n <= |calls|
  {
    if n == 0 then 0 else DeniedCount(calls, key, n - 1) + if calls[n - 1].key == key && !calls[n - 1].ok then 1 else 0
  }

  function ReportedSum(calls: seq<Call>, key: string, n: nat): nat
    requires n <= |calls|
  {
    if n == 0 then 0 else ReportedSum(calls, key, n - 1) + if calls[n - 1].key == key then calls[n - 1].suppressed else 0
  }

  /** What pruning in this call throws away of the key's suppressed count. */
  function Lost(t: Table, c: Call, key: string): nat {
    if c.key != "" && key !in Pruned(t, c.now, c.evicted) then Pending(t, key) else 0
  }

  function LostSum(tables: seq<Table>, calls: seq<Call>, key: string, n: nat): nat
    requires n <= |calls| <= |tables|
  {
    if n == 0 then 0 else LostSum(tables, calls, key, n - 1) + Lost(tables[n - 1], calls[n - 1], key)
  }

  lemma StepConserves(t: Table, window: int, c: Call, after: Table, key: string)
    requires Step(t, window, c, after)
    ensures Pending(t, key) + (if c.key == key && !c.ok then 1 else 0)
         == Pending(after, key) + (if c.key == key then c.suppressed else 0) + Lost(t, c, key)
  {
  }

  /** Per key, every denied call is reported, still pending or lost to pruning. */
  lemma {:induction false} SuppressedAreConserved(tables: seq<Table>, calls: seq<Call>, window: int, key: string, n: nat)
    requires IsRun(tables, calls, window) && n <= |calls|
    ensures DeniedCount(calls, key, n) == ReportedSum(calls, key, n) + Pending(tables[n], key) + LostSum(tables, calls, key, n)
  {
    if n > 0 {
      SuppressedAreConserved(tables, calls, window, key, n - 1);
      assert StepAt(tables, calls, window, n - 1);
      StepConserves(tables[n - 1], window, calls[n - 1], tables[n], key);
    }
  }
}
