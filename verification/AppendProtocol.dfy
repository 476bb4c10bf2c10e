/** Every interleaving of any number of Acquire/Release calls. Each locked region
    of the tracker or of a state object is one step; the clock is arbitrary. */
module AppendProtocol {
  import opened AppendSequence
  import opened Basics

  // ----- states of the system

  /** A state object, with auxiliary records: the request it was created for, the
      numbers it has granted, how many of those tickets were released and whether its
      table entry was deleted. */
  datatype Slot = Slot(
    core: Core, ready: nat, updatedAt: int,
    id: string, grants: seq<int>, releases: nat, evicted: bool)

  /** A sweeping caller holds the tracker's lock; doomed is the key that it found
      expired but has not yet deleted. */
  datatype Caller =
    | Asking(id: string, seqno: int, now: int)
    | Sweeping(id: string, seqno: int, now: int, todo: set<string>, doomed: Option<string>)
    | Trying(obj: nat, seqno: int)
    | Waiting(obj: nat, seqno: int, ready: nat)
    | Holding(obj: nat, seqno: int)
    | Bypassed
    | Refused(obj: nat, seqno: int)
    | Cancelled
    | Released(obj: nat, seqno: int)

  datatype System = System(
    table: map<string, nat>,
    slots: seq<Slot>,
    closed: set<nat>,
    channels: nat,
    sweeper: Option<nat>,
    callers: seq<Caller>)

  const START := System(map[], [], {}, 0, None, [])

  datatype Action =
    | Begin(id: string, seqno: int, now: int)
    | Enter(c: nat)
    | Check(c: nat, key: string)
    | Delete(c: nat)
    | Lookup(c: nat)
    | Attempt(c: nat, now: int)
    | Wake(c: nat)
    | Cancel(c: nat)
    | Release(c: nat, now: int)

  // ----- steps

  predicate Is64(n: int) {
    MIN_SEQ <= n <= MAX_SEQ
  }

  /** When a step can be taken. The first line of the lock-taking steps says that
      the lock is free; the bounds keep the definition total. */
  predicate Enabled(s: System, a: Action) {
    match a
    case Begin(_, seqno, _) => Is64(seqno)
    case Enter(c) => c < |s.callers| && s.callers[c].Asking? && s.sweeper == None
    case Check(c, key) =>
      && c < |s.callers| && s.callers[c].Sweeping? && s.callers[c].doomed == None
      && key in s.callers[c].todo && key in s.table && s.table[key] < |s.slots|
    case Delete(c) =>
      && c < |s.callers| && s.callers[c].Sweeping? && s.callers[c].doomed.Some?
      && s.callers[c].doomed.value in s.table && s.table[s.callers[c].doomed.value] < |s.slots|
    case Lookup(c) =>
      && c < |s.callers| && s.callers[c].Sweeping? && s.callers[c].doomed == None && s.callers[c].todo == {}
      && (s.callers[c].id in s.table ==> s.table[s.callers[c].id] < |s.slots|)
    case Attempt(c, _) => c < |s.callers| && s.callers[c].Trying? && s.callers[c].obj < |s.slots|
    case Wake(c) => c < |s.callers| && s.callers[c].Waiting? && s.callers[c].ready in s.closed
    case Cancel(c) => c < |s.callers| && s.callers[c].Waiting?
    case Release(c, _) => c < |s.callers| && s.callers[c].Holding? && s.callers[c].obj < |s.slots|
  }

  function WithCaller(s: System, c: nat, caller: Caller): System
    requires c < |s.callers|
  {
    s.(callers := s.callers[c := caller])
  }

  function AfterAttempt(slot: Slot, seqno: int, now: int): Slot {
    var (core, outcome) := Decide(slot.core, seqno);
    slot.(core := core, updatedAt := now,
          grants := if outcome == Granted then slot.grants + [seqno] else slot.grants)
  }

  function AfterAttemptCaller(slot: Slot, obj: nat, seqno: int): Caller {
    match Decide(slot.core, seqno).1
    case Granted => Holding(obj, seqno)
    case Stale => Refused(obj, seqno)
    case Wait => Waiting(obj, seqno, slot.ready)
  }

  function AfterReleaseSlot(slot: Slot, seqno: int, now: int, newReady: nat): Slot {
    if Releases(slot.core, seqno) then
      slot.(core := AfterRelease(slot.core, seqno), updatedAt := now, ready := newReady, releases := slot.releases + 1)
    else
      slot.(updatedAt := now)
  }

  function Next(s: System, a: Action): System
    requires Enabled(s, a)
  {
    match a
    case Begin(id, seqno, now) =>
      s.(callers := s.callers + [if id == "" || seqno <= 0 then Bypassed else Asking(id, seqno, now)])
    case Enter(c) =>
      var m := s.callers[c];
      WithCaller(s, c, Sweeping(m.id, m.seqno, m.now, s.table.Keys, None)).(sweeper := Some(c))
    case Check(c, key) =>
      var m := s.callers[c];
      var slot := s.slots[s.table[key]];
      if IsExpired(slot.core.processing, slot.updatedAt, m.now - RETENTION)
      then WithCaller(s, c, m.(doomed := Some(key)))
      else WithCaller(s, c, m.(todo := m.todo - {key}))
    case Delete(c) =>
      var m := s.callers[c];
      var key := m.doomed.value;
      var o := s.table[key];
      WithCaller(s, c, m.(todo := m.todo - {key}, doomed := None)).(
        table := s.table - {key}, slots := s.slots[o := s.slots[o].(evicted := true)])
    case Lookup(c) =>
      var m := s.callers[c];
      if m.id in s.table then
        var o := s.table[m.id];
        WithCaller(s, c, Trying(o, m.seqno)).(slots := s.slots[o := s.slots[o].(updatedAt := m.now)], sweeper := None)
      else
        WithCaller(s, c, Trying(|s.slots|, m.seqno)).(
          slots := s.slots + [Slot(Core(1, false), s.channels, m.now, m.id, [], 0, false)],
          table := s.table[m.id := |s.slots|], channels := s.channels + 1, sweeper := None)
    case Attempt(c, now) =>
      var Trying(o, seqno) := s.callers[c];
      WithCaller(s, c, AfterAttemptCaller(s.slots[o], o, seqno)).(slots := s.slots[o := AfterAttempt(s.slots[o], seqno, now)])
    case Wake(c) => WithCaller(s, c, Trying(s.callers[c].obj, s.callers[c].seqno))
    case Cancel(c) => WithCaller(s, c, Cancelled)
    case Release(c, now) =>
      var Holding(o, seqno) := s.callers[c];
      var slot := s.slots[o];
      var s' := WithCaller(s, c, Released(o, seqno)).(slots := s.slots[o := AfterReleaseSlot(slot, seqno, now, s.channels)]);
      if Releases(slot.core, seqno)
      then s'.(closed := s.closed + {slot.ready}, channels := s.channels + 1)
      else s'
  }

  /** States passed through with one action between each and the next. */
  ghost predicate IsPath(states: seq<System>, actions: seq<Action>) {
    && |states| == |actions| + 1
    && forall i :: 0 <= i < |actions| ==> Enabled(states[i], actions[i]) && states[i + 1] == Next(states[i], actions[i])
  }

  /** A run: a path from the start. */
  ghost predicate IsRun(states: seq<System>, actions: seq<Action>) {
    IsPath(states, actions) && states[0] == START
  }

  ghost predicate Reachable(s: System) {
    exists states, actions :: IsRun(states, actions) && s == states[|actions|]
  }

  // ----- the granted numbers of one object

  predicate RunAt(grants: seq<int>, i: nat)
    requires i < |grants|
  {
    grants[i] == 1 || (i > 0 && grants[i] == grants[i - 1] + 1)
  }

  /** A concatenation of runs 1, 2, ..., k. */
  predicate Runs(grants: seq<int>) {
    forall i :: 0 <= i < |grants| ==> RunAt(grants, i)
  }

  /** Position i belongs to the run in progress: everything after it counts up. */
  predicate InCurrentRun(grants: seq<int>, i: nat) {
    i < |grants| && forall j :: i <= j < |grants| ==> grants[j] == grants[i] + (j - i)
  }

  lemma {:induction false} CurrentRunIsComplete(grants: seq<int>, n: int)
    requires Runs(grants) && grants != []
    requires 1 <= n <= grants[|grants| - 1]
    ensures var i := |grants| - 1 - (grants[|grants| - 1] - n);
            0 <= i && InCurrentRun(grants, i) && grants[i] == n
    decreases |grants|
  {
    var last := |grants| - 1;
    if n < grants[last] {
      var shorter := grants[..last];
      assert RunAt(grants, last);
      assert forall i :: 0 <= i < last ==> RunAt(grants, i) ==> RunAt(shorter, i);
      assert shorter[last - 1] == grants[last] - 1;
      CurrentRunIsComplete(shorter, n);
      var i := last - 1 - (shorter[last - 1] - n);
      forall j | i <= j < |grants|
        ensures grants[j] == grants[i] + (j - i)
      {
        if j < last {
          assert shorter[j] == grants[j];
        }
      }
    }
  }

  // ----- the invariant

  predicate SlotOk(slot: Slot) {
    var next := slot.core.next;
    var g := slot.grants;
    && (1 <= next <= MAX_SEQ || (next == MIN_SEQ && !slot.core.processing))
    && Runs(g)
    && (slot.core.processing ==> g != [] && g[|g| - 1] == next)
    && (!slot.core.processing && next > 1 ==> g != [] && g[|g| - 1] == next - 1)
    && (!slot.core.processing && next <= 1 ==> g == [] || g[|g| - 1] == MAX_SEQ)
    && |g| == slot.releases + (if slot.core.processing then 1 else 0)
  }

  /** A retry would send the caller straight back to waiting. */
  predicate Blocked(core: Core, seqno: int) {
    || seqno > core.next
    || (seqno == core.next && core.processing)
    || (seqno == 1 && core.next > 1 && core.processing)
  }

  predicate CallerOk(s: System, c: nat)
    requires c < |s.callers|
  {
    match s.callers[c]
    case Asking(_, seqno, _) => 1 <= seqno <= MAX_SEQ
    case Sweeping(_, seqno, _, todo, doomed) =>
      && 1 <= seqno <= MAX_SEQ
      && s.sweeper == Some(c)
      && todo <= s.table.Keys
      && (doomed.Some? ==> doomed.value in todo)
    case Trying(o, seqno) => o < |s.slots| && 1 <= seqno <= MAX_SEQ
    case Waiting(o, seqno, ready) =>
      && o < |s.slots| && 1 <= seqno <= MAX_SEQ
      && (ready in s.closed || (ready == s.slots[o].ready && s.slots[o].core.next >= 1 && Blocked(s.slots[o].core, seqno)))
    case Holding(o, seqno) =>
      o < |s.slots| && 1 <= seqno <= MAX_SEQ && s.slots[o].core == Core(seqno, true)
    case _ => true
  }

  predicate Holds(s: System, c: nat, o: nat) {
    c < |s.callers| && s.callers[c].Holding? && s.callers[c].obj == o
  }

  predicate Leads(s: System, key: string, o: nat) {
    key in s.table && s.table[key] == o
  }

  /** The table leads to the one object of each request that was not evicted, and
      to no other object. */
  ghost predicate TableOk(s: System) {
    && (forall o :: 0 <= o < |s.slots| && !s.slots[o].evicted ==> Leads(s, s.slots[o].id, o))
    && (forall key, o: nat :: Leads(s, key, o) ==> o < |s.slots| && s.slots[o].id == key && !s.slots[o].evicted)
  }

  predicate SlotsOk(s: System) {
    && (forall key :: key in s.table ==> s.table[key] < |s.slots|)
    && (forall o :: 0 <= o < |s.slots| ==> SlotOk(s.slots[o]))
  }

  /** Current channels are open and no two objects share one. */
  predicate ChannelsOk(s: System) {
    && (forall o :: 0 <= o < |s.slots| ==> s.slots[o].ready < s.channels && s.slots[o].ready !in s.closed)
    && (forall o, p :: 0 <= o < p < |s.slots| ==> s.slots[o].ready != s.slots[p].ready)
    && (forall ch :: ch in s.closed ==> ch < s.channels)
  }

  predicate CallersOk(s: System) {
    forall c :: 0 <= c < |s.callers| ==> CallerOk(s, c)
  }

  ghost predicate HoldersOk(s: System) {
    && (forall c: nat, d: nat, o: nat :: Holds(s, c, o) && Holds(s, d, o) ==> c == d)
    && (forall o :: 0 <= o < |s.slots| && s.slots[o].core.processing ==> exists c: nat :: Holds(s, c, o))
  }

  ghost predicate Inv(s: System) {
    SlotsOk(s) && TableOk(s) && ChannelsOk(s) && CallersOk(s) && HoldersOk(s)
  }

  // ----- one step keeps the invariant

  lemma StepInv(s: System, a: Action)
    requires Inv(s) && Enabled(s, a)
    ensures Inv(Next(s, a))
  {
    StepTableOk(s, a);
    match a
    case Attempt(c, now) => AttemptInv(s, c, now);
    case Release(c, now) => ReleaseInv(s, c, now);
    case _ => QuietInv(s, a);
  }

  lemma StepTableOk(s: System, a: Action)
    requires TableOk(s) && Enabled(s, a)
    ensures TableOk(Next(s, a))
  {
    var s' := Next(s, a);
    forall o | 0 <= o < |s'.slots| && !s'.slots[o].evicted
      ensures Leads(s', s'.slots[o].id, o)
    {
      if o < |s.slots| {
        assert Leads(s, s.slots[o].id, o);
      }
    }
    forall key, o: nat | Leads(s', key, o)
      ensures o < |s'.slots| && s'.slots[o].id == key && !s'.slots[o].evicted
    {
      assert Leads(s, key, o) || (a.Lookup? && o == |s.slots|);
      if a.Delete? {
        var doomed := s.callers[a.c].doomed.value;
        assert Leads(s, doomed, s.table[doomed]);
      }
    }
  }

  /** The steps that neither grant nor release. */
  lemma QuietInv(s: System, a: Action)
    requires Inv(s) && Enabled(s, a) && !a.Attempt? && !a.Release? && TableOk(Next(s, a))
    ensures Inv(Next(s, a))
  {
    var s' := Next(s, a);
    QuietSlotsOk(s, a);
    QuietChannelsOk(s, a);
    forall d | 0 <= d < |s'.callers|
      ensures CallerOk(s', d)
    {
      QuietCallerOk(s, a, d);
    }
    QuietHoldersOk(s, a);
  }

  lemma QuietSlotsOk(s: System, a: Action)
    requires SlotsOk(s) && Enabled(s, a) && !a.Attempt? && !a.Release?
    ensures SlotsOk(Next(s, a))
  {
  }

  lemma QuietChannelsOk(s: System, a: Action)
    requires ChannelsOk(s) && Enabled(s, a) && !a.Attempt? && !a.Release?
    ensures ChannelsOk(Next(s, a))
  {
  }

  lemma QuietCallerOk(s: System, a: Action, d: nat)
    requires SlotsOk(s) && CallersOk(s) && Enabled(s, a) && !a.Attempt? && !a.Release?
    requires d < |Next(s, a).callers|
    ensures CallerOk(Next(s, a), d)
  {
    if d == |s.callers| || (!a.Begin? && d == a.c) {
      QuietMoverOk(s, a, d);
    } else {
      QuietOtherOk(s, a, d);
    }
  }

  /** The caller that takes the step. */
  lemma QuietMoverOk(s: System, a: Action, d: nat)
    requires SlotsOk(s) && CallersOk(s) && Enabled(s, a) && !a.Attempt? && !a.Release?
    requires d == if a.Begin? then |s.callers| else a.c
    ensures CallerOk(Next(s, a), d)
  {
    if !a.Begin? {
      assert CallerOk(s, d);
    }
  }

  lemma QuietOtherOk(s: System, a: Action, d: nat)
    requires SlotsOk(s) && CallersOk(s) && Enabled(s, a) && !a.Attempt? && !a.Release?
    requires d < |s.callers| && (a.Begin? || d != a.c)
    ensures CallerOk(Next(s, a), d)
  {
    assert CallerOk(s, d);
    if !a.Begin? {
      assert CallerOk(s, a.c);
    }
  }

  lemma QuietHoldersOk(s: System, a: Action)
    requires SlotsOk(s) && HoldersOk(s) && Enabled(s, a) && !a.Attempt? && !a.Release?
    ensures HoldersOk(Next(s, a))
  {
    var s' := Next(s, a);
    assert forall c: nat, o: nat :: Holds(s', c, o) == Holds(s, c, o);
    forall o | 0 <= o < |s'.slots| && s'.slots[o].core.processing
      ensures exists c: nat :: Holds(s', c, o)
    {
      var c: nat :| Holds(s, c, o);
      assert Holds(s', c, o);
    }
  }

  lemma AttemptSlotOk(slot: Slot, seqno: int, now: int)
    requires SlotOk(slot) && 1 <= seqno <= MAX_SEQ
    ensures SlotOk(AfterAttempt(slot, seqno, now))
  {
    var g := AfterAttempt(slot, seqno, now).grants;
    forall i | 0 <= i < |g|
      ensures RunAt(g, i)
    {
      assert i < |slot.grants| ==> RunAt(slot.grants, i);
    }
  }

  /** An attempt by someone else leaves a blocked waiter blocked. */
  lemma AttemptKeepsBlocked(core: Core, mine: int, other: int)
    requires mine >= 1 && other >= 1 && core.next >= 1 && Blocked(core, mine)
    ensures var after := Decide(core, other).0; after.next >= 1 && Blocked(after, mine)
  {
  }

  lemma AttemptInv(s: System, c: nat, now: int)
    requires Inv(s) && Enabled(s, Attempt(c, now)) && TableOk(Next(s, Attempt(c, now)))
    ensures Inv(Next(s, Attempt(c, now)))
  {
    var s' := Next(s, Attempt(c, now));
    assert CallerOk(s, c);
    AttemptSlotOk(s.slots[s.callers[c].obj], s.callers[c].seqno, now);
    assert SlotsOk(s') && ChannelsOk(s');
    forall d | 0 <= d < |s'.callers|
      ensures CallerOk(s', d)
    {
      AttemptCallerOk(s, c, now, d);
    }
    AttemptHoldersOk(s, c, now);
  }

  lemma AttemptCallerOk(s: System, c: nat, now: int, d: nat)
    requires SlotsOk(s) && CallersOk(s) && HoldersOk(s) && Enabled(s, Attempt(c, now)) && d < |s.callers|
    ensures CallerOk(Next(s, Attempt(c, now)), d)
  {
    var Trying(o, seqno) := s.callers[c];
    assert CallerOk(s, c) && CallerOk(s, d) && SlotOk(s.slots[o]);
    if d != c && s.callers[d].Waiting? && s.callers[d].obj == o && s.callers[d].ready !in s.closed {
      AttemptKeepsBlocked(s.slots[o].core, s.callers[d].seqno, seqno);
    }
  }

  lemma AttemptHoldersOk(s: System, c: nat, now: int)
    requires SlotsOk(s) && CallersOk(s) && HoldersOk(s) && Enabled(s, Attempt(c, now))
    ensures HoldersOk(Next(s, Attempt(c, now)))
  {
    var s' := Next(s, Attempt(c, now));
    var Trying(o, seqno) := s.callers[c];
    var granted := Decide(s.slots[o].core, seqno).1 == Granted;
    assert forall d: nat, p: nat :: Holds(s', d, p) == (Holds(s, d, p) || (granted && d == c && p == o));
    forall d: nat, e: nat, p: nat | Holds(s', d, p) && Holds(s', e, p)
      ensures d == e
    {
      assert CallerOk(s, d) && CallerOk(s, e);
    }
    forall p | 0 <= p < |s'.slots| && s'.slots[p].core.processing
      ensures exists d: nat :: Holds(s', d, p)
    {
      if s.slots[p].core.processing {
        var d: nat :| Holds(s, d, p);
        assert Holds(s', d, p);
      } else {
        assert Holds(s', c, p);
      }
    }
  }

  lemma ReleaseInv(s: System, c: nat, now: int)
    requires Inv(s) && Enabled(s, Release(c, now)) && TableOk(Next(s, Release(c, now)))
    ensures Inv(Next(s, Release(c, now)))
  {
    var s' := Next(s, Release(c, now));
    ReleaseSlotsOk(s, c, now);
    forall d | 0 <= d < |s'.callers|
      ensures CallerOk(s', d)
    {
      ReleaseCallerOk(s, c, now, d);
    }
    ReleaseHoldersOk(s, c, now);
  }

  lemma ReleaseSlotsOk(s: System, c: nat, now: int)
    requires SlotsOk(s) && ChannelsOk(s) && CallersOk(s) && Enabled(s, Release(c, now))
    ensures SlotsOk(Next(s, Release(c, now))) && ChannelsOk(Next(s, Release(c, now)))
  {
    assert CallerOk(s, c);
  }

  lemma ReleaseCallerOk(s: System, c: nat, now: int, d: nat)
    requires SlotsOk(s) && CallersOk(s) && HoldersOk(s) && Enabled(s, Release(c, now)) && d < |s.callers|
    ensures CallerOk(Next(s, Release(c, now)), d)
  {
    assert CallerOk(s, c) && CallerOk(s, d) && Holds(s, c, s.callers[c].obj);
    assert s.callers[d].Holding? ==> Holds(s, d, s.callers[d].obj);
  }

  lemma ReleaseHoldersOk(s: System, c: nat, now: int)
    requires SlotsOk(s) && CallersOk(s) && HoldersOk(s) && Enabled(s, Release(c, now))
    ensures HoldersOk(Next(s, Release(c, now)))
  {
    var s' := Next(s, Release(c, now));
    assert CallerOk(s, c) && Holds(s, c, s.callers[c].obj);
    assert forall d: nat, p: nat :: Holds(s', d, p) == (Holds(s, d, p) && d != c);
    forall p | 0 <= p < |s'.slots| && s'.slots[p].core.processing
      ensures exists d: nat :: Holds(s', d, p)
    {
      var d: nat :| Holds(s, d, p);
      assert Holds(s', d, p);
    }
  }

  lemma {:induction false} RunInv(states: seq<System>, actions: seq<Action>, i: nat)
    requires IsRun(states, actions) && i <= |actions|
    ensures Inv(states[i])
  {
    if i > 0 {
      RunInv(states, actions, i - 1);
      StepInv(states[i - 1], actions[i - 1]);
    }
  }

  lemma ReachableInv(s: System)
    requires Reachable(s)
    ensures Inv(s)
  {
    var states, actions :| IsRun(states, actions) && s == states[|actions|];
    RunInv(states, actions, |actions|);
  }

  // ----- what every interleaving guarantees

  /** Per object, processing means one outstanding ticket: it exists, it is the
      only one and it carries the current number. */
  lemma MutualExclusion(s: System, o: nat)
    requires Reachable(s) && o < |s.slots|
    ensures s.slots[o].core.processing <==> exists c: nat :: Holds(s, c, o)
    ensures forall c: nat, d: nat :: Holds(s, c, o) && Holds(s, d, o) ==> c == d
    ensures forall c: nat :: Holds(s, c, o) ==> s.callers[c].seqno == s.slots[o].core.next
  {
    ReachableInv(s);
    forall c: nat | Holds(s, c, o)
      ensures s.slots[o].core == Core(s.callers[c].seqno, true)
    {
      assert CallerOk(s, c);
    }
  }

  /** Tickets of one request are exclusive as long as its entry is not deleted: of
      two that are outstanding together, at least one belongs to an evicted object. */
  lemma ExclusionPerRequest(s: System, c: nat, d: nat, o: nat, p: nat)
    requires Reachable(s) && Holds(s, c, o) && Holds(s, d, p) && c != d
    ensures o < |s.slots| && p < |s.slots|
    ensures s.slots[o].id == s.slots[p].id ==> s.slots[o].evicted || s.slots[p].evicted
  {
    ReachableInv(s);
    assert CallerOk(s, c) && CallerOk(s, d);
    if !s.slots[o].evicted && !s.slots[p].evicted {
      assert Leads(s, s.slots[o].id, o) && Leads(s, s.slots[p].id, p);
    }
  }

  /** Releasing an outstanding ticket is never ignored: it frees the object, moves
      to the following number and closes an open channel exactly once. */
  lemma ReleaseAdvances(s: System, c: nat, now: int)
    requires Reachable(s) && Enabled(s, Release(c, now))
    ensures var o := s.callers[c].obj;
            var s' := Next(s, Release(c, now));
            && s'.slots[o].core == Core(if s.callers[c].seqno == 0x7fff_ffff_ffff_ffff then -0x8000_0000_0000_0000
                                        else s.callers[c].seqno + 1, false)
            && s.slots[o].ready !in s.closed
            && s'.closed == s.closed + {s.slots[o].ready}
            && s'.slots[o].ready !in s'.closed
  {
    ReachableInv(s);
    assert CallerOk(s, c);
  }

  /** No lost wake-up: a waiter for which a retry would be decided has a closed
      channel, so its wake-up step is enabled; while its channel is open it is
      really blocked. The current channel of an object is never closed. */
  lemma NoLostWakeUp(s: System, c: nat)
    requires Reachable(s) && c < |s.callers| && s.callers[c].Waiting?
    ensures s.callers[c].obj < |s.slots|
    ensures !Enabled(s, Wake(c)) ==> Blocked(s.slots[s.callers[c].obj].core, s.callers[c].seqno)
    ensures Decide(s.slots[s.callers[c].obj].core, s.callers[c].seqno).1 != Wait ==> Enabled(s, Wake(c))
    ensures forall o :: 0 <= o < |s.slots| ==> s.slots[o].ready !in s.closed
  {
    ReachableInv(s);
    assert CallerOk(s, c);
  }

  /** Grants come in runs 1, 2, ..., k on every object, and grants and releases
      differ by the one outstanding ticket. */
  lemma GrantsAreGapFree(s: System, o: nat)
    requires Reachable(s) && o < |s.slots|
    ensures Runs(s.slots[o].grants)
    ensures |s.slots[o].grants| == s.slots[o].releases + (if s.slots[o].core.processing then 1 else 0)
  {
    ReachableInv(s);
  }

  /** A number is refused as stale only when it is not 1 and was granted and
      released in the run in progress. */
  lemma StaleMeansDone(s: System, c: nat)
    requires Reachable(s) && Enabled(s, Attempt(c, 0))
    requires var m := s.callers[c]; Decide(s.slots[m.obj].core, m.seqno).1 == Stale
    ensures var m := s.callers[c];
            var slot := s.slots[m.obj];
            m.seqno > 1 && exists i: nat :: InCurrentRun(slot.grants, i) && slot.grants[i] == m.seqno && i < slot.releases
  {
    ReachableInv(s);
    var m := s.callers[c];
    assert CallerOk(s, c);
    var g := s.slots[m.obj].grants;
    CurrentRunIsComplete(g, m.seqno);
    var i := |g| - 1 - (g[|g| - 1] - m.seqno);
    assert InCurrentRun(g, i);
  }

  /** Conversely every number other than 1 that was granted and released in the
      run in progress is refused, unless that run has just used up the largest
      number. */
  lemma DoneMeansStale(s: System, c: nat, i: nat)
    requires Reachable(s) && Enabled(s, Attempt(c, 0))
    requires var m := s.callers[c];
             var slot := s.slots[m.obj];
             && m.seqno > 1 && InCurrentRun(slot.grants, i) && slot.grants[i] == m.seqno && i < slot.releases
             && slot.grants[|slot.grants| - 1] != MAX_SEQ
    ensures var m := s.callers[c]; Decide(s.slots[m.obj].core, m.seqno).1 == Stale
  {
    ReachableInv(s);
  }

  /** An idle object turns nobody away without cause: the expected number and a
      restart at 1 are both granted, and its waiters with open channels all have
      numbers beyond the expected one. */
  lemma IdleObjectServes(s: System, o: nat)
    requires Reachable(s) && o < |s.slots| && !s.slots[o].core.processing
    ensures forall seqno :: seqno == 1 || seqno == Normalised(s.slots[o].core.next) ==>
                              Decide(s.slots[o].core, seqno) == (Core(seqno, true), Granted)
    ensures forall c :: 0 <= c < |s.callers| && s.callers[c].Waiting? && s.callers[c].obj == o && s.callers[c].ready !in s.closed
                        ==> s.callers[c].seqno > s.slots[o].core.next >= 1
  {
    ReachableInv(s);
    forall c | 0 <= c < |s.callers| && s.callers[c].Waiting? && s.callers[c].obj == o && s.callers[c].ready !in s.closed
      ensures s.callers[c].seqno > s.slots[o].core.next >= 1
    {
      assert CallerOk(s, c);
    }
  }

  /** What an attempt comes to: a ticket if the object is idle and the number is 1 or
      the expected one; a refusal if the number is another one below the expected one;
      and otherwise a wait on the object's current channel. */
  lemma AttemptMeans(s: System, c: nat, now: int)
    requires Reachable(s) && Enabled(s, Attempt(c, now))
    ensures var m, after := s.callers[c], Next(s, Attempt(c, now)).callers[c];
            var slot := s.slots[m.obj];
            var next := if slot.core.next <= 0 then 1 else slot.core.next;
            && (after == Holding(m.obj, m.seqno) <==> !slot.core.processing && (m.seqno == 1 || m.seqno == next))
            && (after == Refused(m.obj, m.seqno) <==> 1 < m.seqno < next)
            && (after == Waiting(m.obj, m.seqno, slot.ready) <==>
                  (slot.core.processing && (m.seqno == 1 || m.seqno == next)) || m.seqno > next)
    ensures Next(s, Attempt(c, now)).table == s.table && Next(s, Attempt(c, now)).closed == s.closed
  {
    ReachableInv(s);
    assert CallerOk(s, c);
  }

  /** A waiter can give up at any time, and that is all that changes. */
  lemma WaiterMayGiveUp(s: System, c: nat)
    requires c < |s.callers| && s.callers[c].Waiting?
    ensures Enabled(s, Cancel(c)) && Next(s, Cancel(c)) == s.(callers := s.callers[c := Cancelled])
  {
  }

  // ----- eviction

  /** The sweep condemns an object if and only if it is idle and was used, but not in
      the last ten minutes; all its tickets are released then. */
  lemma VerdictIff(s: System, c: nat, key: string)
    requires Reachable(s) && Enabled(s, Check(c, key))
    ensures var slot, now := s.slots[s.table[key]], s.callers[c].now;
            Next(s, Check(c, key)).callers[c].doomed.Some? <==>
              !slot.core.processing && slot.updatedAt != 0 && slot.updatedAt + 600_000_000_000 < now
    ensures Next(s, Check(c, key)).callers[c].doomed.Some? ==> s.slots[s.table[key]].releases == |s.slots[s.table[key]].grants|
  {
    ReachableInv(s);
  }

  /** Between the Enter step of a caller and this point of a path, the key was checked. */
  ghost predicate Checked(actions: seq<Action>, c: nat, key: string, i: nat)
    requires i <= |actions|
  {
    exists k :: 0 <= k < i && actions[k] == Check(c, key)
  }

  /** The keys that the sweep found and has not checked are those still to do. */
  ghost predicate SweepStands(keys: set<string>, actions: seq<Action>, c: nat, s: System, i: nat)
    requires i <= |actions|
  {
    && c < |s.callers| && s.callers[c].Sweeping?
    && (forall key :: key in keys ==> key in s.callers[c].todo || Checked(actions, c, key, i))
    && (s.callers[c].doomed.Some? ==> Checked(actions, c, s.callers[c].doomed.value, i))
  }

  lemma SweepStep(keys: set<string>, actions: seq<Action>, c: nat, s: System, i: nat)
    requires i < |actions| && Enabled(s, actions[i]) && SweepStands(keys, actions, c, s, i) && actions[i] != Lookup(c)
    ensures SweepStands(keys, actions, c, Next(s, actions[i]), i + 1)
  {
    assert forall key :: Checked(actions, c, key, i) ==> Checked(actions, c, key, i + 1);
    if actions[i].Check? && actions[i].c == c {
      assert Checked(actions, c, actions[i].key, i + 1);
    }
  }

  lemma {:induction false} SweepAlong(states: seq<System>, actions: seq<Action>, c: nat, i: nat)
    requires IsPath(states, actions) && 0 < i <= |actions| && actions[0] == Enter(c)
    requires forall k :: 0 <= k < |actions| ==> actions[k] != Lookup(c)
    ensures SweepStands(states[0].table.Keys, actions, c, states[i], i)
  {
    if i > 1 {
      SweepAlong(states, actions, c, i - 1);
      SweepStep(states[0].table.Keys, actions, c, states[i - 1], i - 1);
    } else {
      assert states[1] == Next(states[0], actions[0]);
    }
  }

  /** A caller looks its request up only after it has checked every entry that was in
      the table when it took the lock. */
  lemma SweepIsComplete(states: seq<System>, actions: seq<Action>, c: nat, key: string)
    requires IsPath(states, actions) && |actions| > 0 && actions[0] == Enter(c)
    requires (forall k :: 0 <= k < |actions| ==> actions[k] != Lookup(c)) && Enabled(states[|actions|], Lookup(c))
    requires key in states[0].table
    ensures Check(c, key) in actions
  {
    SweepAlong(states, actions, c, |actions|);
    assert Checked(actions, c, key, |actions|);
  }

  /** The time stamp of an object is that of its last lookup, attempt or release; other
      steps leave it alone. */
  lemma StampIsLastUse(s: System, a: Action, o: nat)
    requires Reachable(s) && Enabled(s, a) && o < |s.slots|
    ensures o < |Next(s, a).slots|
    ensures Next(s, a).slots[o].updatedAt ==
              if a.Lookup? && Leads(s, s.callers[a.c].id, o) then s.callers[a.c].now
              else if (a.Attempt? || a.Release?) && s.callers[a.c].obj == o then a.now
              else s.slots[o].updatedAt
  {
  }

  /** A caller without an id or with a number below 1 is let through; all others of
      64-bit numbers ask for a state. */
  lemma BypassIff(s: System, id: string, seqno: int, now: int)
    requires -0x8000_0000_0000_0000 <= seqno <= 0x7fff_ffff_ffff_ffff
    ensures Enabled(s, Begin(id, seqno, now))
    ensures var s' := Next(s, Begin(id, seqno, now));
            && s' == s.(callers := s'.callers) && |s'.callers| == |s.callers| + 1 && s.callers <= s'.callers
            && s'.callers[|s.callers|] == if id == "" || seqno < 1 then Bypassed else Asking(id, seqno, now)
  {
  }

  /** A lookup leads to the state of the caller's own request, which is the one that the
      table has or a fresh one that expects number 1; nothing else changes. */
  lemma LookupFindsOwn(s: System, c: nat)
    requires Reachable(s) && Enabled(s, Lookup(c))
    ensures var m, s' := s.callers[c], Next(s, Lookup(c));
            && s'.callers[c].Trying? && s'.callers[c].seqno == m.seqno
            && var o := s'.callers[c].obj;
            && o < |s'.slots| && s'.slots[o].id == m.id && !s'.slots[o].evicted && Leads(s', m.id, o)
            && (m.id in s.table ==> |s'.slots| == |s.slots| && s'.slots[o] == s.slots[o].(updatedAt := m.now))
            && (m.id !in s.table ==> |s'.slots| == |s.slots| + 1 && s'.slots[o].core == Core(1, false) && s'.slots[o].grants == [])
            && forall p :: 0 <= p < |s.slots| && p != o ==> s'.slots[p] == s.slots[p]
  {
    ReachableInv(s);
    var m := s.callers[c];
    assert m.id in s.table ==> Leads(s, m.id, s.table[m.id]);
  }

  lemma ReachableStep(s: System, a: Action)
    requires Reachable(s) && Enabled(s, a)
    ensures Reachable(Next(s, a))
  {
    var states, actions :| IsRun(states, actions) && s == states[|actions|];
    assert IsRun(states + [Next(s, a)], actions + [a]);
  }

  /** A caller whose next turn the idle object would grant: it is about to try, or
      can wake up to try again, with number 1 or the expected number. */
  predicate Suitor(s: System, d: nat, o: nat)
    requires o < |s.slots|
  {
    && d < |s.callers|
    && (s.callers[d].Trying? || (s.callers[d].Waiting? && s.callers[d].ready in s.closed))
    && s.callers[d].obj == o
    && (s.callers[d].seqno == 1 || s.callers[d].seqno == Normalised(s.slots[o].core.next))
  }

  ghost predicate Unattended(s: System, o: nat) {
    o < |s.slots| && !s.slots[o].core.processing && forall d: nat :: !Suitor(s, d, o)
  }

  predicate Condemned(s: System, c: nat, o: nat) {
    c < |s.callers| && s.callers[c].Sweeping? && s.callers[c].doomed.Some? && Leads(s, s.callers[c].doomed.value, o)
  }

  /** Nobody can look the object up any more: its entry is deleted, or the lock is
      held until that happens. */
  ghost predicate OutOfReach(s: System, o: nat) {
    o < |s.slots| && (s.slots[o].evicted || exists c: nat :: Condemned(s, c, o))
  }

  /** Only its own caller can end a condemnation, by the deletion. */
  lemma StaysCondemned(s: System, a: Action, c: nat, o: nat)
    requires Inv(s) && Enabled(s, a) && Condemned(s, c, o) && a != Delete(c)
    ensures Condemned(Next(s, a), c, o)
  {
    assert CallerOk(s, c);
    if !a.Begin? {
      assert CallerOk(s, a.c);
    }
  }

  lemma StaysOutOfReach(s: System, a: Action, o: nat)
    requires Inv(s) && Enabled(s, a) && OutOfReach(s, o)
    ensures OutOfReach(Next(s, a), o)
  {
    if !s.slots[o].evicted {
      var c: nat :| Condemned(s, c, o);
      if a != Delete(c) {
        StaysCondemned(s, a, c, o);
      }
    }
  }

  lemma OneSweeper(s: System, c: nat)
    requires CallersOk(s) && c < |s.callers| && s.callers[c].Sweeping?
    ensures forall d: nat :: d < |s.callers| && s.callers[d].Sweeping? ==> d == c
  {
    forall d: nat | d < |s.callers| && s.callers[d].Sweeping?
      ensures d == c
    {
      assert CallerOk(s, c) && CallerOk(s, d);
    }
  }

  lemma LookupElsewhere(s: System, c: nat, o: nat)
    requires Inv(s) && Enabled(s, Lookup(c)) && OutOfReach(s, o)
    ensures !Leads(s, s.callers[c].id, o)
  {
    OneSweeper(s, c);
  }

  lemma StaysIdle(s: System, a: Action, o: nat)
    requires Inv(s) && Enabled(s, a) && Unattended(s, o)
    ensures o < |Next(s, a).slots| && !Next(s, a).slots[o].core.processing
    ensures Normalised(Next(s, a).slots[o].core.next) == Normalised(s.slots[o].core.next)
    ensures Next(s, a).slots[o].ready == s.slots[o].ready
  {
    if !a.Begin? {
      assert CallerOk(s, a.c) && !Suitor(s, a.c, o);
    }
  }

  /** A channel is closed only by a release of the object that it belongs to. */
  lemma StaysOpen(s: System, a: Action, o: nat)
    requires Inv(s) && Enabled(s, a) && Unattended(s, o)
    ensures s.slots[o].ready !in Next(s, a).closed && s.closed <= Next(s, a).closed
    ensures forall d: nat :: d < |s.callers| && s.callers[d].Waiting? && s.callers[d].obj == o ==>
              (s.callers[d].ready in Next(s, a).closed <==> s.callers[d].ready in s.closed)
  {
    if a.Release? {
      assert CallerOk(s, a.c);
    }
    assert s.slots[o].ready !in Next(s, a).closed;
    forall d: nat | d < |s.callers| && s.callers[d].Waiting? && s.callers[d].obj == o
      ensures s.callers[d].ready in s.closed || s.callers[d].ready == s.slots[o].ready
    {
      assert CallerOk(s, d);
    }
  }

  lemma NoNewSuitor(s: System, a: Action, o: nat, d: nat)
    requires Inv(s) && Enabled(s, a) && OutOfReach(s, o) && Unattended(s, o)
    ensures o < |Next(s, a).slots| && !Suitor(Next(s, a), d, o)
  {
    StaysIdle(s, a, o);
    StaysOpen(s, a, o);
    assert !Suitor(s, d, o);
    if a.Lookup? {
      LookupElsewhere(s, a.c, o);
    }
  }

  /** An idle object out of reach that nobody can be granted stays so. */
  lemma StaysUnattended(s: System, a: Action, o: nat)
    requires Inv(s) && Enabled(s, a) && OutOfReach(s, o) && Unattended(s, o)
    ensures Unattended(Next(s, a), o)
  {
    StaysIdle(s, a, o);
    forall d: nat
      ensures !Suitor(Next(s, a), d, o)
    {
      NoNewSuitor(s, a, o, d);
    }
  }

  lemma {:induction false} PathInv(states: seq<System>, actions: seq<Action>, i: nat)
    requires IsPath(states, actions) && Inv(states[0]) && i <= |actions|
    ensures Inv(states[i])
  {
    if i > 0 {
      PathInv(states, actions, i - 1);
      StepInv(states[i - 1], actions[i - 1]);
    }
  }

  lemma {:induction false} PathUnattended(states: seq<System>, actions: seq<Action>, o: nat, i: nat)
    requires IsPath(states, actions) && Inv(states[0]) && i <= |actions|
    requires OutOfReach(states[0], o) && Unattended(states[0], o)
    ensures OutOfReach(states[i], o) && Unattended(states[i], o)
  {
    if i > 0 {
      PathUnattended(states, actions, o, i - 1);
      PathInv(states, actions, i - 1);
      StaysOutOfReach(states[i - 1], actions[i - 1], o);
      StaysUnattended(states[i - 1], actions[i - 1], o);
    }
  }

  lemma {:induction false} PathCondemned(states: seq<System>, actions: seq<Action>, c: nat, o: nat, i: nat)
    requires IsPath(states, actions) && Inv(states[0]) && i <= |actions| && Condemned(states[0], c, o)
    requires forall k :: 0 <= k < |actions| ==> actions[k] != Delete(c)
    ensures Condemned(states[i], c, o)
  {
    if i > 0 {
      PathCondemned(states, actions, c, o, i - 1);
      PathInv(states, actions, i - 1);
      StaysCondemned(states[i - 1], actions[i - 1], c, o);
    }
  }

  /** A suitor of an idle object gets it in one or two steps of its own. */
  lemma SuitorIsServed(s: System, d: nat, o: nat) returns (states: seq<System>, actions: seq<Action>)
    requires Inv(s) && o < |s.slots| && !s.slots[o].core.processing && Suitor(s, d, o)
    ensures IsPath(states, actions) && states[0] == s && Holds(states[|actions|], d, o)
    ensures forall i :: 0 <= i < |actions| ==> actions[i] in {Wake(d), Attempt(d, 0)}
  {
    assert CallerOk(s, d);
    states, actions := [s], [];
    if s.callers[d].Waiting? {
      states, actions := [s, Next(s, Wake(d))], [Wake(d)];
    }
    var last := states[|actions|];
    states, actions := states + [Next(last, Attempt(d, 0))], actions + [Attempt(d, 0)];
  }

  /** The condemned entry is deleted while its object is processing. */
  predicate DeletesInUse(s: System, c: nat) {
    Enabled(s, Delete(c)) && s.slots[s.table[s.callers[c].doomed.value]].core.processing
  }

  ghost predicate MayDeleteInUse(s: System, c: nat) {
    exists states, actions ::
      && IsPath(states, actions) && states[0] == s
      && (forall i :: 0 <= i < |actions| ==> actions[i] != Delete(c))
      && DeletesInUse(states[|actions|], c)
  }

  /** Checking and deleting are two steps, so the object may be granted in between.
      Whether that can happen is settled at the verdict: if and only if a suitor of
      the object is there already. Otherwise every continuation deletes the entry of
      an idle object. */
  lemma DeletedInUseIff(s: System, c: nat, key: string)
    requires Reachable(s) && Enabled(s, Check(c, key))
    requires Next(s, Check(c, key)).callers[c].doomed.Some?
    ensures MayDeleteInUse(Next(s, Check(c, key)), c) <==> exists d: nat :: Suitor(s, d, s.table[key])
  {
    var v, o := Next(s, Check(c, key)), s.table[key];
    ReachableStep(s, Check(c, key));
    ReachableInv(v);
    assert Condemned(v, c, o) && !v.slots[o].core.processing;
    assert forall d: nat :: Suitor(v, d, o) == Suitor(s, d, o);
    if d: nat :| Suitor(s, d, o) {
      var states, actions := SuitorIsServed(v, d, o);
      ServedWhileCondemned(states, actions, c, d, o);
    } else {
      forall states, actions | IsPath(states, actions) && states[0] == v && forall i :: 0 <= i < |actions| ==> actions[i] != Delete(c)
        ensures !DeletesInUse(states[|actions|], c)
      {
        PathCondemned(states, actions, c, o, |actions|);
        PathUnattended(states, actions, o, |actions|);
      }
    }
  }

  lemma ServedWhileCondemned(states: seq<System>, actions: seq<Action>, c: nat, d: nat, o: nat)
    requires IsPath(states, actions) && Inv(states[0]) && Condemned(states[0], c, o)
    requires forall i :: 0 <= i < |actions| ==> actions[i] != Delete(c)
    requires Holds(states[|actions|], d, o)
    ensures MayDeleteInUse(states[0], c)
  {
    var last := states[|actions|];
    PathInv(states, actions, |actions|);
    PathCondemned(states, actions, c, o, |actions|);
    assert CallerOk(last, d);
    assert DeletesInUse(last, c);
  }

  lemma IdleIsNotHeld(s: System, o: nat)
    requires CallersOk(s) && o < |s.slots| && !s.slots[o].core.processing
    ensures forall d: nat :: !Holds(s, d, o)
  {
    assert forall d: nat :: Holds(s, d, o) ==> CallerOk(s, d);
  }

  /** Some continuation grants a ticket of the object. */
  ghost predicate MayServe(s: System, o: nat) {
    exists states, actions, d: nat :: IsPath(states, actions) && states[0] == s && Holds(states[|actions|], d, o)
  }

  /** An idle object whose entry is gone grants another ticket in some continuation
      if and only if a suitor is left. */
  lemma EvictedServesIff(s: System, o: nat)
    requires Reachable(s) && o < |s.slots| && s.slots[o].evicted && !s.slots[o].core.processing
    ensures MayServe(s, o) <==> exists d: nat :: Suitor(s, d, o)
  {
    ReachableInv(s);
    if d: nat :| Suitor(s, d, o) {
      var states, actions := SuitorIsServed(s, d, o);
    } else {
      forall states, actions | IsPath(states, actions) && states[0] == s
        ensures forall d: nat :: !Holds(states[|actions|], d, o)
      {
        PathUnattended(states, actions, o, |actions|);
        PathInv(states, actions, |actions|);
        IdleIsNotHeld(states[|actions|], o);
      }
    }
  }

  /** A waiter, on a channel that is still open, for an idle object whose entry is
      gone and that has no suitor. */
  ghost predicate Stranded(s: System, c: nat, o: nat) {
    && c < |s.callers| && s.callers[c].Waiting? && s.callers[c].obj == o && s.callers[c].ready !in s.closed
    && Unattended(s, o) && s.slots[o].evicted
  }

  lemma StaysStranded(s: System, a: Action, c: nat, o: nat)
    requires Inv(s) && Enabled(s, a) && Stranded(s, c, o) && a != Cancel(c)
    ensures Stranded(Next(s, a), c, o) && Next(s, a).callers[c] == s.callers[c]
  {
    StaysUnattended(s, a, o);
    StaysOpen(s, a, o);
  }

  lemma {:induction false} StrandedUntilCancelled(states: seq<System>, actions: seq<Action>, c: nat, o: nat, i: nat)
    requires IsPath(states, actions) && Inv(states[0]) && Stranded(states[0], c, o) && i <= |actions|
    requires forall k :: 0 <= k < i ==> actions[k] != Cancel(c)
    ensures Stranded(states[i], c, o) && states[i].callers[c] == states[0].callers[c]
  {
    if i > 0 {
      StrandedUntilCancelled(states, actions, c, o, i - 1);
      PathInv(states, actions, i - 1);
      StaysStranded(states[i - 1], actions[i - 1], c, o);
    }
  }

  /** Whatever happens, a stranded waiter waits on: only its cancellation can ever
      change it. */
  lemma StrandedForever(states: seq<System>, actions: seq<Action>, c: nat, o: nat)
    requires IsPath(states, actions) && Reachable(states[0]) && Stranded(states[0], c, o)
    requires Cancel(c) !in actions
    ensures var last := states[|actions|];
            Stranded(last, c, o) && last.callers[c] == states[0].callers[c] && !Enabled(last, Wake(c))
  {
    ReachableInv(states[0]);
    StrandedUntilCancelled(states, actions, c, o, |actions|);
  }

  /** Some continuation without its cancellation lets the waiter wake up. */
  ghost predicate MayWake(s: System, c: nat) {
    exists states, actions :: IsPath(states, actions) && states[0] == s && Cancel(c) !in actions && Enabled(states[|actions|], Wake(c))
  }

  /** The release that follows wakes the waiters of the object. */
  lemma ReleaseWakes(s: System, d: nat, c: nat, o: nat)
    requires Inv(s) && Holds(s, d, o) && c < |s.callers| && s.callers[c].Waiting? && s.callers[c].obj == o
    ensures Enabled(s, Release(d, 0)) && Enabled(Next(s, Release(d, 0)), Wake(c))
  {
    assert CallerOk(s, d) && CallerOk(s, c);
  }

  /** Steps of one caller leave another where it is. */
  lemma {:induction false} OthersStay(states: seq<System>, actions: seq<Action>, c: nat, d: nat, i: nat)
    requires IsPath(states, actions) && i <= |actions| && c < |states[0].callers| && c != d
    requires forall k :: 0 <= k < |actions| ==> actions[k] in {Wake(d), Attempt(d, 0)}
    ensures c < |states[i].callers| && states[i].callers[c] == states[0].callers[c]
  {
    if i > 0 {
      OthersStay(states, actions, c, d, i - 1);
      assert actions[i - 1] in {Wake(d), Attempt(d, 0)};
    }
  }

  lemma PathGoesOn(states: seq<System>, actions: seq<Action>, a: Action)
    requires IsPath(states, actions) && Enabled(states[|actions|], a)
    ensures IsPath(states + [Next(states[|actions|], a)], actions + [a])
  {
  }

  lemma SuitorWakes(s: System, c: nat, d: nat, o: nat)
    requires Inv(s) && o < |s.slots| && !s.slots[o].core.processing && Suitor(s, d, o)
    requires c < |s.callers| && s.callers[c].Waiting? && s.callers[c].obj == o && s.callers[c].ready !in s.closed
    ensures MayWake(s, c)
  {
    var states, actions := SuitorIsServed(s, d, o);
    var last := states[|actions|];
    PathInv(states, actions, |actions|);
    OthersStay(states, actions, c, d, |actions|);
    ReleaseWakes(last, d, c, o);
    PathGoesOn(states, actions, Release(d, 0));
    var states', actions' := states + [Next(last, Release(d, 0))], actions + [Release(d, 0)];
    assert states'[0] == s && states'[|actions'|] == Next(last, Release(d, 0));
    assert forall a :: a in actions ==> a in {Wake(d), Attempt(d, 0)};
    assert Cancel(c) !in actions';
  }

  /** A waiter with an open channel, for an idle object whose entry is gone, can ever
      wake up again if and only if the object has a suitor left. */
  lemma MayWakeIff(s: System, c: nat, o: nat)
    requires Reachable(s) && o < |s.slots| && s.slots[o].evicted && !s.slots[o].core.processing
    requires c < |s.callers| && s.callers[c].Waiting? && s.callers[c].obj == o && s.callers[c].ready !in s.closed
    ensures MayWake(s, c) <==> exists d: nat :: Suitor(s, d, o)
  {
    ReachableInv(s);
    if d: nat :| Suitor(s, d, o) {
      SuitorWakes(s, c, d, o);
    } else {
      forall states, actions | IsPath(states, actions) && states[0] == s && Cancel(c) !in actions
        ensures !Enabled(states[|actions|], Wake(c))
      {
        StrandedForever(states, actions, c, o);
      }
    }
  }

  // ----- runs in which eviction does harm

  /** The state that the first lookup of request "a" makes, at time 1. */
  const FRESH := Slot(Core(1, false), 0, 1, "a", [], 0, false)

  /** Request "a" has this one state and this one caller. */
  function Alone(first: Caller): System {
    System(map["a" := 0], [FRESH], {}, 1, None, [first])
  }

  lemma LookedUpIsReachable(seqno: int)
    requires 1 <= seqno <= MAX_SEQ
    ensures Reachable(Alone(Trying(0, seqno)))
  {
    assert IsRun([START], []);
    var asking := START.(callers := [Asking("a", seqno, 1)]);
    ReachableStep(START, Begin("a", seqno, 1));
    assert START.table.Keys == {};
    ReachableStep(asking, Enter(0));
    var sweeping := START.(callers := [Sweeping("a", seqno, 1, {}, None)], sweeper := Some(0));
    assert Next(asking, Enter(0)) == sweeping;
    ReachableStep(sweeping, Lookup(0));
    assert Next(sweeping, Lookup(0)) == Alone(Trying(0, seqno));
  }

  /** A second caller of that request, much later, is sweeping. */
  function Swept(slot: Slot, first: Caller, todo: set<string>, doomed: Option<string>): System {
    System(map["a" := 0], [slot], {}, 1, Some(1), [first, Sweeping("a", 1, RETENTION + 2, todo, doomed)])
  }

  lemma CondemnedIsReachable(first: Caller)
    requires Reachable(Alone(first))
    ensures Reachable(Swept(FRESH, first, {"a"}, None)) && Enabled(Swept(FRESH, first, {"a"}, None), Check(1, "a"))
    ensures Reachable(Swept(FRESH, first, {"a"}, Some("a")))
  {
    var alone := Alone(first);
    var asking := alone.(callers := [first, Asking("a", 1, RETENTION + 2)]);
    ReachableStep(alone, Begin("a", 1, RETENTION + 2));
    assert Next(alone, Begin("a", 1, RETENTION + 2)) == asking;
    assert asking.table.Keys == {"a"};
    ReachableStep(asking, Enter(1));
    var sweeping := Swept(FRESH, first, {"a"}, None);
    assert Next(asking, Enter(1)) == sweeping;
    ReachableStep(sweeping, Check(1, "a"));
    assert Next(sweeping, Check(1, "a")) == Swept(FRESH, first, {"a"}, Some("a"));
  }

  /** The second caller has deleted the entry and looked its request up. */
  function Renewed(slot: Slot, first: Caller): System {
    System(map["a" := 1], [slot.(evicted := true), Slot(Core(1, false), 1, RETENTION + 2, "a", [], 0, false)], {}, 2, None,
           [first, Trying(1, 1)])
  }

  lemma RenewedIsReachable(slot: Slot, first: Caller)
    requires Reachable(Swept(slot, first, {"a"}, Some("a")))
    ensures Reachable(Renewed(slot, first))
  {
    var condemned := Swept(slot, first, {"a"}, Some("a"));
    ReachableStep(condemned, Delete(1));
    assert condemned.table - {"a"} == map[] && {"a"} - {"a"} == {};
    var deleted := System(map[], [slot.(evicted := true)], {}, 1, Some(1),
                          [first, Sweeping("a", 1, RETENTION + 2, {}, None)]);
    assert Next(condemned, Delete(1)) == deleted;
    ReachableStep(deleted, Lookup(1));
    assert Next(deleted, Lookup(1)) == Renewed(slot, first);
  }

  /** The first caller was granted between the verdict and the deletion. */
  const TAKEN := Slot(Core(1, true), 0, RETENTION + 2, "a", [1], 0, false)
  const RACING := Swept(TAKEN, Holding(0, 1), {"a"}, Some("a"))

  lemma TakenAfterAttempt()
    ensures AfterAttempt(FRESH, 1, RETENTION + 2) == TAKEN && AfterAttemptCaller(FRESH, 0, 1) == Holding(0, 1)
  {
    var none: seq<int> := [];
    assert none + [1] == [1];
  }

  lemma RacingIsReachable()
    ensures Reachable(RACING)
  {
    LookedUpIsReachable(1);
    CondemnedIsReachable(Trying(0, 1));
    var condemned := Swept(FRESH, Trying(0, 1), {"a"}, Some("a"));
    ReachableStep(condemned, Attempt(0, RETENTION + 2));
    TakenAfterAttempt();
    assert Next(condemned, Attempt(0, RETENTION + 2)) == RACING;
  }

  /** The race does happen: an entry disappears while its object is processing. */
  lemma EvictionRace()
    ensures Reachable(RACING) && DeletesInUse(RACING, 1) && Holds(RACING, 0, 0)
    ensures "a" !in Next(RACING, Delete(1)).table
  {
    RacingIsReachable();
  }

  /** And it costs exclusion: both callers hold ticket 1 of one request. */
  lemma TwoTicketsOfOneRequest() returns (s: System)
    ensures Reachable(s) && |s.slots| == 2 && s.slots[0].id == s.slots[1].id == "a"
    ensures Holds(s, 0, 0) && Holds(s, 1, 1) && s.callers[0].seqno == s.callers[1].seqno == 1
    ensures s.slots[0].evicted && !s.slots[1].evicted
  {
    RacingIsReachable();
    RenewedIsReachable(TAKEN, Holding(0, 1));
    var renewed := Renewed(TAKEN, Holding(0, 1));
    ReachableStep(renewed, Attempt(1, RETENTION + 2));
    s := Next(renewed, Attempt(1, RETENTION + 2));
  }

  lemma WaiterIsSweptAway()
    ensures Reachable(Renewed(FRESH, Waiting(0, 2, 0)))
  {
    LookedUpIsReachable(2);
    ReachableStep(Alone(Trying(0, 2)), Attempt(0, 1));
    assert Next(Alone(Trying(0, 2)), Attempt(0, 1)) == Alone(Waiting(0, 2, 0));
    CondemnedIsReachable(Waiting(0, 2, 0));
    RenewedIsReachable(FRESH, Waiting(0, 2, 0));
  }

  /** Eviction without a race harms too: number 2 waits for number 1, which comes
      after the retention period, gets a fresh state and is released there. That
      state expects number 2, whose caller is stranded at the old one. */
  lemma WaiterIsStranded() returns (s: System)
    ensures Reachable(s) && |s.slots| == 2 && |s.callers| == 2 && s.slots[0].id == s.slots[1].id == "a"
    ensures s.slots[1].core == Core(2, false) && Leads(s, "a", 1)
    ensures s.callers[0].Waiting? && s.callers[0].seqno == 2 && Stranded(s, 0, 0)
  {
    WaiterIsSweptAway();
    var renewed := Renewed(FRESH, Waiting(0, 2, 0));
    ReachableStep(renewed, Attempt(1, RETENTION + 2));
    var granted := Next(renewed, Attempt(1, RETENTION + 2));
    ReachableStep(granted, Release(1, RETENTION + 3));
    s := Next(granted, Release(1, RETENTION + 3));
    assert s.callers == [Waiting(0, 2, 0), Released(1, 1)] && s.closed == {1};
    assert forall d: nat :: !Suitor(s, d, 0);
  }
}
