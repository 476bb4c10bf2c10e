/** The usage ledger: lifetime totals, daily snapshots with per-model counters and
    a window of recent requests, all updated in place by each logged request. */
module UsageLedger {

  const MAX_RECENT: nat := 1000
  const MAX_SNAPSHOTS: nat := 90

  datatype RequestLog = RequestLog(
    id: int, timestamp: int, model: string,
    promptTokens: int, completionTokens: int, totalTokens: int,
    status: int, duration: int, stream: bool)

  datatype Totals = Totals(requests: int, promptTokens: int, completionTokens: int, totalTokens: int, errors: int)

  const ZERO := Totals(0, 0, 0, 0, 0)

  function Plus(a: Totals, b: Totals): Totals {
    Totals(a.requests + b.requests, a.promptTokens + b.promptTokens, a.completionTokens + b.completionTokens,
           a.totalTokens + b.totalTokens, a.errors + b.errors)
  }

  function One(log: RequestLog): Totals {
    Totals(1, log.promptTokens, log.completionTokens, log.totalTokens, if log.status >= 400 then 1 else 0)
  }

  /** A day's counters, with an auxiliary record of the logs they count. */
  datatype Snapshot = Snapshot(date: string, totals: Totals, byModel: map<string, Totals>, logs: seq<RequestLog>)

  /** Property names that a plain object inherits. Looking one of these up finds the
      inherited value, so no counter of that name is ever created. The laws hold for
      any such set; the program runs with the names of JavaScript's objects. */
  type Inherited = set<string>

  const INHERITED: Inherited := {
    "constructor", "toString", "toLocaleString", "valueOf", "hasOwnProperty", "isPrototypeOf", "propertyIsEnumerable",
    "__proto__", "__defineGetter__", "__defineSetter__", "__lookupGetter__", "__lookupSetter__"
  }

  function Counted(byModel: map<string, Totals>, log: RequestLog, inherited: Inherited): map<string, Totals> {
    if log.model in inherited then byModel
    else if log.model in byModel then byModel[log.model := Plus(byModel[log.model], One(log))]
    else byModel[log.model := One(log)]
  }

  function Recorded(s: Snapshot, log: RequestLog, inherited: Inherited): Snapshot {
    Snapshot(s.date, Plus(s.totals, One(log)), Counted(s.byModel, log, inherited), s.logs + [log])
  }

  function EmptySnapshot(date: string): Snapshot {
    Snapshot(date, ZERO, map[], [])
  }

  // ----- one request, as a function of the ledger

  datatype Ledger = Ledger(recent: seq<RequestLog>, lifetime: Totals, snapshots: seq<Snapshot>)

  function IndexFrom(snapshots: seq<Snapshot>, date: string, from: nat): (i: nat)
    requires from <= |snapshots|
    ensures from <= i <= |snapshots|
    ensures i < |snapshots| ==> snapshots[i].date == date
    ensures forall k :: from <= k < i ==> snapshots[k].date != date
    decreases |snapshots| - from
  {
    if from == |snapshots| || snapshots[from].date == date then from else IndexFrom(snapshots, date, from + 1)
  }

  /** The position of the snapshot of a date, or the length if there is none. */
  function IndexOf(snapshots: seq<Snapshot>, date: string): nat {
    IndexFrom(snapshots, date, 0)
  }

  function AddRecent(recent: seq<RequestLog>, log: RequestLog): seq<RequestLog> {
    var pushed := recent + [log];
    if |pushed| > MAX_RECENT then pushed[1..] else pushed
  }

  function Bounded(pushed: seq<Snapshot>): seq<Snapshot> {
    if |pushed| > MAX_SNAPSHOTS then pushed[1..] else pushed
  }

  function AddSnapshot(snapshots: seq<Snapshot>, log: RequestLog, today: string, inherited: Inherited): seq<Snapshot> {
    var i := IndexOf(snapshots, today);
    if i < |snapshots| then snapshots[i := Recorded(snapshots[i], log, inherited)]
    else Bounded(snapshots + [Recorded(EmptySnapshot(today), log, inherited)])
  }

  /** The snapshots shifted out by a request. */
  function ShiftedOut(snapshots: seq<Snapshot>, today: string): seq<Snapshot> {
    if IndexOf(snapshots, today) == |snapshots| >= MAX_SNAPSHOTS then [snapshots[0]] else []
  }

  function Add(l: Ledger, log: RequestLog, today: string, inherited: Inherited): Ledger {
    Ledger(AddRecent(l.recent, log), Plus(l.lifetime, One(log)), AddSnapshot(l.snapshots, log, today, inherited))
  }

  // ----- the module's state

  class UsageDb {
    var requestIdCounter: int
    var recentRequests: seq<RequestLog>
    var lifetimeTotals: Totals
    var dailySnapshots: seq<Snapshot>

    constructor ()
      ensures Value() == Ledger([], ZERO, []) && requestIdCounter == 0
    {
      requestIdCounter, recentRequests, lifetimeTotals, dailySnapshots := 0, [], ZERO, [];
    }

    function Value(): Ledger
      reads this
    {
      Ledger(recentRequests, lifetimeTotals, dailySnapshots)
    }

    method GetNextRequestId() returns (id: int)
      modifies this`requestIdCounter
      ensures id == requestIdCounter == old(requestIdCounter) + 1
    {
      requestIdCounter := requestIdCounter + 1;
      id := requestIdCounter;
    }

    method FindSnapshot(date: string) returns (i: nat)
      ensures i == IndexOf(dailySnapshots, date)
    {
      i := 0;
      while i < |dailySnapshots| && dailySnapshots[i].date != date
        invariant i <= |dailySnapshots|
        invariant forall k :: 0 <= k < i ==> dailySnapshots[k].date != date
      {
        i := i + 1;
      }
      var first := IndexOf(dailySnapshots, date);
    }

    /** Today's snapshot, created if need be; creating one may shift out the oldest. */
    method OpenSnapshot(today: string) returns (i: nat)
      modifies this`dailySnapshots
      ensures i < |dailySnapshots|
      ensures var found := IndexOf(old(dailySnapshots), today);
              if found < |old(dailySnapshots)| then i == found && dailySnapshots == old(dailySnapshots)
              else i == |dailySnapshots| - 1 && dailySnapshots == Bounded(old(dailySnapshots) + [EmptySnapshot(today)])
    {
      i := FindSnapshot(today);
      if i == |dailySnapshots| {
        dailySnapshots := dailySnapshots + [EmptySnapshot(today)];
        if |dailySnapshots| > MAX_SNAPSHOTS {
          dailySnapshots := dailySnapshots[1..];
        }
        i := |dailySnapshots| - 1;
      }
    }

    method CountIn(before: Snapshot, log: RequestLog) returns (snap: Snapshot)
      ensures snap == Recorded(before, log, INHERITED)
    {
      snap := before.(totals := Plus(before.totals, One(log)), logs := before.logs + [log]);
      if log.model in INHERITED {
        return;
      }
      if log.model !in snap.byModel {
        snap := snap.(byModel := snap.byModel[log.model := ZERO]);
      }
      snap := snap.(byModel := snap.byModel[log.model := Plus(snap.byModel[log.model], One(log))]);
      assert snap.byModel == Counted(before.byModel, log, INHERITED);
    }

    method AddRequestLog(log: RequestLog, today: string)
      modifies this
      ensures Value() == Add(old(Value()), log, today, INHERITED)
      ensures requestIdCounter == old(requestIdCounter)
    {
      recentRequests := recentRequests + [log];
      if |recentRequests| > MAX_RECENT {
        recentRequests := recentRequests[1..];
      }
      lifetimeTotals := Plus(lifetimeTotals, One(log));
      var i := OpenSnapshot(today);
      var snap := CountIn(dailySnapshots[i], log);
      dailySnapshots := dailySnapshots[i := snap];
      CountAfterOpening(old(dailySnapshots), EmptySnapshot(today), snap);
    }
  }

  /** Filling in the new last snapshot commutes with shifting out the first. */
  lemma CountAfterOpening(snapshots: seq<Snapshot>, empty: Snapshot, snap: Snapshot)
    ensures var bounded := Bounded(snapshots + [empty]);
            bounded[|bounded| - 1] == empty && bounded[|bounded| - 1 := snap] == Bounded(snapshots + [snap])
  {
  }

  // ----- whole histories

  datatype Entry = Entry(log: RequestLog, today: string)

  datatype History = History(ledger: Ledger, shiftedOut: seq<Snapshot>)

  /** The empty ledger, with nothing shifted out. */
  predicate IsEmpty(h: History) {
    |h.ledger.recent| == 0 && h.ledger.lifetime == ZERO && |h.ledger.snapshots| == 0 && |h.shiftedOut| == 0
  }

  function After(h: History, e: Entry, inherited: Inherited): History {
    History(Add(h.ledger, e.log, e.today, inherited), h.shiftedOut + ShiftedOut(h.ledger.snapshots, e.today))
  }

  /** The ledger's states over a sequence of requests from the empty state. */
  ghost predicate IsRun(states: seq<History>, entries: seq<Entry>, inherited: Inherited) {
    && |states| == |entries| + 1
    && IsEmpty(states[0])
    && forall i :: 0 <= i < |entries| ==> states[i + 1] == After(states[i], entries[i], inherited)
  }

  /** The counters of the first n logs. */
  function SumFirst(logs: seq<RequestLog>, n: nat): Totals
    requires n <= |logs|
  {
    if n == 0 then ZERO else Plus(SumFirst(logs, n - 1), One(logs[n - 1]))
  }

  function SumLogs(logs: seq<RequestLog>): Totals {
    SumFirst(logs, |logs|)
  }

  // ----- what each counter counts

  datatype Counter = Requests | PromptTokens | CompletionTokens | TotalTokens | Errors

  /** What a log adds to a counter: one request, its own token counts, and one error if
      its status is 400 or above. */
  function Amount(log: RequestLog, c: Counter): int {
    match c
    case Requests => 1
    case PromptTokens => log.promptTokens
    case CompletionTokens => log.completionTokens
    case TotalTokens => log.totalTokens
    case Errors => if log.status >= 400 then 1 else 0
  }

  function Read(t: Totals, c: Counter): int {
    match c
    case Requests => t.requests
    case PromptTokens => t.promptTokens
    case CompletionTokens => t.completionTokens
    case TotalTokens => t.totalTokens
    case Errors => t.errors
  }

  function AmountFirst(logs: seq<RequestLog>, c: Counter, n: nat): int
    requires n <= |logs|
  {
    if n == 0 then 0 else AmountFirst(logs, c, n - 1) + Amount(logs[n - 1], c)
  }

  function ModelAmountFirst(logs: seq<RequestLog>, model: string, c: Counter, n: nat): int
    requires n <= |logs|
  {
    if n == 0 then 0
    else ModelAmountFirst(logs, model, c, n - 1) + if logs[n - 1].model == model then Amount(logs[n - 1], c) else 0
  }

  /** Every counter is the sum of its own quantity over the logs. */
  ghost predicate Counts(t: Totals, logs: seq<RequestLog>) {
    forall c: Counter :: Read(t, c) == AmountFirst(logs, c, |logs|)
  }

  /** And over the logs of one model. */
  ghost predicate CountsModel(t: Totals, logs: seq<RequestLog>, model: string) {
    forall c: Counter :: Read(t, c) == ModelAmountFirst(logs, model, c, |logs|)
  }

  lemma {:induction false} SumCountsFirst(logs: seq<RequestLog>, c: Counter, n: nat)
    requires n <= |logs|
    ensures Read(SumFirst(logs, n), c) == AmountFirst(logs, c, n)
  {
    if n > 0 {
      SumCountsFirst(logs, c, n - 1);
    }
  }

  lemma SumCounts(logs: seq<RequestLog>)
    ensures Counts(SumLogs(logs), logs)
  {
    forall c: Counter
      ensures Read(SumLogs(logs), c) == AmountFirst(logs, c, |logs|)
    {
      SumCountsFirst(logs, c, |logs|);
    }
  }

  lemma {:induction false} ModelCountsFirst(logs: seq<RequestLog>, model: string, c: Counter, n: nat)
    requires n <= |logs|
    ensures Read(SumLogs(OfModel(logs[..n], model)), c) == ModelAmountFirst(logs, model, c, n)
  {
    if n > 0 {
      ModelCountsFirst(logs, model, c, n - 1);
      assert logs[..n] == logs[..n - 1] + [logs[n - 1]];
      OfModelAppend(logs[..n - 1], logs[n - 1], model);
    }
  }

  lemma ModelCounts(logs: seq<RequestLog>, model: string)
    ensures CountsModel(SumLogs(OfModel(logs, model)), logs, model)
  {
    forall c: Counter
      ensures Read(SumLogs(OfModel(logs, model)), c) == ModelAmountFirst(logs, model, c, |logs|)
    {
      ModelCountsFirst(logs, model, c, |logs|);
      assert logs[..|logs|] == logs;
    }
  }

  /** A model has a row if it is not named like an inherited property and some log is
      of it. */
  ghost predicate HasRow(logs: seq<RequestLog>, model: string, inherited: Inherited) {
    model !in inherited && exists i :: 0 <= i < |logs| && logs[i].model == model
  }

  lemma RowsAre(logs: seq<RequestLog>, inherited: Inherited)
    ensures forall model :: model in OwnModels(logs, inherited) <==> HasRow(logs, model, inherited)
  {
  }

  function LogsOf(entries: seq<Entry>): seq<RequestLog> {
    if entries == [] then [] else LogsOf(entries[..|entries| - 1]) + [entries[|entries| - 1].log]
  }

  /** The counters of the first n snapshots. */
  function SnapshotsFirst(snapshots: seq<Snapshot>, n: nat): Totals
    requires n <= |snapshots|
  {
    if n == 0 then ZERO else Plus(SnapshotsFirst(snapshots, n - 1), snapshots[n - 1].totals)
  }

  function SumSnapshots(snapshots: seq<Snapshot>): Totals {
    SnapshotsFirst(snapshots, |snapshots|)
  }

  lemma LastSnapshot(snapshots: seq<Snapshot>, n: nat)
    requires 0 < n <= |snapshots|
    ensures SnapshotsFirst(snapshots, n) == Plus(SnapshotsFirst(snapshots, n - 1), snapshots[n - 1].totals)
  {
  }

  lemma PlusAssoc(a: Totals, b: Totals, c: Totals)
    ensures Plus(Plus(a, b), c) == Plus(a, Plus(b, c))
  {
  }

  lemma {:induction false} SnapshotsPrefix(a: seq<Snapshot>, b: seq<Snapshot>, n: nat)
    requires n <= |a|
    ensures SnapshotsFirst(a + b, n) == SnapshotsFirst(a, n)
  {
    if n > 0 {
      SnapshotsPrefix(a, b, n - 1);
    }
  }

  /** The first counters over a concatenation: all of a and the first n of b. */
  predicate BeyondOk(a: seq<Snapshot>, b: seq<Snapshot>, n: nat)
    requires n <= |b|
  {
    SnapshotsFirst(a + b, |a| + n) == Plus(SumSnapshots(a), SnapshotsFirst(b, n))
  }

  lemma BeyondNone(a: seq<Snapshot>, b: seq<Snapshot>)
    ensures BeyondOk(a, b, 0)
  {
    SnapshotsPrefix(a, b, |a|);
  }

  lemma BeyondStep(a: seq<Snapshot>, b: seq<Snapshot>, n: nat)
    requires n < |b| && BeyondOk(a, b, n)
    ensures BeyondOk(a, b, n + 1)
  {
    LastSnapshot(a + b, |a| + n + 1);
    LastSnapshot(b, n + 1);
    assert (a + b)[|a| + n] == b[n];
    PlusAssoc(SumSnapshots(a), SnapshotsFirst(b, n), b[n].totals);
  }

  lemma {:induction false} SnapshotsBeyond(a: seq<Snapshot>, b: seq<Snapshot>, n: nat)
    requires n <= |b|
    ensures BeyondOk(a, b, n)
  {
    if n == 0 {
      BeyondNone(a, b);
    } else {
      SnapshotsBeyond(a, b, n - 1);
      BeyondStep(a, b, n - 1);
    }
  }

  lemma SumSnapshotsConcat(a: seq<Snapshot>, b: seq<Snapshot>)
    ensures SumSnapshots(a + b) == Plus(SumSnapshots(a), SumSnapshots(b))
  {
    SnapshotsBeyond(a, b, |b|);
  }

  lemma SumOne(s: Snapshot)
    ensures SumSnapshots([s]) == s.totals
  {
    assert SnapshotsFirst([s], 1) == Plus(SnapshotsFirst([s], 0), s.totals);
  }

  lemma SumSplit(snapshots: seq<Snapshot>, i: nat)
    requires i < |snapshots|
    ensures SumSnapshots(snapshots)
         == Plus(Plus(SumSnapshots(snapshots[..i]), snapshots[i].totals), SumSnapshots(snapshots[i + 1..]))
  {
    assert snapshots == snapshots[..i] + [snapshots[i]] + snapshots[i + 1..];
    SumSnapshotsConcat(snapshots[..i] + [snapshots[i]], snapshots[i + 1..]);
    SumSnapshotsConcat(snapshots[..i], [snapshots[i]]);
    SumOne(snapshots[i]);
  }

  /** One request adds its counters to retained and shifted-out snapshots together. */
  lemma AddSnapshotSum(snapshots: seq<Snapshot>, log: RequestLog, today: string, inherited: Inherited)
    ensures Plus(SumSnapshots(AddSnapshot(snapshots, log, today, inherited)), SumSnapshots(ShiftedOut(snapshots, today)))
         == Plus(SumSnapshots(snapshots), One(log))
  {
    var i := IndexOf(snapshots, today);
    var after := AddSnapshot(snapshots, log, today, inherited);
    if i < |snapshots| {
      SumSplit(snapshots, i);
      SumSplit(after, i);
      assert after[..i] == snapshots[..i] && after[i + 1..] == snapshots[i + 1..];
    } else {
      var fresh' := Recorded(EmptySnapshot(today), log, inherited);
      SumSnapshotsConcat(snapshots, [fresh']);
      SumOne(fresh');
      if |snapshots| >= MAX_SNAPSHOTS {
        var pushed := snapshots + [fresh'];
        assert pushed == [snapshots[0]] + after;
        SumSnapshotsConcat([snapshots[0]], after);
        SumOne(snapshots[0]);
      }
    }
  }

  predicate Balanced(h: History) {
    h.ledger.lifetime == Plus(SumSnapshots(h.ledger.snapshots), SumSnapshots(h.shiftedOut))
  }

  lemma {:induction false} AlwaysBalanced(states: seq<History>, entries: seq<Entry>, inherited: Inherited, n: nat)
    requires IsRun(states, entries, inherited) && n <= |entries|
    ensures Balanced(states[n])
  {
    if n == 0 {
      EmptyIsBalanced(states[0]);
    } else {
      AlwaysBalanced(states, entries, inherited, n - 1);
      StaysBalanced(states[n - 1], entries[n - 1], inherited);
    }
  }

  lemma {:induction false} LifetimeIsSum(states: seq<History>, entries: seq<Entry>, inherited: Inherited, n: nat)
    requires IsRun(states, entries, inherited) && n <= |entries|
    ensures states[n].ledger.lifetime == SumLogs(LogsOf(entries[..n]))
  {
    if n == 0 {
      SumOfNone(LogsOf(entries[..0]));
    } else {
      LifetimeIsSum(states, entries, inherited, n - 1);
      LogsAppend(entries, n - 1);
      SumAppend(LogsOf(entries[..n - 1]), entries[n - 1].log);
    }
  }

  /** Conservation: each lifetime counter is the sum of its own quantity over all
      logs, and also what the retained and the shifted-out snapshots add up to. */
  lemma LifetimeIsConserved(states: seq<History>, entries: seq<Entry>, inherited: Inherited, n: nat)
    requires IsRun(states, entries, inherited) && n <= |entries|
    ensures |LogsOf(entries[..n])| == n && forall i :: 0 <= i < n ==> LogsOf(entries[..n])[i] == entries[i].log
    ensures Counts(states[n].ledger.lifetime, LogsOf(entries[..n]))
    ensures Balanced(states[n])
  {
    AlwaysBalanced(states, entries, inherited, n);
    LifetimeIsSum(states, entries, inherited, n);
    LogsAre(entries, n);
    SumCounts(LogsOf(entries[..n]));
  }

  lemma {:induction false} LogsAre(entries: seq<Entry>, n: nat)
    requires n <= |entries|
    ensures |LogsOf(entries[..n])| == n && forall i :: 0 <= i < n ==> LogsOf(entries[..n])[i] == entries[i].log
  {
    if n > 0 {
      LogsAre(entries, n - 1);
      LogsAppend(entries, n - 1);
    }
  }

  lemma NoneSum(snapshots: seq<Snapshot>)
    requires |snapshots| == 0
    ensures SumSnapshots(snapshots) == ZERO
  {
  }

  lemma SumOfNone(logs: seq<RequestLog>)
    requires |logs| == 0
    ensures SumLogs(logs) == ZERO
  {
  }

  lemma EmptyIsBalanced(h: History)
    requires IsEmpty(h)
    ensures Balanced(h)
  {
    NoneSum(h.ledger.snapshots);
    NoneSum(h.shiftedOut);
  }

  lemma LogsAppend(entries: seq<Entry>, n: nat)
    requires n < |entries|
    ensures LogsOf(entries[..n + 1]) == LogsOf(entries[..n]) + [entries[n].log]
  {
    assert entries[..n + 1][..n] == entries[..n];
  }

  lemma StaysBalanced(h: History, e: Entry, inherited: Inherited)
    requires Balanced(h)
    ensures Balanced(After(h, e, inherited))
  {
    var out := ShiftedOut(h.ledger.snapshots, e.today);
    var now := AddSnapshot(h.ledger.snapshots, e.log, e.today, inherited);
    AddSnapshotSum(h.ledger.snapshots, e.log, e.today, inherited);
    SumSnapshotsConcat(h.shiftedOut, out);
    Rearrange(SumSnapshots(h.ledger.snapshots), SumSnapshots(h.shiftedOut), One(e.log), SumSnapshots(now), SumSnapshots(out));
  }

  lemma Rearrange(kept: Totals, gone: Totals, one: Totals, now: Totals, out: Totals)
    requires Plus(now, out) == Plus(kept, one)
    ensures Plus(Plus(kept, gone), one) == Plus(now, Plus(gone, out))
  {
  }

  /** The recent requests are exactly the last thousand logs, or all of them. */
  lemma {:induction false} RecentIsSuffix(states: seq<History>, entries: seq<Entry>, inherited: Inherited, n: nat)
    requires IsRun(states, entries, inherited) && n <= |entries|
    ensures var logs := LogsOf(entries[..n]);
            var kept := if |logs| < 1000 then |logs| else 1000;
            states[n].ledger.recent == logs[|logs| - kept..]
  {
    if n > 0 {
      RecentIsSuffix(states, entries, inherited, n - 1);
      LogsAppend(entries, n - 1);
    }
  }

  // ----- what a snapshot says

  predicate DistinctDates(snapshots: seq<Snapshot>) {
    forall i, j :: 0 <= i < j < |snapshots| ==> snapshots[i].date != snapshots[j].date
  }

  /** The logs of one model. */
  function OfModel(logs: seq<RequestLog>, model: string): seq<RequestLog> {
    if logs == [] then []
    else OfModel(logs[..|logs| - 1], model) + if logs[|logs| - 1].model == model then [logs[|logs| - 1]] else []
  }

  /** The models counted in a snapshot. */
  function OwnModels(logs: seq<RequestLog>, inherited: Inherited): set<string> {
    set i | 0 <= i < |logs| && logs[i].model !in inherited :: logs[i].model
  }

  /** The counters of a snapshot are those of its logs, in total and by model. */
  predicate SnapshotOk(s: Snapshot, inherited: Inherited) {
    && s.totals == SumLogs(s.logs)
    && s.byModel.Keys == OwnModels(s.logs, inherited)
    && forall model :: model in s.byModel ==> s.byModel[model] == SumLogs(OfModel(s.logs, model))
  }

  lemma RecordedOk(s: Snapshot, log: RequestLog, inherited: Inherited)
    requires SnapshotOk(s, inherited)
    ensures SnapshotOk(Recorded(s, log, inherited), inherited)
  {
    SumAppend(s.logs, log);
    OwnModelsAppend(s.logs, log, inherited);
    forall model | model in Counted(s.byModel, log, inherited)
      ensures Counted(s.byModel, log, inherited)[model] == SumLogs(OfModel(s.logs + [log], model))
    {
      CountedModel(s, log, inherited, model);
    }
  }

  lemma CountedModel(s: Snapshot, log: RequestLog, inherited: Inherited, model: string)
    requires SnapshotOk(s, inherited) && model in Counted(s.byModel, log, inherited)
    ensures Counted(s.byModel, log, inherited)[model] == SumLogs(OfModel(s.logs + [log], model))
  {
    OfModelAppend(s.logs, log, model);
    if model !in s.byModel {
      NoLogsOfModel(s.logs, model, inherited);
    }
  }

  lemma OfModelAppend(logs: seq<RequestLog>, log: RequestLog, model: string)
    ensures OfModel(logs + [log], model) == OfModel(logs, model) + if log.model == model then [log] else []
    ensures SumLogs(OfModel(logs + [log], model))
         == if log.model == model then Plus(SumLogs(OfModel(logs, model)), One(log)) else SumLogs(OfModel(logs, model))
  {
    assert (logs + [log])[..|logs|] == logs;
    SumAppend(OfModel(logs, model), log);
    assert OfModel(logs, model) + [] == OfModel(logs, model);
  }

  lemma OwnModelsAppend(logs: seq<RequestLog>, log: RequestLog, inherited: Inherited)
    ensures OwnModels(logs + [log], inherited) == OwnModels(logs, inherited) + if log.model in inherited then {} else {log.model}
  {
    var all := logs + [log];
    assert all[|logs|] == log;
    assert forall i :: 0 <= i < |logs| ==> all[i] == logs[i];
  }

  lemma {:induction false} NoLogsOfModel(logs: seq<RequestLog>, model: string, inherited: Inherited)
    requires model !in inherited && model !in OwnModels(logs, inherited)
    ensures OfModel(logs, model) == []
  {
    if logs != [] {
      var n := |logs| - 1;
      assert logs == logs[..n] + [logs[n]];
      OwnModelsAppend(logs[..n], logs[n], inherited);
      NoLogsOfModel(logs[..n], model, inherited);
    }
  }

  predicate SnapshotsOk(snapshots: seq<Snapshot>, inherited: Inherited) {
    forall i :: 0 <= i < |snapshots| ==> SnapshotOk(snapshots[i], inherited)
  }

  lemma AddSnapshotSound(snapshots: seq<Snapshot>, log: RequestLog, today: string, inherited: Inherited)
    requires DistinctDates(snapshots) && |snapshots| <= MAX_SNAPSHOTS && SnapshotsOk(snapshots, inherited)
    ensures var after := AddSnapshot(snapshots, log, today, inherited);
            DistinctDates(after) && |after| <= MAX_SNAPSHOTS && SnapshotsOk(after, inherited)
    ensures SnapshotsOk(ShiftedOut(snapshots, today), inherited)
  {
    var i := IndexOf(snapshots, today);
    if i < |snapshots| {
      RecordedOk(snapshots[i], log, inherited);
    } else {
      EmptyOk(today, inherited);
      RecordedOk(EmptySnapshot(today), log, inherited);
    }
  }

  /** A request is counted in the snapshot of its day and in no other: the others
      stay as they are, except for the one that may be shifted out. */
  lemma OnlyTodayChanges(snapshots: seq<Snapshot>, log: RequestLog, today: string, inherited: Inherited)
    requires DistinctDates(snapshots) && |snapshots| <= MAX_SNAPSHOTS
    ensures var i := IndexOf(snapshots, today);
            var was := if i < |snapshots| then snapshots[i] else EmptySnapshot(today);
            Recorded(was, log, inherited) in AddSnapshot(snapshots, log, today, inherited)
    ensures forall s: Snapshot :: s.date != today && s in AddSnapshot(snapshots, log, today, inherited) ==> s in snapshots
    ensures forall s: Snapshot :: s.date != today && s in snapshots ==>
              s in AddSnapshot(snapshots, log, today, inherited) || s in ShiftedOut(snapshots, today)
  {
    var i := IndexOf(snapshots, today);
    var after := AddSnapshot(snapshots, log, today, inherited);
    if i < |snapshots| {
      assert after[i] == Recorded(snapshots[i], log, inherited);
      assert forall k :: 0 <= k < |snapshots| && k != i ==> after[k] == snapshots[k];
    } else {
      var fresh' := Recorded(EmptySnapshot(today), log, inherited);
      var pushed := snapshots + [fresh'];
      assert after[|after| - 1] == fresh';
      assert forall s :: s in pushed <==> s in snapshots || s == fresh';
      assert |pushed| > MAX_SNAPSHOTS ==> pushed == [snapshots[0]] + after;
    }
  }

  lemma EmptyOk(today: string, inherited: Inherited)
    ensures SnapshotOk(EmptySnapshot(today), inherited)
  {
  }

  /** A snapshot's counters, for the day and for each model, are the sums of their own
      quantities over its logs, and the models are those of its logs. */
  ghost predicate CountsItsLogs(s: Snapshot, inherited: Inherited) {
    && Counts(s.totals, s.logs)
    && (forall model :: model in s.byModel <==> HasRow(s.logs, model, inherited))
    && (forall model :: model in s.byModel ==> CountsModel(s.byModel[model], s.logs, model))
  }

  lemma OkCountsItsLogs(s: Snapshot, inherited: Inherited)
    requires SnapshotOk(s, inherited)
    ensures CountsItsLogs(s, inherited)
  {
    SumCounts(s.logs);
    RowsAre(s.logs, inherited);
    forall model | model in s.byModel
      ensures CountsModel(s.byModel[model], s.logs, model)
    {
      ModelCounts(s.logs, model);
    }
  }

  /** In every history: snapshot dates are distinct and at most ninety, ninety or all
      of those made are retained, and every snapshot, retained or shifted out, counts
      exactly its logs. */
  lemma SnapshotsAreSound(states: seq<History>, entries: seq<Entry>, inherited: Inherited, n: nat)
    requires IsRun(states, entries, inherited) && n <= |entries|
    ensures DistinctDates(states[n].ledger.snapshots) && |states[n].ledger.snapshots| <= 90
    ensures states[n].shiftedOut != [] ==> |states[n].ledger.snapshots| == 90
    ensures forall s :: s in states[n].ledger.snapshots || s in states[n].shiftedOut ==> CountsItsLogs(s, inherited)
  {
    SnapshotsStayOk(states, entries, inherited, n);
    forall s | s in states[n].ledger.snapshots || s in states[n].shiftedOut
      ensures CountsItsLogs(s, inherited)
    {
      OkCountsItsLogs(s, inherited);
    }
  }

  lemma {:induction false} SnapshotsStayOk(states: seq<History>, entries: seq<Entry>, inherited: Inherited, n: nat)
    requires IsRun(states, entries, inherited) && n <= |entries|
    ensures DistinctDates(states[n].ledger.snapshots) && |states[n].ledger.snapshots| <= MAX_SNAPSHOTS
    ensures |states[n].shiftedOut| > 0 ==> |states[n].ledger.snapshots| == MAX_SNAPSHOTS
    ensures SnapshotsOk(states[n].ledger.snapshots, inherited) && SnapshotsOk(states[n].shiftedOut, inherited)
  {
    if n > 0 {
      SnapshotsStayOk(states, entries, inherited, n - 1);
      AddSnapshotSound(states[n - 1].ledger.snapshots, entries[n - 1].log, entries[n - 1].today, inherited);
    }
  }

  // ----- a snapshot against the history

  /** The logs of this date in the first n snapshots, one snapshot after the other. */
  function DayLogs(snapshots: seq<Snapshot>, date: string, n: nat): seq<RequestLog>
    requires n <= |snapshots|
  {
    if n == 0 then []
    else DayLogs(snapshots, date, n - 1) + if snapshots[n - 1].date == date then snapshots[n - 1].logs else []
  }

  /** The logs of the requests made on this date, among the first n. */
  function MadeOn(entries: seq<Entry>, date: string, n: nat): seq<RequestLog>
    requires n <= |entries|
  {
    if n == 0 then [] else MadeOn(entries, date, n - 1) + if entries[n - 1].today == date then [entries[n - 1].log] else []
  }

  /** All snapshots ever made, the shifted-out ones before the retained ones. */
  function AllSnapshots(h: History): seq<Snapshot> {
    h.shiftedOut + h.ledger.snapshots
  }

  function AllDayLogs(h: History, date: string): seq<RequestLog> {
    DayLogs(AllSnapshots(h), date, |AllSnapshots(h)|)
  }

  /** No snapshot after the k-th has its date. */
  predicate LastOfItsDate(all: seq<Snapshot>, k: nat)
    requires k < |all|
  {
    forall j :: k < j < |all| ==> all[j].date != all[k].date
  }

  lemma {:induction false} DayLogsUpdate(all: seq<Snapshot>, k: nat, log: RequestLog, inherited: Inherited, date: string, n: nat)
    requires k < |all| && LastOfItsDate(all, k) && n <= |all|
    ensures DayLogs(all[k := Recorded(all[k], log, inherited)], date, n)
         == DayLogs(all, date, n) + if k < n && all[k].date == date then [log] else []
  {
    if n > 0 {
      DayLogsUpdate(all, k, log, inherited, date, n - 1);
    }
  }

  lemma {:induction false} DayLogsPrefix(all: seq<Snapshot>, s: Snapshot, date: string, n: nat)
    requires n <= |all|
    ensures DayLogs(all + [s], date, n) == DayLogs(all, date, n)
  {
    if n > 0 {
      DayLogsPrefix(all, s, date, n - 1);
    }
  }

  /** One request changes the last snapshot of its date or adds a snapshot at the
      end; what is shifted out keeps its place among all. */
  lemma AllSnapshotsAfter(h: History, e: Entry, inherited: Inherited)
    requires DistinctDates(h.ledger.snapshots)
    ensures var all, i := AllSnapshots(h), IndexOf(h.ledger.snapshots, e.today);
            var k := |h.shiftedOut| + i;
            if i < |h.ledger.snapshots|
            then all[k].date == e.today && LastOfItsDate(all, k)
                 && AllSnapshots(After(h, e, inherited)) == all[k := Recorded(all[k], e.log, inherited)]
            else AllSnapshots(After(h, e, inherited)) == all + [Recorded(EmptySnapshot(e.today), e.log, inherited)]
  {
    var snapshots := h.ledger.snapshots;
    var i := IndexOf(snapshots, e.today);
    if i < |snapshots| {
      assert ShiftedOut(snapshots, e.today) == [];
    } else if |snapshots| >= MAX_SNAPSHOTS {
      assert snapshots == [snapshots[0]] + snapshots[1..];
    } else {
      assert ShiftedOut(snapshots, e.today) == [];
    }
  }

  lemma DayLogsAfter(h: History, e: Entry, inherited: Inherited, date: string)
    requires DistinctDates(h.ledger.snapshots)
    ensures AllDayLogs(After(h, e, inherited), date) == AllDayLogs(h, date) + if e.today == date then [e.log] else []
  {
    var all, i := AllSnapshots(h), IndexOf(h.ledger.snapshots, e.today);
    AllSnapshotsAfter(h, e, inherited);
    if i < |h.ledger.snapshots| {
      DayLogsUpdate(all, |h.shiftedOut| + i, e.log, inherited, date, |all|);
    } else {
      DayLogsPrefix(all, Recorded(EmptySnapshot(e.today), e.log, inherited), date, |all|);
    }
  }

  /** In every history and for every date, the logs behind the snapshots of that date,
      shifted out and retained, are exactly the requests made on it, in order. */
  lemma {:induction false} SnapshotsHoldTheDay(states: seq<History>, entries: seq<Entry>, inherited: Inherited, date: string, n: nat)
    requires IsRun(states, entries, inherited) && n <= |entries|
    ensures AllDayLogs(states[n], date) == MadeOn(entries, date, n)
  {
    if n > 0 {
      SnapshotsHoldTheDay(states, entries, inherited, date, n - 1);
      SnapshotsStayOk(states, entries, inherited, n - 1);
      DayLogsAfter(states[n - 1], entries[n - 1], inherited, date);
    }
  }

  // ----- a snapshot against its models

  function SumModels(byModel: map<string, Totals>, models: seq<string>): Totals
    requires forall m :: m in models ==> m in byModel
  {
    if models == [] then ZERO else Plus(byModel[models[0]], SumModels(byModel, models[1..]))
  }

  /** A listing of the models of a snapshot, in any order. */
  ghost predicate Enumerates(models: seq<string>, keys: set<string>) {
    && (forall m :: m in models <==> m in keys)
    && (forall i, j :: 0 <= i < j < |models| ==> models[i] != models[j])
  }

  function Within(logs: seq<RequestLog>, models: seq<string>): seq<RequestLog> {
    if logs == [] then []
    else Within(logs[..|logs| - 1], models) + if logs[|logs| - 1].model in models then [logs[|logs| - 1]] else []
  }

  lemma {:induction false} SumPrefix(logs: seq<RequestLog>, log: RequestLog, n: nat)
    requires n <= |logs|
    ensures SumFirst(logs + [log], n) == SumFirst(logs, n)
  {
    if n > 0 {
      SumPrefix(logs, log, n - 1);
    }
  }

  lemma SumAppend(logs: seq<RequestLog>, log: RequestLog)
    ensures SumLogs(logs + [log]) == Plus(SumLogs(logs), One(log))
  {
    SumPrefix(logs, log, |logs|);
  }

  lemma SumWithinStep(before: seq<RequestLog>, log: RequestLog, models: seq<string>)
    ensures SumLogs(Within(before + [log], models))
         == if log.model in models then Plus(SumLogs(Within(before, models)), One(log)) else SumLogs(Within(before, models))
  {
    assert (before + [log])[..|before|] == before;
    SumAppend(Within(before, models), log);
    assert Within(before, models) + [] == Within(before, models);
  }

  /** The logs within a list of models are those of its first model and of the rest. */
  predicate SplitsOff(logs: seq<RequestLog>, models: seq<string>)
    requires models != []
  {
    SumLogs(Within(logs, models)) == Plus(SumLogs(OfModel(logs, models[0])), SumLogs(Within(logs, models[1..])))
  }

  lemma {:induction false} WithinFirst(logs: seq<RequestLog>, models: seq<string>)
    requires models != [] && models[0] !in models[1..]
    ensures SplitsOff(logs, models)
  {
    if logs != [] {
      var n := |logs| - 1;
      WithinFirst(logs[..n], models);
      assert logs == logs[..n] + [logs[n]];
      StillSplitsOff(logs[..n], logs[n], models);
    }
  }

  lemma StillSplitsOff(before: seq<RequestLog>, log: RequestLog, models: seq<string>)
    requires models != [] && models[0] !in models[1..] && SplitsOff(before, models)
    ensures SplitsOff(before + [log], models)
  {
    assert log.model in models <==> log.model == models[0] || log.model in models[1..];
    SumWithinStep(before, log, models);
    SumWithinStep(before, log, models[1..]);
    OfModelAppend(before, log, models[0]);
    AddOne(SumLogs(OfModel(before, models[0])), SumLogs(Within(before, models[1..])), One(log));
  }

  lemma AddOne(a: Totals, b: Totals, one: Totals)
    ensures Plus(Plus(a, b), one) == Plus(Plus(a, one), b) == Plus(a, Plus(b, one))
  {
  }

  lemma {:induction false} SumModelsIsSumWithin(s: Snapshot, models: seq<string>, inherited: Inherited)
    requires SnapshotOk(s, inherited) && (forall m :: m in models ==> m in s.byModel)
    requires forall i, j :: 0 <= i < j < |models| ==> models[i] != models[j]
    ensures SumModels(s.byModel, models) == SumLogs(Within(s.logs, models))
    decreases |models|
  {
    if models == [] {
      NothingWithin(s.logs);
    } else {
      var rest := models[1..];
      assert forall i :: 0 <= i < |rest| ==> rest[i] == models[i + 1];
      SumModelsIsSumWithin(s, rest, inherited);
      assert models[0] !in rest;
      WithinFirst(s.logs, models);
      assert models[0] in s.byModel;
    }
  }

  lemma {:induction false} NothingWithin(logs: seq<RequestLog>)
    ensures Within(logs, []) == []
  {
    if logs != [] {
      NothingWithin(logs[..|logs| - 1]);
    }
  }

  function InheritedCount(logs: seq<RequestLog>, inherited: Inherited): nat {
    if logs == [] then 0
    else InheritedCount(logs[..|logs| - 1], inherited) + if logs[|logs| - 1].model in inherited then 1 else 0
  }

  /** Restricting logs to their own models loses exactly those with inherited names. */
  predicate LosesInherited(logs: seq<RequestLog>, models: seq<string>, inherited: Inherited) {
    && SumLogs(logs).requests == SumLogs(Within(logs, models)).requests + InheritedCount(logs, inherited)
    && (InheritedCount(logs, inherited) == 0 ==> SumLogs(Within(logs, models)) == SumLogs(logs))
  }

  lemma {:induction false} WithinOwn(logs: seq<RequestLog>, models: seq<string>, n: nat, inherited: Inherited)
    requires n <= |logs| && Enumerates(models, OwnModels(logs, inherited))
    ensures LosesInherited(logs[..n], models, inherited)
    decreases n
  {
    if n > 0 {
      WithinOwn(logs, models, n - 1, inherited);
      var log := logs[n - 1];
      assert logs[..n] == logs[..n - 1] + [log];
      assert log.model in models <==> log.model !in inherited by {
        assert log.model !in inherited ==> log.model in OwnModels(logs, inherited);
      }
      StillLosesInherited(logs[..n - 1], log, models, inherited);
    }
  }

  lemma StillLosesInherited(before: seq<RequestLog>, log: RequestLog, models: seq<string>, inherited: Inherited)
    requires LosesInherited(before, models, inherited) && (log.model in models <==> log.model !in inherited)
    ensures LosesInherited(before + [log], models, inherited)
  {
    SumAppend(before, log);
    SumWithinStep(before, log, models);
    assert (before + [log])[..|before|] == before;
  }

  /** A snapshot's counters equal the sum of its per-model counters, in whatever
      order the models are listed, if and only if none of its logs has a model
      named like an inherited property. */
  lemma SnapshotEqualsItsModels(s: Snapshot, models: seq<string>, inherited: Inherited)
    requires SnapshotOk(s, inherited) && Enumerates(models, s.byModel.Keys)
    ensures SumModels(s.byModel, models) == s.totals <==> forall i :: 0 <= i < |s.logs| ==> s.logs[i].model !in inherited
    ensures s.totals.requests == SumModels(s.byModel, models).requests + InheritedCount(s.logs, inherited)
  {
    SumModelsIsSumWithin(s, models, inherited);
    WithinOwn(s.logs, models, |s.logs|, inherited);
    assert s.logs[..|s.logs|] == s.logs;
    InheritedNone(s.logs, inherited);
  }

  lemma {:induction false} InheritedNone(logs: seq<RequestLog>, inherited: Inherited)
    ensures InheritedCount(logs, inherited) == 0 <==> forall i :: 0 <= i < |logs| ==> logs[i].model !in inherited
  {
    if logs != [] {
      var n := |logs| - 1;
      InheritedNone(logs[..n], inherited);
      assert forall i :: 0 <= i < n ==> logs[..n][i] == logs[i];
    }
  }

  /** The first request of a ledger, for a model with an inherited name: the day's
      counters and the per-model counters differ. */
  lemma InheritedModelIsNotCounted(states: seq<History>, entries: seq<Entry>, inherited: Inherited)
    requires IsRun(states, entries, inherited) && |entries| == 1 && entries[0].log.model in inherited
    ensures |states[1].ledger.snapshots| == 1
    ensures states[1].ledger.snapshots[0].totals.requests == 1
    ensures states[1].ledger.snapshots[0].byModel == map[]
  {
    var after := AddSnapshot(states[0].ledger.snapshots, entries[0].log, entries[0].today, inherited);
    assert states[1].ledger.snapshots == after;
    assert after[0] == Recorded(EmptySnapshot(entries[0].today), entries[0].log, inherited);
  }

  /** At a real name: a first request for the model "constructor" is counted for the
      day and for no model. */
  lemma ConstructorIsNotCounted(log: RequestLog, today: string)
    requires log.model == "constructor"
    ensures var l := Add(Ledger([], ZERO, []), log, today, INHERITED);
            |l.snapshots| == 1 && l.snapshots[0].totals.requests == 1 && l.snapshots[0].byModel == map[]
  {
    assert log.model in INHERITED;
    var after := AddSnapshot([], log, today, INHERITED);
    assert after == [Recorded(EmptySnapshot(today), log, INHERITED)];
  }

  // ----- statistics by model

  datatype Stat = Stat(totals: Totals, totalDuration: int, avgDuration: int)

  function DurationFirst(logs: seq<RequestLog>, n: nat): int
    requires n <= |logs|
  {
    if n == 0 then 0 else DurationFirst(logs, n - 1) + logs[n - 1].duration
  }

  function Durations(logs: seq<RequestLog>): int {
    DurationFirst(logs, |logs|)
  }

  /** Rounding to the nearest integer, halves upwards. */
  function Round(x: real): int {
    (x + 0.5).Floor
  }

  function StatOf(logs: seq<RequestLog>): Stat
    requires |logs| > 0
  {
    Stat(SumLogs(logs), Durations(logs), Round(Durations(logs) as real / |logs| as real))
  }

  function ModelDurationFirst(logs: seq<RequestLog>, model: string, n: nat): int
    requires n <= |logs|
  {
    if n == 0 then 0 else ModelDurationFirst(logs, model, n - 1) + if logs[n - 1].model == model then logs[n - 1].duration else 0
  }

  /** The row of a model: its counters and its total duration are sums over its logs,
      and the average is the nearest whole number, halves upwards. */
  ghost predicate IsRow(row: Stat, logs: seq<RequestLog>, model: string) {
    var count := row.totals.requests;
    && count > 0 && CountsModel(row.totals, logs, model)
    && row.totalDuration == ModelDurationFirst(logs, model, |logs|)
    && 2 * (count * row.avgDuration) - count <= 2 * row.totalDuration < 2 * (count * row.avgDuration) + count
  }

  lemma DurationsAppend(logs: seq<RequestLog>, log: RequestLog, model: string)
    ensures Durations(OfModel(logs + [log], model))
         == Durations(OfModel(logs, model)) + if log.model == model then log.duration else 0
  {
    var mine := OfModel(logs, model);
    OfModelAppend(logs, log, model);
    StatAppend(mine, log);
    assert mine + [] == mine;
  }

  lemma {:induction false} ModelDurations(logs: seq<RequestLog>, model: string, n: nat)
    requires n <= |logs|
    ensures Durations(OfModel(logs[..n], model)) == ModelDurationFirst(logs, model, n)
  {
    if n > 0 {
      ModelDurations(logs, model, n - 1);
      assert logs[..n] == logs[..n - 1] + [logs[n - 1]];
      DurationsAppend(logs[..n - 1], logs[n - 1], model);
    }
  }

  lemma Fraction(d: real, c: real)
    requires 0.0 <= d < 1.0 && c > 0.0
    ensures 0.0 <= d * c < c
  {
    assert (1.0 - d) * c > 0.0;
  }

  lemma Distribute(x: real, y: real, c: real)
    ensures (x + y) * c == x * c + y * c
  {
  }

  lemma RoundScaled(q: real, c: real, total: real, product: real)
    requires c > 0.0 && q * c == total && Round(q) as real * c == product
    ensures product <= total + 0.5 * c < product + c
  {
    var avg, x := Round(q) as real, q + 0.5;
    var d := x - avg;
    Fraction(d, c);
    var dc := d * c;
    Distribute(q, 0.5, c);
    assert x * c == total + 0.5 * c;
    Distribute(avg, d, c);
    assert avg + d == x;
    assert x * c == product + dc;
  }

  lemma Halves(product: int, total: int, count: nat)
    requires product as real <= total as real + 0.5 * count as real < product as real + count as real
    ensures 2 * product - count <= 2 * total < 2 * product + count
  {
  }

  lemma {:induction false} Product(a: int, n: nat)
    ensures a as real * n as real == (n * a) as real
  {
    if n > 0 {
      Product(a, n - 1);
      assert a as real * n as real == a as real * (n - 1) as real + a as real;
      assert n * a == (n - 1) * a + a;
    }
  }

  lemma Quotient(x: real, c: real)
    requires c > 0.0
    ensures x / c * c == x
  {
  }

  lemma RoundOf(q: real, total: int, count: nat, product: int)
    requires count > 0 && q * count as real == total as real && Round(q) as real * count as real == product as real
    ensures 2 * product - count <= 2 * total < 2 * product + count
  {
    RoundScaled(q, count as real, total as real, product as real);
    Halves(product, total, count);
  }

  lemma RoundIs(total: int, count: nat)
    requires count > 0
    ensures var avg := Round(total as real / count as real); 2 * (count * avg) - count <= 2 * total < 2 * (count * avg) + count
  {
    var q := total as real / count as real;
    Quotient(total as real, count as real);
    Product(Round(q), count);
    RoundOf(q, total, count, count * Round(q));
  }

  lemma StatIsRow(logs: seq<RequestLog>, model: string)
    requires |OfModel(logs, model)| > 0
    ensures IsRow(StatOf(OfModel(logs, model)), logs, model)
  {
    var mine := OfModel(logs, model);
    ModelCounts(logs, model);
    ModelDurations(logs, model, |logs|);
    assert logs[..|logs|] == logs;
    SumRequests(mine, |mine|);
    RoundIs(Durations(mine), |mine|);
  }

  lemma {:induction false} SumRequests(logs: seq<RequestLog>, n: nat)
    requires n <= |logs|
    ensures SumFirst(logs, n).requests == n
  {
    if n > 0 {
      SumRequests(logs, n - 1);
    }
  }

  lemma {:induction false} DurationPrefix(logs: seq<RequestLog>, log: RequestLog, n: nat)
    requires n <= |logs|
    ensures DurationFirst(logs + [log], n) == DurationFirst(logs, n)
  {
    if n > 0 {
      DurationPrefix(logs, log, n - 1);
    }
  }

  /** What the fold has accumulated after these logs. */
  ghost predicate Accumulated(acc: map<string, Stat>, logs: seq<RequestLog>, inherited: Inherited) {
    && acc.Keys == OwnModels(logs, inherited)
    && forall model :: model in acc ==> |OfModel(logs, model)| > 0 && acc[model] == StatOf(OfModel(logs, model))
  }

  /** A model's row with one more request. */
  function Turn(d: Stat, r: RequestLog): Stat
    requires d.totals.requests >= 0
  {
    var totals := Plus(d.totals, One(r));
    var totalDuration := d.totalDuration + r.duration;
    Stat(totals, totalDuration, Round(totalDuration as real / totals.requests as real))
  }

  lemma TurnIsStat(mine: seq<RequestLog>, r: RequestLog, d: Stat)
    requires d == if |mine| == 0 then Stat(ZERO, 0, 0) else StatOf(mine)
    ensures d.totals.requests >= 0 && Turn(d, r) == StatOf(mine + [r])
  {
    SumRequests(mine, |mine|);
    StatAppend(mine, r);
  }

  lemma OtherRowsStay(acc: map<string, Stat>, r: RequestLog, logs: seq<RequestLog>, inherited: Inherited)
    requires Accumulated(acc, logs, inherited)
    ensures forall model :: model in acc && model != r.model ==>
              |OfModel(logs + [r], model)| > 0 && acc[model] == StatOf(OfModel(logs + [r], model))
  {
    forall model | model in acc && model != r.model
      ensures OfModel(logs + [r], model) == OfModel(logs, model)
    {
      OfModelAppend(logs, r, model);
    }
  }

  function RowOf(acc: map<string, Stat>, model: string): Stat {
    if model in acc then acc[model] else Stat(ZERO, 0, 0)
  }

  lemma RowIsStat(acc: map<string, Stat>, r: RequestLog, logs: seq<RequestLog>, inherited: Inherited)
    requires Accumulated(acc, logs, inherited) && r.model !in inherited
    ensures RowOf(acc, r.model).totals.requests >= 0
    ensures |OfModel(logs + [r], r.model)| > 0 && Turn(RowOf(acc, r.model), r) == StatOf(OfModel(logs + [r], r.model))
  {
    if r.model !in acc {
      NoLogsOfModel(logs, r.model, inherited);
    }
    TurnIsStat(OfModel(logs, r.model), r, RowOf(acc, r.model));
    OfModelAppend(logs, r, r.model);
  }

  lemma RowAccumulates(acc: map<string, Stat>, r: RequestLog, logs: seq<RequestLog>, inherited: Inherited)
    requires Accumulated(acc, logs, inherited) && r.model !in inherited
    ensures RowOf(acc, r.model).totals.requests >= 0
    ensures Accumulated(acc[r.model := Turn(RowOf(acc, r.model), r)], logs + [r], inherited)
  {
    RowIsStat(acc, r, logs, inherited);
    OtherRowsStay(acc, r, logs, inherited);
    OwnModelsAppend(logs, r, inherited);
  }

  lemma NoRowAccumulates(acc: map<string, Stat>, r: RequestLog, logs: seq<RequestLog>, inherited: Inherited)
    requires Accumulated(acc, logs, inherited) && r.model in inherited
    ensures Accumulated(acc, logs + [r], inherited)
  {
    OtherRowsStay(acc, r, logs, inherited);
    OwnModelsAppend(logs, r, inherited);
  }

  /** The fold over the recent requests: per model, the totals and the average
      duration of exactly its requests; inherited names have no row. */
  method StatsByModel(logs: seq<RequestLog>, inherited: Inherited) returns (acc: map<string, Stat>)
    ensures forall model :: model in acc <==> HasRow(logs, model, inherited)
    ensures forall model :: model in acc ==> IsRow(acc[model], logs, model)
  {
    acc := map[];
    for i := 0 to |logs|
      invariant Accumulated(acc, logs[..i], inherited)
    {
      var r := logs[i];
      assert logs[..i + 1] == logs[..i] + [r];
      if r.model in inherited {
        NoRowAccumulates(acc, r, logs[..i], inherited);
      } else {
        RowAccumulates(acc, r, logs[..i], inherited);
        acc := acc[r.model := Turn(RowOf(acc, r.model), r)];
      }
    }
    assert logs[..|logs|] == logs;
    RowsAre(logs, inherited);
    forall model | model in acc
      ensures IsRow(acc[model], logs, model)
    {
      StatIsRow(logs, model);
    }
  }

  lemma StatAppend(mine: seq<RequestLog>, r: RequestLog)
    ensures SumLogs(mine + [r]) == Plus(SumLogs(mine), One(r)) && Durations(mine + [r]) == Durations(mine) + r.duration
    ensures SumLogs(mine + [r]).requests == |mine| + 1
  {
    SumAppend(mine, r);
    DurationPrefix(mine, r, |mine|);
    SumRequests(mine + [r], |mine| + 1);
  }
}
