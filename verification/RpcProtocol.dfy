/** Every interleaving of calls, responses, cancellations and process exit over
    the pending table. Each atomic operation, each locked region and each channel
    operation is one step; the exit drain holds the lock over several steps. */
module RpcProtocol {

  // ----- states of the system

  /** What a call can find in its channel: a line the server sent, by its position
      among all response lines, or the exit notice. */
  datatype Result = Served(line: nat) | Exited

  datatype Phase =
    | Allocated
    | Registered
    | Selecting
    | Leaving
    | Got(result: Result)
    | GaveUp

  datatype Call = Call(id: nat, phase: Phase, inbox: seq<Result>, sends: nat)

  datatype Reader = Reading | Delivering(call: nat, line: nat) | Stopped
  datatype Exit = Running | Gone | Draining | Drained

  /** served is the record of the ids of all response lines read so far; closes
      counts how often the done channel was closed. */
  datatype System = System(
    nextId: nat,
    calls: seq<Call>,
    pending: map<nat, nat>,
    reader: Reader,
    exit: Exit,
    done: bool,
    closes: nat,
    served: seq<int>)

  const START := System(0, [], map[], Reading, Running, false, 0, [])

  datatype Action =
    | Allocate
    | Register(c: nat)
    | Sent(c: nat)
    | NotSent(c: nat)
    | Receive(c: nat)
    | ContextDone(c: nat)
    | ClientDone(c: nat)
    | Remove(c: nat)
    | Take(answered: int)
    | Deliver
    | StopReading
    | Close
    | ProcessExit
    | StartDrain
    | DrainOne(id: nat)
    | EndDrain

  // ----- steps

  predicate Returned(call: Call) {
    call.phase.Got? || call.phase.GaveUp?
  }

  predicate LockFree(s: System) {
    s.exit != Draining
  }

  predicate HasRoom(s: System, c: nat) {
    c < |s.calls| && |s.calls[c].inbox| < 1
  }

  predicate InPhase(s: System, c: nat, phase: Phase) {
    c < |s.calls| && s.calls[c].phase == phase
  }

  predicate Enabled(s: System, a: Action) {
    match a
    case Allocate => true
    case Register(c) => InPhase(s, c, Allocated) && LockFree(s)
    case Sent(c) => InPhase(s, c, Registered)
    case NotSent(c) => InPhase(s, c, Registered)
    case Receive(c) => InPhase(s, c, Selecting) && s.calls[c].inbox != []
    case ContextDone(c) => InPhase(s, c, Selecting)
    case ClientDone(c) => InPhase(s, c, Selecting) && s.done
    case Remove(c) => InPhase(s, c, Leaving) && LockFree(s)
    case Take(_) => s.reader == Reading && LockFree(s)
    case Deliver => s.reader.Delivering? && HasRoom(s, s.reader.call)
    case StopReading => s.reader == Reading
    case Close => true
    case ProcessExit => s.exit == Running
    case StartDrain => s.exit == Gone
    case DrainOne(id) => s.exit == Draining && id in s.pending && HasRoom(s, s.pending[id])
    case EndDrain => s.exit == Draining && s.pending.Keys == {}
  }

  function WithPhase(s: System, c: nat, phase: Phase): System
    requires c < |s.calls|
  {
    s.(calls := s.calls[c := s.calls[c].(phase := phase)])
  }

  function Send(s: System, c: nat, r: Result): System
    requires c < |s.calls|
  {
    var call := s.calls[c];
    s.(calls := s.calls[c := call.(inbox := call.inbox + [r], sends := call.sends + 1)])
  }

  /** The once-guard around closing the done channel. */
  function CloseOnce(s: System): System {
    if s.done then s else s.(done := true, closes := s.closes + 1)
  }

  function Next(s: System, a: Action): System
    requires Enabled(s, a)
  {
    match a
    case Allocate => s.(nextId := s.nextId + 1, calls := s.calls + [Call(s.nextId + 1, Allocated, [], 0)])
    case Register(c) => WithPhase(s, c, Registered).(pending := s.pending[s.calls[c].id := c])
    case Sent(c) => WithPhase(s, c, Selecting)
    case NotSent(c) => WithPhase(s, c, Leaving)
    case Receive(c) =>
      var call := s.calls[c];
      s.(calls := s.calls[c := call.(phase := Got(call.inbox[0]), inbox := call.inbox[1..])])
    case ContextDone(c) => WithPhase(s, c, Leaving)
    case ClientDone(c) => WithPhase(s, c, Leaving)
    case Remove(c) => WithPhase(s, c, GaveUp).(pending := s.pending - {s.calls[c].id})
    case Take(id) =>
      var s' := s.(served := s.served + [id], pending := s.pending - {id});
      if id in s.pending then s'.(reader := Delivering(s.pending[id], |s.served|)) else s'
    case Deliver => Send(s, s.reader.call, Served(s.reader.line)).(reader := Reading)
    case StopReading => CloseOnce(s).(reader := Stopped)
    case Close => CloseOnce(s)
    case ProcessExit => CloseOnce(s).(exit := Gone)
    case StartDrain => s.(exit := Draining)
    case DrainOne(id) => Send(s, s.pending[id], Exited).(pending := s.pending - {id})
    case EndDrain => s.(exit := Drained)
  }

  ghost predicate IsRun(states: seq<System>, actions: seq<Action>) {
    && |states| == |actions| + 1
    && states[0] == START
    && forall i :: 0 <= i < |actions| ==> Enabled(states[i], actions[i]) && states[i + 1] == Next(states[i], actions[i])
  }

  ghost predicate Reachable(s: System) {
    exists states, actions :: IsRun(states, actions) && s == states[|actions|]
  }

  // ----- the invariant

  /** A response line may go to the call whose id it carries. */
  predicate Answers(s: System, call: Call, r: Result) {
    r.Served? ==> r.line < |s.served| && s.served[r.line] == call.id
  }

  predicate CallOk(s: System, c: nat)
    requires c < |s.calls|
  {
    var call := s.calls[c];
    && call.id == c + 1
    && |call.inbox| <= call.sends <= 1
    && (call.phase.Allocated? ==> call.sends == 0)
    && (call.phase.Got? ==> call.sends == 1 && call.inbox == [] && Answers(s, call, call.phase.result))
    && (call.inbox != [] ==> Answers(s, call, call.inbox[0]))
  }

  /** A call whose channel nobody has sent to yet. */
  predicate Unsent(s: System, c: nat) {
    c < |s.calls| && s.calls[c].sends == 0 && s.calls[c].phase != Allocated
  }

  /** The call with this id is waiting to be answered. */
  predicate Awaited(s: System, id: nat, c: nat) {
    Unsent(s, c) && s.calls[c].id == id && !Returned(s.calls[c])
  }

  predicate PendingOk(s: System) {
    forall id :: id in s.pending ==> Awaited(s, id, s.pending[id])
  }

  predicate ReaderOk(s: System) {
    s.reader.Delivering? ==>
      && Unsent(s, s.reader.call)
      && s.calls[s.reader.call].id !in s.pending
      && Answers(s, s.calls[s.reader.call], Served(s.reader.line))
  }

  predicate Inv(s: System) {
    && s.nextId == |s.calls|
    && (forall c :: 0 <= c < |s.calls| ==> CallOk(s, c))
    && PendingOk(s)
    && ReaderOk(s)
    && (s.exit != Running ==> s.done)
    && s.closes == (if s.done then 1 else 0)
  }

  lemma StepInv(s: System, a: Action)
    requires Inv(s) && Enabled(s, a)
    ensures Inv(Next(s, a))
  {
    var s' := Next(s, a);
    forall c | 0 <= c < |s'.calls|
      ensures CallOk(s', c)
    {
      StepCallOk(s, a, c);
    }
    StepPendingOk(s, a);
    StepReaderOk(s, a);
  }

  lemma StepCallOk(s: System, a: Action, c: nat)
    requires Inv(s) && Enabled(s, a) && c < |Next(s, a).calls|
    ensures CallOk(Next(s, a), c)
  {
    if c < |s.calls| {
      assert CallOk(s, c);
    }
    match a
    case DrainOne(id) =>
      assert Unsent(s, s.pending[id]);
      SendCallOk(s, s.pending[id], Exited, c);
    case Deliver => SendCallOk(s, s.reader.call, Served(s.reader.line), c);
    case _ => OtherCallOk(s, a, c);
  }

  lemma SendCallOk(s: System, d: nat, r: Result, c: nat)
    requires c < |s.calls| && CallOk(s, c) && Unsent(s, d) && Answers(s, s.calls[d], r)
    ensures CallOk(Send(s, d, r), c)
  {
  }

  lemma OtherCallOk(s: System, a: Action, c: nat)
    requires Enabled(s, a) && !a.DrainOne? && !a.Deliver? && s.nextId == |s.calls|
    requires c < |Next(s, a).calls| && (c < |s.calls| ==> CallOk(s, c))
    ensures CallOk(Next(s, a), c)
  {
  }

  lemma StepPendingOk(s: System, a: Action)
    requires Inv(s) && Enabled(s, a)
    ensures PendingOk(Next(s, a))
  {
    var s' := Next(s, a);
    forall id | id in s'.pending
      ensures Awaited(s', id, s'.pending[id])
    {
      if a.Register? && s.calls[a.c].id == id {
        assert CallOk(s, a.c);
      } else {
        assert Awaited(s, id, s.pending[id]);
        StaysAwaited(s, a, id);
      }
    }
  }

  lemma StaysAwaited(s: System, a: Action, id: nat)
    requires Inv(s) && Enabled(s, a) && id in s.pending && id in Next(s, a).pending && Next(s, a).pending[id] == s.pending[id]
    ensures Awaited(Next(s, a), id, s.pending[id])
  {
    assert Awaited(s, id, s.pending[id]) && CallOk(s, s.pending[id]);
    if a.DrainOne? {
      assert Awaited(s, a.id, s.pending[a.id]);
    }
  }

  lemma StepReaderOk(s: System, a: Action)
    requires Inv(s) && Enabled(s, a)
    ensures ReaderOk(Next(s, a))
  {
    var s' := Next(s, a);
    if s.reader.Delivering? {
      assert CallOk(s, s.reader.call);
    }
    if a.Register? {
      assert CallOk(s, a.c);
    }
    if a.DrainOne? {
      assert Unsent(s, s.pending[a.id]) && CallOk(s, s.pending[a.id]);
    }
  }

  lemma {:induction false} RunInv(states: seq<System>, actions: seq<Action>, i: nat)
    requires IsRun(states, actions) && i <= |actions|
    ensures Inv(states[i])
  {
    if i > 0 {
      RunInv(states, actions, i - 1);
      StepInv(states[i - 1], actions[i - 1]);
    }
  }

  lemma ReachableInv(s: System)
    requires Reachable(s)
    ensures Inv(s)
  {
    var states, actions :| IsRun(states, actions) && s == states[|actions|];
    RunInv(states, actions, |actions|);
  }

  // ----- delivery

  /** Each call's channel is sent to at most once, so no send ever blocks: neither
      the reader's nor, under the lock, the exit drain's. */
  lemma SendsNeverBlock(s: System)
    requires Reachable(s)
    ensures forall c :: 0 <= c < |s.calls| ==> s.calls[c].sends <= 1 && |s.calls[c].inbox| <= 1
    ensures s.reader.Delivering? ==> Enabled(s, Deliver) && s.calls[s.reader.call].sends == 0
    ensures s.exit == Draining ==> forall id :: id in s.pending ==> Enabled(s, DrainOne(id)) && s.calls[s.pending[id]].sends == 0
  {
    ReachableInv(s);
    forall c | 0 <= c < |s.calls|
      ensures s.calls[c].sends <= 1 && |s.calls[c].inbox| <= s.calls[c].sends
    {
      assert CallOk(s, c);
    }
    forall id | id in s.pending
      ensures Unsent(s, s.pending[id])
    {
    }
  }

  /** A server response reaches only the call that issued its id, and no response
      line answers two calls. */
  lemma ResponsesReachTheirCall(s: System, c: nat, d: nat)
    requires Reachable(s) && c < |s.calls| && d < |s.calls|
    requires s.calls[c].phase.Got? && s.calls[c].phase.result.Served?
    ensures var line := s.calls[c].phase.result.line;
            && line < |s.served| && s.served[line] == s.calls[c].id
            && (s.calls[d].phase == s.calls[c].phase ==> c == d)
  {
    ReachableInv(s);
    assert CallOk(s, c) && CallOk(s, d);
  }

  /** What is in a call's channel is what it returns: a response line with its own id
      or the notice that the process is gone. */
  lemma ReceivedIsReturned(s: System, c: nat)
    requires Reachable(s) && InPhase(s, c, Selecting) && s.calls[c].inbox != []
    ensures Enabled(s, Receive(c)) && |s.calls[c].inbox| == 1
    ensures Next(s, Receive(c)).calls[c].phase == Got(s.calls[c].inbox[0])
    ensures s.calls[c].inbox[0] == Exited
         || (s.calls[c].inbox[0].line < |s.served| && s.served[s.calls[c].inbox[0].line] == s.calls[c].id)
  {
    ReachableInv(s);
    assert CallOk(s, c);
  }

  /** A line taken for a call stays with the reader until it is delivered, whatever
      else happens. */
  lemma TakenIsDelivered(s: System, a: Action)
    requires Reachable(s) && Enabled(s, a) && s.reader.Delivering?
    ensures if a == Deliver then Next(s, a).calls[s.reader.call].inbox == [Served(s.reader.line)] && Next(s, a).reader == Reading
            else Next(s, a).reader == s.reader
  {
    ReachableInv(s);
    assert CallOk(s, s.reader.call);
  }

  /** The steps that close the done channel. */
  predicate Closes(a: Action) {
    a == StopReading || a == Close || a == ProcessExit
  }

  ghost predicate SomeCloses(actions: seq<Action>, n: nat)
    requires n <= |actions|
  {
    exists i :: 0 <= i < n && Closes(actions[i])
  }

  lemma OneMoreCloses(actions: seq<Action>, n: nat)
    requires n < |actions|
    ensures SomeCloses(actions, n + 1) <==> SomeCloses(actions, n) || Closes(actions[n])
  {
  }

  lemma {:induction false} DoneFirst(states: seq<System>, actions: seq<Action>, n: nat)
    requires IsRun(states, actions) && n <= |actions|
    ensures states[n].done <==> SomeCloses(actions, n)
  {
    if n > 0 {
      DoneFirst(states, actions, n - 1);
      DoneStep(states[n - 1], actions[n - 1]);
      OneMoreCloses(actions, n - 1);
    }
  }

  /** The done channel is closed from the first end of reading, close or exit on, and
      never twice. */
  lemma DoneIff(states: seq<System>, actions: seq<Action>, n: nat)
    requires IsRun(states, actions) && n <= |actions|
    ensures states[n].done <==> exists i :: 0 <= i < n && Closes(actions[i])
    ensures states[n].closes == if states[n].done then 1 else 0
  {
    RunInv(states, actions, n);
    DoneFirst(states, actions, n);
  }

  /** What has led a call to its phase: it waits, or has an answer, only after its
      request was written; it gives up only if the write failed, its context was
      cancelled or the client is done. */
  ghost predicate PhaseHasCause(s: System, actions: seq<Action>, c: nat) {
    c < |s.calls| ==>
      match s.calls[c].phase
      case Selecting => Sent(c) in actions
      case Got(_) => Sent(c) in actions
      case Leaving => NotSent(c) in actions || ContextDone(c) in actions || s.done
      case GaveUp => NotSent(c) in actions || ContextDone(c) in actions || s.done
      case _ => true
  }

  lemma CauseStays(s: System, actions: seq<Action>, a: Action, c: nat)
    requires Enabled(s, a) && PhaseHasCause(s, actions, c)
    ensures PhaseHasCause(Next(s, a), actions + [a], c)
  {
    DoneStep(s, a);
  }

  lemma {:induction false} EveryPhaseHasCause(states: seq<System>, actions: seq<Action>, n: nat, c: nat)
    requires IsRun(states, actions) && n <= |actions|
    ensures PhaseHasCause(states[n], actions[..n], c)
  {
    if n > 0 {
      EveryPhaseHasCause(states, actions, n - 1, c);
      CauseStays(states[n - 1], actions[..n - 1], actions[n - 1], c);
      assert actions[..n] == actions[..n - 1] + [actions[n - 1]];
    }
  }

  lemma DoneStep(s: System, a: Action)
    requires Enabled(s, a)
    ensures Next(s, a).done <==> s.done || Closes(a)
  {
  }

  // ----- the exit drain

  /** While the drain holds the lock, these ids are notified or still pending. */
  ghost predicate DrainStands(ids: set<nat>, actions: seq<Action>, s: System, i: nat)
    requires i <= |actions|
  {
    s.exit == Draining && forall id :: id in ids ==> id in s.pending || DrainOne(id) in actions[..i]
  }

  lemma DrainStandsStill(ids: set<nat>, actions: seq<Action>, s: System, i: nat)
    requires i < |actions| && Enabled(s, actions[i]) && DrainStands(ids, actions, s, i) && actions[i] != EndDrain
    ensures DrainStands(ids, actions, Next(s, actions[i]), i + 1)
  {
    assert actions[..i + 1] == actions[..i] + [actions[i]];
  }

  lemma {:induction false} DrainAlong(states: seq<System>, actions: seq<Action>, i: nat)
    requires |states| == |actions| + 1
    requires forall k :: 0 <= k < |actions| ==> Enabled(states[k], actions[k]) && states[k + 1] == Next(states[k], actions[k])
    requires 0 < i <= |actions| && actions[0] == StartDrain && forall k :: 0 <= k < i ==> actions[k] != EndDrain
    ensures DrainStands(states[0].pending.Keys, actions, states[i], i)
  {
    if i > 1 {
      DrainAlong(states, actions, i - 1);
      DrainStandsStill(states[0].pending.Keys, actions, states[i - 1], i - 1);
    } else {
      assert states[1] == Next(states[0], actions[0]);
    }
  }

  /** A notice goes to the call that issued the id, and is all it has in its channel. */
  lemma NoticeReachesItsCall(s: System, id: nat)
    requires Reachable(s) && Enabled(s, DrainOne(id))
    ensures var c, s' := s.pending[id], Next(s, DrainOne(id));
            c < |s.calls| && s.calls[c].id == id && s'.calls == s.calls[c := s'.calls[c]]
            && s'.calls[c].inbox == [Exited] && s'.pending == s.pending - {id}
  {
    ReachableInv(s);
    assert CallOk(s, s.pending[id]);
  }

  /** The drain notifies every call that was pending when it took the lock, before it
      gives the lock back. */
  lemma DrainIsComplete(states: seq<System>, actions: seq<Action>, id: nat)
    requires |states| == |actions| + 1 && |actions| > 0
    requires forall k :: 0 <= k < |actions| ==> Enabled(states[k], actions[k]) && states[k + 1] == Next(states[k], actions[k])
    requires actions[0] == StartDrain && (forall k :: 0 <= k < |actions| ==> actions[k] != EndDrain)
    requires Enabled(states[|actions|], EndDrain) && id in states[0].pending
    ensures DrainOne(id) in actions
  {
    DrainAlong(states, actions, |actions|);
    assert actions[..|actions|] == actions;
  }

  // ----- hygiene

  /** Every pending entry belongs to a call in flight; with none in flight the
      table is empty. */
  lemma PendingBelongsToCallsInFlight(s: System)
    requires Reachable(s)
    ensures forall id :: id in s.pending ==> s.pending[id] < |s.calls| && s.calls[s.pending[id]].id == id && !Returned(s.calls[s.pending[id]])
    ensures (forall c :: 0 <= c < |s.calls| ==> Returned(s.calls[c])) ==> s.pending == map[]
  {
    ReachableInv(s);
    if forall c :: 0 <= c < |s.calls| ==> Returned(s.calls[c]) {
      forall id | id in s.pending
        ensures false
      {
      }
    }
  }

  // ----- after the process is gone

  /** The steps of call c. Which of them ends the write is up to the environment, and
      so is that the write ends at all; the others depend on the system alone. */
  predicate Own(a: Action, c: nat) {
    (a.Register? || a.Sent? || a.NotSent? || a.Receive? || a.ContextDone? || a.ClientDone? || a.Remove?) && a.c == c
  }

  predicate EndsWrite(a: Action, c: nat) {
    (a.Sent? || a.NotSent?) && a.c == c
  }

  predicate OfDrain(a: Action) {
    a.DrainOne? || a.EndDrain?
  }

  function Remaining(phase: Phase): nat {
    match phase
    case Allocated => 4
    case Registered => 3
    case Selecting => 2
    case Leaving => 1
    case _ => 0
  }

  /** How many steps of its own and of the drain call c is at most away from its
      return. */
  function Distance(s: System, c: nat): nat
    requires c < |s.calls|
  {
    Remaining(s.calls[c].phase) + if s.exit == Draining then 1 + |s.pending| else 0
  }

  lemma OwnStepIsCloser(s: System, a: Action, c: nat)
    requires Enabled(s, a) && c < |s.calls| && Own(a, c)
    ensures c < |Next(s, a).calls| && Remaining(Next(s, a).calls[c].phase) < Remaining(s.calls[c].phase)
    ensures Next(s, a).exit == s.exit && (s.exit == Draining ==> Next(s, a).pending == s.pending)
  {
  }

  lemma DrainStepIsCloser(s: System, a: Action, c: nat)
    requires Enabled(s, a) && c < |s.calls| && OfDrain(a)
    ensures Distance(Next(s, a), c) < Distance(s, c)
  {
    if a.DrainOne? {
      assert (s.pending - {a.id}).Keys == s.pending.Keys - {a.id};
    }
  }

  /** Whatever its outcome, every step of the call or the drain brings it closer. */
  lemma EveryStepIsCloser(s: System, a: Action, c: nat)
    requires Enabled(s, a) && c < |s.calls| && (Own(a, c) || OfDrain(a))
    ensures Distance(Next(s, a), c) < Distance(s, c)
  {
    if Own(a, c) {
      OwnStepIsCloser(s, a, c);
    } else {
      DrainStepIsCloser(s, a, c);
    }
  }

  /** No step of others undoes what the call has achieved, nor opens done again. */
  lemma OthersDoNotSetBack(s: System, a: Action, c: nat)
    requires Enabled(s, a) && c < |s.calls| && !Own(a, c)
    ensures c < |Next(s, a).calls| && Next(s, a).calls[c].phase == s.calls[c].phase
    ensures s.done ==> Next(s, a).done
  {
  }

  /** A step of the drain is enabled while it holds the lock. */
  lemma DrainGoesOn(s: System) returns (a: Action)
    requires Inv(s) && s.exit == Draining
    ensures OfDrain(a) && Enabled(s, a)
  {
    if s.pending.Keys == {} {
      return EndDrain;
    }
    var id :| id in s.pending.Keys;
    assert Unsent(s, s.pending[id]) && CallOk(s, s.pending[id]);
    return DrainOne(id);
  }

  /** Once done is closed a call that has not returned can go on: by the end of its
      write if that is what it is waiting for, by a step that the system itself can
      take otherwise. */
  lemma SomeStepIsEnabled(s: System, c: nat) returns (a: Action)
    requires Inv(s) && s.done && c < |s.calls| && !Returned(s.calls[c])
    ensures Enabled(s, a) && (Own(a, c) || OfDrain(a))
    ensures EndsWrite(a, c) <==> s.calls[c].phase.Registered?
    ensures s.calls[c].phase.Registered? ==> Enabled(s, Sent(c)) && Enabled(s, NotSent(c))
    ensures s.calls[c].phase.Selecting? ==> Enabled(s, ContextDone(c))
  {
    match s.calls[c].phase
    case Registered => a := Sent(c);
    case Selecting => a := ClientDone(c);
    case Allocated =>
      if s.exit == Draining {
        a := DrainGoesOn(s);
      } else {
        a := Register(c);
      }
    case Leaving =>
      if s.exit == Draining {
        a := DrainGoesOn(s);
      } else {
        a := Remove(c);
      }
  }

  /** From s on, by steps of the call and the drain only. */
  ghost predicate ByCallAndDrain(s: System, states: seq<System>, actions: seq<Action>, c: nat) {
    && |states| == |actions| + 1 && states[0] == s
    && forall i :: 0 <= i < |actions| ==>
         && (Own(actions[i], c) || OfDrain(actions[i]))
         && Enabled(states[i], actions[i]) && states[i + 1] == Next(states[i], actions[i])
  }

  lemma {:induction false} DistanceAlong(s: System, states: seq<System>, actions: seq<Action>, c: nat, i: nat)
    requires Inv(s) && s.done && c < |s.calls| && ByCallAndDrain(s, states, actions, c) && i <= |actions|
    ensures Inv(states[i]) && states[i].done && c < |states[i].calls|
    ensures i + Distance(states[i], c) <= Distance(s, c)
  {
    if i > 0 {
      DistanceAlong(s, states, actions, c, i - 1);
      StepInv(states[i - 1], actions[i - 1]);
      EveryStepIsCloser(states[i - 1], actions[i - 1], c);
    }
  }

  /** Once done is closed no call is stuck, not even one that registered after the
      drain. However its write ends and whichever of its steps are taken, it returns
      within a bounded number of its own steps and the drain's: no such sequence is
      longer than the bound, and as long as the call has not returned the sequence
      can be continued. This assumes that the write to the process, with the wait for
      earlier writers, does end; no other help from the environment is needed. */
  lemma NoCallIsStuck(s: System, c: nat, states: seq<System>, actions: seq<Action>)
    requires Reachable(s) && s.done && c < |s.calls| && ByCallAndDrain(s, states, actions, c)
    ensures |actions| <= Distance(s, c)
    ensures var last := states[|actions|];
            && c < |last.calls|
            && (Returned(last.calls[c]) || exists a ::
                  Enabled(last, a) && (Own(a, c) || OfDrain(a)) && (EndsWrite(a, c) <==> last.calls[c].phase.Registered?))
    ensures |actions| == Distance(s, c) ==> Returned(states[|actions|].calls[c])
  {
    ReachableInv(s);
    DistanceAlong(s, states, actions, c, |actions|);
    var last := states[|actions|];
    if !Returned(last.calls[c]) {
      var a := SomeStepIsEnabled(last, c);
    }
  }
}
