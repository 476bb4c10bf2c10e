/** The client's operations on its pending table are the steps of the protocol:
    table, channels and system agree before and after each of them. */
module RpcRefinement {
  import C = RpcClient
  import P = RpcProtocol

  /** A reply in a channel is the result that the protocol has in the call's inbox. */
  predicate Matches(s: P.System, reply: C.Reply, result: P.Result) {
    match reply
    case ProcessExited => result == P.Exited
    case Response(id, _) => result.Served? && result.line < |s.served| && s.served[result.line] == id
  }

  predicate SameQueue(s: P.System, queue: seq<C.Reply>, inbox: seq<P.Result>) {
    |queue| == |inbox| && forall i :: 0 <= i < |inbox| ==> Matches(s, queue[i], inbox[i])
  }

  lemma StillMatches(s: P.System, r: P.System, queue: seq<C.Reply>, inbox: seq<P.Result>)
    requires SameQueue(s, queue, inbox) && s.served <= r.served
    ensures SameQueue(r, queue, inbox)
  {
    assert forall i :: 0 <= i < |inbox| && Matches(s, queue[i], inbox[i]) ==> Matches(r, queue[i], inbox[i]);
  }

  ghost predicate Distinct(channels: seq<C.ReplyChannel>) {
    forall i, j :: 0 <= i < j < |channels| ==> channels[i] != channels[j]
  }

  /** Each call has a channel of its own, and an id is pending for the same call. */
  ghost predicate SameTable(pending: map<nat, C.ReplyChannel>, channels: seq<C.ReplyChannel>, s: P.System) {
    && |channels| == |s.calls| && Distinct(channels) && pending.Keys == s.pending.Keys
    && forall id :: id in pending ==> s.pending[id] < |channels| && pending[id] == channels[s.pending[id]]
  }

  ghost predicate Agree(client: C.Client, channels: seq<C.ReplyChannel>, s: P.System)
    reads client, channels
  {
    && client.nextId == s.nextId
    && SameTable(client.pending, channels, s)
    && forall c :: 0 <= c < |channels| ==> SameQueue(s, channels[c].queue, s.calls[c].inbox)
  }

  lemma AgreeIsValid(client: C.Client, channels: seq<C.ReplyChannel>, s: P.System)
    requires Agree(client, channels, s) && P.Inv(s)
    ensures client.Valid()
    ensures forall id :: id in s.pending ==> s.pending[id] < |s.calls| && s.calls[s.pending[id]].inbox == []
    ensures forall i, j :: i in s.pending && j in s.pending && i != j ==> s.pending[i] != s.pending[j]
  {
    forall id | id in s.pending
      ensures s.pending[id] < |s.calls| && s.calls[s.pending[id]].id == id && s.calls[s.pending[id]].inbox == [] && id <= s.nextId
    {
      assert P.Awaited(s, id, s.pending[id]) && P.CallOk(s, s.pending[id]);
    }
    forall id | id in client.pending
      ensures client.pending[id].queue == []
    {
      assert SameQueue(s, channels[s.pending[id]].queue, s.calls[s.pending[id]].inbox);
    }
  }

  /** Registering: a number is allocated and the call put into the table. */
  function Registered(s: P.System): P.System
    requires P.LockFree(s)
  {
    P.Next(P.Next(s, P.Allocate), P.Register(|s.calls|))
  }

  lemma RegisteredIs(s: P.System)
    requires P.LockFree(s)
    ensures var r := Registered(s);
            && r.nextId == s.nextId + 1 && r.served == s.served && r.pending == s.pending[s.nextId + 1 := |s.calls|]
            && r.calls == s.calls + [P.Call(s.nextId + 1, P.Phase.Registered, [], 0)]
  {
  }

  lemma TableWithOneMore(pending: map<nat, C.ReplyChannel>, channels: seq<C.ReplyChannel>, s: P.System, channel: C.ReplyChannel)
    requires P.LockFree(s) && SameTable(pending, channels, s) && channel !in channels
    ensures SameTable(pending[s.nextId + 1 := channel], channels + [channel], Registered(s))
  {
    RegisteredIs(s);
    var all, now := channels + [channel], pending[s.nextId + 1 := channel];
    forall id | id in now
      ensures Registered(s).pending[id] < |all| && now[id] == all[Registered(s).pending[id]]
    {
    }
  }

  method Register(client: C.Client, channels: seq<C.ReplyChannel>, ghost s: P.System)
    returns (id: nat, channels': seq<C.ReplyChannel>)
    requires Agree(client, channels, s) && P.Inv(s) && P.LockFree(s)
    modifies client
    ensures Agree(client, channels', Registered(s)) && id == Registered(s).calls[|s.calls|].id
    ensures |channels'| == |channels| + 1 && channels <= channels'
  {
    AgreeIsValid(client, channels, s);
    var channel: C.ReplyChannel;
    id, channel := client.Register();
    channels' := channels + [channel];
    RegisteredIs(s);
    TableWithOneMore(old(client.pending), channels, s, channel);
    forall c | 0 <= c < |channels'|
      ensures SameQueue(Registered(s), channels'[c].queue, Registered(s).calls[c].inbox)
    {
      if c < |channels| {
        assert SameQueue(s, channels[c].queue, s.calls[c].inbox);
      }
    }
  }

  /** A response line: it is taken, and delivered if its id is pending. */
  function Answered(s: P.System, id: int): P.System
    requires P.Inv(s) && P.Enabled(s, P.Take(id))
  {
    var taken := P.Next(s, P.Take(id));
    if id in s.pending then
      P.StepInv(s, P.Take(id));
      assert P.Unsent(taken, taken.reader.call) && P.CallOk(taken, taken.reader.call);
      P.Next(taken, P.Deliver)
    else taken
  }

  lemma AnsweredIs(s: P.System, id: int)
    requires P.Inv(s) && P.Enabled(s, P.Take(id))
    ensures var r := Answered(s, id);
            && r.nextId == s.nextId && r.served == s.served + [id] && r.pending == s.pending - {id}
            && (id !in s.pending ==> r.calls == s.calls)
            && (id in s.pending ==>
                  var c := s.pending[id];
                  && c < |s.calls| && |r.calls| == |s.calls|
                  && r.calls[c].inbox == s.calls[c].inbox + [P.Served(|s.served|)]
                  && forall d :: 0 <= d < |s.calls| && d != c ==> r.calls[d] == s.calls[d])
  {
    assert id in s.pending ==> P.Awaited(s, id, s.pending[id]);
  }

  lemma TableWithout(pending: map<nat, C.ReplyChannel>, channels: seq<C.ReplyChannel>, s: P.System, id: int, r: P.System)
    requires SameTable(pending, channels, s) && |r.calls| == |s.calls| && r.pending == s.pending - {id}
    ensures SameTable(pending - {id}, channels, r)
  {
  }

  /** A channel is registered for its own call only. */
  lemma UntouchedQueue(pending: map<nat, C.ReplyChannel>, channels: seq<C.ReplyChannel>, s: P.System, c: nat)
    requires SameTable(pending, channels, s) && c < |channels|
    ensures forall id :: id in pending && pending[id] == channels[c] ==> s.pending[id] == c
  {
  }

  /** The queue of a call after a response line, by whether the line is for it. */
  lemma QueueAfter(s: P.System, id: int, payload: string, c: nat, before: seq<C.Reply>, after: seq<C.Reply>)
    requires P.Inv(s) && P.Enabled(s, P.Take(id)) && c < |s.calls| && SameQueue(s, before, s.calls[c].inbox)
    requires if id in s.pending && s.pending[id] == c then before == [] && after == [C.Response(id, payload)] else after == before
    ensures c < |Answered(s, id).calls| && SameQueue(Answered(s, id), after, Answered(s, id).calls[c].inbox)
  {
    AnsweredIs(s, id);
    StillMatches(s, Answered(s, id), before, s.calls[c].inbox);
  }

  method Respond(client: C.Client, channels: seq<C.ReplyChannel>, ghost s: P.System, id: int, payload: string)
    requires Agree(client, channels, s) && P.Inv(s) && P.Enabled(s, P.Take(id))
    modifies client, channels
    ensures Agree(client, channels, Answered(s, id))
  {
    AgreeIsValid(client, channels, s);
    var delivered := client.ResolveResponse(id, payload);
    AnsweredIs(s, id);
    TableWithout(old(client.pending), channels, s, id, Answered(s, id));
    forall c | 0 <= c < |channels|
      ensures SameQueue(Answered(s, id), channels[c].queue, Answered(s, id).calls[c].inbox)
    {
      UntouchedQueue(old(client.pending), channels, s, c);
      assert (id in s.pending && c == s.pending[id]) || channels[c].queue == old(channels[c].queue);
      QueueAfter(s, id, payload, c, old(channels[c].queue), channels[c].queue);
    }
  }

  /** One notice of the exit drain. */
  method NotifyExit(client: C.Client, channels: seq<C.ReplyChannel>, ghost s: P.System, id: nat)
    requires Agree(client, channels, s) && P.Inv(s) && P.Enabled(s, P.DrainOne(id))
    modifies client, channels
    ensures Agree(client, channels, P.Next(s, P.DrainOne(id)))
  {
    AgreeIsValid(client, channels, s);
    client.NotifyExit(id);
  }

  /** A call that gives up removes its entry. */
  method Remove(client: C.Client, channels: seq<C.ReplyChannel>, ghost s: P.System, c: nat, id: nat)
    requires Agree(client, channels, s) && P.Inv(s) && P.Enabled(s, P.Remove(c)) && id == s.calls[c].id
    modifies client
    ensures Agree(client, channels, P.Next(s, P.Remove(c)))
  {
    AgreeIsValid(client, channels, s);
    client.RemovePending(id);
  }
}
