/** The pending table of the JSON-RPC client as mutable objects: one map from
    request ids to reply channels of capacity one. */
module RpcClient {

  /** A reply: the server's response to a request id, or the notice that the
      process is gone. */
  datatype Reply = Response(id: int, payload: string) | ProcessExited

  class ReplyChannel {
    var queue: seq<Reply>

    constructor ()
      ensures queue == []
    {
      queue := [];
    }

    /** A send with room in the channel. Without room it would block. */
    method Send(r: Reply)
      requires |queue| < 1
      modifies this
      ensures queue == old(queue) + [r]
    {
      queue := queue + [r];
    }
  }

  class Client {
    var pending: map<nat, ReplyChannel>
    var nextId: nat

    constructor ()
      ensures Valid() && pending == map[] && nextId == 0
    {
      pending, nextId := map[], 0;
    }

    /** Every registered channel is empty and registered once, under an id that
        was handed out. */
    ghost predicate Valid()
      reads this, pending.Values
    {
      && (forall id :: id in pending ==> id <= nextId && pending[id].queue == [])
      && (forall i, j :: i in pending && j in pending && i != j ==> pending[i] != pending[j])
    }

    method Register() returns (id: nat, channel: ReplyChannel)
      requires Valid()
      modifies this
      ensures Valid() && fresh(channel) && channel.queue == []
      ensures id == old(nextId) + 1 == nextId && id !in old(pending)
      ensures pending == old(pending)[id := channel]
    {
      nextId := nextId + 1;
      id := nextId;
      channel := new ReplyChannel();
      pending := pending[id := channel];
    }

    method RemovePending(id: nat)
      requires Valid()
      modifies this`pending
      ensures Valid() && pending == old(pending) - {id}
    {
      pending := pending - {id};
    }

    /** A response goes to the channel registered under its id and to no other;
        an unknown id changes nothing. */
    method ResolveResponse(id: int, payload: string) returns (delivered: bool)
      requires Valid()
      modifies this`pending, pending.Values
      ensures Valid() && pending == old(pending) - {id}
      ensures delivered <==> id in old(pending)
      ensures delivered ==> old(pending)[id].queue == [Response(id, payload)]
      ensures forall other :: other in old(pending) && other != id ==> old(pending)[other].queue == []
    {
      if id !in pending {
        assert pending - {id} == pending;
        return false;
      }
      var channel := pending[id];
      pending := pending - {id};
      channel.Send(Response(id, payload));
      delivered := true;
    }

    /** One notice of the exit drain. The send cannot block because a registered
        channel is empty. */
    method NotifyExit(id: nat)
      requires Valid() && id in pending
      modifies this`pending, pending[id]
      ensures Valid() && pending == old(pending) - {id}
      ensures old(pending[id]).queue == [ProcessExited]
    {
      pending[id].Send(ProcessExited);
      pending := pending - {id};
    }

    /** Process exit: under the lock, one notice into every registered channel. */
    method DrainPending()
      requires Valid()
      modifies this`pending, pending.Values
      ensures Valid() && pending == map[]
      ensures forall id :: id in old(pending) ==> old(pending)[id].queue == [ProcessExited]
    {
      ghost var before := pending;
      while pending.Keys != {}
        invariant Valid()
        invariant forall id :: id in pending ==> id in before && pending[id] == before[id]
        invariant forall id :: id in before && id !in pending ==> before[id].queue == [ProcessExited]
        decreases |pending.Keys|
      {
        var id: nat :| id in pending.Keys;
        assert before[id] in before.Values;
        assert (pending - {id}).Keys == pending.Keys - {id};
        NotifyExit(id);
      }
    }
  }
}
