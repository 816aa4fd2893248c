/**
 * lgtv/client.go with the calls of lgtv/methods.go and lgtv/register.go: one
 * connection's request correlator. Each method is one section the source
 * runs under the client's lock (or, for a call, the straight-line sequence of
 * such sections); the transport, the writer goroutine and the deadlines are
 * the methods' parameters and the `sent` log.
 */
module Lgtv {
  import opened Wrappers
  import opened Api
  import opened Messages
  import opened Correlation
  import opened Pairing
  import opened Methods
  import opened MapRange

  /** The error the read loop reports when reading from the socket fails. */
  function ReadError(cause: string): (e: string)
    ensures |e| == |ReadErrorPrefix| + |cause|
    ensures e[..|ReadErrorPrefix|] == ReadErrorPrefix && e[|ReadErrorPrefix|..] == cause
  {
    ReadErrorPrefix + cause
  }

  const ReadErrorPrefix: string := "could not read from websocket: "


  class Client {
    /** The keepalive period handed to the writer. */
    const pingPeriod: Duration
    /** The ID the next request gets. */
    var sequence: int
    /** responseChannels: the slot of every request still registered, by ID. */
    var pending: map<int, Slot>
    /** The requests handed to the writer, in the order they were written. */
    var sent: seq<Request>
    /** The error the read loop reported once it stopped, if it has. */
    var failure: Option<string>

    /**
     * IDs are handed out from 0 upwards, so every registered ID is below the
     * next one; only teardown closes a slot that is still registered.
     */
    ghost predicate Valid()
      reads this
    {
      && 0 <= sequence
      && (forall id :: id in pending ==> 0 <= id < sequence)
      && (forall id :: id in pending && pending[id].closed ==> failure.Some?)
    }

    /** A freshly dialled client: IDs start at 0 and nothing is pending. */
    constructor Dial(opts: Options)
      ensures Valid()
      ensures sequence == 0 && pending == map[] && sent == [] && failure == None
      ensures pingPeriod == PingPeriod(opts)
    {
      pingPeriod := PingPeriod(opts);
      sequence := 0;
      pending := map[];
      sent := [];
      failure := None;
    }

    /**
     * newRequest: the current sequence number becomes the request's ID, the
     * counter moves on by one, and a fresh slot is registered under the ID;
     * every other slot is untouched.
     */
    method NewRequest() returns (id: int)
      requires Valid()
      modifies this
      ensures Valid()
      ensures id == old(sequence) && sequence == id + 1
      ensures forall k :: k in old(pending) ==> k < id
      ensures id !in old(pending) && pending == old(pending)[id := Fresh]
      ensures sent == old(sent) && failure == old(failure)
    {
      id := sequence;
      sequence := sequence + 1;
      pending := pending[id := Fresh];
    }

    /**
     * The cancel function newRequest returns: it closes the slot's channel and
     * removes exactly that ID. Closing a channel that teardown has already
     * closed panics; that case is reported as `ok == false` and changes nothing.
     */
    method Cancel(id: int) returns (ok: bool)
      requires Valid() && id in pending
      modifies this
      ensures Valid()
      ensures ok <==> !old(pending)[id].closed
      ensures pending == if ok then old(pending) - {id} else old(pending)
      ensures sequence == old(sequence) && sent == old(sent) && failure == old(failure)
    {
      if pending[id].closed {
        return false;
      }
      ok := true;
      pending := pending - {id};
    }

    /**
     * requestChannel <- req: the writer writes requests one at a time, in
     * order. Once the read loop has failed, the writer has closed the channel
     * and the send panics, so a send needs a live connection.
     */
    method Send(req: Request)
      requires failure.None?
      modifies this
      ensures sent == old(sent) + [req]
      ensures sequence == old(sequence) && pending == old(pending) && failure == old(failure)
    {
      sent := sent + [req];
    }

    /**
     * The read loop's locked section for one response: it goes to the slot
     * registered under its own ID and nowhere else, or is thrown away.
     */
    method Dispatch(rsp: Response)
      requires Valid() && failure.None?
      modifies this
      ensures Valid()
      ensures pending == Deliver(old(pending), rsp)
      ensures sequence == old(sequence) && sent == old(sent) && failure == old(failure)
    {
      if rsp.id in pending {
        var slot := pending[rsp.id];
        pending := pending[rsp.id := Slot(slot.queue + [rsp], slot.closed)];
      }
    }

    /**
     * The read loop's exit: the read error is reported, then every slot
     * still registered is closed, visiting the table in the map's iteration
     * order `order`; none is removed.
     */
    method Teardown(cause: string, order: seq<int>)
      requires Valid() && failure.None?
      requires IterationOrder(order, pending.Keys)
      modifies this
      ensures Valid()
      ensures failure == Some(ReadError(cause))
      ensures pending == CloseAll(old(pending))
      ensures sequence == old(sequence) && sent == old(sent)
    {
      var table := pending;
      for i := 0 to |order|
        invariant table.Keys == pending.Keys
        invariant forall id :: id in table ==>
          table[id] == Slot(pending[id].queue, id in order[..i] || pending[id].closed)
      {
        table := table[order[i] := Slot(table[order[i]].queue, true)];
      }
      assert order[..|order|] == order;
      pending := table;
      failure := Some(ReadError(cause));
    }

    /**
     * readLoop over a stretch of input: every response in `inbound` is
     * dispatched in order, then reading fails with `cause` and teardown
     * visits the table in the order `order`. Each slot ends up
     * with exactly the responses that carry its ID, in arrival order, and
     * closed; no slot is added or removed.
     */
    method ReadLoop(inbound: seq<Response>, cause: string, order: seq<int>)
      requires Valid() && failure.None?
      requires IterationOrder(order, pending.Keys)
      modifies this
      ensures Valid()
      ensures pending.Keys == old(pending).Keys
      ensures forall id :: id in pending ==>
        pending[id] == Slot(old(pending)[id].queue + Addressed(inbound, id), true)
      ensures failure == Some(ReadError(cause))
      ensures sequence == old(sequence) && sent == old(sent)
    {
      var i := 0;
      while i < |inbound|
        invariant 0 <= i <= |inbound|
        invariant Valid() && failure.None?
        invariant pending == Route(old(pending), inbound[..i])
        invariant sequence == old(sequence) && sent == old(sent)
      {
        Dispatch(inbound[i]);
        assert inbound[..i + 1][..i] == inbound[..i];
        i := i + 1;
      }
      assert inbound[..i] == inbound;
      RouteAddressed(old(pending), inbound);
      Teardown(cause, order);
    }

    /**
     * receive on the slot of `id`: the head of its queue, the deadline, or,
     * once teardown has closed it, the end of the channel. Only a received
     * response leaves the slot.
     */
    method Receive(id: int, deadline: bool) returns (r: Received)
      requires Valid() && id in pending
      requires deadline || pending[id].queue != [] || pending[id].closed
      modifies this
      ensures Valid()
      ensures r == Take(old(pending)[id], deadline)
      ensures pending == old(pending)[id := Rest(old(pending)[id], r)]
      ensures sequence == old(sequence) && sent == old(sent) && failure == old(failure)
    {
      var slot := pending[id];
      r := Take(slot, deadline);
      pending := pending[id := Rest(slot, r)];
    }

    /**
     * The common shape of a one-shot call: a fresh request, the request sent,
     * the TV's answer routed to its slot, one receive, and the deferred
     * cancel. The table is as it was before; the ID is used up.
     */
    method Exchange(c: Capability, p: RequestPayload, reply: Wait) returns (r: Received)
      requires Valid() && failure.None?
      modifies this
      ensures Valid() && failure == old(failure)
      ensures sequence == old(sequence) + 1 && pending == old(pending)
      ensures sent == old(sent) + [OneShot(old(sequence), c, p)]
      ensures r == Arrive(old(sequence), reply)
    {
      var id := NewRequest();
      Send(OneShot(id, c, p));
      if reply.Reply? {
        Dispatch(Response(id, reply.kind, reply.error, reply.payload));
      }
      r := Receive(id, reply.TimedOut?);
      var ok := Cancel(id);
      assert pending == old(pending);
    }

    /** ListApps: the listApps request, and the apps of the answer. */
    method ListApps(reply: Wait) returns (res: Result<seq<App>, Error>)
      requires Valid() && failure.None?
      modifies this
      ensures Valid() && failure == old(failure)
      ensures sequence == old(sequence) + 1 && pending == old(pending)
      ensures sent == old(sent) + [OneShot(old(sequence), Capability.ListApps, NoPayload)]
      ensures res == ListAppsResult(Arrive(old(sequence), reply))
    {
      var r := Exchange(Capability.ListApps, NoPayload, reply);
      res := ListAppsResult(r);
    }

    /** App: the getForegroundAppInfo request, and the app ID of the answer. */
    method App(reply: Wait) returns (res: Result<App, Error>)
      requires Valid() && failure.None?
      modifies this
      ensures Valid() && failure == old(failure)
      ensures sequence == old(sequence) + 1 && pending == old(pending)
      ensures sent == old(sent) + [OneShot(old(sequence), GetApp, NoPayload)]
      ensures res == AppResult(Arrive(old(sequence), reply))
    {
      var r := Exchange(GetApp, NoPayload, reply);
      res := AppResult(r);
    }

    /** SetApp: the launch request with payload {id: appID}; only the error comes back. */
    method SetApp(appID: string, reply: Wait) returns (err: Option<Error>)
      requires Valid() && failure.None?
      modifies this
      ensures Valid() && failure == old(failure)
      ensures sequence == old(sequence) + 1 && pending == old(pending)
      ensures sent == old(sent) + [OneShot(old(sequence), Capability.SetApp, Launch(appID))]
      ensures err == AckResult(Arrive(old(sequence), reply))
    {
      var r := Exchange(Capability.SetApp, Launch(appID), reply);
      err := AckResult(r);
    }

    /** Volume: the getVolume request, and the volume of the answer. */
    method Volume(reply: Wait) returns (res: Result<Volume, Error>)
      requires Valid() && failure.None?
      modifies this
      ensures Valid() && failure == old(failure)
      ensures sequence == old(sequence) + 1 && pending == old(pending)
      ensures sent == old(sent) + [OneShot(old(sequence), GetVolume, NoPayload)]
      ensures res == VolumeResult(Arrive(old(sequence), reply))
    {
      var r := Exchange(GetVolume, NoPayload, reply);
      res := VolumeResult(r);
    }

    /** SetVolume: the setVolume request with payload {volume: level}, level as given. */
    method SetVolume(level: int, reply: Wait) returns (err: Option<Error>)
      requires Valid() && failure.None?
      modifies this
      ensures Valid() && failure == old(failure)
      ensures sequence == old(sequence) + 1 && pending == old(pending)
      ensures sent == old(sent) + [OneShot(old(sequence), Capability.SetVolume, SetLevel(level))]
      ensures err == AckResult(Arrive(old(sequence), reply))
    {
      var r := Exchange(Capability.SetVolume, SetLevel(level), reply);
      err := AckResult(r);
    }

    /** TurnOff: the turnOff request; only the error comes back. */
    method TurnOff(reply: Wait) returns (err: Option<Error>)
      requires Valid() && failure.None?
      modifies this
      ensures Valid() && failure == old(failure)
      ensures sequence == old(sequence) + 1 && pending == old(pending)
      ensures sent == old(sent) + [OneShot(old(sequence), Capability.TurnOff, NoPayload)]
      ensures err == AckResult(Arrive(old(sequence), reply))
    {
      var r := Exchange(Capability.TurnOff, NoPayload, reply);
      err := AckResult(r);
    }

    /**
     * Register: the registration request, then one receive, and a second on
     * the same ID unless the TV answered "registered" at once. The slot is
     * cancelled on every path.
     */
    method Register(key: string, first: Wait, second: Wait) returns (newKey: string, err: Option<Error>)
      requires Valid() && failure.None?
      modifies this
      ensures Valid() && failure == old(failure)
      ensures sequence == old(sequence) + 1 && pending == old(pending)
      ensures sent == old(sent) + [RegisterRequest(old(sequence), key)]
      ensures (newKey, err) == RegisterOutcome(key, Arrive(old(sequence), first), Arrive(old(sequence), second))
    {
      var id := NewRequest();
      Send(RegisterRequest(id, key));
      if first.Reply? {
        Dispatch(Response(id, first.kind, first.error, first.payload));
      }
      var r := Receive(id, first.TimedOut?);
      match Outcome(r) {
        case Failure(e) =>
          newKey, err := key, Some(e);
        case Success(rsp) =>
          if rsp.kind == RegisteredType {
            newKey, err := key, None;
          } else {
            if second.Reply? {
              Dispatch(Response(id, second.kind, second.error, second.payload));
            }
            var r' := Receive(id, second.TimedOut?);
            match Outcome(r') {
              case Failure(e) =>
                newKey, err := key, Some(e);
              case Success(rsp') =>
                match DecodeClientKey(rsp'.payload) {
                  case None =>
                    newKey, err := key, Some(DecodeFailure);
                  case Some(k) =>
                    newKey, err := k, None;
                }
            }
          }
      }
      assert pending.Keys == old(pending).Keys + {id} && !pending[id].closed;
      assert forall k :: k in old(pending) ==> pending[k] == old(pending)[k];
      var ok := Cancel(id);
      assert pending == old(pending);
    }

    /**
     * SubscribeApp / SubscribeVolume: the subscribe request; the slot is never
     * cancelled, so the ID stays registered for every event the TV sends.
     */
    method Subscribe(c: Capability) returns (id: int)
      requires Valid() && failure.None?
      modifies this
      ensures Valid() && failure == old(failure)
      ensures id == old(sequence) && sequence == id + 1
      ensures id !in old(pending) && pending == old(pending)[id := Fresh]
      ensures sent == old(sent) + [SubscribeTo(id, c)]
    {
      id := NewRequest();
      Send(SubscribeTo(id, c));
    }
  }
}
