/**
 * The value-level view of lgtv/client.go's correlator: pending slots, the
 * routing of inbound responses by ID, the teardown that closes every slot,
 * and what a receive on a slot yields.
 */
module Correlation {
  import opened Wrappers
  import opened Api
  import opened Messages

  /**
   * The receiving end of one pending request: responses routed to it and not
   * yet received, in arrival order, and whether its channel has been closed.
   */
  datatype Slot = Slot(queue: seq<Response>, closed: bool)

  /** The slot newRequest registers. */
  const Fresh: Slot := Slot([], false)

  /** What happens while a caller waits: the TV answers, or the caller's deadline passes first. */
  datatype Wait = Reply(kind: string, error: string, payload: Payload) | TimedOut

  /** The case of receive's select that proceeds. */
  datatype Received = Got(rsp: Response) | Deadline | Closed

  /**
   * One receive on a slot. The select proceeds once the deadline has passed,
   * a response is queued or the channel is closed; `deadline` says that the
   * select took the ctx.Done() case, which Go may pick whenever it is ready.
   */
  function Take(s: Slot, deadline: bool): (r: Received)
    requires deadline || s.queue != [] || s.closed
    ensures r.Deadline? <==> deadline
    ensures r.Got? <==> !deadline && s.queue != []
    ensures r.Got? ==> r.rsp == s.queue[0]
    ensures r.Closed? ==> s.closed && s.queue == []
  {
    if deadline then Deadline
    else if s.queue != [] then Got(s.queue[0])
    else Closed
  }

  /** The slot after a receive that yielded `r`. */
  function Rest(s: Slot, r: Received): (t: Slot)
    ensures t.closed == s.closed
    ensures r.Got? && s.queue != [] ==> s.queue == [s.queue[0]] + t.queue
    ensures !r.Got? ==> t == s
  {
    if r.Got? && s.queue != [] then Slot(s.queue[1..], s.closed) else s
  }

  /**
   * What receive hands back to its caller: the response, failed exactly when
   * its type is "error"; the context's error on deadline; and, for a channel
   * that teardown closed, the not-connected error.
   */
  function Outcome(r: Received): (res: Result<Response, Error>)
    ensures r.Got? ==> (res.Failure? <==> r.rsp.kind == ErrorType)
    ensures r.Got? && res.Success? ==> res.value == r.rsp
    ensures r.Got? && res.Failure? ==> res.error == TVError(r.rsp.error)
    ensures r.Deadline? ==> res == Failure(DeadlineExceeded)
    ensures r.Closed? ==> res == Failure(NotConnected)
  {
    match r
    case Got(rsp) =>
      (match Err(rsp)
       case Some(e) => Failure(e)
       case None => Success(rsp))
    case Deadline => Failure(DeadlineExceeded)
    case Closed => Failure(NotConnected)
  }

  /** What the source's receive does: it may also stop on a nil response. */
  datatype Step = Returned(result: Result<Response, Error>) | NilDereference

  /**
   * receive as written: a closed channel yields a nil response, and calling
   * Err on it dereferences nil.
   */
  function ReceiveAsWritten(r: Received): (s: Step)
    ensures s.NilDereference? <==> r.Closed?
    ensures s.Returned? ==> s.result == Outcome(r)
  {
    if r.Closed? then NilDereference else Returned(Outcome(r))
  }

  /** What the waiting caller receives on slot `id` when the TV's answer is `w`. */
  function Arrive(id: int, w: Wait): (r: Received)
    ensures r.Got? <==> w.Reply?
    ensures r.Got? ==> r.rsp.id == id
  {
    match w
    case Reply(kind, error, payload) => Got(Response(id, kind, error, payload))
    case TimedOut => Deadline
  }

  /** The responses of `inbound` that carry ID `id`, in arrival order. */
  function Addressed(inbound: seq<Response>, id: int): (r: seq<Response>)
    ensures |r| <= |inbound|
    ensures forall i :: 0 <= i < |r| ==> r[i].id == id && r[i] in inbound
  {
    if inbound == [] then []
    else
      var last := inbound[|inbound| - 1];
      Addressed(inbound[..|inbound| - 1], id) + (if last.id == id then [last] else [])
  }

  /**
   * One pass of the read loop's locked section: the response joins the slot
   * registered under its own ID; when none is, it is discarded.
   */
  function Deliver(table: map<int, Slot>, rsp: Response): (t: map<int, Slot>)
    ensures t.Keys == table.Keys
    ensures forall id :: id in t && id != rsp.id ==> t[id] == table[id]
    ensures rsp.id in table ==> t[rsp.id] == Slot(table[rsp.id].queue + [rsp], table[rsp.id].closed)
  {
    if rsp.id in table then
      table[rsp.id := Slot(table[rsp.id].queue + [rsp], table[rsp.id].closed)]
    else table
  }

  /** The table after the read loop has dispatched `inbound`, in order. */
  function Route(table: map<int, Slot>, inbound: seq<Response>): (t: map<int, Slot>)
    ensures t.Keys == table.Keys
  {
    if inbound == [] then table
    else Deliver(Route(table, inbound[..|inbound| - 1]), inbound[|inbound| - 1])
  }

  /** The read loop's teardown: every slot still in the table is closed, none is removed. */
  function CloseAll(table: map<int, Slot>): (t: map<int, Slot>)
    ensures t.Keys == table.Keys
    ensures forall id :: id in t ==> t[id] == Slot(table[id].queue, true)
  {
    map id | id in table :: Slot(table[id].queue, true)
  }

  /**
   * Routing by ID: after a stream of responses, each slot holds exactly the
   * responses that carry its ID, in arrival order; no slot is added or
   * removed, and responses for IDs not in the table are gone.
   */
  lemma {:induction false} RouteAddressed(table: map<int, Slot>, inbound: seq<Response>)
    ensures Route(table, inbound).Keys == table.Keys
    ensures forall id :: id in table ==>
      Route(table, inbound)[id] == Slot(table[id].queue + Addressed(inbound, id), table[id].closed)
  {
    if inbound != [] {
      var init, last := inbound[..|inbound| - 1], inbound[|inbound| - 1];
      RouteAddressed(table, init);
      forall id | id in table
        ensures Route(table, inbound)[id] == Slot(table[id].queue + Addressed(inbound, id), table[id].closed)
      {
        assert table[id].queue + Addressed(init, id) + (if last.id == id then [last] else [])
          == table[id].queue + Addressed(inbound, id);
      }
    }
  }

  /** A stream with no response for `id` leaves nothing for `id`. */
  lemma {:induction false} AddressedNone(inbound: seq<Response>, id: int)
    requires forall i :: 0 <= i < |inbound| ==> inbound[i].id != id
    ensures Addressed(inbound, id) == []
  {
    if inbound != [] {
      AddressedNone(inbound[..|inbound| - 1], id);
    }
  }

  /** With pairwise distinct IDs, `inbound` holds exactly one response for the ID of its k-th element. */
  lemma {:induction false} AddressedDistinct(inbound: seq<Response>, k: int)
    requires 0 <= k < |inbound|
    requires forall i, j :: 0 <= i < j < |inbound| ==> inbound[i].id != inbound[j].id
    ensures Addressed(inbound, inbound[k].id) == [inbound[k]]
  {
    var n := |inbound| - 1;
    var init := inbound[..n];
    if k == n {
      AddressedNone(init, inbound[k].id);
    } else {
      AddressedDistinct(init, k);
    }
  }

  /**
   * Responses with distinct IDs reach their own callers whatever order they
   * arrive in: the k-th one is the only thing added to its own slot.
   */
  lemma OwnResponse(table: map<int, Slot>, inbound: seq<Response>, k: int)
    requires 0 <= k < |inbound| && inbound[k].id in table
    requires forall i, j :: 0 <= i < j < |inbound| ==> inbound[i].id != inbound[j].id
    ensures Route(table, inbound)[inbound[k].id].queue == table[inbound[k].id].queue + [inbound[k]]
  {
    RouteAddressed(table, inbound);
    AddressedDistinct(inbound, k);
  }

  /**
   * After teardown, a caller still waiting on an empty slot receives from a
   * closed channel: as written this dereferences a nil response; the
   * corrected receive reports that the connection is gone.
   */
  lemma PendingReceiveAfterTeardown(table: map<int, Slot>, id: int)
    requires id in table && table[id].queue == []
    ensures ReceiveAsWritten(Take(CloseAll(table)[id], false)) == NilDereference
    ensures Outcome(Take(CloseAll(table)[id], false)) == Failure(NotConnected)
  {
  }
}
