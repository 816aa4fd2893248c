/**
 * lgtv/methods.go: the requests each capability call sends, what it extracts
 * from the response, and the loop that turns a subscription's responses into
 * callback dispatches.
 */
module Methods {
  import opened Wrappers
  import opened Api
  import opened Messages
  import opened Correlation

  /** A one-shot call: type "request", the capability's URI, the payload. */
  function OneShot(id: int, c: Capability, p: RequestPayload): (req: Request)
    ensures req.id == id && req.kind == RequestKind && req.uri == c.Uri() && req.payload == p
    ensures Members(req)[..3] == ["id", "type", "uri"]
  {
    Request(id, RequestKind, c.Uri(), p)
  }

  /** A subscription: type "subscribe", the capability's URI, no payload. */
  function SubscribeTo(id: int, c: Capability): (req: Request)
    ensures req.id == id && req.kind == SubscribeKind && req.uri == c.Uri()
    ensures Members(req) == ["id", "type", "uri"]
  {
    Request(id, SubscribeKind, c.Uri(), NoPayload)
  }

  /**
   * The value a one-shot getter returns: the receive error when there is
   * one, otherwise the decoded payload, or the decoder's error.
   */
  function Extract<T>(r: Received, decode: Payload -> Option<T>): (res: Result<T, Error>)
    ensures Outcome(r).Failure? ==> res == Failure(Outcome(r).error)
    ensures res.Success? ==> r.Got? && r.rsp.kind != ErrorType && decode(r.rsp.payload) == Some(res.value)
    ensures Outcome(r).Success? && decode(r.rsp.payload).None? ==> res == Failure(DecodeFailure)
    ensures Outcome(r).Success? && decode(r.rsp.payload).Some? ==> res == Success(decode(r.rsp.payload).value)
  {
    match Outcome(r)
    case Failure(e) => Failure(e)
    case Success(rsp) =>
      match decode(rsp.payload)
      case None => Failure(DecodeFailure)
      case Some(v) => Success(v)
  }

  /** ListApps: exactly the payload's "apps" list. */
  function ListAppsResult(r: Received): (res: Result<seq<App>, Error>)
    ensures Outcome(r).Failure? ==> res == Failure(Outcome(r).error)
    ensures Outcome(r).Success? && !r.rsp.payload.Object? ==> res == Failure(DecodeFailure)
    ensures Outcome(r).Success? && r.rsp.payload.Object? ==> res == Success(r.rsp.payload.apps.GetOr([]))
  {
    Extract(r, DecodeApps)
  }

  /** App: an App with the payload's "appId" and no name. */
  function AppResult(r: Received): (res: Result<App, Error>)
    ensures Outcome(r).Failure? ==> res == Failure(Outcome(r).error)
    ensures Outcome(r).Success? && !r.rsp.payload.Object? ==> res == Failure(DecodeFailure)
    ensures Outcome(r).Success? && r.rsp.payload.Object? ==> res == Success(App("", r.rsp.payload.appId.GetOr("")))
  {
    Extract(r, DecodeApp)
  }

  /** Volume: the payload's level and mute flag. */
  function VolumeResult(r: Received): (res: Result<Volume, Error>)
    ensures Outcome(r).Failure? ==> res == Failure(Outcome(r).error)
    ensures Outcome(r).Success? && !r.rsp.payload.Object? ==> res == Failure(DecodeFailure)
    ensures Outcome(r).Success? && r.rsp.payload.Object? ==>
      res == Success(Volume(r.rsp.payload.volume.GetOr(0), r.rsp.payload.muted.GetOr(false)))
  {
    Extract(r, DecodeVolume)
  }

  /** SetApp, SetVolume and TurnOff return only receive's error; the payload is ignored. */
  function AckResult(r: Received): (err: Option<Error>)
    ensures err.None? <==> Outcome(r).Success?
    ensures err.Some? ==> err.value == Outcome(r).error
  {
    match Outcome(r)
    case Failure(e) => Some(e)
    case Success(_) => None
  }

  /** ListApps returns exactly the apps of a non-error response with an object payload. */
  lemma ListAppsReturnsApps(rsp: Response)
    requires rsp.kind != ErrorType && rsp.payload.Object?
    ensures ListAppsResult(Got(rsp)) == Success(rsp.payload.apps.GetOr([]))
  {
  }

  /** App fills in only the ID. */
  lemma AppHasOnlyId(r: Received)
    requires AppResult(r).Success?
    ensures AppResult(r).value.name == ""
    ensures r.Got? && AppResult(r).value.id == r.rsp.payload.appId.GetOr("")
  {
  }

  /** What one response contributes to a subscription's callbacks. */
  function Event<T>(rsp: Response, decode: Payload -> Option<T>): (e: seq<T>)
    ensures |e| <= 1
  {
    if Err(rsp).Some? then []
    else
      match decode(rsp.payload)
      case None => []
      case Some(v) => [v]
  }

  /**
   * The values a subscription dispatches to its callback for the responses
   * `stream` routed to its ID: one per response, skipping error responses and
   * payloads that do not decode.
   */
  function Forwarded<T>(stream: seq<Response>, decode: Payload -> Option<T>): (events: seq<T>)
    ensures |events| <= |stream|
  {
    if stream == [] then []
    else Forwarded(stream[..|stream| - 1], decode) + Event(stream[|stream| - 1], decode)
  }

  /** The subscription loop: `for rsp := range rspChan`, skipping and dispatching. */
  method Forward<T>(stream: seq<Response>, decode: Payload -> Option<T>) returns (events: seq<T>)
    ensures events == Forwarded(stream, decode)
  {
    events := [];
    var i := 0;
    while i < |stream|
      invariant 0 <= i <= |stream|
      invariant events == Forwarded(stream[..i], decode)
    {
      var rsp := stream[i];
      assert stream[..i + 1][..i] == stream[..i];
      i := i + 1;
      if Err(rsp).Some? {
        continue;
      }
      var payload := decode(rsp.payload);
      if payload.None? {
        continue;
      }
      events := events + [payload.value];
    }
    assert stream[..i] == stream;
  }

  /** Dispatching a stream in two parts dispatches the same callbacks, in order. */
  lemma {:induction false} ForwardedAppend<T>(a: seq<Response>, b: seq<Response>, decode: Payload -> Option<T>)
    ensures Forwarded(a + b, decode) == Forwarded(a, decode) + Forwarded(b, decode)
  {
    if b != [] {
      var init, last := b[..|b| - 1], b[|b| - 1];
      assert (a + b)[..|a + b| - 1] == a + init;
      ForwardedAppend(a, init, decode);
    } else {
      assert a + b == a;
    }
  }

  /**
   * A skipped response is never fatal: an error response or an undecodable
   * payload anywhere in the stream changes nothing about the callbacks for
   * what came before or after it.
   */
  lemma Skipped<T>(a: seq<Response>, rsp: Response, b: seq<Response>, decode: Payload -> Option<T>)
    requires rsp.kind == ErrorType || decode(rsp.payload).None?
    ensures Forwarded(a + [rsp] + b, decode) == Forwarded(a, decode) + Forwarded(b, decode)
  {
    ForwardedAppend(a + [rsp], b, decode);
    assert (a + [rsp])[..|a|] == a;
    assert Event(rsp, decode) == [];
    assert Forwarded(a + [rsp], decode) == Forwarded(a, decode) + [];
  }

  /** Any other response yields exactly one dispatch, of its decoded payload. */
  lemma Dispatched<T>(a: seq<Response>, rsp: Response, b: seq<Response>, decode: Payload -> Option<T>)
    requires rsp.kind != ErrorType && decode(rsp.payload).Some?
    ensures Forwarded(a + [rsp] + b, decode)
         == Forwarded(a, decode) + [decode(rsp.payload).value] + Forwarded(b, decode)
  {
    ForwardedAppend(a + [rsp], b, decode);
    assert (a + [rsp])[..|a|] == a;
  }

  /**
   * From the read loop to the callback: once the read loop has dispatched
   * `inbound`, the callbacks of a subscription on `id` are those of the
   * responses already queued for it followed by one per later response
   * carrying its ID, in arrival order, with the same skipping.
   */
  lemma SubscriptionEvents<T>(table: map<int, Slot>, inbound: seq<Response>, id: int, decode: Payload -> Option<T>)
    requires id in table
    ensures Forwarded(Route(table, inbound)[id].queue, decode)
         == Forwarded(table[id].queue, decode) + Forwarded(Addressed(inbound, id), decode)
    ensures table[id].queue == [] ==>
      Forwarded(Route(table, inbound)[id].queue, decode) == Forwarded(Addressed(inbound, id), decode)
  {
    RouteAddressed(table, inbound);
    ForwardedAppend(table[id].queue, Addressed(inbound, id), decode);
    assert [] + Addressed(inbound, id) == Addressed(inbound, id);
  }
}
