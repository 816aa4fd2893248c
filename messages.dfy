/**
 * lgtv/messages.go: the messages exchanged with the TV, the request types,
 * the capability URIs, and the classification of a response as an error.
 * JSON payloads are taken as already decoded.
 */
module Messages {
  import opened Wrappers
  import opened Api

  /** The three request types the client sends. */
  datatype RequestType = RegisterKind | RequestKind | SubscribeKind {
    /** The wire spelling of the type. */
    function Name(): string {
      match this
      case RegisterKind => "register"
      case RequestKind => "request"
      case SubscribeKind => "subscribe"
    }
  }

  /** The six TV capabilities the client uses. */
  datatype Capability = ListApps | GetApp | SetApp | GetVolume | SetVolume | TurnOff {
    /** The SSAP URI that addresses the capability. */
    function Uri(): (u: string)
      ensures |u| > |Scheme| && u[..|Scheme|] == Scheme
    {
      Scheme + Path()
    }

    /** The service and method part of the URI. */
    function Path(): string {
      match this
      case ListApps => "com.webos.applicationManager/listApps"
      case GetApp => "com.webos.applicationManager/getForegroundAppInfo"
      case SetApp => "system.launcher/launch"
      case GetVolume => "audio/getVolume"
      case SetVolume => "audio/setVolume"
      case TurnOff => "system/turnOff"
    }
  }

  const Scheme: string := "ssap://"

  /** An application as the TV lists it: JSON "title" and "id". */
  datatype App = App(name: string, id: string)

  /** The TV's volume state: JSON "volume" and "muted". */
  datatype Volume = Volume(level: int, muted: bool)

  /**
   * A response payload. `Absent` is a response without a payload member,
   * whose raw message is empty and does not decode; `Malformed` stands for
   * any payload the JSON decoder rejects. An object carries the members the
   * client reads, each possibly missing.
   */
  datatype Payload =
    | Absent
    | Malformed
    | Object(apps: Option<seq<App>>, appId: Option<string>, volume: Option<int>,
             muted: Option<bool>, clientKey: Option<string>)

  /** The payloads the client sends. */
  datatype RequestPayload =
    | NoPayload
    | Launch(id: string)
    | SetLevel(volume: int)
    | Pairing(pairingType: string, permissions: seq<string>, clientKey: string)

  /** An outbound message. An empty `uri` stands for a request without one. */
  datatype Request = Request(id: int, kind: RequestType, uri: string, payload: RequestPayload)

  /** An inbound message, with the type the TV gave it. */
  datatype Response = Response(id: int, kind: string, error: string, payload: Payload)

  const ErrorType: string := "error"
  const RegisteredType: string := "registered"

  /**
   * response.Err(): a response is an error exactly when its type is "error",
   * and the error carries the response's error text as its message.
   */
  function Err(rsp: Response): (e: Option<Error>)
    ensures e.Some? <==> rsp.kind == ErrorType
    ensures e.Some? ==> e.value.TVError? && e.value.Text() == rsp.error
  {
    if rsp.kind == ErrorType then Some(TVError(rsp.error)) else None
  }

  /**
   * The JSON members a request is serialised with: "uri" and "payload" are
   * left out when empty.
   */
  function Members(req: Request): (keys: seq<string>)
    ensures |keys| >= 2 && keys[0] == "id" && keys[1] == "type"
    ensures "uri" in keys <==> req.uri != ""
    ensures "payload" in keys <==> !req.payload.NoPayload?
  {
    ["id", "type"]
    + (if req.uri != "" then ["uri"] else [])
    + (if req.payload.NoPayload? then [] else ["payload"])
  }

  /** Decoding listAppsResponse: the "apps" member, nil when missing. */
  function DecodeApps(p: Payload): (r: Option<seq<App>>)
    ensures r.Some? <==> p.Object?
    ensures p.Object? && p.apps.None? ==> r == Some([])
    ensures p.Object? && p.apps.Some? ==> r == p.apps
  {
    if p.Object? then Some(p.apps.GetOr([])) else None
  }

  /** Decoding getAppResponse into an App: only the "appId" member is read. */
  function DecodeApp(p: Payload): (r: Option<App>)
    ensures r.Some? <==> p.Object?
    ensures r.Some? ==> r.value.name == "" && r.value.id == p.appId.GetOr("")
  {
    if p.Object? then Some(App("", p.appId.GetOr(""))) else None
  }

  /** Decoding a Volume: "volume" and "muted", zero when missing. */
  function DecodeVolume(p: Payload): (r: Option<Volume>)
    ensures r.Some? <==> p.Object?
    ensures r.Some? ==> r.value.level == p.volume.GetOr(0) && r.value.muted == p.muted.GetOr(false)
  {
    if p.Object? then Some(Volume(p.volume.GetOr(0), p.muted.GetOr(false))) else None
  }

  /** Decoding registerResponse: the "client-key" member, empty when missing. */
  function DecodeClientKey(p: Payload): (r: Option<string>)
    ensures r.Some? <==> p.Object?
    ensures p.Object? && p.clientKey.None? ==> r == Some("")
    ensures p.Object? && p.clientKey.Some? ==> r == p.clientKey
  {
    if p.Object? then Some(p.clientKey.GetOr("")) else None
  }

  /** The three request types have three distinct wire names. */
  lemma RequestTypeNamesDistinct()
    ensures forall t: RequestType, u: RequestType :: t != u ==> t.Name() != u.Name()
  {
  }

  /** No two capabilities share a URI, so a request addresses exactly one. */
  lemma UrisDistinct()
    ensures forall c: Capability, d: Capability :: c != d ==> c.Uri() != d.Uri()
  {
  }
}
