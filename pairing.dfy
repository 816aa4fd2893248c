/**
 * lgtv/register.go: the registration request and the choice of the pairing
 * key from at most two responses on the same request ID.
 */
module Pairing {
  import opened Wrappers
  import opened Api
  import opened Messages
  import opened Correlation

  /** The fixed permission manifest sent with every registration. */
  const Permissions: seq<string> := [
    "CONTROL_AUDIO",
    "CONTROL_INPUT_MEDIA_PLAYBACK",
    "CONTROL_INPUT_TEXT",
    "CONTROL_INPUT_TV",
    "CONTROL_MOUSE_AND_KEYBOARD",
    "CONTROL_POWER",
    "LAUNCH",
    "READ_CURRENT_CHANNEL",
    "READ_INPUT_DEVICE_LIST",
    "READ_INSTALLED_APPS",
    "READ_LGE_SDX",
    "READ_LGE_TV_INPUT_EVENTS",
    "READ_NOTIFICATIONS",
    "READ_RUNNING_APPS",
    "READ_TV_CHANNEL_LIST",
    "READ_TV_CURRENT_TIME",
    "READ_UPDATE_INFO",
    "SEARCH",
    "TEST_SECURE",
    "UPDATE_FROM_REMOTE_APP",
    "WRITE_NOTIFICATION_TOAST",
    "WRITE_SETTINGS"
  ]

  /** The registration request: prompt pairing, the manifest, and the caller's key. */
  function RegisterRequest(id: int, key: string): (req: Request)
    ensures req.id == id && req.kind == RegisterKind
    ensures Members(req) == ["id", "type", "payload"]
    ensures req.payload.Pairing? && req.payload.pairingType == "PROMPT"
    ensures req.payload.clientKey == key
    ensures req.payload.permissions == Permissions && |req.payload.permissions| == 22
  {
    Request(id, RegisterKind, "", Pairing("PROMPT", Permissions, key))
  }

  /**
   * The key Register returns and its error, given what the first and, when
   * the TV prompts, the second receive on the registration's ID yielded.
   */
  function RegisterOutcome(key: string, first: Received, second: Received): (r: (string, Option<Error>))
    // a failed registration never loses the key the caller had
    ensures r.1.Some? ==> r.0 == key
    // a key the TV already accepts is kept and no second message is awaited
    ensures first.Got? && first.rsp.kind == RegisteredType ==> r == (key, None)
    // a new key can only come from the second message's client-key, after a
    // first message that prompted rather than accepting the key
    ensures r.0 != key ==> Outcome(first).Success? && first.rsp.kind != RegisteredType
    ensures r.0 != key ==> second.Got? && DecodeClientKey(second.rsp.payload) == Some(r.0)
  {
    match Outcome(first)
    case Failure(e) => (key, Some(e))
    case Success(rsp) =>
      if rsp.kind == RegisteredType then (key, None)
      else
        match Outcome(second)
        case Failure(e) => (key, Some(e))
        case Success(rsp') =>
          match DecodeClientKey(rsp'.payload)
          case None => (key, Some(DecodeFailure))
          case Some(newKey) => (newKey, None)
  }

  /** A first receive that fails, by deadline or by an "error" response, returns the original key and that error. */
  lemma FirstFails(key: string, first: Received, second: Received)
    requires first.Deadline? || (first.Got? && first.rsp.kind == ErrorType)
    ensures RegisterOutcome(key, first, second) == (key, Some(Outcome(first).error))
    ensures first.Deadline? ==> RegisterOutcome(key, first, second).1 == Some(DeadlineExceeded)
  {
  }

  /** After a prompt, a failed second receive returns the original key and its error. */
  lemma SecondFails(key: string, rsp: Response, second: Received)
    requires rsp.kind != ErrorType && rsp.kind != RegisteredType
    requires Outcome(second).Failure?
    ensures RegisterOutcome(key, Got(rsp), second) == (key, Some(Outcome(second).error))
  {
  }

  /** After a prompt, a second payload that does not decode returns the original key and a decode error. */
  lemma SecondUndecodable(key: string, rsp: Response, rsp': Response)
    requires rsp.kind != ErrorType && rsp.kind != RegisteredType
    requires rsp'.kind != ErrorType && !rsp'.payload.Object?
    ensures RegisterOutcome(key, Got(rsp), Got(rsp')) == (key, Some(DecodeFailure))
  {
  }

  /** After an approved prompt the returned key is the second payload's client-key. */
  lemma PromptApproved(key: string, rsp: Response, rsp': Response)
    requires rsp.kind != ErrorType && rsp.kind != RegisteredType
    requires rsp'.kind != ErrorType && rsp'.payload.Object?
    ensures RegisterOutcome(key, Got(rsp), Got(rsp')) == (rsp'.payload.clientKey.GetOr(""), None)
  {
  }
}
