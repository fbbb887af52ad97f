/** What travels between the browser client and the Go server: the event kinds
    of the push stream and the request bodies of the REST calls. */
module Wire {
  import opened Wrappers

  /** The kinds of push-stream event. */
  datatype EventType =
    | NotificationEvent
    | UserConnected
    | UserDisconnected
    | AcknowledgmentRequestEvent
    | AcknowledgmentResponseEvent

  /** The `type` string each kind carries on the wire. */
  function TypeName(t: EventType): (name: string)
    ensures name != ""
  {
    match t
    case NotificationEvent => "notification"
    case UserConnected => "user_connected"
    case UserDisconnected => "user_disconnected"
    case AcknowledgmentRequestEvent => "acknowledgment_request"
    case AcknowledgmentResponseEvent => "acknowledgment_response"
  }

  /** The kind a `type` string names, if any: the client's string comparisons. */
  function ParseType(name: string): (t: Option<EventType>)
    ensures t.Some? ==> TypeName(t.value) == name
  {
    if name == "notification" then Some(NotificationEvent)
    else if name == "user_connected" then Some(UserConnected)
    else if name == "user_disconnected" then Some(UserDisconnected)
    else if name == "acknowledgment_request" then Some(AcknowledgmentRequestEvent)
    else if name == "acknowledgment_response" then Some(AcknowledgmentResponseEvent)
    else None
  }

  /** Every kind the server sends is recognised as itself by the client, so
      distinct kinds carry distinct names. */
  lemma ParseTypeName(t: EventType)
    ensures ParseType(TypeName(t)) == Some(t)
  {
  }

  /** Body of POST /login. */
  datatype LoginRequest = LoginRequest(username: string)

  /** Body of POST /notify; `targetUsername` is a user name or the sentinel "all". */
  datatype NotifyRequest = NotifyRequest(fromUsername: string, message: string, targetUsername: string)

  /** Body of POST /acknowledge/request. */
  datatype AcknowledgeRequestBody = AcknowledgeRequestBody(toUsernames: seq<string>, message: string)

  /** Body of POST /acknowledge/response. */
  datatype AcknowledgeResponseBody = AcknowledgeResponseBody(requestId: string)
}
