/** The dashboard page: the push-stream event router, the single slot for an
    incoming acknowledgment request, and the send and logout handlers. */
module Dashboard {
  import opened Wrappers
  import opened Text
  import opened Store
  import Wire

  /** One push-stream frame after `JSON.parse`. A payload field that is
      missing reads as `undefined`; only string-valued fields are modelled. */
  datatype Frame =
    | Unparsable                     // JSON.parse threw, or produced null
    | Envelope(kind: Option<string>, payload: Option<map<string, string>>)

  /** The `incomingAckRequest` slot's value; fields may be `undefined`. */
  datatype IncomingAck = IncomingAck(id: Option<string>, from: Option<string>, message: Option<string>)

  /** The one change a frame causes. */
  datatype Action =
    | AddNotification(n: Notification)
    | AddUser(name: string)
    | RemoveUser(name: string)
    | ShowIncoming(req: IncomingAck)
    | RecordResponse(requestId: string, from: string)
    | Ignore

  function Field(p: map<string, string>, key: string): Option<string> {
    if key in p then Some(p[key]) else None
  }

  /** Is `frame` of kind `t` with a payload object? */
  predicate IsKind(frame: Frame, t: Wire.EventType) {
    frame.Envelope? && frame.kind == Some(Wire.TypeName(t)) && frame.payload.Some?
  }

  /** The routing decision of `onmessage`. Reading a field of a null payload
      throws inside the `try`, so such a frame is dropped like an unparsable one. */
  function Route(frame: Frame, self: Option<string>): (a: Action)
    ensures a != Ignore ==>
      frame.Envelope? && frame.payload.Some? && frame.kind.Some? && Wire.ParseType(frame.kind.value).Some?
    ensures a.AddUser? ==> a.name != "" && self != Some(a.name)
    ensures IsKind(frame, Wire.NotificationEvent) ==>
      var p := frame.payload.value;
      a == AddNotification(Notification(Field(p, "id"), Field(p, "from"), Field(p, "message"), Field(p, "timestamp")))
    ensures IsKind(frame, Wire.UserDisconnected) ==>
      var p := frame.payload.value;
      a == if "username" in p then RemoveUser(p["username"]) else Ignore
    ensures IsKind(frame, Wire.AcknowledgmentRequestEvent) ==>
      var p := frame.payload.value;
      a == ShowIncoming(IncomingAck(Field(p, "id"), Field(p, "from_username"), Field(p, "message")))
    ensures IsKind(frame, Wire.AcknowledgmentResponseEvent) ==>
      var p := frame.payload.value;
      a == if "request_id" in p && "from_username" in p then RecordResponse(p["request_id"], p["from_username"]) else Ignore
  {
    if frame.Unparsable? || frame.kind.None? || frame.payload.None? then Ignore
    else
      var p := frame.payload.value;
      match Wire.ParseType(frame.kind.value)
      case None => Ignore
      case Some(NotificationEvent) =>
        AddNotification(Notification(Field(p, "id"), Field(p, "from"), Field(p, "message"), Field(p, "timestamp")))
      case Some(UserConnected) =>
        var name := Field(p, "username");
        if name.Some? && Truthy(name.value) && self != name then AddUser(name.value) else Ignore
      case Some(UserDisconnected) =>
        // removeUser(undefined) matches no roster entry
        if "username" in p then RemoveUser(p["username"]) else Ignore
      case Some(AcknowledgmentRequestEvent) =>
        ShowIncoming(IncomingAck(Field(p, "id"), Field(p, "from_username"), Field(p, "message")))
      case Some(AcknowledgmentResponseEvent) =>
        // an undefined request_id matches no record
        if "request_id" in p && "from_username" in p then RecordResponse(p["request_id"], p["from_username"]) else Ignore
  }

  /** A user_connected frame for the local identity, or with an empty or
      missing name, leaves the roster alone; any other name is added. */
  lemma RouteUserConnected(p: map<string, string>, self: Option<string>)
    ensures var a := Route(Envelope(Some("user_connected"), Some(p)), self);
      a == if "username" in p && p["username"] != "" && self != Some(p["username"]) then AddUser(p["username"]) else Ignore
  {
  }

  /** Frames that are unparsable, untyped, of an unknown type, or without a
      payload route to Ignore: nothing in the store or the slot changes. */
  lemma RouteUnknownIgnored(frame: Frame, self: Option<string>)
    requires frame.Unparsable? || frame.kind.None? || frame.payload.None?
      || forall t :: frame.kind != Some(Wire.TypeName(t))
    ensures Route(frame, self) == Ignore
  {
  }

  /** The reply of GET /users: a failed call, or a body whose `users` may be absent. */
  datatype UsersReply = FetchFailed | UsersBody(users: Option<seq<string>>)

  function ToUsers(names: seq<string>): (r: seq<User>)
    ensures |r| == |names| && forall i :: 0 <= i < |names| ==> r[i] == User(names[i])
  {
    if names == [] then [] else [User(names[0])] + ToUsers(names[1..])
  }

  /** The page's local state, over the shared store. */
  class DashboardPage {
    const store: AppStore
    var targetUser: string
    var message: string
    var showAckModal: bool
    var incoming: Option<IncomingAck>

    constructor (store: AppStore)
      ensures this.store == store
      ensures targetUser == "all" && message == "" && !showAckModal && incoming == None
    {
      this.store := store;
      targetUser, message, showAckModal, incoming := "all", "", false, None;
    }

    /** The page state apart from the incoming slot. */
    function Locals(): (string, string, bool)
      reads this
    {
      (targetUser, message, showAckModal)
    }

    /** `onmessage`: one frame, at most one store action or one slot update. */
    method OnMessage(frame: Frame)
      modifies this, store
      ensures Locals() == old(Locals())
      ensures var a := Route(frame, old(store.username));
        match a
        case Ignore =>
          store.State() == old(store.State()) && incoming == old(incoming)
        case AddNotification(n) =>
          store.State() == old(store.State()).(notifications := [n] + old(store.notifications))
          && incoming == old(incoming)
        case AddUser(name) =>
          store.State() == old(store.State()).(users := old(store.users) + [User(name)])
          && incoming == old(incoming)
        case RemoveUser(name) =>
          store.State() == old(store.State()).(users := WithoutUser(old(store.users), name))
          && incoming == old(incoming)
        case ShowIncoming(req) =>
          store.State() == old(store.State()) && incoming == Some(req)
        case RecordResponse(id, from) =>
          store.State() == old(store.State()).(acknowledgmentRequests :=
            WithAcknowledgment(old(store.acknowledgmentRequests), id, from))
          && incoming == old(incoming)
    {
      var a := Route(frame, store.username);
      match a
      case Ignore =>
      case AddNotification(n) => store.AddNotification(n);
      case AddUser(name) => store.AddUser(name);
      case RemoveUser(name) => store.RemoveUser(name);
      case ShowIncoming(req) => incoming := Some(req);
      case RecordResponse(id, from) => store.UpdateAcknowledgmentResponse(id, from);
    }

    /** The initial roster fetch: a body with a `users` array (even an empty
        one) replaces the roster; a failure or a missing array changes nothing. */
    method FetchUsers(reply: UsersReply)
      modifies store
      ensures reply.UsersBody? && reply.users.Some? ==>
        store.State() == old(store.State()).(users := ToUsers(reply.users.value))
      ensures !(reply.UsersBody? && reply.users.Some?) ==> store.State() == old(store.State())
    {
      if reply.UsersBody? && reply.users.Some? {
        store.SetUsers(ToUsers(reply.users.value));
      }
    }

    /** `handleSend`: no call for a blank message or an unbound (or empty)
        identity; the draft is cleared only when the notify call succeeds.
        Returns the request it sent, if any. */
    method HandleSend(notifyOk: bool) returns (sent: Option<Wire.NotifyRequest>)
      modifies this
      ensures sent.Some? <==> !Blank(old(message)) && store.username.Some? && Truthy(store.username.value)
      ensures sent.Some? ==> sent.value == Wire.NotifyRequest(store.username.value, old(message), old(targetUser))
      ensures message == if sent.Some? && notifyOk then "" else old(message)
      ensures targetUser == old(targetUser) && showAckModal == old(showAckModal) && incoming == old(incoming)
    {
      if Blank(message) || store.username.None? || store.username.value == "" {
        return None;
      }
      sent := Some(Wire.NotifyRequest(store.username.value, message, targetUser));
      if notifyOk {
        message := "";
      }
    }

    /** `handleLogout`: the store is logged out whatever the logout call did. */
    method HandleLogout(logoutOk: bool)
      modifies store
      ensures store.State() == old(store.State()).(username := None, users := [], notifications := [], acknowledgmentRequests := [])
    {
      store.Logout();
    }

    /** The "Wait For..." button. */
    method OpenAckModal()
      modifies this
      ensures showAckModal && targetUser == old(targetUser) && message == old(message) && incoming == old(incoming)
    {
      showAckModal := true;
    }
  }
}
