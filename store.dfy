/** The client's single shared state container (`useAppStore`): the bound
    username, the roster, the notification feed, the sender-side
    acknowledgment records and two UI flags. Every action computes its new
    slice with a pure expression and writes that slice, and no other. */
module Store {
  import opened Wrappers
  import opened Seqs

  datatype User = User(username: string)

  /** Every field is optional, as in the TypeScript interface. */
  datatype Notification = Notification(
    id: Option<string>, from: Option<string>, message: Option<string>, timestamp: Option<string>)

  datatype AcknowledgmentRequest = AcknowledgmentRequest(
    id: string, fromUsername: string, toUsernames: seq<string>, message: string,
    acknowledgedBy: seq<string>)

  /** The whole store at one instant. */
  datatype Snapshot = Snapshot(
    username: Option<string>,
    users: seq<User>,
    notifications: seq<Notification>,
    acknowledgmentRequests: seq<AcknowledgmentRequest>,
    showAckModal: bool,
    pendingAckRequest: Option<AcknowledgmentRequest>)

  /** The roster `removeUser(name)` leaves: every entry named `name` goes,
      every other entry stays with all its copies. */
  function WithoutUser(users: seq<User>, name: string): (r: seq<User>)
    ensures forall u :: u in r <==> u in users && u.username != name
    ensures forall u: User :: u.username != name ==> multiset(r)[u] == multiset(users)[u]
    ensures (forall u :: u in users ==> u.username != name) ==> r == users
  {
    var keep := (u: User) => u.username != name;
    FilterCount(users, keep);
    if forall u :: u in users ==> u.username != name then
      FilterKeepsAll(users, keep);
      Filter(users, keep)
    else
      Filter(users, keep)
  }

  /** Removing a name from a roster built in two parts removes it from each
      part and keeps the parts in order. */
  lemma WithoutUserKeepsOrder(a: seq<User>, b: seq<User>, name: string)
    ensures WithoutUser(a + b, name) == WithoutUser(a, name) + WithoutUser(b, name)
  {
    FilterAppend(a, b, (u: User) => u.username != name);
  }

  /** The record the `map` callback of `updateAcknowledgmentResponse` yields. */
  function AcknowledgedBy(req: AcknowledgmentRequest, requestId: string, name: string): AcknowledgmentRequest {
    if req.id == requestId then req.(acknowledgedBy := req.acknowledgedBy + [name]) else req
  }

  /** The list `updateAcknowledgmentResponse(requestId, name)` leaves. */
  function WithAcknowledgment(reqs: seq<AcknowledgmentRequest>, requestId: string, name: string)
    : (r: seq<AcknowledgmentRequest>)
    ensures |r| == |reqs|
    ensures forall i :: 0 <= i < |reqs| ==>
      && r[i].id == reqs[i].id && r[i].fromUsername == reqs[i].fromUsername
      && r[i].toUsernames == reqs[i].toUsernames && r[i].message == reqs[i].message
    ensures forall i :: 0 <= i < |reqs| ==>
      r[i].acknowledgedBy == if reqs[i].id == requestId then reqs[i].acknowledgedBy + [name] else reqs[i].acknowledgedBy
  {
    if reqs == [] then []
    else [AcknowledgedBy(reqs[0], requestId, name)] + WithAcknowledgment(reqs[1..], requestId, name)
  }

  /** A response for an id no record carries changes nothing. */
  lemma WithAcknowledgmentUnknownId(reqs: seq<AcknowledgmentRequest>, requestId: string, name: string)
    requires forall i :: 0 <= i < |reqs| ==> reqs[i].id != requestId
    ensures WithAcknowledgment(reqs, requestId, name) == reqs
  {
  }

  /** No duplicate check: the same response delivered twice lists its sender
      twice on every matching record. */
  lemma RepeatedAcknowledgmentDuplicates(reqs: seq<AcknowledgmentRequest>, requestId: string, name: string, i: int)
    requires 0 <= i < |reqs| && reqs[i].id == requestId
    ensures var twice := WithAcknowledgment(WithAcknowledgment(reqs, requestId, name), requestId, name);
      twice[i].acknowledgedBy == reqs[i].acknowledgedBy + [name, name]
      && multiset(twice[i].acknowledgedBy)[name] == multiset(reqs[i].acknowledgedBy)[name] + 2
  {
    var once := WithAcknowledgment(reqs, requestId, name);
    assert once[i].acknowledgedBy == reqs[i].acknowledgedBy + [name];
    assert reqs[i].acknowledgedBy + [name] + [name] == reqs[i].acknowledgedBy + [name, name];
  }

  /** No target check: a name that was never asked is still recorded, so
      `acknowledgedBy` need not be a subset of `toUsernames`. */
  lemma AcknowledgmentFromNonTarget()
    ensures var r := WithAcknowledgment([AcknowledgmentRequest("r1", "alice", ["bob"], "ready?", [])], "r1", "mallory");
      r[0].acknowledgedBy == ["mallory"] && "mallory" !in r[0].toUsernames
  {
  }

  /** The list `removeAcknowledgmentRequest(requestId)` leaves. */
  function WithoutRequest(reqs: seq<AcknowledgmentRequest>, requestId: string): (r: seq<AcknowledgmentRequest>)
    ensures forall q :: q in r <==> q in reqs && q.id != requestId
    ensures forall q: AcknowledgmentRequest :: q.id != requestId ==> multiset(r)[q] == multiset(reqs)[q]
  {
    var keep := (q: AcknowledgmentRequest) => q.id != requestId;
    FilterCount(reqs, keep);
    Filter(reqs, keep)
  }

  /** Removing records keeps the survivors in their original order. */
  lemma WithoutRequestKeepsOrder(a: seq<AcknowledgmentRequest>, b: seq<AcknowledgmentRequest>, requestId: string)
    ensures WithoutRequest(a + b, requestId) == WithoutRequest(a, requestId) + WithoutRequest(b, requestId)
  {
    FilterAppend(a, b, (q: AcknowledgmentRequest) => q.id != requestId);
  }

  /** The store object; each method is one action and rewrites only its slice. */
  class AppStore {
    var username: Option<string>
    var users: seq<User>
    var notifications: seq<Notification>
    var acknowledgmentRequests: seq<AcknowledgmentRequest>
    var showAckModal: bool
    var pendingAckRequest: Option<AcknowledgmentRequest>

    function State(): Snapshot
      reads this
    {
      Snapshot(username, users, notifications, acknowledgmentRequests, showAckModal, pendingAckRequest)
    }

    constructor ()
      ensures State() == Snapshot(None, [], [], [], false, None)
    {
      username, users, notifications, acknowledgmentRequests := None, [], [], [];
      showAckModal, pendingAckRequest := false, None;
    }

    method SetUsername(name: string)
      modifies this
      ensures State() == old(State()).(username := Some(name))
    {
      username := Some(name);
    }

    /** Unbinds the identity and wipes roster, feed and records; the two UI
        flags survive. */
    method Logout()
      modifies this
      ensures State() == old(State()).(username := None, users := [], notifications := [], acknowledgmentRequests := [])
      ensures showAckModal == old(showAckModal) && pendingAckRequest == old(pendingAckRequest)
    {
      username, users, notifications, acknowledgmentRequests := None, [], [], [];
    }

    method SetUsers(list: seq<User>)
      modifies this
      ensures State() == old(State()).(users := list)
    {
      users := list;
    }

    /** Appends unconditionally: the roster grows by one even when `name` is
        already present. */
    method AddUser(name: string)
      modifies this
      ensures State() == old(State()).(users := old(users) + [User(name)])
      ensures |users| == |old(users)| + 1
      ensures multiset(users)[User(name)] == multiset(old(users))[User(name)] + 1
    {
      users := users + [User(name)];
    }

    method RemoveUser(name: string)
      modifies this
      ensures State() == old(State()).(users := WithoutUser(old(users), name))
      ensures forall u :: u in users ==> u.username != name
    {
      users := WithoutUser(users, name);
    }

    /** Prepends: the newest notification comes first; no dedup by id. */
    method AddNotification(n: Notification)
      modifies this
      ensures State() == old(State()).(notifications := [n] + old(notifications))
    {
      notifications := [n] + notifications;
    }

    method ClearNotifications()
      modifies this
      ensures State() == old(State()).(notifications := [])
    {
      notifications := [];
    }

    method AddAcknowledgmentRequest(req: AcknowledgmentRequest)
      modifies this
      ensures State() == old(State()).(acknowledgmentRequests := old(acknowledgmentRequests) + [req])
    {
      acknowledgmentRequests := acknowledgmentRequests + [req];
    }

    method UpdateAcknowledgmentResponse(requestId: string, name: string)
      modifies this
      ensures State() == old(State()).(acknowledgmentRequests := WithAcknowledgment(old(acknowledgmentRequests), requestId, name))
      ensures |acknowledgmentRequests| == |old(acknowledgmentRequests)|
    {
      acknowledgmentRequests := WithAcknowledgment(acknowledgmentRequests, requestId, name);
    }

    method RemoveAcknowledgmentRequest(requestId: string)
      modifies this
      ensures State() == old(State()).(acknowledgmentRequests := WithoutRequest(old(acknowledgmentRequests), requestId))
      ensures forall q :: q in acknowledgmentRequests ==> q.id != requestId
    {
      acknowledgmentRequests := WithoutRequest(acknowledgmentRequests, requestId);
    }

    method SetShowAckModal(show: bool)
      modifies this
      ensures State() == old(State()).(showAckModal := show)
    {
      showAckModal := show;
    }

    method SetPendingAckRequest(req: Option<AcknowledgmentRequest>)
      modifies this
      ensures State() == old(State()).(pendingAckRequest := req)
    {
      pendingAckRequest := req;
    }
  }
}
