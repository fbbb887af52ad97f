/** The sender side of the acknowledgment handshake (the "Request
    Acknowledgment" modal): a duplicate-free recipient selection, local
    validation, and the record created once the server assigns an id. */
module AckSender {
  import opened Wrappers
  import opened Seqs
  import opened Text
  import opened Store
  import opened Dashboard
  import Wire

  /** What the acknowledge-request call gave back. */
  datatype AckRequestReply = CallFailed | Replied(requestId: Option<string>)

  /** A reply creates a record only when it carries a truthy request_id. */
  predicate Assigned(reply: AckRequestReply) {
    reply.Replied? && reply.requestId.Some? && Truthy(reply.requestId.value)
  }

  /** `username || 'Unknown'`: an unbound or empty identity reads as "Unknown". */
  function SenderName(username: Option<string>): (name: string)
    ensures name != ""
    ensures username.Some? && username.value != "" ==> name == username.value
  {
    if username.Some? && Truthy(username.value) then username.value else "Unknown"
  }

  /** The selection `handleRemoveUser(user)` leaves. */
  function Deselect(selected: seq<string>, user: string): (r: seq<string>)
    ensures user !in r
    ensures forall u :: u in r <==> u in selected && u != user
    ensures NoDup(selected) ==> NoDup(r)
  {
    var keep := (u: string) => u != user;
    if NoDup(selected) then
      FilterNoDup(selected, keep);
      Filter(selected, keep)
    else
      Filter(selected, keep)
  }

  /** Deselecting keeps the other selected users in their order. */
  lemma DeselectKeepsOrder(a: seq<string>, b: seq<string>, user: string)
    ensures Deselect(a + b, user) == Deselect(a, user) + Deselect(b, user)
  {
    FilterAppend(a, b, (u: string) => u != user);
  }

  class AcknowledgmentModal {
    const host: DashboardPage
    var selectedUsers: seq<string>
    var message: string
    var loading: bool
    var activeRequest: Option<string>

    /** The selection never holds an empty name or a name twice. */
    ghost predicate Valid()
      reads this
    {
      NoDup(selectedUsers) && forall u :: u in selectedUsers ==> u != ""
    }

    constructor (host: DashboardPage)
      ensures Valid() && this.host == host
      ensures selectedUsers == [] && message == "" && !loading && activeRequest == None
    {
      this.host := host;
      selectedUsers, message, loading, activeRequest := [], "", false, None;
    }

    /** `handleAddUser`: appends a non-empty, not yet selected user. */
    method AddUser(user: string)
      requires Valid()
      modifies this
      ensures Valid()
      ensures selectedUsers == if user != "" && user !in old(selectedUsers)
        then old(selectedUsers) + [user] else old(selectedUsers)
      ensures message == old(message) && loading == old(loading) && activeRequest == old(activeRequest)
    {
      if Truthy(user) && user !in selectedUsers {
        selectedUsers := selectedUsers + [user];
      }
    }

    /** `handleRemoveUser`. */
    method RemoveUser(user: string)
      requires Valid()
      modifies this
      ensures Valid()
      ensures selectedUsers == Deselect(old(selectedUsers), user)
      ensures message == old(message) && loading == old(loading) && activeRequest == old(activeRequest)
    {
      selectedUsers := Deselect(selectedUsers, user);
    }

    /** `handleSend`. Without a selected user or with a blank message it makes
        no call and changes nothing. Otherwise it sends the selection and the
        untrimmed message; a truthy request_id in the reply adds a record with
        no acknowledgers, makes it the active request and clears the message.
        `loading` is false once the call is over. Returns the request sent. */
    method Send(reply: AckRequestReply) returns (sent: Option<Wire.AcknowledgeRequestBody>)
      requires Valid()
      modifies this, host.store
      ensures Valid() && selectedUsers == old(selectedUsers)
      ensures sent.Some? <==> |old(selectedUsers)| > 0 && !Blank(old(message))
      ensures sent.None? ==>
        message == old(message) && loading == old(loading) && activeRequest == old(activeRequest)
        && host.store.State() == old(host.store.State())
      ensures sent.Some? ==> sent.value == Wire.AcknowledgeRequestBody(old(selectedUsers), old(message)) && !loading
      ensures sent.Some? && Assigned(reply) ==>
        var id := reply.requestId.value;
        && host.store.State() == old(host.store.State()).(acknowledgmentRequests :=
             old(host.store.acknowledgmentRequests)
             + [AcknowledgmentRequest(id, SenderName(old(host.store.username)), old(selectedUsers), old(message), [])])
        && activeRequest == Some(id) && message == ""
      ensures sent.Some? && !Assigned(reply) ==>
        host.store.State() == old(host.store.State()) && activeRequest == old(activeRequest) && message == old(message)
    {
      if |selectedUsers| == 0 || Blank(message) {
        return None;
      }
      loading := true;
      sent := Some(Wire.AcknowledgeRequestBody(selectedUsers, message));
      if Assigned(reply) {
        var id := reply.requestId.value;
        host.store.AddAcknowledgmentRequest(
          AcknowledgmentRequest(id, SenderName(host.store.username), selectedUsers, message, []));
        activeRequest := Some(id);
        message := "";
      }
      loading := false;
    }

    /** The Close button and the modal's own close: the page hides the modal,
        and the selection, the draft and the active request are reset. */
    method Close()
      modifies this, host
      ensures Valid()
      ensures selectedUsers == [] && message == "" && activeRequest == None && loading == old(loading)
      ensures !host.showAckModal && host.incoming == old(host.incoming)
      ensures host.message == old(host.message) && host.targetUser == old(host.targetUser)
    {
      host.showAckModal := false;
      selectedUsers, message, activeRequest := [], "", None;
    }
  }
}
