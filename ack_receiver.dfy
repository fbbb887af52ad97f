/** The receiver side of the acknowledgment handshake (the incoming-request
    modal): `loading` and `acknowledged` flags around the acknowledge call. */
module AckReceiver {
  import opened Wrappers
  import opened Text
  import opened Dashboard
  import Wire

  class AcknowledgmentRequestModal {
    const host: DashboardPage
    var loading: bool
    var acknowledged: bool

    constructor (host: DashboardPage)
      ensures this.host == host && !loading && !acknowledged
    {
      this.host := host;
      loading, acknowledged := false, false;
    }

    /** The `requestId` prop: the slot's id, or null. */
    function RequestId(): Option<string>
      reads this, host
    {
      if host.incoming.Some? then host.incoming.value.id else None
    }

    /** The render guard: open, with a non-empty sender and message. */
    predicate Visible()
      reads this, host
    {
      host.incoming.Some?
      && host.incoming.value.from.Some? && Truthy(host.incoming.value.from.value)
      && host.incoming.value.message.Some? && Truthy(host.incoming.value.message.value)
    }

    /** Whether the Acknowledge button is shown. */
    predicate OffersAcknowledge()
      reads this, host
    {
      Visible() && !acknowledged
    }

    /** `handleAcknowledge`. With no (or an empty) request id nothing happens.
        Otherwise the call is made; on success `acknowledged` becomes true and
        the page's slot is cleared (onAcknowledge, then the scheduled onClose);
        on failure the flag and the slot stay as they were. `loading` ends
        false either way, and `acknowledged` is never reset. Returns the
        request id sent. */
    method Acknowledge(callOk: bool) returns (sent: Option<string>)
      modifies this, host
      ensures sent.Some? <==> old(RequestId()).Some? && Truthy(old(RequestId()).value)
      ensures sent.Some? ==> sent == old(RequestId())
      ensures sent.None? ==> loading == old(loading) && acknowledged == old(acknowledged) && host.incoming == old(host.incoming)
      ensures sent.Some? ==>
        !loading && acknowledged == (old(acknowledged) || callOk)
        && host.incoming == if callOk then None else old(host.incoming)
      ensures old(acknowledged) ==> acknowledged
      ensures sent.Some? && callOk ==> acknowledged && !OffersAcknowledge()
      ensures acknowledged ==> !OffersAcknowledge()
      ensures host.message == old(host.message) && host.targetUser == old(host.targetUser)
        && host.showAckModal == old(host.showAckModal)
    {
      var id := RequestId();
      if id.None? || !Truthy(id.value) {
        return None;
      }
      loading := true;
      sent := id;
      if callOk {
        acknowledged := true;
        host.incoming := None;   // onAcknowledge
        host.incoming := None;   // onClose, after the delay
      }
      loading := false;
    }
  }

  /** The page keeps one receiver modal mounted for every incoming request
      and never resets its flag: once it has acknowledged, a later frame,
      even a fresh acknowledgment request that renders, never brings the
      Acknowledge action back. */
  method ReceiveAfterAcknowledged(modal: AcknowledgmentRequestModal, frame: Frame)
    requires modal.acknowledged
    modifies modal.host, modal.host.store
    ensures modal.acknowledged && !modal.OffersAcknowledge()
    ensures IsKind(frame, Wire.AcknowledgmentRequestEvent)
      && "from_username" in frame.payload.value && frame.payload.value["from_username"] != ""
      && "message" in frame.payload.value && frame.payload.value["message"] != ""
      ==> modal.Visible()
  {
    modal.host.OnMessage(frame);
  }
}
