/** The server's fan-out engine: a registry of connected clients, each with
    a bounded event queue, and the tables of acknowledgment requests and of
    who acknowledged them. Each method runs under the service's mutex, so it
    is modelled as one atomic step. */
module Service {
  import opened Wrappers
  import opened Seqs
  import opened Wire

  /** Every client's queue holds at most this many undelivered events. */
  const QueueCapacity := 10

  /** The broadcast sentinel of a notify request. */
  const AllTarget := "all"

  datatype Payload =
    | NotificationPayload(id: string, from: string, message: string, timestamp: int)
    | UserPayload(username: string)
    | AckRequestPayload(id: string, fromUsername: string, toUsernames: seq<string>, message: string)
    | AckResponsePayload(requestId: string, fromUsername: string)

  /** One stream event; a queue holds events in their encoded form, which the
      model identifies with the event itself. */
  datatype SseEvent = SseEvent(kind: EventType, payload: Payload, timestamp: int)

  datatype AckRecord = AckRecord(
    id: string, fromUsername: string, toUsernames: seq<string>, message: string, createdAt: int)

  /** Who an event goes to: everyone connected for an empty target list,
      otherwise the connected targets, each once. */
  function Recipients(connected: set<string>, targets: seq<string>): set<string> {
    if |targets| == 0 then connected else set u | u in targets && u in connected
  }

  /** The queues after offering `ev` to `recipients`: a recipient whose queue
      has room gets it at the end, a full queue drops it. */
  function Delivered(clients: map<string, seq<SseEvent>>, recipients: set<string>, ev: SseEvent)
    : (r: map<string, seq<SseEvent>>)
    ensures r.Keys == clients.Keys
    ensures forall u :: u in clients ==> clients[u] <= r[u] && |r[u]| <= |clients[u]| + 1
    ensures forall u :: u in clients && u !in recipients ==> r[u] == clients[u]
    ensures forall u :: u in clients && |clients[u]| >= QueueCapacity ==> r[u] == clients[u]
    ensures forall u :: u in clients && u in recipients && |clients[u]| < QueueCapacity ==> r[u] == clients[u] + [ev]
    ensures forall u :: u in clients && |clients[u]| <= QueueCapacity ==> |r[u]| <= QueueCapacity
  {
    map u | u in clients :: if u in recipients && |clients[u]| < QueueCapacity then clients[u] + [ev] else clients[u]
  }

  /** The queues after broadcastEventLocked: unchanged when encoding failed. */
  function Broadcast(clients: map<string, seq<SseEvent>>, ev: SseEvent, targets: seq<string>, encoded: bool)
    : map<string, seq<SseEvent>>
  {
    if encoded then Delivered(clients, Recipients(clients.Keys, targets), ev) else clients
  }

  /** The target list of a notify request. */
  function NotifyTargets(target: string): seq<string> {
    if target == AllTarget then [] else [target]
  }

  /** "all" reaches every connected client; any other target reaches only
      that user, and only if connected. */
  lemma NotifyRecipients(connected: set<string>, target: string)
    ensures Recipients(connected, NotifyTargets(target)) ==
      if target == AllTarget then connected else connected * {target}
  {
  }

  /** A repeated target still makes one recipient, and so one copy. */
  lemma RepeatedTargetsCollapse(connected: set<string>, targets: seq<string>, t: string)
    requires |targets| > 0
    ensures Recipients(connected, targets + [t]) == Recipients(connected, targets) + (connected * {t})
  {
  }

  /** The recipient set, built as broadcastEventLocked builds its map. */
  method ComputeRecipients(connected: set<string>, targets: seq<string>) returns (recipients: set<string>)
    ensures recipients == Recipients(connected, targets)
    ensures recipients <= connected
  {
    recipients := {};
    if |targets| == 0 {
      var rest := connected;
      while rest != {}
        invariant rest <= connected
        invariant recipients == connected - rest
        decreases rest
      {
        var u :| u in rest;
        recipients := recipients + {u};
        rest := rest - {u};
      }
    } else {
      var i := 0;
      while i < |targets|
        invariant 0 <= i <= |targets|
        invariant recipients == set u | u in targets[..i] && u in connected
      {
        if targets[i] in connected {
          recipients := recipients + {targets[i]};
        }
        assert targets[..i + 1] == targets[..i] + [targets[i]];
        i := i + 1;
      }
      assert targets[..i] == targets;
    }
  }

  class NotificationService {
    var clients: map<string, seq<SseEvent>>
    var acknowledgmentReqs: map<string, AckRecord>
    var acknowledgmentAckd: map<string, seq<string>>

    /** Queues respect their capacity, and the two acknowledgment tables
        share their keys. */
    ghost predicate Valid()
      reads this
    {
      && (forall u :: u in clients ==> |clients[u]| <= QueueCapacity)
      && acknowledgmentReqs.Keys == acknowledgmentAckd.Keys
    }

    constructor ()
      ensures Valid()
      ensures clients == map[] && acknowledgmentReqs == map[] && acknowledgmentAckd == map[]
    {
      clients, acknowledgmentReqs, acknowledgmentAckd := map[], map[], map[];
    }

    /** Offers `ev` to every recipient's queue, in the order of the client map. */
    method DeliverTo(recipients: set<string>, ev: SseEvent)
      requires Valid()
      modifies this
      ensures Valid()
      ensures clients == Delivered(old(clients), recipients, ev)
      ensures acknowledgmentReqs == old(acknowledgmentReqs) && acknowledgmentAckd == old(acknowledgmentAckd)
    {
      ghost var before := clients;
      var pending := clients.Keys;
      while pending != {}
        invariant pending <= before.Keys && clients.Keys == before.Keys
        invariant forall u :: u in pending ==> clients[u] == before[u]
        invariant forall u :: u in before && u !in pending ==> clients[u] == Delivered(before, recipients, ev)[u]
        invariant acknowledgmentReqs == old(acknowledgmentReqs) && acknowledgmentAckd == old(acknowledgmentAckd)
        decreases pending
      {
        var u :| u in pending;
        if u in recipients && |clients[u]| < QueueCapacity {
          clients := clients[u := clients[u] + [ev]];
        }
        pending := pending - {u};
      }
      assert clients == Delivered(before, recipients, ev);
    }

    /** broadcastEventLocked: `encoded` is whether json.Marshal succeeded. */
    method BroadcastEventLocked(kind: EventType, payload: Payload, targets: seq<string>, now: int, encoded: bool)
      requires Valid()
      modifies this
      ensures Valid()
      ensures clients == Broadcast(old(clients), SseEvent(kind, payload, now), targets, encoded)
      ensures acknowledgmentReqs == old(acknowledgmentReqs) && acknowledgmentAckd == old(acknowledgmentAckd)
    {
      if !encoded {
        return;
      }
      var recipients := ComputeRecipients(clients.Keys, targets);
      DeliverTo(recipients, SseEvent(kind, payload, now));
    }

    /** Registers `username` with a fresh empty queue, replacing any previous
        one, then announces it to every client, itself included. */
    method AddClient(username: string, now: int, encoded: bool)
      requires Valid()
      modifies this
      ensures Valid()
      ensures clients == Broadcast(old(clients)[username := []],
        SseEvent(UserConnected, UserPayload(username), now), [], encoded)
      ensures acknowledgmentReqs == old(acknowledgmentReqs) && acknowledgmentAckd == old(acknowledgmentAckd)
    {
      clients := clients[username := []];
      BroadcastEventLocked(UserConnected, UserPayload(username), [], now, encoded);
    }

    /** Unregisters `username` and tells the remaining clients; a no-op,
        sending nothing, when it is not registered. */
    method RemoveClient(username: string, now: int, encoded: bool)
      requires Valid()
      modifies this
      ensures Valid()
      ensures username !in old(clients) ==> clients == old(clients)
      ensures username in old(clients) ==> clients == Broadcast(old(clients) - {username},
        SseEvent(UserDisconnected, UserPayload(username), now), [], encoded)
      ensures acknowledgmentReqs == old(acknowledgmentReqs) && acknowledgmentAckd == old(acknowledgmentAckd)
    {
      if username in clients {
        clients := clients - {username};
        BroadcastEventLocked(UserDisconnected, UserPayload(username), [], now, encoded);
      }
    }

    /** The event stream's receive on `username`'s queue: the oldest event
        leaves it. An empty or missing queue yields nothing (where the
        stream would wait). */
    method Take(username: string) returns (ev: Option<SseEvent>)
      requires Valid()
      modifies this
      ensures Valid()
      ensures username in old(clients) && |old(clients)[username]| > 0 ==>
        ev == Some(old(clients)[username][0]) && clients == old(clients)[username := old(clients)[username][1..]]
      ensures !(username in old(clients) && |old(clients)[username]| > 0) ==> ev == None && clients == old(clients)
      ensures acknowledgmentReqs == old(acknowledgmentReqs) && acknowledgmentAckd == old(acknowledgmentAckd)
    {
      if username !in clients || |clients[username]| == 0 {
        return None;
      }
      ev := Some(clients[username][0]);
      clients := clients[username := clients[username][1..]];
    }

    /** The registered usernames, each exactly once. */
    method GetConnectedUsers() returns (users: seq<string>)
      ensures forall u :: u in users <==> u in clients
      ensures NoDup(users) && |users| == |clients|
    {
      users := [];
      var rest := clients.Keys;
      while rest != {}
        invariant rest <= clients.Keys
        invariant forall u :: u in users <==> u in clients && u !in rest
        invariant NoDup(users) && |users| + |rest| == |clients.Keys|
        decreases rest
      {
        var u :| u in rest;
        users := users + [u];
        rest := rest - {u};
      }
      assert clients.Keys == set u | u in users;
    }

    /** Sends a notification with a fresh id to the request's target. */
    method BroadcastMessage(req: NotifyRequest, id: string, now: int, encoded: bool)
      requires Valid()
      modifies this
      ensures Valid()
      ensures clients == Broadcast(old(clients),
        SseEvent(NotificationEvent, NotificationPayload(id, req.fromUsername, req.message, now), now),
        NotifyTargets(req.targetUsername), encoded)
      ensures acknowledgmentReqs == old(acknowledgmentReqs) && acknowledgmentAckd == old(acknowledgmentAckd)
    {
      var notification := NotificationPayload(id, req.fromUsername, req.message, now);
      if req.targetUsername == AllTarget {
        BroadcastEventLocked(NotificationEvent, notification, [], now, encoded);
      } else {
        BroadcastEventLocked(NotificationEvent, notification, [req.targetUsername], now, encoded);
      }
    }

    /** Stores a request under the fresh id `id` with nobody acknowledged yet,
        sends it to `toUsernames` (to everyone when that list is empty) and
        returns the id. */
    method CreateAcknowledgmentRequest(fromUsername: string, toUsernames: seq<string>, message: string,
                                       id: string, now: int, encoded: bool)
      returns (requestId: string)
      requires Valid()
      modifies this
      ensures Valid() && requestId == id
      ensures acknowledgmentReqs == old(acknowledgmentReqs)[id := AckRecord(id, fromUsername, toUsernames, message, now)]
      ensures acknowledgmentAckd == old(acknowledgmentAckd)[id := []]
      ensures clients == Broadcast(old(clients),
        SseEvent(AcknowledgmentRequestEvent, AckRequestPayload(id, fromUsername, toUsernames, message), now),
        toUsernames, encoded)
    {
      requestId := id;
      acknowledgmentReqs := acknowledgmentReqs[id := AckRecord(id, fromUsername, toUsernames, message, now)];
      acknowledgmentAckd := acknowledgmentAckd[id := []];
      BroadcastEventLocked(AcknowledgmentRequestEvent,
        AckRequestPayload(id, fromUsername, toUsernames, message), toUsernames, now, encoded);
    }

    /** For a known request, appends `fromUsername` to its acknowledgers (no
        duplicate or target check) and tells only the requester; for an
        unknown id, changes nothing and sends nothing. */
    method RecordAcknowledgment(requestId: string, fromUsername: string, now: int, encoded: bool)
      requires Valid()
      modifies this
      ensures Valid()
      ensures acknowledgmentReqs == old(acknowledgmentReqs)
      ensures requestId !in old(acknowledgmentReqs) ==>
        clients == old(clients) && acknowledgmentAckd == old(acknowledgmentAckd)
      ensures requestId in old(acknowledgmentReqs) ==>
        && acknowledgmentAckd == old(acknowledgmentAckd)[requestId := old(acknowledgmentAckd)[requestId] + [fromUsername]]
        && clients == Broadcast(old(clients),
             SseEvent(AcknowledgmentResponseEvent, AckResponsePayload(requestId, fromUsername), now),
             [old(acknowledgmentReqs)[requestId].fromUsername], encoded)
    {
      if requestId in acknowledgmentReqs {
        var req := acknowledgmentReqs[requestId];
        acknowledgmentAckd := acknowledgmentAckd[requestId := acknowledgmentAckd[requestId] + [fromUsername]];
        BroadcastEventLocked(AcknowledgmentResponseEvent, AckResponsePayload(requestId, fromUsername),
          [req.fromUsername], now, encoded);
      }
    }
  }

  /** A newly added client's own queue starts with its own user_connected event. */
  lemma AddedClientHearsItself(clients: map<string, seq<SseEvent>>, username: string, now: int)
    ensures var ev := SseEvent(UserConnected, UserPayload(username), now);
      Broadcast(clients[username := []], ev, [], true)[username] == [ev]
  {
  }

  /** A removed client is not among those told it left. */
  lemma RemovedClientNotTold(clients: map<string, seq<SseEvent>>, username: string, ev: SseEvent, encoded: bool)
    ensures username !in Broadcast(clients - {username}, ev, [], encoded)
  {
  }

  /** Delivery never overflows a queue and never touches a non-recipient. */
  lemma BroadcastKeepsCapacity(clients: map<string, seq<SseEvent>>, ev: SseEvent, targets: seq<string>, encoded: bool)
    requires forall u :: u in clients ==> |clients[u]| <= QueueCapacity
    ensures var r := Broadcast(clients, ev, targets, encoded);
      && r.Keys == clients.Keys
      && (forall u :: u in r ==> |r[u]| <= QueueCapacity)
      && (forall u :: u in clients && u !in Recipients(clients.Keys, targets) ==> r[u] == clients[u])
  {
  }
}
