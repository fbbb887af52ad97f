# poc-sse in Dafny

A model of the state-synchronisation core of poc-sse. The system is a small
notification app: a browser client and a Go server talk over one
Server-Sent-Events stream and a handful of REST calls.

On the server side:

- **Notification service** (`Service`). A registry of connected users, each
  with an event queue bounded at 10 entries. It computes recipient sets,
  delivers with drop-on-full, and keeps tables of acknowledgment requests
  and of who acknowledged them.
- **Session store** (`Auth`). Session ids are the lower-case hex encoding of
  32 random bytes. Sessions expire lazily: a lookup after the expiry
  instant deletes the session.
- **REST handlers** (`Handler`). Guard chains that either reject a request
  or make one call into the service or the session store. This module also
  holds the `Set-Cookie` format.

On the client side:

- **Shared store** (`Store`). The `useAppStore` object: the bound username,
  the roster, the notification feed, the sender-side acknowledgment records
  and two UI flags. Each action rewrites only its own slice.
- **Dashboard page** (`Dashboard`). The `onmessage` router from a decoded
  frame to one store action or one update of the incoming-request slot,
  plus the send, logout and roster-fetch handlers.
- **Acknowledgment modals** (`AckSender`, `AckReceiver`). The sender's
  duplicate-free recipient selection and the record it creates. The
  receiver's `loading`/`acknowledged` state machine.
- **Login form** (`Login`). Validation, then binding the identity.

Shared modules:

- `Wire`: event kinds and request bodies.
- `Text`: JavaScript's `trim` as the client uses it.
- `Seqs`: `Array.prototype.filter`.
- `Wrappers`: `Option` and `Result`.

Objects whose fields the source updates in place are classes: the store,
the page and modal components, the notification service, the session store
and the handler. Each method states its whole new state. Where that state
is computed by a pure expression in the source (filter, map, recipient
set, delivery), the expression is a function, and lemmas state what it
means.

Nondeterminism and I/O are parameters:

- fresh UUIDs (`id`), the clock (`now`) and `crypto/rand` (`Entropy`);
- whether `json.Marshal` succeeded (`encoded`);
- the outcome of each client REST call (`loginOk`, `notifyOk`, the reply
  datatypes).

Each service method runs under the service's mutex, so it is modelled as
one atomic step. Each client handler is modelled as one step with the
call's outcome given.

### Behaviour of the code that its own text suggests was not intended

The model states what the code does in each of these cases.

- Repeated connects. `addUser` appends unconditionally (`ui/src/store.ts:61-63`), and the router checks only emptiness and self (`ui/src/routes/Dashboard.tsx:86`). A repeated `user_connected` therefore lists a user twice, although the roster is rendered keyed by username (`ui/src/routes/Dashboard.tsx:195`). `Store.AppStore.AddUser` states the growth by one.
- Acknowledgment dedup and target check. `updateAcknowledgmentResponse` (`ui/src/store.ts:80-86`) and `RecordAcknowledgment` (`service/service.go:133-135`) do neither. `Store.RepeatedAcknowledgmentDuplicates` and `Store.AcknowledgmentFromNonTarget` show that `acknowledgedBy` can hold duplicates and names outside `toUsernames`.
- Self in the roster. The router keeps the local identity out of the roster (`ui/src/routes/Dashboard.tsx:86`), and the empty roster reads "No other users connected" (`ui/src/routes/Dashboard.tsx:192`). But `setUsers` copies the server's list verbatim. So the local identity can appear in the roster: this happens when the page's stream connection (`ui/src/routes/Dashboard.tsx:59`) has registered the client (`service/service.go:39-40`) before the roster fetch (`ui/src/routes/Dashboard.tsx:41-53`) is answered.
- The newcomer hears itself. `AddClient` says it announces the newcomer "to all other users" (`service/service.go:43`), but it registers the client first and broadcasts to everyone, so the newcomer receives its own `user_connected` (`Service.AddedClientHearsItself`). The client router then drops that event.
- Empty target list. At the service level `CreateAcknowledgmentRequest` with an empty `toUsernames` reaches every client. Only the handler's guard (`handler/handler.go:206`) prevents it.
- The "all" sentinel. A user literally named "all" can never be targeted alone by a notification (`Service.NotifyRecipients`).
- The `acknowledged` flag. It is never reset, and the receiver modal stays mounted (`ui/src/routes/Dashboard.tsx:260`), so a later incoming request renders as already acknowledged (`AckReceiver.ReceiveAfterAcknowledged`).

## Model

| member | source | states |
|---|---|---|
| Store.WithoutUser | ui/src/store.ts:64-66 | removeUser keeps exactly the entries not named `name`, each with all its copies; the roster is unchanged when `name` is absent |
| Store.WithoutUserKeepsOrder | ui/src/store.ts:64-66 | removal distributes over concatenation, so survivors keep their relative order |
| Store.WithAcknowledgment | ui/src/store.ts:80-86 | same length and order; id, sender, targets and message of every record unchanged; `name` appended to `acknowledgedBy` of exactly the records with the given id |
| Store.WithAcknowledgmentUnknownId | ui/src/store.ts:80-86 | a response for an id no record carries leaves the list unchanged |
| Store.RepeatedAcknowledgmentDuplicates | ui/src/store.ts:83 | the same response applied twice lists its sender twice (no dedup) |
| Store.AcknowledgmentFromNonTarget | ui/src/store.ts:80-86 | a name outside `toUsernames` is still recorded: `acknowledgedBy` need not be a subset of the targets |
| Store.WithoutRequest | ui/src/store.ts:87-89 | removeAcknowledgmentRequest keeps exactly the records with another id, with all their copies |
| Store.WithoutRequestKeepsOrder | ui/src/store.ts:87-89 | the surviving records keep their relative order |
| Store.AppStore.constructor | ui/src/store.ts:52-95 | initial store: no username, empty roster, feed and records, modal hidden, nothing pending |
| Store.AppStore.SetUsername | ui/src/store.ts:55 | binds the username and changes no other field |
| Store.AppStore.Logout | ui/src/store.ts:56 | username null; roster, feed and records emptied; showAckModal and pendingAckRequest untouched |
| Store.AppStore.SetUsers | ui/src/store.ts:60 | replaces the roster only |
| Store.AppStore.AddUser | ui/src/store.ts:61-63 | appends `{username}` at the end; length grows by exactly one even when the name is present; nothing else changes |
| Store.AppStore.RemoveUser | ui/src/store.ts:64-66 | roster becomes `WithoutUser(old, name)`; no entry named `name` remains; nothing else changes |
| Store.AppStore.AddNotification | ui/src/store.ts:70-72 | prepends the notification (newest first, no dedup); nothing else changes |
| Store.AppStore.ClearNotifications | ui/src/store.ts:73 | empties the feed only |
| Store.AppStore.AddAcknowledgmentRequest | ui/src/store.ts:77-79 | appends the record unchanged at the end; nothing else changes |
| Store.AppStore.UpdateAcknowledgmentResponse | ui/src/store.ts:80-86 | records become `WithAcknowledgment(old, id, name)`; length preserved; nothing else changes |
| Store.AppStore.RemoveAcknowledgmentRequest | ui/src/store.ts:87-89 | records become `WithoutRequest(old, id)`; no record with that id remains; nothing else changes |
| Store.AppStore.SetShowAckModal | ui/src/store.ts:93 | sets that flag only |
| Store.AppStore.SetPendingAckRequest | ui/src/store.ts:95 | sets that slot only |
| Wire.TypeName | types/types.go:8-14 | every event kind has a non-empty wire name |
| Wire.ParseType | ui/src/routes/Dashboard.tsx:78-97 | a recognised `type` string is exactly the wire name of the kind it yields |
| Wire.ParseTypeName | types/types.go:8-14 | every kind the server sends is recognised by the client as itself |
| Text.TrimEmptyIffBlank | ui/src/routes/Dashboard.tsx:115 | `s.trim()` is empty if and only if every character of `s` is ECMAScript whitespace |
| Dashboard.Route | ui/src/routes/Dashboard.tsx:71-105 | only a parsed envelope with a payload and a known type has an effect; a notification copies id/from/message/timestamp; user_connected adds only a non-empty name other than the local one; user_disconnected removes the payload username; an acknowledgment_request fills the slot with id/from_username/message; an acknowledgment_response records from_username under request_id |
| Dashboard.RouteUserConnected | ui/src/routes/Dashboard.tsx:85-88 | user_connected adds the name if and only if it is present, non-empty and not the local username |
| Dashboard.RouteUnknownIgnored | ui/src/routes/Dashboard.tsx:72-77 | an unparsable, untyped, payload-less or unknown-type frame is ignored |
| Dashboard.ToUsers | ui/src/routes/Dashboard.tsx:45 | one `{username}` entry per fetched name, in order |
| Dashboard.DashboardPage.constructor | ui/src/routes/Dashboard.tsx:21-28 | target "all", empty draft, modal hidden, no incoming request |
| Dashboard.DashboardPage.OnMessage | ui/src/routes/Dashboard.tsx:71-105 | applies exactly the store action or slot update that `Route` chose (ignored frames change nothing); a later acknowledgment_request overwrites the slot; the other page state is unchanged |
| Dashboard.DashboardPage.FetchUsers | ui/src/routes/Dashboard.tsx:41-50 | a reply with a `users` array replaces the roster; a failure or missing array changes nothing |
| Dashboard.DashboardPage.HandleSend | ui/src/routes/Dashboard.tsx:113-127 | a call is made if and only if the trimmed draft is non-empty and a non-empty username is bound; it carries username, raw draft and target; the draft is cleared only after a successful call |
| Dashboard.DashboardPage.HandleLogout | ui/src/routes/Dashboard.tsx:129-137 | the store is logged out whether or not the logout call failed |
| Dashboard.DashboardPage.OpenAckModal | ui/src/routes/Dashboard.tsx:153 | shows the request modal, nothing else changes |
| AckSender.SenderName | ui/src/components/AcknowledgmentModal.tsx:47 | the bound username when non-empty, otherwise "Unknown"; never empty |
| AckSender.Deselect | ui/src/components/AcknowledgmentModal.tsx:27-29 | removes `user`, keeps every other selected user, preserves duplicate-freedom |
| AckSender.DeselectKeepsOrder | ui/src/components/AcknowledgmentModal.tsx:28 | the other selected users keep their order |
| AckSender.AcknowledgmentModal.constructor | ui/src/components/AcknowledgmentModal.tsx:13-16 | empty selection and draft, not loading, no active request |
| AckSender.AcknowledgmentModal.AddUser | ui/src/components/AcknowledgmentModal.tsx:21-25 | appends a non-empty, unselected user and nothing else; the selection stays duplicate-free |
| AckSender.AcknowledgmentModal.RemoveUser | ui/src/components/AcknowledgmentModal.tsx:27-29 | selection becomes `Deselect(old, user)`; other fields unchanged |
| AckSender.AcknowledgmentModal.Send | ui/src/components/AcknowledgmentModal.tsx:31-61 | a call is made if and only if a user is selected and the trimmed draft is non-empty; with no call nothing changes; a truthy request_id appends `{id, sender or "Unknown", selection, draft, []}` to the store, activates it and clears the draft; otherwise store, draft and active request are unchanged; loading ends false |
| AckSender.AcknowledgmentModal.Close | ui/src/components/AcknowledgmentModal.tsx:72-77 | the page hides the modal; selection, draft and active request are reset |
| AckReceiver.AcknowledgmentRequestModal.constructor | ui/src/components/AcknowledgmentRequestModal.tsx:22-23 | neither loading nor acknowledged |
| AckReceiver.AcknowledgmentRequestModal.Acknowledge | ui/src/components/AcknowledgmentRequestModal.tsx:25-42 | no request id: nothing happens; success: acknowledged, slot cleared; failure: flag and slot unchanged; loading ends false; acknowledged never goes back to false; after a success, and whenever already acknowledged, the Acknowledge action is no longer offered |
| AckReceiver.ReceiveAfterAcknowledged | ui/src/components/AcknowledgmentRequestModal.tsx:72-80 | once acknowledged, no later frame brings the Acknowledge action back, even when a new well-formed acknowledgment request renders the modal again |
| Login.LoginForm.constructor | ui/src/routes/Login.tsx:7-9 | empty input, no error, not loading |
| Login.LoginForm.HandleSubmit | ui/src/routes/Login.tsx:13-33 | whitespace-only input sets "Username cannot be empty" with no call and no store change; otherwise the raw input is sent; success binds it untrimmed with the error cleared; failure sets "Login failed" and leaves the store alone; loading ends false |
| Service.Delivered | service/service.go:179-188 | a recipient with fewer than 10 queued events gets the event at the end; a full queue or a non-recipient is unchanged; no queue exceeds capacity; the client set is unchanged |
| Service.NotifyRecipients | service/service.go:92-96 | target "all" reaches every connected client; any other target reaches only that user, if connected |
| Service.RepeatedTargetsCollapse | service/service.go:171-176 | a repeated target adds no second recipient, so no second copy |
| Service.ComputeRecipients | service/service.go:163-177 | the loops build exactly `Recipients`: all clients for an empty target list, otherwise the connected targets |
| Service.NotificationService.constructor | service/service.go:21-27 | no clients, no requests, no acknowledgers |
| Service.NotificationService.DeliverTo | service/service.go:179-188 | the queues become `Delivered(old, recipients, ev)`; the acknowledgment tables are unchanged |
| Service.NotificationService.BroadcastEventLocked | service/service.go:148-189 | queues become `Broadcast(...)`: unchanged when encoding fails, else delivered to `Recipients` |
| Service.NotificationService.AddClient | service/service.go:30-49 | the user gets a fresh empty queue replacing any old one, then user_connected goes to every client, the new one included |
| Service.NotificationService.RemoveClient | service/service.go:52-66 | absent user: nothing changes and nothing is sent; otherwise the user is removed and user_disconnected goes to the remaining clients |
| Service.NotificationService.Take | handler/handler.go:158 | the stream receive removes and returns the oldest queued event of that user; with nothing queued nothing changes; the acknowledgment tables are kept |
| Service.NotificationService.GetConnectedUsers | service/service.go:69-78 | exactly the registered usernames, each once |
| Service.NotificationService.BroadcastMessage | service/service.go:81-97 | a notification with the fresh id, sender and message goes to every client for "all", else to that user only |
| Service.NotificationService.CreateAcknowledgmentRequest | service/service.go:100-126 | stores the request with an empty acknowledger list under the fresh id, sends acknowledgment_request to `toUsernames`, returns the id |
| Service.NotificationService.RecordAcknowledgment | service/service.go:129-145 | unknown id: nothing changes, nothing sent; otherwise the acknowledger is appended and acknowledgment_response goes only to the original requester |
| Service.AddedClientHearsItself | service/service.go:39-46 | a newly added client's queue holds exactly its own user_connected event |
| Service.RemovedClientNotTold | service/service.go:56-64 | the removed client is not among those told it left |
| Service.BroadcastKeepsCapacity | service/service.go:180-187 | any broadcast keeps every queue within capacity and leaves non-recipients untouched |
| Auth.HexEncode | auth/session.go:88 | two lower-case hex digits per byte |
| Auth.HexRoundTrip | auth/session.go:88 | decoding the encoding gives the bytes back |
| Auth.SessionId | auth/session.go:82-89 | a session id is 64 characters, each in [0-9a-f] |
| Auth.SessionIdInjective | auth/session.go:82-89 | equal ids come only from equal random bytes |
| Auth.SessionStore.constructor | auth/session.go:25-29 | no sessions |
| Auth.SessionStore.CreateSession | auth/session.go:32-51 | random-source failure stores nothing; otherwise stores the session under its id with ExpiresAt = CreatedAt + duration and returns it |
| Auth.SessionStore.GetSession | auth/session.go:54-72 | found if and only if present and `now <= ExpiresAt` (the expiry instant is still valid); unknown id changes nothing; an expired session is deleted; a live one leaves the map unchanged |
| Auth.SessionStore.DeleteSession | auth/session.go:75-79 | removes only that id; no-op when absent |
| Handler.CookieHeaderFormat | handler/handler.go:55 | the cookie is `session_id=<id>; Path=/; HttpOnly; Max-Age=86400`, and 86400 seconds equal the 24-hour session duration |
| Handler.CookieRoundTrip | handler/handler.go:55 | reading the cookie back yields exactly the issued session id |
| Handler.LoginGuard | handler/handler.go:37-44 | accepts if and only if there is a body with a username other than ""; nil body is BodyRequired, otherwise UsernameRequired; whitespace names pass |
| Handler.AckRequestGuard | handler/handler.go:202-212 | accepts if and only if body, non-empty targets and non-empty message; errors in that order |
| Handler.AckResponseGuard | handler/handler.go:245-251 | accepts if and only if body and non-empty request_id; errors in that order |
| Handler.StrictApiHandler.constructor | handler/handler.go:28-33 | wires the service and the session store |
| Handler.StrictApiHandler.PostLogin | handler/handler.go:36-66 | rejected bodies create no session; a random-source failure creates none; otherwise a 24-hour session is stored and its cookie returned with the username |
| Handler.StrictApiHandler.PostNotify | handler/handler.go:69-85 | nil body is rejected with nothing sent; otherwise success, passing sender, message and target through unchanged |
| Handler.StrictApiHandler.PostLogout | handler/handler.go:88-108 | the session is deleted only for a present, non-empty cookie; the reply is always success with the cookie cleared |
| Handler.StrictApiHandler.Authenticate | handler/handler.go:192-200 | no cookie: SessionNotFound; a dead session: InvalidOrExpiredSession (and it is deleted); a live one is returned |
| Handler.StrictApiHandler.PostAcknowledgeRequest | handler/handler.go:185-225 | cookie, session, body, targets, message checked in order; succeeds if and only if all pass; any failure leaves the service unchanged; success creates the request as the session's user and returns the service's id |
| Handler.StrictApiHandler.PostAcknowledgeResponse | handler/handler.go:228-259 | same session checks, then body and non-empty request_id; failure leaves the service unchanged; success records the acknowledgment under the session's username |

## Left out

- The EventSource lifecycle (open, error-close, cleanup) and the SSE write/flush loop of `GetEvents`. These are transport I/O. The router takes an already decoded frame, and `Unparsable` stands for a JSON parse failure.
- Service.NotificationService.Take: the stream's receive blocks on an empty queue and races with the client's disconnect; the model returns `None` instead of waiting.
- `GetEvents`'s session check and its AddClient/RemoveClient pairing. The connection's lifetime is I/O. Its two service calls are modelled as `AddClient` and `RemoveClient`.
- `GetUsers` handler. It returns `GetConnectedUsers` verbatim.
- Rendering, styling, `Modal.tsx`, `UserDropdown.tsx`, navigation, `alert` and `console` output.
- Mutexes, the goroutine in `PostNotify`, and the closing of a replaced channel. The model has no concurrency: every service method is one atomic step, and the goroutine is an immediate call.
- The 500 ms `setTimeout` before `onClose`. The model only records that the slot is cleared after a successful acknowledgment.
- Gin context assertions and the cookie plumbing of `auth/middleware.go`. The handlers take the extracted cookie value (`Option<string>`) and the decoded body (`Option<...>`); a failed context assertion is not modelled.
- JSON encoding. A queued event is the event itself, and only whether `json.Marshal` succeeded is a parameter.
- Payload values that are not strings. The client's frame payload is a map from field names to strings.
- Dashboard.Route: an `acknowledgment_response` frame without `from_username` is ignored, whereas the source would append `undefined` to a matching record.
- Service.NotificationService.CreateAcknowledgmentRequest: one `now` stamps both the record and the event, where the source reads the clock twice.
- Service.NotificationService.BroadcastMessage: one `now` stamps both the notification and the event, where the source reads the clock twice (`service/service.go:89`, `:152`).
- Handler.StrictApiHandler.PostAcknowledgeRequest: one `now` serves both the session expiry check and the request's timestamp, where the source reads the clock separately.
- Handler.StrictApiHandler.PostAcknowledgeResponse: one `now` serves both the session expiry check and the response event's timestamp, where the source reads the clock separately (`auth/session.go:64`, `service/service.go:152`).
- `server.go`, `main.tsx`, the API client and build configuration, and the deprecated `useUserStore`. These are wiring.
