/** The REST handlers: each is a chain of guards that either rejects the
    request or makes one call into the session store or the notification
    service. The cookie and the request body arrive already extracted. */
module Handler {
  import opened Wrappers
  import opened Wire
  import opened Auth
  import opened Service

  /** One second on the model's clock, which counts nanoseconds as Go's time.Duration does. */
  const Second := 1_000_000_000

  /** 24*time.Hour, the lifetime of a login session. */
  const SessionDuration := 24 * 60 * 60 * Second

  /** The cookie's Max-Age, 24*60*60 seconds. */
  const CookieMaxAge := 24 * 60 * 60

  const SessionCookieName := "session_id"

  datatype HandlerError =
    | BodyRequired
    | UsernameRequired
    | SessionCreationFailed
    | SessionNotFound
    | InvalidOrExpiredSession
    | ToUsernamesRequired
    | MessageRequired
    | RequestIdRequired

  /** The outcome of a guard chain: go ahead, or the first failing check. */
  datatype Verdict = Accept | Reject(error: HandlerError)

  datatype LoginResponse = LoginResponse(success: bool, username: string, setCookie: string)

  /** The logout reply: success, and the instruction to clear the cookie. */
  datatype LogoutResponse = LogoutResponse(success: bool, clearsCookie: bool)

  /** `%d`: the decimal digits of `n`. */
  function Decimal(n: nat): (s: string)
    ensures |s| > 0 && forall i :: 0 <= i < |s| ==> '0' <= s[i] <= '9'
    decreases n
  {
    if n < 10 then [('0' as int + n) as char] else Decimal(n / 10) + [('0' as int + n % 10) as char]
  }

  /** The Set-Cookie value PostLogin returns for session `id`. */
  function CookieHeader(id: string): string {
    SessionCookieName + "=" + id + CookieAttributes()
  }

  /** Everything after the id: path, HttpOnly and lifetime. */
  function CookieAttributes(): (a: string)
    ensures |a| > 0 && a[0] == ';'
  {
    "; Path=/; HttpOnly; Max-Age=" + Decimal(CookieMaxAge)
  }

  /** The cookie lives exactly as long as the session: Max-Age=86400. */
  lemma CookieHeaderFormat(id: string)
    ensures CookieHeader(id) == "session_id=" + id + "; Path=/; HttpOnly; Max-Age=86400"
    ensures CookieMaxAge * Second == SessionDuration
  {
  }

  /** The text of `s` before its first ';'. */
  function BeforeSemicolon(s: string): (r: string)
    ensures r <= s && ';' !in r
  {
    if s == [] || s[0] == ';' then [] else [s[0]] + BeforeSemicolon(s[1..])
  }

  /** The session id a browser reads back from a Set-Cookie value. */
  function CookieValue(header: string): Option<string> {
    var prefix := SessionCookieName + "=";
    if prefix <= header then Some(BeforeSemicolon(header[|prefix|..])) else None
  }

  lemma {:induction false} BeforeSemicolonOf(a: string, rest: string)
    requires ';' !in a && |rest| > 0 && rest[0] == ';'
    ensures BeforeSemicolon(a + rest) == a
  {
    if a != [] {
      assert (a + rest)[1..] == a[1..] + rest;
      BeforeSemicolonOf(a[1..], rest);
    }
  }

  /** Every issued cookie carries back exactly the session id it was made for. */
  lemma CookieRoundTrip(block: RandomBlock)
    ensures CookieValue(CookieHeader(SessionId(block))) == Some(SessionId(block))
  {
    var id := SessionId(block);
    assert ';' !in id by {
      forall i | 0 <= i < |id| ensures id[i] != ';' {
        assert IsHexDigit(id[i]);
      }
    }
    var prefix := SessionCookieName + "=";
    var tail := CookieAttributes();
    assert CookieHeader(id) == prefix + (id + tail);
    assert CookieHeader(id)[|prefix|..] == id + tail;
    BeforeSemicolonOf(id, tail);
  }

  /** PostLogin's guards: a body, and a username that is not exactly "".
      A whitespace-only name passes. */
  function LoginGuard(body: Option<LoginRequest>): (v: Verdict)
    ensures v.Accept? <==> body.Some? && body.value.username != ""
    ensures body.None? ==> v == Reject(BodyRequired)
    ensures v.Reject? && body.Some? ==> v.error == UsernameRequired
  {
    if body.None? then Reject(BodyRequired)
    else if body.value.username == "" then Reject(UsernameRequired)
    else Accept
  }

  /** PostAcknowledgeRequest's body guards, in order: a body, a non-empty
      target list, a non-empty message. */
  function AckRequestGuard(body: Option<AcknowledgeRequestBody>): (v: Verdict)
    ensures v.Accept? <==> body.Some? && |body.value.toUsernames| > 0 && body.value.message != ""
    ensures body.None? ==> v == Reject(BodyRequired)
    ensures body.Some? && |body.value.toUsernames| == 0 ==> v == Reject(ToUsernamesRequired)
    ensures body.Some? && |body.value.toUsernames| > 0 && body.value.message == "" ==> v == Reject(MessageRequired)
  {
    if body.None? then Reject(BodyRequired)
    else if |body.value.toUsernames| == 0 then Reject(ToUsernamesRequired)
    else if body.value.message == "" then Reject(MessageRequired)
    else Accept
  }

  /** PostAcknowledgeResponse's body guards: a body and a non-empty request id. */
  function AckResponseGuard(body: Option<AcknowledgeResponseBody>): (v: Verdict)
    ensures v.Accept? <==> body.Some? && body.value.requestId != ""
    ensures body.None? ==> v == Reject(BodyRequired)
    ensures v.Reject? && body.Some? ==> v.error == RequestIdRequired
  {
    if body.None? then Reject(BodyRequired)
    else if body.value.requestId == "" then Reject(RequestIdRequired)
    else Accept
  }

  class StrictApiHandler {
    const service: NotificationService
    const sessionStore: SessionStore

    ghost predicate Valid()
      reads this, service, sessionStore
    {
      service.Valid() && sessionStore.Valid()
    }

    constructor (service: NotificationService, sessionStore: SessionStore)
      requires service.Valid() && sessionStore.Valid()
      ensures Valid() && this.service == service && this.sessionStore == sessionStore
    {
      this.service := service;
      this.sessionStore := sessionStore;
    }

    /** Rejects a missing body or an empty username before any session
        exists; otherwise creates a 24-hour session and returns its cookie. */
    method PostLogin(body: Option<LoginRequest>, now: int, entropy: Entropy)
      returns (r: Result<LoginResponse, HandlerError>)
      requires Valid()
      modifies sessionStore
      ensures Valid()
      ensures LoginGuard(body).Reject? ==>
        r == Failure(LoginGuard(body).error) && sessionStore.sessions == old(sessionStore.sessions)
      ensures LoginGuard(body).Accept? && entropy.ReadFailed? ==>
        r == Failure(SessionCreationFailed) && sessionStore.sessions == old(sessionStore.sessions)
      ensures LoginGuard(body).Accept? && entropy.Read? ==>
        var id, name := SessionId(entropy.block), body.value.username;
        && r == Success(LoginResponse(true, name, CookieHeader(id)))
        && sessionStore.sessions == old(sessionStore.sessions)[id := Session(id, name, now, now + SessionDuration)]
    {
      var verdict := LoginGuard(body);
      if verdict.Reject? {
        return Failure(verdict.error);
      }
      var username := body.value.username;
      var created := sessionStore.CreateSession(username, SessionDuration, now, entropy);
      if created.Failure? {
        return Failure(SessionCreationFailed);
      }
      r := Success(LoginResponse(true, username, CookieHeader(created.value.id)));
    }

    /** Accepts any present body and hands it to the service unchanged. */
    method PostNotify(body: Option<NotifyRequest>, id: string, now: int, encoded: bool)
      returns (r: Result<bool, HandlerError>)
      requires Valid()
      modifies service
      ensures Valid()
      ensures body.None? ==> r == Failure(BodyRequired) && service.clients == old(service.clients)
      ensures body.Some? ==> r == Success(true) && service.clients == Broadcast(old(service.clients),
        SseEvent(NotificationEvent, NotificationPayload(id, body.value.fromUsername, body.value.message, now), now),
        NotifyTargets(body.value.targetUsername), encoded)
      ensures service.acknowledgmentReqs == old(service.acknowledgmentReqs)
      ensures service.acknowledgmentAckd == old(service.acknowledgmentAckd)
    {
      if body.None? {
        return Failure(BodyRequired);
      }
      var req := NotifyRequest(body.value.fromUsername, body.value.message, body.value.targetUsername);
      service.BroadcastMessage(req, id, now, encoded);
      r := Success(true);
    }

    /** Deletes the session only for a present, non-empty cookie, but always
        clears the cookie and reports success. */
    method PostLogout(cookie: Option<string>) returns (r: LogoutResponse)
      requires Valid()
      modifies sessionStore
      ensures Valid()
      ensures r == LogoutResponse(true, true)
      ensures sessionStore.sessions ==
        if cookie.Some? && cookie.value != "" then old(sessionStore.sessions) - {cookie.value}
        else old(sessionStore.sessions)
    {
      if cookie.Some? && cookie.value != "" {
        sessionStore.DeleteSession(cookie.value);
      }
      r := LogoutResponse(true, true);
    }

    /** The shared prefix of the acknowledgment handlers: a cookie, then a
        live session for it (an expired one is deleted on the way). */
    method Authenticate(cookie: Option<string>, now: int) returns (r: Result<Session, HandlerError>)
      requires Valid()
      modifies sessionStore
      ensures Valid()
      ensures cookie.None? ==> r == Failure(SessionNotFound) && sessionStore.sessions == old(sessionStore.sessions)
      ensures cookie.Some? && !Live(old(sessionStore.sessions), cookie.value, now) ==>
        r == Failure(InvalidOrExpiredSession) && sessionStore.sessions == old(sessionStore.sessions) - {cookie.value}
      ensures cookie.Some? && Live(old(sessionStore.sessions), cookie.value, now) ==>
        r == Success(old(sessionStore.sessions)[cookie.value]) && sessionStore.sessions == old(sessionStore.sessions)
    {
      if cookie.None? {
        return Failure(SessionNotFound);
      }
      var session := sessionStore.GetSession(cookie.value, now);
      if session.None? {
        return Failure(InvalidOrExpiredSession);
      }
      r := Success(session.value);
    }

    /** Checks cookie, session, body, targets and message in that order; only
        when all pass does it create the request, as the session's user, and
        return the service's id. */
    method PostAcknowledgeRequest(cookie: Option<string>, body: Option<AcknowledgeRequestBody>,
                                  now: int, id: string, encoded: bool)
      returns (r: Result<string, HandlerError>)
      requires Valid()
      modifies service, sessionStore
      ensures Valid()
      ensures cookie.None? ==> r == Failure(SessionNotFound) && sessionStore.sessions == old(sessionStore.sessions)
      ensures cookie.Some? && !Live(old(sessionStore.sessions), cookie.value, now) ==>
        r == Failure(InvalidOrExpiredSession) && sessionStore.sessions == old(sessionStore.sessions) - {cookie.value}
      ensures cookie.Some? && Live(old(sessionStore.sessions), cookie.value, now) ==>
        sessionStore.sessions == old(sessionStore.sessions)
      ensures cookie.Some? && Live(old(sessionStore.sessions), cookie.value, now) && AckRequestGuard(body).Reject? ==>
        r == Failure(AckRequestGuard(body).error)
      ensures r.Failure? ==> unchanged(service)
      ensures r.Success? <==>
        cookie.Some? && Live(old(sessionStore.sessions), cookie.value, now) && AckRequestGuard(body).Accept?
      ensures r.Success? ==>
        var from := old(sessionStore.sessions)[cookie.value].username;
        var to, message := body.value.toUsernames, body.value.message;
        && r.value == id
        && service.acknowledgmentReqs == old(service.acknowledgmentReqs)[id := AckRecord(id, from, to, message, now)]
        && service.acknowledgmentAckd == old(service.acknowledgmentAckd)[id := []]
        && service.clients == Broadcast(old(service.clients),
             SseEvent(AcknowledgmentRequestEvent, AckRequestPayload(id, from, to, message), now), to, encoded)
    {
      var session := Authenticate(cookie, now);
      if session.Failure? {
        return Failure(session.error);
      }
      var verdict := AckRequestGuard(body);
      if verdict.Reject? {
        return Failure(verdict.error);
      }
      var requestId := service.CreateAcknowledgmentRequest(
        session.value.username, body.value.toUsernames, body.value.message, id, now, encoded);
      r := Success(requestId);
    }

    /** Rejects an empty request id; records the acknowledgment under the
        session's username, never a name the client supplies. */
    method PostAcknowledgeResponse(cookie: Option<string>, body: Option<AcknowledgeResponseBody>,
                                   now: int, encoded: bool)
      returns (r: Result<bool, HandlerError>)
      requires Valid()
      modifies service, sessionStore
      ensures Valid()
      ensures cookie.None? ==> r == Failure(SessionNotFound) && sessionStore.sessions == old(sessionStore.sessions)
      ensures cookie.Some? && !Live(old(sessionStore.sessions), cookie.value, now) ==>
        r == Failure(InvalidOrExpiredSession) && sessionStore.sessions == old(sessionStore.sessions) - {cookie.value}
      ensures cookie.Some? && Live(old(sessionStore.sessions), cookie.value, now) ==>
        sessionStore.sessions == old(sessionStore.sessions)
      ensures cookie.Some? && Live(old(sessionStore.sessions), cookie.value, now) && AckResponseGuard(body).Reject? ==>
        r == Failure(AckResponseGuard(body).error)
      ensures r.Failure? ==> unchanged(service)
      ensures r.Success? <==>
        cookie.Some? && Live(old(sessionStore.sessions), cookie.value, now) && AckResponseGuard(body).Accept?
      ensures r.Success? ==>
        var who, reqId := old(sessionStore.sessions)[cookie.value].username, body.value.requestId;
        && r.value
        && service.acknowledgmentReqs == old(service.acknowledgmentReqs)
        && (reqId !in old(service.acknowledgmentReqs) ==>
              service.clients == old(service.clients) && service.acknowledgmentAckd == old(service.acknowledgmentAckd))
        && (reqId in old(service.acknowledgmentReqs) ==>
              && service.acknowledgmentAckd ==
                   old(service.acknowledgmentAckd)[reqId := old(service.acknowledgmentAckd)[reqId] + [who]]
              && service.clients == Broadcast(old(service.clients),
                   SseEvent(AcknowledgmentResponseEvent, AckResponsePayload(reqId, who), now),
                   [old(service.acknowledgmentReqs)[reqId].fromUsername], encoded))
    {
      var session := Authenticate(cookie, now);
      if session.Failure? {
        return Failure(session.error);
      }
      var verdict := AckResponseGuard(body);
      if verdict.Reject? {
        return Failure(verdict.error);
      }
      service.RecordAcknowledgment(body.value.requestId, session.value.username, now, encoded);
      r := Success(true);
    }
  }
}
