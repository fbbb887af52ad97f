/** The server's session store: sessions keyed by a random hex id, expired
    lazily when looked up. The clock and the random source are parameters. */
module Auth {
  import opened Wrappers

  newtype byte = x: int | 0 <= x < 256

  /** A session id encodes this many random bytes. */
  const SessionIdBytes := 32

  /** What crypto/rand fills the id buffer with. */
  type RandomBlock = b: seq<byte> | |b| == SessionIdBytes witness seq(32, _ => 0 as byte)

  /** The outcome of rand.Read. */
  datatype Entropy = ReadFailed | Read(block: RandomBlock)

  /** The digits of encoding/hex's table "0123456789abcdef". */
  predicate IsHexDigit(c: char) {
    '0' <= c <= '9' || 'a' <= c <= 'f'
  }

  /** The table entry for a nibble. */
  function HexDigit(d: int): (c: char)
    requires 0 <= d < 16
    ensures IsHexDigit(c)
  {
    if d < 10 then ('0' as int + d) as char else ('a' as int + d - 10) as char
  }

  /** encoding/hex's lower-case encoding, two digits per byte, high nibble first. */
  function HexEncode(b: seq<byte>): (s: string)
    ensures |s| == 2 * |b|
    ensures forall i :: 0 <= i < |s| ==> IsHexDigit(s[i])
  {
    if b == [] then []
    else [HexDigit(b[0] as int / 16), HexDigit(b[0] as int % 16)] + HexEncode(b[1..])
  }

  /** The value of a hex digit, the inverse of HexDigit. */
  function DigitValue(c: char): (v: Option<int>)
    ensures v.Some? <==> IsHexDigit(c)
    ensures v.Some? ==> 0 <= v.value < 16 && HexDigit(v.value) == c
  {
    if '0' <= c <= '9' then Some(c as int - '0' as int)
    else if 'a' <= c <= 'f' then Some(c as int - 'a' as int + 10)
    else None
  }

  /** encoding/hex's decoding of lower-case digits; the inverse of HexEncode. */
  function HexDecode(s: string): Option<seq<byte>>
    decreases |s|
  {
    if s == [] then Some([])
    else if |s| == 1 then None
    else
      match (DigitValue(s[0]), DigitValue(s[1]), HexDecode(s[2..]))
      case (Some(hi), Some(lo), Some(rest)) => Some([(hi * 16 + lo) as byte] + rest)
      case _ => None
  }

  /** One byte's two digits decode to that byte. */
  lemma ByteRoundTrip(x: byte)
    ensures DigitValue(HexDigit(x as int / 16)) == Some(x as int / 16)
    ensures DigitValue(HexDigit(x as int % 16)) == Some(x as int % 16)
    ensures ((x as int / 16) * 16 + x as int % 16) as byte == x
  {
  }

  /** Decoding an encoding gives the bytes back, so distinct random blocks
      give distinct ids. */
  lemma {:induction false} HexRoundTrip(b: seq<byte>)
    ensures HexDecode(HexEncode(b)) == Some(b)
  {
    if b != [] {
      var s := HexEncode(b);
      ByteRoundTrip(b[0]);
      assert s[2..] == HexEncode(b[1..]);
      HexRoundTrip(b[1..]);
      assert [b[0]] + b[1..] == b;
    }
  }

  /** generateSessionID: 64 lower-case hex digits. */
  function SessionId(block: RandomBlock): (id: string)
    ensures |id| == 64
    ensures forall i :: 0 <= i < |id| ==> IsHexDigit(id[i])
  {
    HexEncode(block)
  }

  /** Two sessions get the same id only from the same random bytes. */
  lemma SessionIdInjective(a: RandomBlock, b: RandomBlock)
    ensures SessionId(a) == SessionId(b) ==> a == b
  {
    HexRoundTrip(a);
    HexRoundTrip(b);
  }

  /** Times are instants on one integer clock; a duration is their difference. */
  datatype Session = Session(id: string, username: string, createdAt: int, expiresAt: int)

  datatype SessionError = RandomSourceFailed

  /** The session stored under `id` is still valid at `now`: the expiry
      instant itself is still valid. */
  predicate Live(sessions: map<string, Session>, id: string, now: int) {
    id in sessions && now <= sessions[id].expiresAt
  }

  class SessionStore {
    var sessions: map<string, Session>

    /** Every session is stored under its own id. */
    ghost predicate Valid()
      reads this
    {
      forall id :: id in sessions ==> sessions[id].id == id
    }

    constructor ()
      ensures Valid() && sessions == map[]
    {
      sessions := map[];
    }

    /** Creates and stores a session lasting `duration`; fails, storing
        nothing, when the random source fails. */
    method CreateSession(username: string, duration: int, now: int, entropy: Entropy)
      returns (r: Result<Session, SessionError>)
      requires Valid()
      modifies this
      ensures Valid()
      ensures entropy.ReadFailed? ==> r == Failure(RandomSourceFailed) && sessions == old(sessions)
      ensures entropy.Read? ==>
        var id := SessionId(entropy.block);
        && r == Success(Session(id, username, now, now + duration))
        && r.value.expiresAt - r.value.createdAt == duration
        && sessions == old(sessions)[id := r.value]
    {
      if entropy.ReadFailed? {
        return Failure(RandomSourceFailed);
      }
      var id := SessionId(entropy.block);
      var session := Session(id, username, now, now + duration);
      sessions := sessions[id := session];
      r := Success(session);
    }

    /** Looks a session up at `now`. An unknown id is not found and changes
        nothing; an expired session (now strictly after its expiry) is deleted
        and not found; a live one is returned and nothing changes. */
    method GetSession(id: string, now: int) returns (r: Option<Session>)
      requires Valid()
      modifies this
      ensures Valid()
      ensures r.Some? <==> Live(old(sessions), id, now)
      ensures r.Some? ==> r.value == old(sessions)[id] && r.value.id == id && sessions == old(sessions)
      ensures id !in old(sessions) ==> sessions == old(sessions)
      ensures r.None? ==> sessions == old(sessions) - {id}
    {
      if id !in sessions {
        return None;
      }
      var session := sessions[id];
      if now > session.expiresAt {
        sessions := sessions - {id};
        return None;
      }
      r := Some(session);
    }

    /** Removes only `id`; a no-op when absent. */
    method DeleteSession(id: string)
      requires Valid()
      modifies this
      ensures Valid()
      ensures sessions == old(sessions) - {id}
    {
      sessions := sessions - {id};
    }
  }
}
