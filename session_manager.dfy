/**
 * `SessionManager`: the `"<id>:<token>"` value of the session cookie, and session creation,
 * validation with silent renewal, and deletion over the adapter. `now` is `Date.now()`;
 * the random bytes behind a new token are an input.
 */
module SessionManagers {
  import opened Common
  import opened Decimal
  import opened AuthTypes
  import opened Storage
  import opened Adapter
  import opened ServerHelpers

  /** The first index of `c` in `s`. */
  function IndexOf(s: string, c: char): (r: Option<nat>)
    ensures r.None? <==> c !in s
    ensures r.Some? ==> r.value < |s| && s[r.value] == c && c !in s[..r.value]
  {
    if s == [] then None
    else if s[0] == c then Some(0)
    else match IndexOf(s[1..], c)
      case None => None
      case Some(i) => assert s[1..][..i] == s[1..i + 1]; Some(i + 1)
  }

  /** `s.split(sep)`: the pieces between occurrences of `sep`; at least one, possibly empty. */
  function Split(s: string, sep: char): (parts: seq<string>)
    ensures |parts| >= 1
    decreases |s|
  {
    match IndexOf(s, sep)
    case None => [s]
    case Some(i) => [s[..i]] + Split(s[i + 1..], sep)
  }

  /** What `parseSessionIdToken` extracts from a cookie value. */
  datatype IdToken = IdToken(id: int, token: string)

  /**
   * `parseSessionIdToken`: the id is the text before the first colon, read by `parseInt`; the
   * token is the text between the first and the second colon. Null when either is empty or
   * missing, or when the id reads as `NaN` or 0.
   */
  function ParseSessionIdToken(sessionIdToken: string): (r: Option<IdToken>)
    ensures r.Some? ==> r.value.id != 0 && r.value.token != "" && ':' !in r.value.token
  {
    var parts := Split(sessionIdToken, ':');
    SplitPartColonFree(sessionIdToken);
    FromParts(parts[0], if |parts| >= 2 then parts[1] else "")
  }

  /** The checks `parseSessionIdToken` makes once the value is split. */
  function FromParts(idString: string, token: string): (r: Option<IdToken>)
    ensures r.Some? ==> r.value == IdToken(r.value.id, token) && r.value.id != 0 && token != ""
  {
    if idString == "" || token == "" then None
    else match ParseInt(idString)
      case None => None
      case Some(id) => if id == 0 then None else Some(IdToken(id, token))
  }

  /** Every piece `split` returns is free of the separator. */
  lemma {:induction false} SplitPartColonFree(s: string)
    ensures forall i :: 0 <= i < |Split(s, ':')| ==> ':' !in Split(s, ':')[i]
    decreases |s|
  {
    match IndexOf(s, ':')
    case None =>
    case Some(i) => SplitPartColonFree(s[i + 1..]);
  }

  /** `getIdTokenForCookie`: `${session.id}:${session.token}`. */
  function IdTokenForCookie(session: Session): string {
    IntToDecimal(session.id) + ":" + session.token
  }

  /** A string that contains no colon is one piece; joined with a colon in front, the first of two. */
  lemma SplitAtFirstColon(a: string, rest: string)
    requires ':' !in a
    ensures Split(a + ":" + rest, ':') == [a] + Split(rest, ':')
  {
    var s := a + ":" + rest;
    assert s[..|a|] == a;
    assert s[|a|] == ':';
    assert IndexOf(s, ':') == Some(|a|);
    assert s[|a| + 1..] == rest;
  }

  lemma SplitColonFree(a: string)
    requires ':' !in a
    ensures Split(a, ':') == [a]
  {
  }

  /** With a colon-free id part, the value is read from the id part and the first piece after the colon. */
  lemma ParseAfterColon(a: string, rest: string)
    requires ':' !in a
    ensures ParseSessionIdToken(a + ":" + rest) == FromParts(a, Split(rest, ':')[0])
  {
    SplitAtFirstColon(a, rest);
  }

  lemma DecimalColonFree(n: int)
    ensures ':' !in IntToDecimal(n)
  {
    var s := IntToDecimal(n);
    forall i | 0 <= i < |s|
      ensures s[i] != ':'
    {
      if n < 0 && i > 0 {
        assert s[i] == s[1..][i - 1];
      }
    }
  }

  /**
   * The cookie value round-trips: reading back `getIdTokenForCookie(s)` gives the session's
   * id and token, for a non-zero id and a non-empty token without a colon.
   */
  lemma {:induction false} CookieRoundTrip(s: Session)
    requires s.id != 0 && s.token != "" && ':' !in s.token
    ensures ParseSessionIdToken(IdTokenForCookie(s)) == Some(IdToken(s.id, s.token))
  {
    DecimalColonFree(s.id);
    ParseAfterColon(IntToDecimal(s.id), s.token);
    SplitColonFree(s.token);
    ParseIntOfDecimal(s.id);
  }

  /** Whatever follows a second colon is ignored. */
  lemma {:induction false} ParseIgnoresAfterSecondColon(a: string, b: string, rest: string)
    requires ':' !in a && ':' !in b
    ensures ParseSessionIdToken(a + ":" + b + ":" + rest) == ParseSessionIdToken(a + ":" + b)
  {
    assert a + ":" + b + ":" + rest == a + ":" + (b + ":" + rest);
    ParseAfterColon(a, b + ":" + rest);
    SplitAtFirstColon(b, rest);
    ParseAfterColon(a, b);
    SplitColonFree(b);
  }

  /** A value without a colon has no token and is refused. */
  lemma {:induction false} ParseNeedsColon(s: string)
    requires ':' !in s
    ensures ParseSessionIdToken(s) == None
  {
    SplitColonFree(s);
  }

  /** `parseInt` reads the id leniently: a digit prefix followed by other text names that number. */
  lemma {:induction false} ParseLenientId(digits: string, junk: string, token: string)
    requires digits != [] && AllDigits(digits) && DigitsValue(digits) != 0
    requires junk != [] && !IsDigit(junk[0]) && ':' !in junk
    requires token != "" && ':' !in token
    ensures ParseSessionIdToken(digits + junk + ":" + token) == Some(IdToken(DigitsValue(digits), token))
  {
    assert ':' !in digits + junk by {
      forall i | 0 <= i < |digits + junk|
        ensures (digits + junk)[i] != ':'
      {
        if i < |digits| {
          assert IsDigit(digits[i]);
        }
      }
    }
    ParseAfterColon(digits + junk, token);
    SplitColonFree(token);
    ParseIntIgnoresSuffix(digits, junk);
  }

  /** An id that reads as 0 is refused. */
  lemma ParseRefusesZero(token: string)
    requires token != "" && ':' !in token
    ensures ParseSessionIdToken("0:" + token) == None
  {
    assert "0:" + token == "0" + ":" + token;
    RefusedId("0", token);
  }

  /** An id that reads as no number at all is refused. */
  lemma ParseRefusesNaN(token: string)
    requires token != "" && ':' !in token
    ensures ParseSessionIdToken("x:" + token) == None
  {
    assert "x:" + token == "x" + ":" + token;
    RefusedId("x", token);
  }

  /** An id part that reads as 0 or `NaN` makes the whole value refused. */
  lemma RefusedId(a: string, token: string)
    requires a == "0" || a == "x"
    requires ':' !in token
    ensures ParseSessionIdToken(a + ":" + token) == None
  {
    SplitColonFree(token);
    ParseAfterColon(a, token);
    RefusedIdPart(a, token);
  }

  /** The id part "0" reads as 0 and "x" as `NaN`, and both are refused. */
  lemma RefusedIdPart(a: string, token: string)
    requires a == "0" || a == "x"
    ensures FromParts(a, token) == None
  {
    if a == "0" {
      ParseIntOfDigit('0');
    } else {
      ParseIntOfNonNumeric(a);
    }
  }

  /** `getSessionExpirationDate`: `sessionDurationMin` minutes from now. */
  function ExpirationDate(now: int, sessionDurationMin: int): int {
    now + sessionDurationMin * 60000
  }

  /** A set expiry date that falls within the last quarter of the duration, counted from now. */
  predicate NeedsRenewal(s: Session, now: int, sessionDurationMin: int) {
    s.expiresAt.Some? && s.expiresAt.value < now + sessionDurationMin * 15000
  }

  /** The session after `updateSession(s.id, { expiresAt: getSessionExpirationDate() })`. */
  function Renewed(s: Session, now: int, sessionDurationMin: int): Session {
    ExpiresAtOnly(ExpirationDate(now, sessionDurationMin)).ApplyTo(s)
  }

  /**
   * The session `validate` accepts before any renewal: the cookie parses, a row has that id,
   * the row's token is the presented one and its expiry, if set, is not past.
   */
  function Accepted(sessions: map<int, Session>, sessionIdToken: string, now: int): (r: Option<Session>)
    ensures r.Some? ==> r.value.id in sessions && sessions[r.value.id] == r.value
    ensures r.Some? ==> !Expired(r.value, now)
    ensures r.Some? ==> ParseSessionIdToken(sessionIdToken) == Some(IdToken(r.value.id, r.value.token))
  {
    match ParseSessionIdToken(sessionIdToken)
    case None => None
    case Some(idToken) =>
      if idToken.id in sessions && sessions[idToken.id].id == idToken.id
         && sessions[idToken.id].token == idToken.token && !Expired(sessions[idToken.id], now)
      then Some(sessions[idToken.id]) else None
  }

  /** Renewal pushes the expiry date to a full duration from now and never moves it earlier. */
  lemma RenewalExtends(s: Session, now: int, sessionDurationMin: int)
    requires sessionDurationMin >= 0 && NeedsRenewal(s, now, sessionDurationMin)
    ensures Renewed(s, now, sessionDurationMin).expiresAt == Some(now + sessionDurationMin * 60000)
    ensures Renewed(s, now, sessionDurationMin).expiresAt.value > s.expiresAt.value
    ensures Renewed(s, now, sessionDurationMin).(expiresAt := s.expiresAt) == s
  {
  }

  /** A session just renewed needs no renewal at the same moment: validating twice renews once. */
  lemma RenewalIsStable(s: Session, now: int, sessionDurationMin: int)
    requires sessionDurationMin > 0
    ensures !NeedsRenewal(Renewed(s, now, sessionDurationMin), now, sessionDurationMin)
  {
  }

  /** A session without an expiry date is accepted whenever its token matches, and never renewed. */
  lemma NoExpiryNeverExpires(s: Session, now: int, sessionDurationMin: int)
    requires s.expiresAt.None?
    ensures !Expired(s, now) && !NeedsRenewal(s, now, sessionDurationMin)
  {
  }

  class SessionManager {
    const adapter: PostgresAdapter
    const sessionLength: nat
    const sessionDurationMin: int

    constructor (adapter: PostgresAdapter, sessionLength: nat, sessionDurationMin: int)
      ensures this.adapter == adapter && this.sessionLength == sessionLength
      ensures this.sessionDurationMin == sessionDurationMin
    {
      this.adapter := adapter;
      this.sessionLength := sessionLength;
      this.sessionDurationMin := sessionDurationMin;
    }

    /**
     * `createBody`: the given owner ids, a fresh token of `sessionLength` hex digits (rounded
     * down to even), and an expiry date `sessionDurationMin` minutes from now.
     */
    function CreateBody(userId: int, keyId: int, randomBytes: seq<byte>, now: int): (b: SessionBase)
      requires |randomBytes| == sessionLength / 2
      ensures b.userId == userId && b.keyId == keyId
      ensures b.expiresAt == Some(now + sessionDurationMin * 60000)
      ensures |b.token| == 2 * (sessionLength / 2) && (sessionLength % 2 == 0 ==> |b.token| == sessionLength)
      ensures forall i :: 0 <= i < |b.token| ==> IsHexDigit(b.token[i])
      ensures HexDecode(b.token) == randomBytes
    {
      SessionBase(RandomStringSecure(sessionLength, randomBytes), userId, keyId,
                  Some(ExpirationDate(now, sessionDurationMin)))
    }

    method Create(userId: int, keyId: int, randomBytes: seq<byte>, now: int) returns (s: Session)
      requires adapter.db.Valid() && |randomBytes| == sessionLength / 2
      modifies adapter.db`sessions, adapter.db`sessionSerial
      ensures adapter.db.Valid()
      ensures var b := CreateBody(userId, keyId, randomBytes, now);
              s == Session(old(adapter.db.sessionSerial), b.token, userId, keyId, b.expiresAt)
      ensures adapter.db.sessions == old(adapter.db.sessions)[s.id := s]
      ensures adapter.db.sessionSerial == old(adapter.db.sessionSerial) + 1
    {
      s := adapter.CreateSession(CreateBody(userId, keyId, randomBytes, now));
    }

    /**
     * `validate`: null unless the cookie names a live session with the right token; a session
     * in the last quarter of its duration is renewed to a full duration, and the renewed row is
     * returned; otherwise the row is returned unchanged.
     */
    method Validate(sessionIdToken: string, now: int) returns (r: Option<Session>)
      requires adapter.db.Valid()
      modifies adapter.db`sessions
      ensures adapter.db.Valid()
      ensures var a := Accepted(old(adapter.db.sessions), sessionIdToken, now);
              && (r.Some? <==> a.Some?)
              && (a.Some? && NeedsRenewal(a.value, now, sessionDurationMin) ==>
                    && r == Some(Renewed(a.value, now, sessionDurationMin))
                    && adapter.db.sessions == old(adapter.db.sessions)[a.value.id := r.value])
              && (!(a.Some? && NeedsRenewal(a.value, now, sessionDurationMin)) ==>
                    r == a && adapter.db.sessions == old(adapter.db.sessions))
    {
      var idToken := ParseSessionIdToken(sessionIdToken);
      if idToken.None? {
        return None;
      }
      var session := adapter.GetSession(idToken.value.id);
      if session.None? {
        return None;
      }
      if session.value.token != idToken.value.token {
        return None;
      }
      if session.value.expiresAt.Some? && session.value.expiresAt.value < now {
        return None;
      }
      if session.value.expiresAt.Some? && session.value.expiresAt.value < now + sessionDurationMin * 15000 {
        var updated := adapter.UpdateSession(session.value.id, ExpiresAtOnly(ExpirationDate(now, sessionDurationMin)));
        if updated.Some? {
          return updated;
        }
      }
      r := session;
    }

    /** `delete`: false and no change for an unreadable cookie; otherwise removes the row matching both. */
    method Delete(sessionIdToken: string) returns (deleted: bool)
      requires adapter.db.Valid()
      modifies adapter.db`sessions
      ensures adapter.db.Valid()
      ensures deleted <==> ParseSessionIdToken(sessionIdToken).Some?
      ensures var p := ParseSessionIdToken(sessionIdToken);
              adapter.db.sessions == if p.None? then old(adapter.db.sessions)
                                     else SessionsWithoutIdToken(old(adapter.db.sessions), p.value.id, p.value.token)
    {
      var idToken := ParseSessionIdToken(sessionIdToken);
      if idToken.None? {
        return false;
      }
      adapter.DeleteSessionByIdToken(idToken.value.id, idToken.value.token);
      deleted := true;
    }

    method DeleteAll(userId: int)
      requires adapter.db.Valid()
      modifies adapter.db`sessions
      ensures adapter.db.Valid()
      ensures adapter.db.sessions == SessionsWithoutUser(old(adapter.db.sessions), userId)
    {
      adapter.DeleteAllSessions(userId);
    }

    method DeleteExpired(now: int)
      requires adapter.db.Valid()
      modifies adapter.db`sessions
      ensures adapter.db.Valid()
      ensures adapter.db.sessions == UnexpiredSessions(old(adapter.db.sessions), now)
    {
      adapter.DeleteExpiredSessions(now);
    }

    method Get(id: int) returns (r: Option<Session>)
      requires adapter.db.Valid()
      ensures r.Some? <==> id in adapter.db.sessions
      ensures r.Some? ==> r.value == adapter.db.sessions[id]
    {
      r := adapter.GetSession(id);
    }

    method GetAll(userId: int) returns (r: seq<Session>)
      requires adapter.db.Valid()
      ensures IsSessionsOf(adapter.db.sessions, userId, r)
    {
      r := adapter.GetAllSessions(userId);
    }

    method Update(id: int, session: SessionPatch) returns (r: Option<Session>)
      requires adapter.db.Valid() && !session.IsEmpty()
      modifies adapter.db`sessions
      ensures adapter.db.Valid()
      ensures r.Some? <==> id in old(adapter.db.sessions)
      ensures r.Some? ==> r.value == session.ApplyTo(old(adapter.db.sessions)[id])
                          && adapter.db.sessions == old(adapter.db.sessions)[id := r.value]
      ensures r.None? ==> adapter.db.sessions == old(adapter.db.sessions)
    {
      r := adapter.UpdateSession(id, session);
    }
  }
}
