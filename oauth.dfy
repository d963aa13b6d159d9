/**
 * The OAuth sign-in flow that `GoogleProvider` and `FacebookProvider` both implement, line for
 * line: a random anti-forgery state kept in a cookie, the callback's state check, the checks on
 * the token and profile responses, and then either a session for the user already holding the
 * provider's key (with empty profile fields filled in) or three separate creates for a new
 * user. The providers differ only in the state cookie's name, the key kind and how their
 * profile's fields are named; the token exchange and profile requests are inputs.
 */
module OAuth {
  import opened Common
  import opened Decimal
  import opened AuthTypes
  import opened Storage
  import opened Adapter
  import opened ServerHelpers
  import opened UserManagers
  import opened KeyManagers
  import opened SessionManagers

  const SessionIdCookieName := "auth_session"
  const UserIdCookieName := "user_id"
  const OneHourAsSec := 3600
  const OneYearAsSec := 31536000
  /** `getRandomStringSecure(32)`: the length of the state. */
  const StateLength: nat := 32

  /** A cookie as the response sets it: its value and `maxAge` in seconds (path and flags left out). */
  datatype Cookie = Cookie(value: string, maxAge: int)

  /** The request's cookies, as SvelteKit's `cookies` object reads and sets them. */
  class Cookies {
    var jar: map<string, Cookie>

    constructor (jar: map<string, Cookie>)
      ensures this.jar == jar
    {
      this.jar := jar;
    }

    /** `cookies.get(name)`. */
    function Get(name: string): (r: Option<string>)
      reads this
      ensures r.Some? <==> name in jar
      ensures r.Some? ==> r.value == jar[name].value
    {
      if name in jar then Some(jar[name].value) else None
    }

    /** `cookies.set(name, value, {maxAge})`. */
    method Set(name: string, value: string, maxAge: int)
      modifies this
      ensures jar == old(jar)[name := Cookie(value, maxAge)]
    {
      jar := jar[name := Cookie(value, maxAge)];
    }
  }

  /**
   * `setSession`'s lifetime for the session cookies, in seconds: the time left until the
   * session expires, or a year for a session without expiry.
   */
  function SessionCookieMaxAge(s: Session, now: int): (maxAge: int)
    ensures s.expiresAt.Some? ==> now + maxAge * 1000 <= s.expiresAt.value < now + (maxAge + 1) * 1000
    ensures s.expiresAt.None? ==> maxAge == OneYearAsSec
  {
    if s.expiresAt.Some? then (s.expiresAt.value - now) / 1000 else OneYearAsSec
  }

  /**
   * The same lifetime as `setSession` computes it: `expiresAt.getTime() - Date.now()` is a
   * number of milliseconds, used where `maxAge` takes seconds.
   */
  function SessionCookieMaxAgeAsWritten(s: Session, now: int): (maxAge: int)
    ensures s.expiresAt.Some? ==> 1000 * SessionCookieMaxAge(s, now) <= maxAge < 1000 * SessionCookieMaxAge(s, now) + 1000
    ensures s.expiresAt.None? ==> maxAge == SessionCookieMaxAge(s, now)
  {
    if s.expiresAt.Some? then s.expiresAt.value - now else OneYearAsSec
  }

  /** As written, a session cookie outlives its session a thousandfold. */
  lemma SessionCookieOutlivesSession(s: Session, now: int)
    requires s.expiresAt.Some? && s.expiresAt.value > now
    ensures SessionCookieMaxAgeAsWritten(s, now) >= 1000 * SessionCookieMaxAge(s, now)
    ensures now + SessionCookieMaxAgeAsWritten(s, now) * 1000 > s.expiresAt.value
    ensures now + SessionCookieMaxAge(s, now) * 1000 <= s.expiresAt.value
  {
  }

  /** For a one-hour session, the cookie as written lasts 3600000 seconds, about 41 days. */
  lemma SessionCookieOneHourExample()
    ensures SessionCookieMaxAgeAsWritten(Session(1, "t", 1, 1, Some(3600000)), 0) == 3600000
    ensures SessionCookieMaxAge(Session(1, "t", 1, 1, Some(3600000)), 0) == 3600
  {
  }

  /**
   * `setSession(cookies, s)`: the `id:token` cookie and the script-readable user id cookie,
   * both for the session's remaining lifetime.
   */
  function WithSessionCookies(jar: map<string, Cookie>, s: Session, now: int): (r: map<string, Cookie>)
    ensures SessionIdCookieName in r && r[SessionIdCookieName].value == IdTokenForCookie(s)
    ensures UserIdCookieName in r && r[UserIdCookieName].value == IntToDecimal(s.userId)
    ensures forall name :: name in jar && name != SessionIdCookieName && name != UserIdCookieName ==> name in r && r[name] == jar[name]
  {
    jar[SessionIdCookieName := Cookie(IdTokenForCookie(s), SessionCookieMaxAge(s, now))]
       [UserIdCookieName := Cookie(IntToDecimal(s.userId), SessionCookieMaxAge(s, now))]
  }

  /** The profile fields the flow reads, each possibly missing from the provider's answer. */
  datatype Profile = Profile(id: Option<string>, email: Option<string>, firstName: Option<string>,
                             lastName: Option<string>, photoUrl: Option<string>)

  /** The token endpoint's answer; only `access_token` is read. */
  datatype TokenResponse = TokenResponse(accessToken: Option<string>)

  /** The callback is genuine: a state was sent, one was stored, they agree, and there is a code. */
  predicate StateAccepted(state: string, storedState: Option<string>, code: string) {
    state != "" && Truthy(storedState) && state == storedState.value && code != ""
  }

  /** `x || null`: a missing or empty string becomes null. */
  function OrNull(x: Option<string>): (r: Option<string>)
    ensures r.Some? <==> Truthy(x)
    ensures r.Some? ==> r == x
  {
    if Truthy(x) then x else None
  }

  /** One field of the backfill: set only if the user's value is empty and the profile's is not. */
  function Fill(current: Option<string>, offered: Option<string>): (f: Field<Option<string>>)
    ensures f.Present? <==> !Truthy(current) && Truthy(offered)
    ensures f.Present? ==> f.value == offered
  {
    if !Truthy(current) && Truthy(offered) then Present(offered) else Absent
  }

  /** The `update` object of the existing-key branch, built field by field. */
  function Backfill(u: User, p: Profile): UserPatch {
    UserPatch(Fill(u.email, p.email), Fill(u.firstName, p.firstName), Fill(u.lastName, p.lastName),
              Fill(u.photoUrl, p.photoUrl))
  }

  /** The user fields of a new user: each profile field, or null when it is missing or empty. */
  function NewUserFields(p: Profile): UserPatch {
    UserPatch(Present(OrNull(p.email)), Present(OrNull(p.firstName)), Present(OrNull(p.lastName)),
              Present(OrNull(p.photoUrl)))
  }

  /** The value a field ends with after the backfill. */
  function Filled(current: Option<string>, offered: Option<string>): Option<string> {
    if Truthy(current) then current else if Truthy(offered) then offered else current
  }

  /**
   * The backfill never overwrites: a non-empty user field keeps its value, an empty one takes
   * the profile's non-empty value, and the row's id and dates are untouched.
   */
  lemma BackfillOnlyFillsEmpty(u: User, p: Profile)
    ensures var v := Backfill(u, p).ApplyTo(u);
            && v.id == u.id && v.createdAt == u.createdAt && v.updatedAt == u.updatedAt
            && v.email == Filled(u.email, p.email) && v.firstName == Filled(u.firstName, p.firstName)
            && v.lastName == Filled(u.lastName, p.lastName) && v.photoUrl == Filled(u.photoUrl, p.photoUrl)
  {
  }

  /** `user.update` runs exactly when some field is empty in the row and offered by the profile. */
  lemma BackfillEmptyIff(u: User, p: Profile)
    ensures Backfill(u, p).IsEmpty() <==>
              && !(!Truthy(u.email) && Truthy(p.email)) && !(!Truthy(u.firstName) && Truthy(p.firstName))
              && !(!Truthy(u.lastName) && Truthy(p.lastName)) && !(!Truthy(u.photoUrl) && Truthy(p.photoUrl))
  {
  }

  /** Signing in twice with the same profile fills nothing the second time. */
  lemma BackfillIdempotent(u: User, p: Profile)
    ensures Backfill(Backfill(u, p).ApplyTo(u), p).IsEmpty()
  {
  }

  /** A new user's empty profile fields are stored as null, never as the empty string. */
  lemma NewUserHasNoEmptyFields(id: int, p: Profile, now: int)
    ensures var u := NewUserRow(id, NewUserFields(p), now);
            && (u.email.Some? ==> u.email.value != "") && (u.firstName.Some? ==> u.firstName.value != "")
            && (u.lastName.Some? ==> u.lastName.value != "") && (u.photoUrl.Some? ==> u.photoUrl.value != "")
            && (Truthy(p.email) ==> u.email == p.email) && (Truthy(p.photoUrl) ==> u.photoUrl == p.photoUrl)
  {
  }

  /** The state that `getRedirectURL` both sends and stores passes the callback's check with any code, and only it does. */
  lemma RedirectStateAccepted(randomBytes: seq<byte>, state: string, code: string)
    requires |randomBytes| == StateLength / 2
    ensures StateAccepted(state, Some(RandomStringSecure(StateLength, randomBytes)), code) <==>
              state == RandomStringSecure(StateLength, randomBytes) && code != ""
  {
  }

  /**
   * One OAuth provider: the managers it works through, its client credentials, the name of
   * its state cookie and the kind of key it issues.
   */
  class OAuthProvider {
    const user: UserManager
    const key: KeyManager
    const session: SessionManager
    const clientId: string
    const clientSecret: string
    const redirectUri: string
    const authCookieName: string
    const kind: KeyKind
    const db: Database

    predicate Wired() {
      user.adapter.db == db && key.adapter.db == db && session.adapter.db == db
    }

    constructor (user: UserManager, key: KeyManager, session: SessionManager, clientId: string, clientSecret: string,
                 redirectUri: string, authCookieName: string, kind: KeyKind)
      requires user.adapter.db == key.adapter.db == session.adapter.db
      ensures Wired() && this.db == user.adapter.db
      ensures this.user == user && this.key == key && this.session == session
      ensures this.clientId == clientId && this.clientSecret == clientSecret && this.redirectUri == redirectUri
      ensures this.authCookieName == authCookieName && this.kind == kind
    {
      this.user := user;
      this.key := key;
      this.session := session;
      this.clientId := clientId;
      this.clientSecret := clientSecret;
      this.redirectUri := redirectUri;
      this.authCookieName := authCookieName;
      this.kind := kind;
      this.db := user.adapter.db;
    }

    /**
     * `getRedirectURL`: a fresh 32-digit state, returned (it is the URL's `state` parameter)
     * and stored in the state cookie for an hour.
     */
    method GetRedirectURL(cookies: Cookies, randomBytes: seq<byte>) returns (state: string)
      requires |randomBytes| == StateLength / 2
      modifies cookies
      ensures state == RandomStringSecure(StateLength, randomBytes) && |state| == StateLength
      ensures cookies.jar == old(cookies.jar)[authCookieName := Cookie(state, OneHourAsSec)]
      ensures cookies.Get(authCookieName) == Some(state)
    {
      state := RandomStringSecure(StateLength, randomBytes);
      cookies.Set(authCookieName, state, OneHourAsSec);
    }

    /**
     * `validate`: the callback. Errors are the thrown messages, in the order the checks run.
     * An existing key gets a session (created even when its user then turns out to be
     * missing) and its user's empty fields filled from the profile. Otherwise a user, a key
     * and a session are created one after the other, not in one transaction, and the session
     * cookies are set. Both successful branches clear the state cookie.
     */
    method Validate(code: string, state: string, cookies: Cookies, token: TokenResponse, profile: Profile,
                    randomBytes: seq<byte>, now: int) returns (r: Result<Everything>)
      requires Wired() && db.Valid() && |randomBytes| == session.sessionLength / 2
      modifies db`users, db`userSerial, db`keys, db`keySerial, db`sessions, db`sessionSerial, cookies
      ensures db.Valid()
      ensures !StateAccepted(state, old(cookies.Get(authCookieName)), code) ==>
                r == Err("invalid state") && unchanged(db) && unchanged(cookies)
      ensures StateAccepted(state, old(cookies.Get(authCookieName)), code) && !Truthy(token.accessToken) ==>
                r == Err("Invalid token") && unchanged(db) && unchanged(cookies)
      ensures StateAccepted(state, old(cookies.Get(authCookieName)), code) && Truthy(token.accessToken) && !Truthy(profile.id) ==>
                r == Err("Invalid user") && unchanged(db) && unchanged(cookies)
      ensures StateAccepted(state, old(cookies.Get(authCookieName)), code) && Truthy(token.accessToken) && Truthy(profile.id) ==>
                var ek := KeyByIdentity(old(db.keys), kind, profile.id.value);
                && (ek.Some? ==>
                      var s := Session(old(db.sessionSerial), session.CreateBody(ek.value.userId, ek.value.id, randomBytes, now).token,
                                       ek.value.userId, ek.value.id, Some(now + session.sessionDurationMin * 60000));
                      && db.sessions == old(db.sessions)[s.id := s] && db.keys == old(db.keys)
                      && (ek.value.userId !in old(db.users) ==>
                            r == Err("Failed to create session") && db.users == old(db.users) && unchanged(cookies))
                      && (ek.value.userId in old(db.users) ==>
                            var u := old(db.users)[ek.value.userId];
                            var u' := Backfill(u, profile).ApplyTo(u);
                            && r == Ok(Everything(u', ek.value, s))
                            && db.users == old(db.users)[u.id := u']
                            && cookies.jar == old(cookies.jar)[authCookieName := Cookie("", 0)]))
                && (ek.None? ==>
                      var u := NewUserRow(old(db.userSerial), NewUserFields(profile), now);
                      var k := Key(old(db.keySerial), u.id, kind, profile.id.value, None);
                      var s := Session(old(db.sessionSerial), session.CreateBody(u.id, k.id, randomBytes, now).token,
                                       u.id, k.id, Some(now + session.sessionDurationMin * 60000));
                      && r == Ok(Everything(u, k, s)) && Linked(r.value)
                      && db.users == old(db.users)[u.id := u]
                      && db.keys == old(db.keys)[k.id := k]
                      && db.sessions == old(db.sessions)[s.id := s]
                      && cookies.jar == WithSessionCookies(old(cookies.jar), s, now)[authCookieName := Cookie("", 0)])
    {
      var storedState := cookies.Get(authCookieName);
      if state == "" || !Truthy(storedState) || state != storedState.value || code == "" {
        return Err("invalid state");
      }
      if !Truthy(token.accessToken) {
        return Err("Invalid token");
      }
      if !Truthy(profile.id) {
        return Err("Invalid user");
      }
      var sub := profile.id.value;
      var existingKey := key.FindByIdentification(kind, sub);
      LookupByIdentityIsDetermined(db.keys, kind, sub, existingKey);
      if existingKey.Some? {
        r := SignInWithKey(existingKey.value, cookies, profile, randomBytes, now);
      } else {
        r := SignUpWithProfile(sub, cookies, profile, randomBytes, now);
      }
    }

    /**
     * The branch of `validate` for a key that already exists: a session for it, then the
     * user's empty fields filled from the profile and the state cookie cleared, or an error
     * when the key's user is missing.
     */
    method SignInWithKey(ek: Key, cookies: Cookies, profile: Profile, randomBytes: seq<byte>, now: int)
      returns (r: Result<Everything>)
      requires Wired() && db.Valid() && |randomBytes| == session.sessionLength / 2
      requires ek.id in db.keys && db.keys[ek.id] == ek
      modifies db`users, db`sessions, db`sessionSerial, cookies
      ensures db.Valid()
      ensures var s := Session(old(db.sessionSerial), session.CreateBody(ek.userId, ek.id, randomBytes, now).token,
                               ek.userId, ek.id, Some(now + session.sessionDurationMin * 60000));
              && db.sessions == old(db.sessions)[s.id := s] && db.keys == old(db.keys)
              && (ek.userId !in old(db.users) ==>
                    r == Err("Failed to create session") && db.users == old(db.users) && unchanged(cookies))
              && (ek.userId in old(db.users) ==>
                    var u := old(db.users)[ek.userId];
                    var u' := Backfill(u, profile).ApplyTo(u);
                    && r == Ok(Everything(u', ek, s))
                    && db.users == old(db.users)[u.id := u']
                    && cookies.jar == old(cookies.jar)[authCookieName := Cookie("", 0)])
    {
      var existingUser := user.Get(ek.userId);
      var s := session.Create(ek.userId, ek.id, randomBytes, now);
      if existingUser.None? {
        return Err("Failed to create session");
      }
      var eu := existingUser.value;
      var update := Backfill(eu, profile);
      var updatedUser := existingUser;
      if !update.IsEmpty() {
        updatedUser := user.Update(eu.id, update);
      }
      cookies.Set(authCookieName, "", 0);
      r := Ok(Everything(if updatedUser.Some? then updatedUser.value else eu, ek, s));
    }

    /**
     * The branch of `validate` for an identity seen for the first time: a user, a key and a
     * session created one after the other, then the session cookies set and the state cookie
     * cleared.
     */
    method SignUpWithProfile(sub: string, cookies: Cookies, profile: Profile, randomBytes: seq<byte>, now: int)
      returns (r: Result<Everything>)
      requires Wired() && db.Valid() && |randomBytes| == session.sessionLength / 2
      requires KeyByIdentity(db.keys, kind, sub).None? && profile.id == Some(sub)
      modifies db`users, db`userSerial, db`keys, db`keySerial, db`sessions, db`sessionSerial, cookies
      ensures db.Valid()
      ensures var u := NewUserRow(old(db.userSerial), NewUserFields(profile), now);
              var k := Key(old(db.keySerial), u.id, kind, sub, None);
              var s := Session(old(db.sessionSerial), session.CreateBody(u.id, k.id, randomBytes, now).token,
                               u.id, k.id, Some(now + session.sessionDurationMin * 60000));
              && r == Ok(Everything(u, k, s)) && Linked(r.value)
              && db.users == old(db.users)[u.id := u]
              && db.keys == old(db.keys)[k.id := k]
              && db.sessions == old(db.sessions)[s.id := s]
              && cookies.jar == WithSessionCookies(old(cookies.jar), s, now)[authCookieName := Cookie("", 0)]
    {
      var u := user.Create(NewUserFields(profile), now);
      var k := key.Create(NewKey(u.id, kind, sub, None));
      if k.Err? {
        return Err("Failed to create key");
      }
      var s := session.Create(u.id, k.value.id, randomBytes, now);
      cookies.jar := WithSessionCookies(cookies.jar, s, now);
      cookies.Set(authCookieName, "", 0);
      r := Ok(Everything(u, k.value, s));
    }
  }
}
