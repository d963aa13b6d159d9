/**
 * `EmailProvider`: sign-up and sign-in with an email address and a password, attaching an
 * email key to an existing user, single-use password-reset tokens and password changes.
 * Passwords are peppered and given to bcrypt, which is the parameter `hasher`; the salt
 * `genSalt` would draw and the random bytes behind tokens are inputs.
 */
module EmailProviders {
  import opened Common
  import opened AuthTypes
  import opened Storage
  import opened Adapter
  import opened ServerHelpers
  import opened UserManagers
  import opened KeyManagers
  import opened SessionManagers

  /** bcrypt's `hash(plaintext, salt)` and `compare(plaintext, hash)`. */
  datatype PasswordHasher = PasswordHasher(hash: (string, string) -> string, compare: (string, string) -> bool)

  /** What the model assumes of bcrypt: a hash is never empty and matches the plaintext it came from. */
  ghost predicate Sound(h: PasswordHasher) {
    forall p, salt :: h.hash(p, salt) != "" && h.compare(p, h.hash(p, salt))
  }

  /** Once the only key with an identity is deleted, and another row rewritten, no key has the identity. */
  lemma DeletedIdentityIsFree(keys: map<int, Key>, id: int, kind: KeyKind, identification: string, other: int, k: Key)
    requires KeysUnique(keys) && KeyFor(keys, id, kind, identification)
    requires other != id && k.kind != kind
    ensures !IdentityTaken(keys[other := k] - {id}, kind, identification)
  {
    var after := keys[other := k] - {id};
    if IdentityTaken(after, kind, identification) {
      var x :| x in after && KeyFor(after, x, kind, identification);
      assert KeyFor(keys, x, keys[id].kind, keys[id].identification);
    }
  }

  class EmailProvider {
    const user: UserManager
    const key: KeyManager
    const session: SessionManager
    const hasher: PasswordHasher
    const pepper: string
    /** `DEFAULT_SESSION_LENGTH`, the length of a reset token. */
    const resetTokenLength: nat
    /** The database the three managers share. */
    const db: Database

    /** The managers' adapters all work on `db`. */
    predicate Wired() {
      user.adapter.db == db && key.adapter.db == db && session.adapter.db == db
    }

    constructor (user: UserManager, key: KeyManager, session: SessionManager, hasher: PasswordHasher,
                 pepper: string, resetTokenLength: nat)
      requires user.adapter.db == key.adapter.db == session.adapter.db
      ensures Wired() && this.db == key.adapter.db
      ensures this.user == user && this.key == key && this.session == session
      ensures this.hasher == hasher && this.pepper == pepper && this.resetTokenLength == resetTokenLength
    {
      this.user := user;
      this.key := key;
      this.session := session;
      this.hasher := hasher;
      this.pepper := pepper;
      this.resetTokenLength := resetTokenLength;
      this.db := key.adapter.db;
    }

    /** `hashPassword`: bcrypt of the peppered password. */
    function HashPassword(password: string, salt: string): string {
      hasher.hash(password + pepper, salt)
    }

    /** `checkPassword`: bcrypt's comparison of the peppered password with a stored hash. */
    function CheckPassword(password: string, hash: string): bool {
      hasher.compare(password + pepper, hash)
    }

    /** The password opens the key: it is there, holds a non-empty hash, and the hash matches. */
    predicate Opens(k: Option<Key>, password: string) {
      k.Some? && Truthy(k.value.secret) && CheckPassword(password, k.value.secret.value)
    }

    /** With a sound bcrypt, a password opens the key just made from its hash. */
    lemma HashOpens(password: string, salt: string, k: Key)
      requires Sound(hasher) && k.secret == Some(HashPassword(password, salt))
      ensures Opens(Some(k), password)
    {
    }

    /**
     * What sign-up leaves in the key table lets sign-in succeed: the new email key is the one
     * found for the address, and the same password opens it.
     */
    lemma SignUpThenSignIn(keys: map<int, Key>, id: int, userId: int, email: string, password: string, salt: string)
      requires Sound(hasher) && RowIds(keys) && KeysUnique(keys) && !IdentityTaken(keys, EMAIL, email)
      ensures var k := Key(id, userId, EMAIL, email, Some(HashPassword(password, salt)));
              && KeyByIdentity(keys[id := k], EMAIL, email) == Some(k)
              && Opens(KeyByIdentity(keys[id := k], EMAIL, email), password)
    {
      var k := Key(id, userId, EMAIL, email, Some(HashPassword(password, salt)));
      var after := keys[id := k];
      KeysUniqueAfterReplace(keys, id, k);
      LookupByIdentityIsDetermined(after, EMAIL, email, Some(k));
    }

    /**
     * `signUp`: one transaction creating the user with that email, an EMAIL key holding the
     * password's hash, and a session for both; an address that already has a key is refused.
     */
    method SignUp(email: string, password: string, salt: string, randomBytes: seq<byte>, now: int)
      returns (r: Result<Everything>)
      requires Wired() && db.Valid() && |randomBytes| == session.sessionLength / 2
      modifies db`users, db`userSerial, db`keys, db`keySerial, db`sessions, db`sessionSerial
      ensures db.Valid()
      ensures r.Ok? <==> !IdentityTaken(old(db.keys), EMAIL, email)
      ensures r.Ok? ==> && Linked(r.value)
                        && r.value.user == NewUserRow(old(db.userSerial), EmailOnly(email), now)
                        && r.value.user.email == Some(email)
                        && r.value.key == Key(old(db.keySerial), r.value.user.id, EMAIL, email, Some(HashPassword(password, salt)))
                        && r.value.session.token == session.CreateBody(-1, -1, randomBytes, now).token
                        && r.value.session.expiresAt == Some(now + session.sessionDurationMin * 60000)
                        && db.users == old(db.users)[r.value.user.id := r.value.user]
                        && db.keys == old(db.keys)[r.value.key.id := r.value.key]
                        && db.sessions == old(db.sessions)[r.value.session.id := r.value.session]
      ensures r.Err? ==> db.users == old(db.users) && db.keys == old(db.keys) && db.sessions == old(db.sessions)
    {
      var hash := HashPassword(password, salt);
      r := user.CreateWithEverything(KeyData(EMAIL, email, Some(hash)), session.CreateBody(-1, -1, randomBytes, now),
                                     EmailOnly(email), now);
    }

    /**
     * `signIn`: null unless the address has an EMAIL key that the password opens. The session
     * is created alongside the user lookup, so it exists even when the key's user is missing,
     * in which case the answer is null too. A user without an email gets this one.
     */
    method SignIn(email: string, password: string, randomBytes: seq<byte>, now: int) returns (r: Option<Everything>)
      requires Wired() && db.Valid() && |randomBytes| == session.sessionLength / 2
      modifies db`users, db`sessions, db`sessionSerial
      ensures db.Valid()
      ensures var k := KeyByIdentity(old(db.keys), EMAIL, email);
              && (!Opens(k, password) ==> r.None? && unchanged(db))
              && (Opens(k, password) ==>
                    var s := Session(old(db.sessionSerial), session.CreateBody(k.value.userId, k.value.id, randomBytes, now).token,
                                     k.value.userId, k.value.id, Some(now + session.sessionDurationMin * 60000));
                    && db.sessions == old(db.sessions)[s.id := s]
                    && (k.value.userId !in old(db.users) ==> r.None? && db.users == old(db.users))
                    && (k.value.userId in old(db.users) ==>
                          var u := old(db.users)[k.value.userId];
                          var u' := if Truthy(u.email) then u else u.(email := Some(email));
                          && r == Some(Everything(u', k.value, s))
                          && db.users == old(db.users)[u.id := u']))
    {
      var k := key.FindByIdentification(EMAIL, email);
      LookupByIdentityIsDetermined(db.keys, EMAIL, email, k);
      if k.None? || !Truthy(k.value.secret) {
        return None;
      }
      if !CheckPassword(password, k.value.secret.value) {
        return None;
      }
      var existingUser := user.Get(k.value.userId);
      var s := session.Create(k.value.userId, k.value.id, randomBytes, now);
      if existingUser.None? {
        return None;
      }
      var updatedUser := existingUser;
      if !Truthy(existingUser.value.email) {
        updatedUser := user.Update(existingUser.value.id, EmailOnly(email));
      }
      r := Some(Everything(if updatedUser.Some? then updatedUser.value else existingUser.value, k.value, s));
    }

    /** `attach`: an EMAIL key for an existing user; refused when the address already has a key. */
    method Attach(userId: int, email: string, password: string, salt: string) returns (r: Result<Key>)
      requires Wired() && db.Valid()
      modifies db`keys, db`keySerial
      ensures db.Valid()
      ensures r.Ok? <==> !IdentityTaken(old(db.keys), EMAIL, email)
      ensures r.Ok? ==> r.value == Key(old(db.keySerial), userId, EMAIL, email, Some(HashPassword(password, salt)))
                        && db.keys == old(db.keys)[r.value.id := r.value]
      ensures r.Err? ==> db.keys == old(db.keys) && db.keySerial == old(db.keySerial)
    {
      r := key.Create(NewKey(userId, EMAIL, email, Some(HashPassword(password, salt))));
    }

    /** `getUserByEmail`: the owner of the address's EMAIL key, if both exist. */
    method GetUserByEmail(email: string) returns (r: Option<User>)
      requires Wired() && db.Valid()
      ensures var k := KeyByIdentity(db.keys, EMAIL, email);
              r == if k.Some? && k.value.userId in db.users then Some(db.users[k.value.userId]) else None
    {
      var k := key.FindByIdentification(EMAIL, email);
      LookupByIdentityIsDetermined(db.keys, EMAIL, email, k);
      if k.None? {
        return None;
      }
      r := user.Get(k.value.userId);
    }

    /**
     * `createPasswordResetToken`: null for an address without an EMAIL key; otherwise a
     * RESET_PASSWORD_TOKEN key without a secret, owned by the same user, whose identification
     * is a fresh token of `resetTokenLength` hex digits.
     */
    method CreatePasswordResetToken(email: string, randomBytes: seq<byte>) returns (r: Result<Option<Key>>)
      requires Wired() && db.Valid() && |randomBytes| == resetTokenLength / 2
      modifies db`keys, db`keySerial
      ensures db.Valid()
      ensures var k := KeyByIdentity(old(db.keys), EMAIL, email);
              var token := RandomStringSecure(resetTokenLength, randomBytes);
              && (k.None? ==> r == Ok(None) && db.keys == old(db.keys) && db.keySerial == old(db.keySerial))
              && (k.Some? ==> (r.Ok? <==> !IdentityTaken(old(db.keys), RESET_PASSWORD_TOKEN, token)))
              && (k.Some? && r.Ok? ==>
                    && r.value == Some(Key(old(db.keySerial), k.value.userId, RESET_PASSWORD_TOKEN, token, None))
                    && db.keys == old(db.keys)[old(db.keySerial) := r.value.value])
              && (r.Err? ==> db.keys == old(db.keys) && db.keySerial == old(db.keySerial))
    {
      var k := key.FindByIdentification(EMAIL, email);
      LookupByIdentityIsDetermined(db.keys, EMAIL, email, k);
      if k.None? {
        return Ok(None);
      }
      var created := key.Create(NewKey(k.value.userId, RESET_PASSWORD_TOKEN, RandomStringSecure(resetTokenLength, randomBytes), None));
      r := if created.Ok? then Ok(Some(created.value)) else Err(created.message);
    }

    /**
     * `validatePasswordResetToken`: null, changing nothing, unless the token is a reset key and
     * its user has an EMAIL key, and then always a session. The EMAIL key gets the new password's hash, the reset key
     * is deleted (the token cannot be used again), all the user's sessions end, and one new
     * session is issued on the EMAIL key.
     */
    method ValidatePasswordResetToken(token: string, newPassword: string, salt: string, randomBytes: seq<byte>, now: int)
      returns (r: Option<Session>)
      requires Wired() && db.Valid() && |randomBytes| == session.sessionLength / 2
      modifies db`keys, db`sessions, db`sessionSerial
      ensures db.Valid()
      ensures var rk := KeyByIdentity(old(db.keys), RESET_PASSWORD_TOKEN, token);
              && (rk.None? ==> r.None? && unchanged(db))
              && ((rk.Some? && forall id :: id in old(db.keys) ==> !(old(db.keys)[id].kind == EMAIL && old(db.keys)[id].userId == rk.value.userId))
                  ==> r.None? && unchanged(db))
              && ((rk.Some? && exists id :: id in old(db.keys) && old(db.keys)[id].kind == EMAIL && old(db.keys)[id].userId == rk.value.userId)
                  ==> r.Some?)
              && (r.None? ==> unchanged(db))
              && (r.Some? ==>
                    && rk.Some? && r.value.userId == rk.value.userId && r.value.keyId in old(db.keys)
                    && var ek := old(db.keys)[r.value.keyId];
                    && ek.kind == EMAIL && ek.userId == rk.value.userId
                    && db.keys == old(db.keys)[ek.id := ek.(secret := Some(HashPassword(newPassword, salt)))] - {rk.value.id}
                    && !IdentityTaken(db.keys, RESET_PASSWORD_TOKEN, token)
                    && r.value == Session(old(db.sessionSerial), session.CreateBody(ek.userId, ek.id, randomBytes, now).token,
                                          ek.userId, ek.id, Some(now + session.sessionDurationMin * 60000))
                    && db.sessions == SessionsWithoutUser(old(db.sessions), rk.value.userId)[r.value.id := r.value])
    {
      var resetPasswordKey := key.FindByIdentification(RESET_PASSWORD_TOKEN, token);
      LookupByIdentityIsDetermined(db.keys, RESET_PASSWORD_TOKEN, token, resetPasswordKey);
      if resetPasswordKey.None? {
        return None;
      }
      var emailKey := key.FindByUserId(EMAIL, resetPasswordKey.value.userId);
      if emailKey.None? {
        return None;
      }
      var ek := emailKey.value;
      var rk := resetPasswordKey.value;
      ghost var keys0 := db.keys;
      var hash := HashPassword(newPassword, salt);
      assert !IdentityTakenByOther(db.keys, ek.id, ek.(secret := Some(hash)));
      var _ := key.Update(ek.id, KeyPatch(Absent, Present(EMAIL), Present(ek.identification), Present(Some(hash))));
      key.Delete(rk.id);
      DeletedIdentityIsFree(keys0, rk.id, RESET_PASSWORD_TOKEN, token, ek.id, ek.(secret := Some(hash)));
      session.DeleteAll(rk.userId);
      var s := session.Create(ek.userId, ek.id, randomBytes, now);
      r := Some(s);
    }

    /** `isEmailTaken`: some EMAIL key has this address. */
    method IsEmailTaken(email: string) returns (taken: bool)
      requires Wired() && db.Valid()
      ensures taken <==> IdentityTaken(db.keys, EMAIL, email)
    {
      var k := key.FindByIdentification(EMAIL, email);
      taken := k.Some?;
    }

    /**
     * `changePassword`: null, changing nothing, unless the EMAIL key the lookup finds for the
     * user is opened by the old password. Then that key gets the new hash, all the user's
     * sessions end, and one new session is issued on the key. A user whose every EMAIL key is
     * opened by the old password always succeeds.
     */
    method ChangePassword(userId: int, oldPassword: string, newPassword: string, salt: string, randomBytes: seq<byte>, now: int)
      returns (r: Option<Session>)
      requires Wired() && db.Valid() && |randomBytes| == session.sessionLength / 2
      modifies db`keys, db`sessions, db`sessionSerial
      ensures db.Valid()
      ensures (forall id :: id in old(db.keys) && old(db.keys)[id].kind == EMAIL && old(db.keys)[id].userId == userId
                 ==> !Opens(Some(old(db.keys)[id]), oldPassword)) ==> r.None?
      ensures (exists id :: id in old(db.keys) && old(db.keys)[id].kind == EMAIL && old(db.keys)[id].userId == userId)
              && (forall id :: id in old(db.keys) && old(db.keys)[id].kind == EMAIL && old(db.keys)[id].userId == userId
                    ==> Opens(Some(old(db.keys)[id]), oldPassword))
              ==> r.Some?
      ensures r.None? ==> unchanged(db)
      ensures r.Some? ==>
                && r.value.keyId in old(db.keys)
                && var k := old(db.keys)[r.value.keyId];
                && k.kind == EMAIL && k.userId == userId && Opens(Some(k), oldPassword)
                && db.keys == old(db.keys)[k.id := k.(secret := Some(HashPassword(newPassword, salt)))]
                && r.value == Session(old(db.sessionSerial), session.CreateBody(userId, k.id, randomBytes, now).token,
                                      userId, k.id, Some(now + session.sessionDurationMin * 60000))
                && db.sessions == SessionsWithoutUser(old(db.sessions), userId)[r.value.id := r.value]
    {
      var k := key.FindByUserId(EMAIL, userId);
      if k.None? || !Truthy(k.value.secret) {
        return None;
      }
      if !CheckPassword(oldPassword, k.value.secret.value) {
        return None;
      }
      var newHash := HashPassword(newPassword, salt);
      assert !IdentityTakenByOther(db.keys, k.value.id, k.value.(secret := Some(newHash)));
      var _ := key.Update(k.value.id, KeyPatch(Absent, Absent, Absent, Present(Some(newHash))));
      session.DeleteAll(userId);
      var s := session.Create(userId, k.value.id, randomBytes, now);
      r := Some(s);
    }
  }

  /** After a reset or a password change, the user's only session is the one just issued. */
  lemma OnlyNewSessionRemains(sessions: map<int, Session>, userId: int, s: Session)
    requires s.userId == userId
    ensures var after := SessionsWithoutUser(sessions, userId)[s.id := s];
            s.id in after && forall id :: id in after && after[id].userId == userId ==> id == s.id
  {
  }
}
