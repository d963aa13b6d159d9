/**
 * `AnonProvider`: sign-up without credentials. The user gets an ANON key whose
 * identification is a random string of `idLength` hex digits; `randomBytes` are the bytes
 * `randomBytes(idLength / 2)` would draw.
 */
module AnonProviders {
  import opened Common
  import opened AuthTypes
  import opened Storage
  import opened ServerHelpers
  import opened UserManagers
  import opened KeyManagers
  import opened SessionManagers

  const IdLength: nat := 16

  /** The identification of an anonymous key drawn from these bytes. */
  function AnonIdentification(randomBytes: seq<byte>): (id: string)
    requires |randomBytes| == IdLength / 2
    ensures |id| == IdLength && forall i :: 0 <= i < |id| ==> IsHexDigit(id[i])
    ensures HexDecode(id) == randomBytes
  {
    RandomStringSecure(IdLength, randomBytes)
  }

  /** Different random draws give different anonymous identities. */
  lemma DistinctDrawsDistinctIdentities(a: seq<byte>, b: seq<byte>)
    requires |a| == |b| == IdLength / 2 && a != b
    ensures AnonIdentification(a) != AnonIdentification(b)
  {
    assert HexDecode(AnonIdentification(a)) == a;
  }

  class AnonProvider {
    const user: UserManager
    const key: KeyManager
    const session: SessionManager
    const db: Database

    predicate Wired() {
      user.adapter.db == db && key.adapter.db == db && session.adapter.db == db
    }

    constructor (user: UserManager, key: KeyManager, session: SessionManager)
      requires user.adapter.db == key.adapter.db == session.adapter.db
      ensures Wired() && this.db == user.adapter.db
      ensures this.user == user && this.key == key && this.session == session
    {
      this.user := user;
      this.key := key;
      this.session := session;
      this.db := user.adapter.db;
    }

    /**
     * `signUp`: one transaction creating a user with no profile fields, an ANON key without a
     * secret whose identification is 16 random hex digits, and a session linked to both; the
     * `-1` placeholder ids in the session body are replaced by the new ids.
     */
    method SignUp(idBytes: seq<byte>, sessionBytes: seq<byte>, now: int) returns (r: Result<Everything>)
      requires Wired() && db.Valid()
      requires |idBytes| == IdLength / 2 && |sessionBytes| == session.sessionLength / 2
      modifies db`users, db`userSerial, db`keys, db`keySerial, db`sessions, db`sessionSerial
      ensures db.Valid()
      ensures r.Ok? <==> !IdentityTaken(old(db.keys), ANON, AnonIdentification(idBytes))
      ensures r.Ok? ==> && Linked(r.value)
                        && r.value.user == NewUserRow(old(db.userSerial), NoUserFields, now)
                        && r.value.user.email.None? && r.value.user.firstName.None?
                        && r.value.user.lastName.None? && r.value.user.photoUrl.None?
                        && r.value.key == Key(old(db.keySerial), old(db.userSerial), ANON, AnonIdentification(idBytes), None)
                        && r.value.session == Session(old(db.sessionSerial), session.CreateBody(-1, -1, sessionBytes, now).token,
                                                      old(db.userSerial), old(db.keySerial),
                                                      Some(now + session.sessionDurationMin * 60000))
                        && db.users == old(db.users)[r.value.user.id := r.value.user]
                        && db.keys == old(db.keys)[r.value.key.id := r.value.key]
                        && db.sessions == old(db.sessions)[r.value.session.id := r.value.session]
      ensures r.Err? ==> db.users == old(db.users) && db.keys == old(db.keys) && db.sessions == old(db.sessions)
    {
      r := user.CreateWithEverything(KeyData(ANON, AnonIdentification(idBytes), None),
                                     session.CreateBody(-1, -1, sessionBytes, now), NoUserFields, now);
    }
  }
}
