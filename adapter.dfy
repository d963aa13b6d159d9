/**
 * `PostgresAdapter`: every method is one SQL statement (or, for `createUserWithEverything`, one
 * transaction) over the tables of `Storage.Database`, given the meaning of its `WHERE` clause.
 * `NOW()` is the parameter `now`.
 */
module Adapter {
  import opened Common
  import opened AuthTypes
  import opened Storage

  /** `DELETE FROM sessions WHERE user_id = userId`. */
  function SessionsWithoutUser(sessions: map<int, Session>, userId: int): (r: map<int, Session>)
    ensures forall id :: id in r ==> r[id].userId != userId
    ensures forall id :: id in sessions && sessions[id].userId != userId ==> id in r && r[id] == sessions[id]
    ensures r.Keys <= sessions.Keys
  {
    map id | id in sessions && sessions[id].userId != userId :: sessions[id]
  }

  /** `DELETE FROM sessions WHERE expires_at < NOW()`. */
  function UnexpiredSessions(sessions: map<int, Session>, now: int): (r: map<int, Session>)
    ensures forall id :: id in r ==> !Expired(r[id], now)
    ensures forall id :: id in sessions && !Expired(sessions[id], now) ==> id in r && r[id] == sessions[id]
    ensures r.Keys <= sessions.Keys
  {
    map id | id in sessions && !Expired(sessions[id], now) :: sessions[id]
  }

  /** `DELETE FROM sessions WHERE id = id AND token = token`. */
  function SessionsWithoutIdToken(sessions: map<int, Session>, id: int, token: string): (r: map<int, Session>)
    ensures id in sessions && sessions[id].token == token ==> r == sessions - {id}
    ensures !(id in sessions && sessions[id].token == token) ==> r == sessions
  {
    if id in sessions && sessions[id].token == token then sessions - {id} else sessions
  }

  /** The answer of `SELECT * FROM keys WHERE kind = kind AND identification = identification`. */
  predicate IsKeyByIdentification(keys: map<int, Key>, kind: KeyKind, identification: string, r: Option<Key>) {
    match r
    case Some(k) => KeyFor(keys, k.id, kind, identification) && keys[k.id] == k
    case None => !IdentityTaken(keys, kind, identification)
  }

  /** An answer of `SELECT * FROM keys WHERE kind = kind AND user_id = userId`: any matching row. */
  predicate IsKeyByUserId(keys: map<int, Key>, kind: KeyKind, userId: int, r: Option<Key>) {
    match r
    case Some(k) => k.id in keys && keys[k.id] == k && k.kind == kind && k.userId == userId
    case None => forall id :: id in keys ==> !(keys[id].kind == kind && keys[id].userId == userId)
  }

  /** `SELECT * FROM keys WHERE user_id = userId`: each matching row once, in some order. */
  ghost predicate IsKeysOf(keys: map<int, Key>, userId: int, r: seq<Key>) {
    && (forall k :: k in r <==> k.id in keys && keys[k.id] == k && k.userId == userId)
    && (forall i, j :: 0 <= i < j < |r| ==> r[i].id != r[j].id)
  }

  /** `SELECT * FROM sessions WHERE user_id = userId`. */
  ghost predicate IsSessionsOf(sessions: map<int, Session>, userId: int, r: seq<Session>) {
    && (forall s :: s in r <==> s.id in sessions && sessions[s.id] == s && s.userId == userId)
    && (forall i, j :: 0 <= i < j < |r| ==> r[i].id != r[j].id)
  }

  /** A key other than row `id` already has the identity of `k`. */
  predicate IdentityTakenByOther(keys: map<int, Key>, id: int, k: Key) {
    exists other :: other in keys && other != id && KeyFor(keys, other, k.kind, k.identification)
  }

  /** Replacing one key row keeps the table unique when no other row has the new identity. */
  lemma KeysUniqueAfterReplace(keys: map<int, Key>, id: int, k: Key)
    requires KeysUnique(keys)
    requires !IdentityTakenByOther(keys, id, k)
    ensures KeysUnique(keys[id := k])
  {
    var keys' := keys[id := k];
    forall a, b | a in keys' && b in keys' && KeyFor(keys', a, keys'[b].kind, keys'[b].identification)
      ensures a == b
    {
      if a != id && b != id {
        assert KeyFor(keys, a, keys[b].kind, keys[b].identification);
      }
    }
  }

  /** Every key row carries its own id. */
  ghost predicate RowIds(keys: map<int, Key>) {
    forall id :: id in keys ==> keys[id].id == id
  }

  /** The key with this identity, which the uniqueness rule makes the only one. */
  ghost function KeyByIdentity(keys: map<int, Key>, kind: KeyKind, identification: string): (r: Option<Key>)
    requires RowIds(keys)
    ensures IsKeyByIdentification(keys, kind, identification, r)
  {
    if IdentityTaken(keys, kind, identification) then
      var id :| id in keys && KeyFor(keys, id, kind, identification);
      Some(keys[id])
    else None
  }

  /** A lookup by identity has one possible answer. */
  lemma LookupByIdentityIsDetermined(keys: map<int, Key>, kind: KeyKind, identification: string, r: Option<Key>)
    requires RowIds(keys) && KeysUnique(keys) && IsKeyByIdentification(keys, kind, identification, r)
    ensures r == KeyByIdentity(keys, kind, identification)
  {
    var expected := KeyByIdentity(keys, kind, identification);
    if r.Some? && expected.Some? {
      assert KeyFor(keys, expected.value.id, keys[r.value.id].kind, keys[r.value.id].identification);
    }
  }

  class PostgresAdapter {
    const db: Database

    constructor (db: Database)
      ensures this.db == db
    {
      this.db := db;
    }

    /** `INSERT INTO keys <key> RETURNING *`; a second key for the same identity is refused. */
    method CreateKey(key: NewKey) returns (r: Result<Key>)
      requires db.Valid()
      modifies db`keys, db`keySerial
      ensures db.Valid()
      ensures r.Ok? <==> !IdentityTaken(old(db.keys), key.kind, key.identification)
      ensures r.Ok? ==> r.value == Key(old(db.keySerial), key.userId, key.kind, key.identification, key.secret)
      ensures r.Ok? ==> db.keys == old(db.keys)[r.value.id := r.value] && db.keySerial == old(db.keySerial) + 1
      ensures r.Err? ==> db.keys == old(db.keys) && db.keySerial == old(db.keySerial)
    {
      if IdentityTaken(db.keys, key.kind, key.identification) {
        return Err("duplicate key value violates unique constraint");
      }
      var k := Key(db.keySerial, key.userId, key.kind, key.identification, key.secret);
      KeysUniqueAfterReplace(db.keys, k.id, k);
      db.keys := db.keys[k.id := k];
      db.keySerial := db.keySerial + 1;
      r := Ok(k);
    }

    /** `INSERT INTO sessions <session> RETURNING *`. */
    method CreateSession(session: SessionBase) returns (s: Session)
      requires db.Valid()
      modifies db`sessions, db`sessionSerial
      ensures db.Valid()
      ensures s == Session(old(db.sessionSerial), session.token, session.userId, session.keyId, session.expiresAt)
      ensures db.sessions == old(db.sessions)[s.id := s] && db.sessionSerial == old(db.sessionSerial) + 1
    {
      s := Session(db.sessionSerial, session.token, session.userId, session.keyId, session.expiresAt);
      db.sessions := db.sessions[s.id := s];
      db.sessionSerial := db.sessionSerial + 1;
    }

    /**
     * `INSERT INTO users <payload> RETURNING *`, or `DEFAULT VALUES` without a payload: the
     * absent payload is `NoUserFields`, since both give every profile column its default.
     */
    method CreateUser(payload: UserPatch, now: int) returns (u: User)
      requires db.Valid()
      modifies db`users, db`userSerial
      ensures db.Valid()
      ensures u == NewUserRow(old(db.userSerial), payload, now)
      ensures db.users == old(db.users)[u.id := u] && db.userSerial == old(db.userSerial) + 1
    {
      u := NewUserRow(db.userSerial, payload, now);
      db.users := db.users[u.id := u];
      db.userSerial := db.userSerial + 1;
    }

    /**
     * One transaction of three inserts: the user, then the key owned by the new user, then the
     * session owned by both, whatever `userId` and `keyId` the session body carried. When the key
     * insert is refused the transaction rolls back and no table changes.
     */
    method CreateUserWithEverything(key: KeyData, session: SessionBase, user: UserPatch, now: int)
      returns (r: Result<Everything>)
      requires db.Valid()
      modifies db`users, db`userSerial, db`keys, db`keySerial, db`sessions, db`sessionSerial
      ensures db.Valid()
      ensures r.Ok? <==> !IdentityTaken(old(db.keys), key.kind, key.identification)
      ensures r.Ok? ==> Linked(r.value)
      ensures r.Ok? ==> r.value.user == NewUserRow(old(db.userSerial), user, now)
      ensures r.Ok? ==> r.value.key == Key(old(db.keySerial), r.value.user.id, key.kind, key.identification, key.secret)
      ensures r.Ok? ==> r.value.session == Session(old(db.sessionSerial), session.token, r.value.user.id,
                                                   r.value.key.id, session.expiresAt)
      ensures r.Ok? ==> && db.users == old(db.users)[r.value.user.id := r.value.user]
                        && db.keys == old(db.keys)[r.value.key.id := r.value.key]
                        && db.sessions == old(db.sessions)[r.value.session.id := r.value.session]
                        && db.userSerial == old(db.userSerial) + 1
                        && db.keySerial == old(db.keySerial) + 1
                        && db.sessionSerial == old(db.sessionSerial) + 1
      ensures r.Err? ==> && db.users == old(db.users) && db.keys == old(db.keys) && db.sessions == old(db.sessions)
                         && db.userSerial == old(db.userSerial) && db.keySerial == old(db.keySerial)
                         && db.sessionSerial == old(db.sessionSerial)
    {
      if IdentityTaken(db.keys, key.kind, key.identification) {
        return Err("duplicate key value violates unique constraint");
      }
      var u := CreateUser(user, now);
      var k := CreateKey(NewKey(u.id, key.kind, key.identification, key.secret));
      var s := CreateSession(session.(userId := u.id, keyId := k.value.id));
      r := Ok(Everything(u, k.value, s));
    }

    /** `UPDATE users SET <update> WHERE id = id RETURNING *`. */
    method UpdateUser(id: int, update: UserPatch) returns (r: Option<User>)
      requires db.Valid() && !update.IsEmpty()
      modifies db`users
      ensures db.Valid()
      ensures r.Some? <==> id in old(db.users)
      ensures r.Some? ==> r.value == update.ApplyTo(old(db.users)[id]) && db.users == old(db.users)[id := r.value]
      ensures r.None? ==> db.users == old(db.users)
    {
      if id !in db.users {
        return None;
      }
      var u := update.ApplyTo(db.users[id]);
      db.users := db.users[id := u];
      r := Some(u);
    }

    method DeleteAllSessions(userId: int)
      requires db.Valid()
      modifies db`sessions
      ensures db.Valid()
      ensures db.sessions == SessionsWithoutUser(old(db.sessions), userId)
    {
      db.sessions := SessionsWithoutUser(db.sessions, userId);
    }

    method DeleteExpiredSessions(now: int)
      requires db.Valid()
      modifies db`sessions
      ensures db.Valid()
      ensures db.sessions == UnexpiredSessions(old(db.sessions), now)
    {
      db.sessions := UnexpiredSessions(db.sessions, now);
    }

    /** `DELETE FROM keys WHERE id = id`. */
    method DeleteKey(id: int)
      requires db.Valid()
      modifies db`keys
      ensures db.Valid()
      ensures db.keys == old(db.keys) - {id}
    {
      db.keys := db.keys - {id};
    }

    /** `DELETE FROM sessions WHERE id = id`. */
    method DeleteSession(id: int)
      requires db.Valid()
      modifies db`sessions
      ensures db.Valid()
      ensures db.sessions == old(db.sessions) - {id}
    {
      db.sessions := db.sessions - {id};
    }

    method DeleteSessionByIdToken(id: int, token: string)
      requires db.Valid()
      modifies db`sessions
      ensures db.Valid()
      ensures db.sessions == SessionsWithoutIdToken(old(db.sessions), id, token)
    {
      db.sessions := SessionsWithoutIdToken(db.sessions, id, token);
    }

    method FindKeyByIdentification(kind: KeyKind, identification: string) returns (r: Option<Key>)
      requires db.Valid()
      ensures IsKeyByIdentification(db.keys, kind, identification, r)
    {
      if IdentityTaken(db.keys, kind, identification) {
        var id :| id in db.keys && KeyFor(db.keys, id, kind, identification);
        r := Some(db.keys[id]);
      } else {
        r := None;
      }
    }

    method FindKeyByUserId(kind: KeyKind, userId: int) returns (r: Option<Key>)
      requires db.Valid()
      ensures IsKeyByUserId(db.keys, kind, userId, r)
    {
      if exists id :: id in db.keys && db.keys[id].kind == kind && db.keys[id].userId == userId {
        var id :| id in db.keys && db.keys[id].kind == kind && db.keys[id].userId == userId;
        r := Some(db.keys[id]);
      } else {
        r := None;
      }
    }

    method GetAllKeys(userId: int) returns (r: seq<Key>)
      requires db.Valid()
      ensures IsKeysOf(db.keys, userId, r)
    {
      var keys := db.keys;
      var ids := IdsWhere(keys, (k: Key) => k.userId == userId);
      r := seq(|ids|, i requires 0 <= i < |ids| && ids[i] in keys => keys[ids[i]]);
      forall k | k in r ensures k.id in keys && keys[k.id] == k && k.userId == userId {
        var i :| 0 <= i < |r| && r[i] == k;
        assert ids[i] in ids;
      }
      forall k: Key | k.id in keys && keys[k.id] == k && k.userId == userId ensures k in r {
        var i :| 0 <= i < |ids| && ids[i] == k.id;
        assert r[i] == k;
      }
    }

    method GetAllSessions(userId: int) returns (r: seq<Session>)
      requires db.Valid()
      ensures IsSessionsOf(db.sessions, userId, r)
    {
      var sessions := db.sessions;
      var ids := IdsWhere(sessions, (s: Session) => s.userId == userId);
      r := seq(|ids|, i requires 0 <= i < |ids| && ids[i] in sessions => sessions[ids[i]]);
      forall s | s in r ensures s.id in sessions && sessions[s.id] == s && s.userId == userId {
        var i :| 0 <= i < |r| && r[i] == s;
        assert ids[i] in ids;
      }
      forall s: Session | s.id in sessions && sessions[s.id] == s && s.userId == userId ensures s in r {
        var i :| 0 <= i < |ids| && ids[i] == s.id;
        assert r[i] == s;
      }
    }

    method GetKey(id: int) returns (r: Option<Key>)
      requires db.Valid()
      ensures r.Some? <==> id in db.keys
      ensures r.Some? ==> r.value == db.keys[id] && r.value.id == id
    {
      r := if id in db.keys then Some(db.keys[id]) else None;
    }

    method GetSession(id: int) returns (r: Option<Session>)
      requires db.Valid()
      ensures r.Some? <==> id in db.sessions
      ensures r.Some? ==> r.value == db.sessions[id] && r.value.id == id
    {
      r := if id in db.sessions then Some(db.sessions[id]) else None;
    }

    method GetUser(id: int) returns (r: Option<User>)
      requires db.Valid()
      ensures r.Some? <==> id in db.users
      ensures r.Some? ==> r.value == db.users[id] && r.value.id == id
    {
      r := if id in db.users then Some(db.users[id]) else None;
    }

    /**
     * `UPDATE keys SET <key> WHERE id = id RETURNING *`: `Ok(None)` when there is no such row, an
     * error when the new `(kind, identification)` belongs to another key.
     */
    method UpdateKey(id: int, key: KeyPatch) returns (r: Result<Option<Key>>)
      requires db.Valid() && !key.IsEmpty()
      modifies db`keys
      ensures db.Valid()
      ensures r.Ok? && r.value.None? <==> id !in old(db.keys)
      ensures r.Err? <==> id in old(db.keys) && IdentityTakenByOther(old(db.keys), id, key.ApplyTo(old(db.keys)[id]))
      ensures r.Ok? && r.value.Some? ==> && r.value.value == key.ApplyTo(old(db.keys)[id])
                                         && db.keys == old(db.keys)[id := r.value.value]
      ensures !(r.Ok? && r.value.Some?) ==> db.keys == old(db.keys)
    {
      if id !in db.keys {
        return Ok(None);
      }
      var k := key.ApplyTo(db.keys[id]);
      if IdentityTakenByOther(db.keys, id, k) {
        return Err("duplicate key value violates unique constraint");
      }
      KeysUniqueAfterReplace(db.keys, id, k);
      db.keys := db.keys[id := k];
      r := Ok(Some(k));
    }

    /** `UPDATE sessions SET <session> WHERE id = id RETURNING *`. */
    method UpdateSession(id: int, session: SessionPatch) returns (r: Option<Session>)
      requires db.Valid() && !session.IsEmpty()
      modifies db`sessions
      ensures db.Valid()
      ensures r.Some? <==> id in old(db.sessions)
      ensures r.Some? ==> r.value == session.ApplyTo(old(db.sessions)[id]) && db.sessions == old(db.sessions)[id := r.value]
      ensures r.None? ==> db.sessions == old(db.sessions)
    {
      if id !in db.sessions {
        return None;
      }
      var s := session.ApplyTo(db.sessions[id]);
      db.sessions := db.sessions[id := s];
      r := Some(s);
    }
  }
}
