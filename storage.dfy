/**
 * The database behind the server: the `users`, `keys`, `sessions` and `desired_days` tables as
 * maps from primary key to row, each with the SERIAL counter that hands out the next id.
 * Besides the primary keys the model keeps two uniqueness rules of the schema: at most one key
 * per `(kind, identification)` and at most one desired day per `(user_id, day_of_week)`.
 * An insert that would break one of them fails and changes nothing, as a constraint violation
 * aborts the statement.
 */
module Storage {
  import opened Common
  import opened AuthTypes
  import opened SharedTypes

  predicate UsersWellFormed(users: map<int, User>, serial: int) {
    forall id :: id in users ==> 1 <= id < serial && users[id].id == id
  }

  predicate KeysWellFormed(keys: map<int, Key>, serial: int) {
    forall id :: id in keys ==> 1 <= id < serial && keys[id].id == id
  }

  predicate SessionsWellFormed(sessions: map<int, Session>, serial: int) {
    forall id :: id in sessions ==> 1 <= id < serial && sessions[id].id == id
  }

  predicate DaysWellFormed(days: map<int, DesiredDay>, serial: int) {
    forall id :: id in days ==> 1 <= id < serial && days[id].id == id
  }

  /** The key row `id` is the one for `(kind, identification)`. */
  predicate KeyFor(keys: map<int, Key>, id: int, kind: KeyKind, identification: string) {
    id in keys && keys[id].kind == kind && keys[id].identification == identification
  }

  /** Some key already has this `(kind, identification)`. */
  predicate IdentityTaken(keys: map<int, Key>, kind: KeyKind, identification: string) {
    exists id :: id in keys && KeyFor(keys, id, kind, identification)
  }

  /** At most one key per `(kind, identification)`. */
  predicate KeysUnique(keys: map<int, Key>) {
    forall a, b :: a in keys && b in keys && KeyFor(keys, a, keys[b].kind, keys[b].identification) ==> a == b
  }

  /** The desired-day row `id` is `userId`'s row for `dayOfWeek`. */
  predicate DayFor(days: map<int, DesiredDay>, id: int, userId: int, dayOfWeek: int) {
    id in days && days[id].userId == userId && days[id].dayOfWeek == dayOfWeek
  }

  /** At most one desired day per `(userId, dayOfWeek)`. */
  predicate DaysUnique(days: map<int, DesiredDay>) {
    forall a, b :: a in days && b in days && DayFor(days, a, days[b].userId, days[b].dayOfWeek) ==> a == b
  }

  /** A session whose expiry date is set and already past; `expires_at < NOW()` is false for NULL. */
  predicate Expired(s: Session, now: int) {
    s.expiresAt.Some? && s.expiresAt.value < now
  }

  /** The row `INSERT INTO users <patch>` creates: absent columns take their default, NULL. */
  function NewUserRow(id: int, p: UserPatch, now: int): User {
    User(id, p.email.Or(None), p.firstName.Or(None), p.lastName.Or(None), p.photoUrl.Or(None), now, now)
  }

  /** Reasoning about one table at a time: the rows of `m` that satisfy `p`, each id once. */
  method IdsWhere<T>(m: map<int, T>, p: T -> bool) returns (ids: seq<int>)
    ensures forall id :: id in ids <==> id in m && p(m[id])
    ensures forall i, j :: 0 <= i < j < |ids| ==> ids[i] != ids[j]
    ensures forall i :: 0 <= i < |ids| ==> ids[i] in m
  {
    ids := [];
    var todo := m.Keys;
    while todo != {}
      invariant todo <= m.Keys
      invariant forall i :: 0 <= i < |ids| ==> ids[i] in m && ids[i] !in todo && p(m[ids[i]])
      invariant forall id :: id in m && id !in todo && p(m[id]) ==> id in ids
      invariant forall i, j :: 0 <= i < j < |ids| ==> ids[i] != ids[j]
      decreases |todo|
    {
      NonEmptyHasMember(todo);
      var next :| next in todo;
      if p(m[next]) {
        ids := ids + [next];
      }
      todo := todo - {next};
    }
  }

  class Database {
    var users: map<int, User>
    var keys: map<int, Key>
    var sessions: map<int, Session>
    var desiredDays: map<int, DesiredDay>
    var userSerial: int
    var keySerial: int
    var sessionSerial: int
    var desiredDaySerial: int

    ghost predicate Valid()
      reads this
    {
      && 1 <= userSerial && 1 <= keySerial && 1 <= sessionSerial && 1 <= desiredDaySerial
      && UsersWellFormed(users, userSerial)
      && KeysWellFormed(keys, keySerial) && KeysUnique(keys)
      && SessionsWellFormed(sessions, sessionSerial)
      && DaysWellFormed(desiredDays, desiredDaySerial) && DaysUnique(desiredDays)
    }

    /** An empty database whose SERIAL columns start at 1. */
    constructor ()
      ensures Valid()
      ensures users == map[] && keys == map[] && sessions == map[] && desiredDays == map[]
      ensures userSerial == 1 && keySerial == 1 && sessionSerial == 1 && desiredDaySerial == 1
    {
      users, keys, sessions, desiredDays := map[], map[], map[], map[];
      userSerial, keySerial, sessionSerial, desiredDaySerial := 1, 1, 1, 1;
    }
  }
}
