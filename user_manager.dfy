/** `UserManager`: creation, the single-transaction sign-up, update and lookup of users. */
module UserManagers {
  import opened Common
  import opened AuthTypes
  import opened Storage
  import opened Adapter

  class UserManager {
    const adapter: PostgresAdapter

    constructor (adapter: PostgresAdapter)
      ensures this.adapter == adapter
    {
      this.adapter := adapter;
    }

    method Create(payload: UserPatch, now: int) returns (u: User)
      requires adapter.db.Valid()
      modifies adapter.db`users, adapter.db`userSerial
      ensures adapter.db.Valid()
      ensures u == NewUserRow(old(adapter.db.userSerial), payload, now)
      ensures adapter.db.users == old(adapter.db.users)[u.id := u]
      ensures adapter.db.userSerial == old(adapter.db.userSerial) + 1
    {
      u := adapter.CreateUser(payload, now);
    }

    method CreateWithEverything(key: KeyData, session: SessionBase, user: UserPatch, now: int)
      returns (r: Result<Everything>)
      requires adapter.db.Valid()
      modifies adapter.db`users, adapter.db`userSerial, adapter.db`keys, adapter.db`keySerial,
               adapter.db`sessions, adapter.db`sessionSerial
      ensures adapter.db.Valid()
      ensures r.Ok? <==> !IdentityTaken(old(adapter.db.keys), key.kind, key.identification)
      ensures r.Ok? ==> Linked(r.value)
      ensures r.Ok? ==> r.value.user == NewUserRow(old(adapter.db.userSerial), user, now)
      ensures r.Ok? ==> r.value.key == Key(old(adapter.db.keySerial), r.value.user.id, key.kind, key.identification,
                                           key.secret)
      ensures r.Ok? ==> r.value.session == Session(old(adapter.db.sessionSerial), session.token, r.value.user.id,
                                                   r.value.key.id, session.expiresAt)
      ensures r.Ok? ==> && adapter.db.users == old(adapter.db.users)[r.value.user.id := r.value.user]
                        && adapter.db.keys == old(adapter.db.keys)[r.value.key.id := r.value.key]
                        && adapter.db.sessions == old(adapter.db.sessions)[r.value.session.id := r.value.session]
                        && adapter.db.userSerial == old(adapter.db.userSerial) + 1
                        && adapter.db.keySerial == old(adapter.db.keySerial) + 1
                        && adapter.db.sessionSerial == old(adapter.db.sessionSerial) + 1
      ensures r.Err? ==> && adapter.db.users == old(adapter.db.users) && adapter.db.keys == old(adapter.db.keys)
                         && adapter.db.sessions == old(adapter.db.sessions)
                         && adapter.db.userSerial == old(adapter.db.userSerial)
                         && adapter.db.keySerial == old(adapter.db.keySerial)
                         && adapter.db.sessionSerial == old(adapter.db.sessionSerial)
    {
      r := adapter.CreateUserWithEverything(key, session, user, now);
    }

    method Update(id: int, update: UserPatch) returns (r: Option<User>)
      requires adapter.db.Valid() && !update.IsEmpty()
      modifies adapter.db`users
      ensures adapter.db.Valid()
      ensures r.Some? <==> id in old(adapter.db.users)
      ensures r.Some? ==> r.value == update.ApplyTo(old(adapter.db.users)[id])
                          && adapter.db.users == old(adapter.db.users)[id := r.value]
      ensures r.None? ==> adapter.db.users == old(adapter.db.users)
    {
      r := adapter.UpdateUser(id, update);
    }

    method Get(id: int) returns (r: Option<User>)
      requires adapter.db.Valid()
      ensures r.Some? <==> id in adapter.db.users
      ensures r.Some? ==> r.value == adapter.db.users[id]
    {
      r := adapter.GetUser(id);
    }
  }
}
