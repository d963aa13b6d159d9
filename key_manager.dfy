/** `KeyManager`: each method hands its arguments unchanged to the adapter and returns its answer. */
module KeyManagers {
  import opened Common
  import opened AuthTypes
  import opened Storage
  import opened Adapter

  class KeyManager {
    const adapter: PostgresAdapter

    constructor (adapter: PostgresAdapter)
      ensures this.adapter == adapter
    {
      this.adapter := adapter;
    }

    method Get(keyId: int) returns (r: Option<Key>)
      requires adapter.db.Valid()
      ensures r.Some? <==> keyId in adapter.db.keys
      ensures r.Some? ==> r.value == adapter.db.keys[keyId]
    {
      r := adapter.GetKey(keyId);
    }

    method GetAll(userId: int) returns (r: seq<Key>)
      requires adapter.db.Valid()
      ensures IsKeysOf(adapter.db.keys, userId, r)
    {
      r := adapter.GetAllKeys(userId);
    }

    method FindByIdentification(kind: KeyKind, identification: string) returns (r: Option<Key>)
      requires adapter.db.Valid()
      ensures IsKeyByIdentification(adapter.db.keys, kind, identification, r)
    {
      r := adapter.FindKeyByIdentification(kind, identification);
    }

    method FindByUserId(kind: KeyKind, userId: int) returns (r: Option<Key>)
      requires adapter.db.Valid()
      ensures IsKeyByUserId(adapter.db.keys, kind, userId, r)
    {
      r := adapter.FindKeyByUserId(kind, userId);
    }

    method Create(key: NewKey) returns (r: Result<Key>)
      requires adapter.db.Valid()
      modifies adapter.db`keys, adapter.db`keySerial
      ensures adapter.db.Valid()
      ensures r.Ok? <==> !IdentityTaken(old(adapter.db.keys), key.kind, key.identification)
      ensures r.Ok? ==> r.value == Key(old(adapter.db.keySerial), key.userId, key.kind, key.identification, key.secret)
      ensures r.Ok? ==> adapter.db.keys == old(adapter.db.keys)[r.value.id := r.value]
                        && adapter.db.keySerial == old(adapter.db.keySerial) + 1
      ensures r.Err? ==> adapter.db.keys == old(adapter.db.keys) && adapter.db.keySerial == old(adapter.db.keySerial)
    {
      r := adapter.CreateKey(key);
    }

    method Update(keyId: int, key: KeyPatch) returns (r: Result<Option<Key>>)
      requires adapter.db.Valid() && !key.IsEmpty()
      modifies adapter.db`keys
      ensures adapter.db.Valid()
      ensures r.Ok? && r.value.None? <==> keyId !in old(adapter.db.keys)
      ensures r.Err? <==> keyId in old(adapter.db.keys)
                          && IdentityTakenByOther(old(adapter.db.keys), keyId, key.ApplyTo(old(adapter.db.keys)[keyId]))
      ensures r.Ok? && r.value.Some? ==> && r.value.value == key.ApplyTo(old(adapter.db.keys)[keyId])
                                         && adapter.db.keys == old(adapter.db.keys)[keyId := r.value.value]
      ensures !(r.Ok? && r.value.Some?) ==> adapter.db.keys == old(adapter.db.keys)
    {
      r := adapter.UpdateKey(keyId, key);
    }

    method Delete(keyId: int)
      requires adapter.db.Valid()
      modifies adapter.db`keys
      ensures adapter.db.Valid()
      ensures adapter.db.keys == old(adapter.db.keys) - {keyId}
    {
      adapter.DeleteKey(keyId);
    }
  }
}
