/**
 * The records of the authentication core: users, their keys (one per way of signing in) and
 * their sessions, with the partial objects (`Partial<…>`) that the update methods take.
 * Dates are integers: milliseconds since the epoch.
 */
module AuthTypes {
  import opened Common

  /** The ways a user can sign in; the database stores the numeric code. */
  datatype KeyKind = EMAIL | RESET_PASSWORD_TOKEN | GOOGLE | FACEBOOK | ANON {
    function Code(): (n: int)
      ensures 0 <= n <= 4
    {
      match this
      case EMAIL => 0
      case RESET_PASSWORD_TOKEN => 1
      case GOOGLE => 2
      case FACEBOOK => 3
      case ANON => 4
    }
  }

  /** The kind a stored code denotes; codes outside 0..4 denote none. */
  function KindOfCode(n: int): (k: Option<KeyKind>)
    ensures k.Some? <==> 0 <= n <= 4
    ensures k.Some? ==> k.value.Code() == n
  {
    if n == 0 then Some(EMAIL)
    else if n == 1 then Some(RESET_PASSWORD_TOKEN)
    else if n == 2 then Some(GOOGLE)
    else if n == 3 then Some(FACEBOOK)
    else if n == 4 then Some(ANON)
    else None
  }

  /** Every kind is stored as a distinct code and read back as itself. */
  lemma KindCodeRoundTrip(k: KeyKind)
    ensures KindOfCode(k.Code()) == Some(k)
  {
  }

  /** A row of the `users` table. */
  datatype User = User(
    id: int,
    email: Option<string>,
    firstName: Option<string>,
    lastName: Option<string>,
    photoUrl: Option<string>,
    createdAt: int,
    updatedAt: int)

  /** `Partial<UserBase>`: the profile columns an insert or an update sets. */
  datatype UserPatch = UserPatch(
    email: Field<Option<string>>,
    firstName: Field<Option<string>>,
    lastName: Field<Option<string>>,
    photoUrl: Field<Option<string>>)
  {
    predicate IsEmpty() {
      email.Absent? && firstName.Absent? && lastName.Absent? && photoUrl.Absent?
    }

    /** The row after `UPDATE users SET <this>`. */
    function ApplyTo(u: User): User {
      u.(email := email.Or(u.email), firstName := firstName.Or(u.firstName),
         lastName := lastName.Or(u.lastName), photoUrl := photoUrl.Or(u.photoUrl))
    }
  }

  const NoUserFields := UserPatch(Absent, Absent, Absent, Absent)

  /** The patch that sets only the email. */
  function EmailOnly(email: string): UserPatch {
    NoUserFields.(email := Present(Some(email)))
  }

  /** A row of the `keys` table. `secret` is the password hash, when the kind has one. */
  datatype Key = Key(id: int, userId: int, kind: KeyKind, identification: string, secret: Option<string>)

  /** `Pick<KeyBase, 'kind' | 'identification' | 'secret'>`: a key before it has an owner. */
  datatype KeyData = KeyData(kind: KeyKind, identification: string, secret: Option<string>)

  /** `Pick<KeyBase, 'userId' | 'kind' | 'identification' | 'secret'>`: the columns `createKey` inserts. */
  datatype NewKey = NewKey(userId: int, kind: KeyKind, identification: string, secret: Option<string>)

  /** `Partial<KeyBase>`. */
  datatype KeyPatch = KeyPatch(
    userId: Field<int>,
    kind: Field<KeyKind>,
    identification: Field<string>,
    secret: Field<Option<string>>)
  {
    predicate IsEmpty() {
      userId.Absent? && kind.Absent? && identification.Absent? && secret.Absent?
    }

    function ApplyTo(k: Key): Key {
      k.(userId := userId.Or(k.userId), kind := kind.Or(k.kind),
         identification := identification.Or(k.identification), secret := secret.Or(k.secret))
    }
  }

  /** A row of the `sessions` table; `expiresAt == None` is a session that never expires. */
  datatype Session = Session(id: int, token: string, userId: int, keyId: int, expiresAt: Option<int>)

  /** `SessionBase`: a session before it has an id. */
  datatype SessionBase = SessionBase(token: string, userId: int, keyId: int, expiresAt: Option<int>)

  /** `Partial<SessionBase>`. */
  datatype SessionPatch = SessionPatch(
    token: Field<string>,
    userId: Field<int>,
    keyId: Field<int>,
    expiresAt: Field<Option<int>>)
  {
    predicate IsEmpty() {
      token.Absent? && userId.Absent? && keyId.Absent? && expiresAt.Absent?
    }

    function ApplyTo(s: Session): Session {
      s.(token := token.Or(s.token), userId := userId.Or(s.userId), keyId := keyId.Or(s.keyId),
         expiresAt := expiresAt.Or(s.expiresAt))
    }
  }

  /** The patch `{ expiresAt }` that renewal sends. */
  function ExpiresAtOnly(expiresAt: int): SessionPatch {
    SessionPatch(Absent, Absent, Absent, Present(Some(expiresAt)))
  }

  /** What a sign-up or sign-in hands back: the user, the key used and the new session. */
  datatype Everything = Everything(user: User, key: Key, session: Session)

  /** The user, key and session rows of one sign-in are linked to each other. */
  predicate Linked(e: Everything) {
    e.key.userId == e.user.id && e.session.userId == e.user.id && e.session.keyId == e.key.id
  }
}
