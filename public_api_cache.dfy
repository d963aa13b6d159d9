/**
 * `PublicAPICache`: the cache namespaces of the server, `user:<id>` and `session:<idToken>`,
 * each with a one-week ttl, delegating to one shared `CacheService`. The cached values are
 * users and sessions, either possibly null, since `wrap` caches whatever the loader returns.
 */
module PublicApiCache {
  import opened Common
  import opened Decimal
  import opened AuthTypes
  import opened Cache

  const OneWeekAsSec := 604800
  const OneWeekAsMs := OneWeekAsSec * 1000

  /** A value in the shared cache: a user (under a user key) or a session (under a session key). */
  datatype Cached = CachedUser(user: Option<User>) | CachedSession(session: Option<Session>)

  const UserPrefix := "user:"
  const SessionPrefix := "session:"

  /** `user.key`: `user:${id}`. */
  function UserKey(id: int): string {
    UserPrefix + IntToDecimal(id)
  }

  /** `session.key`: `session:${idToken}`. */
  function SessionKey(idToken: string): string {
    SessionPrefix + idToken
  }

  predicate IsUserKey(k: string) {
    |k| >= |UserPrefix| && k[..|UserPrefix|] == UserPrefix
  }

  predicate IsSessionKey(k: string) {
    |k| >= |SessionPrefix| && k[..|SessionPrefix|] == SessionPrefix
  }

  /** Distinct users have distinct cache keys. */
  lemma {:induction false} UserKeyInjective(a: int, b: int)
    ensures UserKey(a) == UserKey(b) ==> a == b
  {
    if UserKey(a) == UserKey(b) {
      assert IntToDecimal(a) == UserKey(a)[|UserPrefix|..] == UserKey(b)[|UserPrefix|..] == IntToDecimal(b);
      IntToDecimalInjective(a, b);
    }
  }

  /** Distinct session cookies have distinct cache keys. */
  lemma SessionKeyInjective(a: string, b: string)
    ensures SessionKey(a) == SessionKey(b) ==> a == b
  {
    if SessionKey(a) == SessionKey(b) {
      assert a == SessionKey(a)[|SessionPrefix|..];
    }
  }

  /** The two namespaces never meet: no user key is a session key. */
  lemma KeysDisjoint(id: int, idToken: string)
    ensures IsUserKey(UserKey(id)) && !IsSessionKey(UserKey(id))
    ensures IsSessionKey(SessionKey(idToken)) && !IsUserKey(SessionKey(idToken))
    ensures UserKey(id) != SessionKey(idToken)
  {
    assert UserKey(id)[0] == 'u';
    assert SessionKey(idToken)[0] == 's';
  }

  /** Every entry holds the kind of value its namespace is for. */
  ghost predicate WellTyped(m: map<string, Entry<Cached>>) {
    forall k :: k in m ==> (IsUserKey(k) ==> m[k].value.CachedUser?) && (IsSessionKey(k) ==> m[k].value.CachedSession?)
  }

  /** What `user.get` yields from a cache lookup. */
  function AsUser(r: Option<Cached>): (u: Option<User>)
    ensures u.Some? <==> r.Some? && r.value.CachedUser? && r.value.user.Some?
    ensures u.Some? ==> u.value == r.value.user.value
  {
    if r.Some? && r.value.CachedUser? then r.value.user else None
  }

  /** What `session.get` yields from a cache lookup. */
  function AsSession(r: Option<Cached>): (s: Option<Session>)
    ensures s.Some? <==> r.Some? && r.value.CachedSession? && r.value.session.Some?
    ensures s.Some? ==> s.value == r.value.session.value
  {
    if r.Some? && r.value.CachedSession? then r.value.session else None
  }

  /**
   * A null session cached by `session.wrap` answers the next request within the week without
   * running the validation again: the second call returns null and does not call the loader.
   */
  lemma {:induction false} NullSessionIsRemembered(m: map<string, Entry<Cached>>, idToken: string, later: Cached, t1: int, t2: int)
    requires Lookup(m, SessionKey(idToken), t1).None? && t1 <= t2 <= t1 + OneWeekAsMs
    ensures var w1 := Wrapped(m, SessionKey(idToken), CachedSession(None), OneWeekAsMs, t1);
            var w2 := Wrapped(w1.after, SessionKey(idToken), later, OneWeekAsMs, t2);
            !w2.called && w2.value == CachedSession(None)
  {
    WrapTwice(m, SessionKey(idToken), CachedSession(None), later, OneWeekAsMs, t1, t2);
  }

  /** A user set in the cache stays readable for a week and is gone afterwards. */
  lemma UserSetReadableForAWeek(m: map<string, Entry<Cached>>, u: User, now: int, t: int)
    ensures var after := m[UserKey(u.id) := Entry(CachedUser(Some(u)), now + OneWeekAsMs)];
            AsUser(Lookup(after, UserKey(u.id), t)) == if t <= now + OneWeekAsMs then Some(u) else None
  {
  }

  class PublicAPICache {
    const cache: CacheService<Cached>

    constructor (cache: CacheService<Cached>)
      ensures this.cache == cache
    {
      this.cache := cache;
    }

    method UserGet(id: int, now: int) returns (r: Option<User>)
      modifies cache
      ensures r == AsUser(Lookup(old(cache.inMemory), UserKey(id), now))
      ensures cache.inMemory == Evicted(old(cache.inMemory), UserKey(id), now)
    {
      var c := cache.Get(UserKey(id), now);
      r := AsUser(c);
    }

    method UserSet(user: User, now: int)
      modifies cache
      ensures cache.inMemory == old(cache.inMemory)[UserKey(user.id) := Entry(CachedUser(Some(user)), now + OneWeekAsMs)]
    {
      cache.Set(UserKey(user.id), CachedUser(Some(user)), OneWeekAsMs, now);
    }

    method UserDelete(id: int)
      modifies cache
      ensures cache.inMemory == old(cache.inMemory) - {UserKey(id)}
    {
      cache.Delete(UserKey(id));
    }

    /** `user.wrap`: `loaded` is what the loader resolves to, possibly null. */
    method UserWrap(id: int, loaded: Option<User>, now: int) returns (r: Cached, called: bool)
      modifies cache
      ensures var w := Wrapped(old(cache.inMemory), UserKey(id), CachedUser(loaded), OneWeekAsMs, now);
              r == w.value && called == w.called && cache.inMemory == w.after
      ensures WellTyped(old(cache.inMemory)) ==> WellTyped(cache.inMemory) && r.CachedUser?
    {
      KeysDisjoint(id, "");
      r, called := cache.Wrap(UserKey(id), CachedUser(loaded), OneWeekAsMs, now);
    }

    method SessionGet(idToken: string, now: int) returns (r: Option<Session>)
      modifies cache
      ensures r == AsSession(Lookup(old(cache.inMemory), SessionKey(idToken), now))
      ensures cache.inMemory == Evicted(old(cache.inMemory), SessionKey(idToken), now)
    {
      var c := cache.Get(SessionKey(idToken), now);
      r := AsSession(c);
    }

    method SessionSet(idToken: string, session: Session, now: int)
      modifies cache
      ensures cache.inMemory == old(cache.inMemory)[SessionKey(idToken) := Entry(CachedSession(Some(session)), now + OneWeekAsMs)]
    {
      cache.Set(SessionKey(idToken), CachedSession(Some(session)), OneWeekAsMs, now);
    }

    method SessionDelete(idToken: string)
      modifies cache
      ensures cache.inMemory == old(cache.inMemory) - {SessionKey(idToken)}
    {
      cache.Delete(SessionKey(idToken));
    }

    /** `session.wrap`: `loaded` is what the loader (session validation) resolves to, possibly null. */
    method SessionWrap(idToken: string, loaded: Option<Session>, now: int) returns (r: Cached, called: bool)
      modifies cache
      ensures var w := Wrapped(old(cache.inMemory), SessionKey(idToken), CachedSession(loaded), OneWeekAsMs, now);
              r == w.value && called == w.called && cache.inMemory == w.after
      ensures WellTyped(old(cache.inMemory)) ==> WellTyped(cache.inMemory) && r.CachedSession?
    {
      KeysDisjoint(0, idToken);
      r, called := cache.Wrap(SessionKey(idToken), CachedSession(loaded), OneWeekAsMs, now);
    }
  }
}
