# cdc: a verified model of the authentication server, caches and client stores

The cdc application lets a learner sign up (by email and password, anonymously, or through
Google or Facebook), keeps the learner's desired days of the week with start and end times,
and keeps a small in-memory cache in front of the database. This project models the core of
that system and proves properties of the model:

- **Server caches.** `Cache` is the in-memory key/value cache with per-entry expiry times.
  `PublicApiCache` puts the `user:` and `session:` namespaces on top of it, each with a
  one-week ttl.
- **Authentication.**
  - `Storage` holds the users, keys and sessions tables, and `Adapter` is the
    Postgres adapter over them.
  - `KeyManagers`, `UserManagers` and `SessionManagers` are the managers. `SessionManagers`
    covers the `id:token` cookie codec, validation and sliding renewal. `Decimal` models
    JavaScript's `${n}` and `parseInt` for that codec.
  - `EmailProviders`, `AnonProviders`, `OAuth`, `GoogleProviders` and `FacebookProviders`
    are the sign-in providers. `OAuth` holds what the Google and Facebook flows share.
  - `AuthTypes` is the key kinds.
  - `ServerHelpers` is the secure random string.
- **Database.** `Db` covers the user and desired-day queries.
- **Shared code.**
  - `SharedTypes` is the validation schemas.
  - `SharedHelpers` is the mapping of request errors and the simple random string.
- **Client stores.**
  - `ListStates` is the list-and-operations store.
  - `UploadProgress` is `trackUploadProgress`.
  - `DesiredDaysDiff` is the diff that `save` computes.
  - `DesiredDaysStore` is the desired-days store itself.
  - `AuthStore` is the client authentication store and its subscribers.
- **Migration runner.** `Migrations` models which `.sql` files are applied, in what order, and each
  migration's transaction.

The following become explicit inputs:

| source behaviour | in the model |
|---|---|
| the clock | a `now` parameter, in milliseconds |
| random bytes | byte-sequence parameters |
| bcrypt | a `PasswordHasher` of two functions; a `Sound` predicate states that a hash checks against its password |
| the salt | a parameter |
| responses of the server's HTTP API | `RequestOutcome` values |
| OAuth token and profile replies | parameters |
| the migration folder listing and file contents | parameters |

Tables are `map`s in a `Database` class. Each table has a `SERIAL` counter. A write that
would break a uniqueness constraint returns an error and changes nothing.

## Model

| member | source | states |
|---|---|---|
| Cache.Lookup | src/lib/server/cache/cache.ts:12-22 | `get` yields a value exactly when the key is present and its expiry time is not before now, and then the stored value |
| Cache.Evicted | src/lib/server/cache/cache.ts:17-19 | `get` drops an expired entry under the key it reads and nothing else |
| Cache.Wrapped | src/lib/server/cache/cache.ts:37-45 | `wrap` calls the loader exactly when there is no live entry; a live entry is returned with the map untouched, otherwise the loader's value is stored until now + ttl and returned |
| Cache.SetThenLookup | src/lib/server/cache/cache.ts:24-31 | after `set`, `get` of the key yields the value up to now + ttl and null later; other keys read as before |
| Cache.SetOverwritesInPlace | src/lib/server/cache/cache.ts:24-31 | `set` on a present key replaces its entry: the map grows only for a new key |
| Cache.DeleteThenLookup | src/lib/server/cache/cache.ts:33-35 | after `delete`, `get` of the key is null and every other key reads as before |
| Cache.EvictionIsInvisible | src/lib/server/cache/cache.ts:17-19 | the lazy removal of an expired entry changes no later read of any key |
| Cache.WrapTwice | src/lib/server/cache/cache.ts:37-45 | a second `wrap` within the ttl of the first one's stored value (or no later than a first one that hit) returns the same value without calling the loader or changing the map |
| Cache.WrapThenLookup | src/lib/server/cache/cache.ts:37-45 | a value `wrap` computed is what `get` yields until its ttl runs out |
| Cache.CacheService.constructor | src/lib/server/cache/cache.ts:9-10 | a new cache is empty |
| Cache.CacheService.Get | src/lib/server/cache/cache.ts:12-22 | returns `Lookup` of the old map; removes the key only when its entry had expired |
| Cache.CacheService.Set | src/lib/server/cache/cache.ts:24-31 | the key maps to the value with expiry now + ttl; every other entry is kept |
| Cache.CacheService.Delete | src/lib/server/cache/cache.ts:33-35 | the key is removed and nothing else |
| Cache.CacheService.Wrap | src/lib/server/cache/cache.ts:37-45 | value returned, whether the loader ran, and the new map are those of `Wrapped` |
| Cache.CacheService.Reset | src/lib/server/cache/cache.ts:47-49 | the map is empty afterwards |
| PublicApiCache.UserKeyInjective | src/lib/server/cache/publicApiCache.ts:16 | distinct user ids give distinct `user:<id>` keys |
| PublicApiCache.SessionKeyInjective | src/lib/server/cache/publicApiCache.ts:34 | distinct session cookies give distinct `session:<idToken>` keys |
| PublicApiCache.KeysDisjoint | src/lib/server/cache/publicApiCache.ts:15-49 | a user key is never a session key and the reverse, so the two namespaces share one cache safely |
| PublicApiCache.AsUser | src/lib/server/cache/publicApiCache.ts:19-21 | `user.get` yields a user exactly when the lookup found a non-null cached user, and that user |
| PublicApiCache.AsSession | src/lib/server/cache/publicApiCache.ts:37-39 | `session.get` yields a session exactly when the lookup found a non-null cached session, and that session |
| PublicApiCache.NullSessionIsRemembered | src/lib/server/cache/publicApiCache.ts:46-48 | a null session cached by `session.wrap` answers every request in the following week without running the loader again |
| PublicApiCache.UserSetReadableForAWeek | src/lib/server/cache/publicApiCache.ts:17-24 | a user set in the cache reads back for one week (604800000 ms) and is gone after it |
| PublicApiCache.PublicAPICache.constructor | src/lib/server/cache/publicApiCache.ts:52 | the namespaces delegate to the one shared cache |
| PublicApiCache.PublicAPICache.UserGet | src/lib/server/cache/publicApiCache.ts:19-21 | the user read under `user:<id>`, with the cache's lazy eviction |
| PublicApiCache.PublicAPICache.UserSet | src/lib/server/cache/publicApiCache.ts:22-24 | the user is stored under its own id's key for one week |
| PublicApiCache.PublicAPICache.UserDelete | src/lib/server/cache/publicApiCache.ts:25-27 | exactly the user's key is removed |
| PublicApiCache.PublicAPICache.UserWrap | src/lib/server/cache/publicApiCache.ts:28-30 | `wrap` on the user key with a week's ttl; keeps every entry holding the kind its namespace is for |
| PublicApiCache.PublicAPICache.SessionGet | src/lib/server/cache/publicApiCache.ts:37-39 | the session read under `session:<idToken>`, with the cache's lazy eviction |
| PublicApiCache.PublicAPICache.SessionSet | src/lib/server/cache/publicApiCache.ts:40-42 | the session is stored under the cookie's key for one week |
| PublicApiCache.PublicAPICache.SessionDelete | src/lib/server/cache/publicApiCache.ts:43-45 | exactly the cookie's key is removed |
| PublicApiCache.PublicAPICache.SessionWrap | src/lib/server/cache/publicApiCache.ts:46-48 | `wrap` on the session key with a week's ttl; keeps every entry holding the kind its namespace is for |
| SharedTypes.EmailPasswordErrors | src/lib/shared/types.ts:40-43 | names only `email` and `password`, and is empty exactly when the sign-in schema accepts the request |
| SharedTypes.EmailPasswordImpliesResetRules | src/lib/shared/types.ts:40-52 | a valid sign-in request passes the reset-request schema, and its password passes the reset schema with any 32-character token |
| SharedTypes.DefaultUserBaseValid | src/lib/shared/types.ts:68-75 | the all-null user the defaults produce passes the user schema |
| SharedTypes.UserUpdatePreservesValid | src/lib/shared/types.ts:68-77 | a user update that passes the partial schema keeps a valid user valid |
| SharedTypes.CreateSchemaIsBaseWithoutUserId | src/lib/shared/types.ts:82-92 | the create schema accepts a record exactly when the base schema accepts it with any `userId`; dropping the `userId` added back gives the record |
| SharedTypes.UpdateSchemaIsPartialBase | src/lib/shared/types.ts:82-103 | the empty update is valid, a full update is valid iff the record is, a valid update keeps a valid day valid and its id |
| SharedTypes.SameTimesIffSameStartAndEnd | src/lib/shared/types.ts:95-102 | two records agree on the compare fields iff they have the same start and end hour and minute |
| SharedHelpers.HandleValidationError | src/lib/shared/helpers.ts:18-24 | the body carries the validation code, the fixed message and exactly the field errors given |
| SharedHelpers.HandleRequestError | src/lib/shared/helpers.ts:26-35 | a validation error exactly for a 400 with the validation code, passed through unchanged; otherwise `SERVER_ERROR` iff status 500 (else `UNKNOWN_ERROR`), the body's message or "Unknown error", and the body |
| SharedHelpers.ValidationErrorRoundTrip | src/lib/shared/helpers.ts:18-35 | a server validation error reaches the UI unchanged, with the validation code |
| SharedHelpers.HandledCodes | src/lib/shared/helpers.ts:26-35 | the UI only sees the three known codes, a 400 without the validation code is unknown, and a request error always has a message |
| SharedHelpers.GetRandomStringSimple | src/lib/shared/helpers.ts:10-16 | the result has exactly `length` characters: the first `length` of the chunks joined in order |
| ServerHelpers.HexRoundTrip | src/lib/server/helpers.ts:19-21 | hex encoding is read back to the same bytes, so distinct random bytes give distinct strings |
| ServerHelpers.RandomStringSecure | src/lib/server/helpers.ts:19-21 | `length` rounded down to even hex digits that decode to the random bytes drawn |
| AuthTypes.KindOfCode | src/lib/server/auth/misc/types.ts:17-24 | a stored code denotes a kind exactly for 0..4, and that kind's code is the one stored |
| AuthTypes.KindCodeRoundTrip | src/lib/server/auth/misc/types.ts:17-24 | every key kind is read back from its code as itself |
| Adapter.SessionsWithoutUser | src/lib/server/auth/adapter.ts:49-51 | exactly the sessions of other users remain, unchanged |
| Adapter.UnexpiredSessions | src/lib/server/auth/adapter.ts:53-55 | exactly the sessions that have no expiry date or one not yet past remain, unchanged |
| Adapter.SessionsWithoutIdToken | src/lib/server/auth/adapter.ts:65-67 | the session is removed only when both its id and its token match; otherwise nothing changes |
| Adapter.KeysUniqueAfterReplace | src/lib/server/auth/adapter.ts:5-7 | writing a key row whose identity no other row has keeps at most one key per kind and identification |
| Adapter.KeyByIdentity | src/lib/server/auth/adapter.ts:69-73 | the stored key with this kind and identification, or none when no key has them |
| Adapter.LookupByIdentityIsDetermined | src/lib/server/auth/adapter.ts:69-73 | with identities unique, the lookup has only one possible answer |
| Adapter.PostgresAdapter.constructor | src/lib/server/auth/adapter.ts:4 | the adapter works on the given database |
| Adapter.PostgresAdapter.CreateKey | src/lib/server/auth/adapter.ts:5-7 | succeeds iff no key has that identity; the new row gets the next serial id and the given columns; otherwise no change |
| Adapter.PostgresAdapter.CreateSession | src/lib/server/auth/adapter.ts:9-11 | the new row gets the next serial id and the given columns; nothing else changes |
| Adapter.PostgresAdapter.CreateUser | src/lib/server/auth/adapter.ts:13-18 | the new row gets the next serial id, the given columns, NULL for the others and the creation time |
| Adapter.PostgresAdapter.CreateUserWithEverything | src/lib/server/auth/adapter.ts:20-43 | all three rows are inserted and linked to each other, or, when the key's identity is taken, no table changes |
| Adapter.PostgresAdapter.UpdateUser | src/lib/server/auth/adapter.ts:45-47 | returns the updated row iff the user exists; only that row changes, by the patch |
| Adapter.PostgresAdapter.DeleteAllSessions | src/lib/server/auth/adapter.ts:49-51 | the sessions become `SessionsWithoutUser` |
| Adapter.PostgresAdapter.DeleteExpiredSessions | src/lib/server/auth/adapter.ts:53-55 | the sessions become `UnexpiredSessions` |
| Adapter.PostgresAdapter.DeleteKey | src/lib/server/auth/adapter.ts:57-59 | exactly the key row with that id is removed |
| Adapter.PostgresAdapter.DeleteSession | src/lib/server/auth/adapter.ts:61-63 | exactly the session row with that id is removed |
| Adapter.PostgresAdapter.DeleteSessionByIdToken | src/lib/server/auth/adapter.ts:65-67 | the sessions become `SessionsWithoutIdToken` |
| Adapter.PostgresAdapter.FindKeyByIdentification | src/lib/server/auth/adapter.ts:69-73 | the stored key with that kind and identification, or none when there is none |
| Adapter.PostgresAdapter.FindKeyByUserId | src/lib/server/auth/adapter.ts:75-77 | some stored key of that kind owned by the user, or none when there is none |
| Adapter.PostgresAdapter.GetAllKeys | src/lib/server/auth/adapter.ts:79-81 | exactly the user's key rows, each once |
| Adapter.PostgresAdapter.GetAllSessions | src/lib/server/auth/adapter.ts:83-85 | exactly the user's session rows, each once |
| Adapter.PostgresAdapter.GetKey | src/lib/server/auth/adapter.ts:87-89 | the row with that id iff there is one |
| Adapter.PostgresAdapter.GetSession | src/lib/server/auth/adapter.ts:91-93 | the row with that id iff there is one |
| Adapter.PostgresAdapter.GetUser | src/lib/server/auth/adapter.ts:95-97 | the row with that id iff there is one |
| Adapter.PostgresAdapter.UpdateKey | src/lib/server/auth/adapter.ts:99-101 | no row for a missing id; a constraint error iff the new identity belongs to another key; otherwise only that row changes, by the patch |
| Adapter.PostgresAdapter.UpdateSession | src/lib/server/auth/adapter.ts:103-106 | returns the updated row iff the session exists; only that row changes, by the patch |
| KeyManagers.KeyManager.constructor | src/lib/server/auth/managers/key.ts:4 | the manager works through the given adapter |
| KeyManagers.KeyManager.Get | src/lib/server/auth/managers/key.ts:6-8 | the key row with that id iff there is one |
| KeyManagers.KeyManager.GetAll | src/lib/server/auth/managers/key.ts:10-12 | exactly the user's key rows, each once |
| KeyManagers.KeyManager.FindByIdentification | src/lib/server/auth/managers/key.ts:14-16 | the key with that kind and identification, or none when there is none |
| KeyManagers.KeyManager.FindByUserId | src/lib/server/auth/managers/key.ts:18-20 | some key of that kind owned by the user, or none when there is none |
| KeyManagers.KeyManager.Create | src/lib/server/auth/managers/key.ts:22-24 | the adapter's `createKey`: a new row iff the identity is free |
| KeyManagers.KeyManager.Update | src/lib/server/auth/managers/key.ts:26-28 | the adapter's `updateKey`: missing row, constraint error or exactly that row patched |
| KeyManagers.KeyManager.Delete | src/lib/server/auth/managers/key.ts:30-32 | exactly that key row is removed |
| UserManagers.UserManager.constructor | src/lib/server/auth/managers/user.ts:4 | the manager works through the given adapter |
| UserManagers.UserManager.Create | src/lib/server/auth/managers/user.ts:6-8 | a new user row with the next serial id and the given columns |
| UserManagers.UserManager.CreateWithEverything | src/lib/server/auth/managers/user.ts:10-16 | the adapter's one-transaction sign-up: three linked rows, or no change when the identity is taken |
| UserManagers.UserManager.Update | src/lib/server/auth/managers/user.ts:18-20 | the updated row iff the user exists; only that row changes |
| UserManagers.UserManager.Get | src/lib/server/auth/managers/user.ts:22-24 | the user row with that id iff there is one |
| SessionManagers.Split | src/lib/server/auth/managers/session.ts:84 | `split(':')` gives at least one piece, and no piece holds the separator |
| SessionManagers.ParseSessionIdToken | src/lib/server/auth/managers/session.ts:83-93 | an accepted cookie value yields a non-zero id and a non-empty, colon-free token |
| SessionManagers.FromParts | src/lib/server/auth/managers/session.ts:85-92 | null for an empty id or token, or an id that reads as `NaN` or 0; otherwise that token |
| SessionManagers.CookieRoundTrip | src/lib/server/auth/managers/session.ts:79-93 | reading back `getIdTokenForCookie(s)` yields the session's id and token |
| SessionManagers.ParseIgnoresAfterSecondColon | src/lib/server/auth/managers/session.ts:84 | only the first two pieces of the split are read |
| SessionManagers.ParseNeedsColon | src/lib/server/auth/managers/session.ts:84-87 | a value without a colon is refused |
| SessionManagers.ParseLenientId | src/lib/server/auth/managers/session.ts:88 | `parseInt` reads a digit prefix and ignores the rest of the id part |
| SessionManagers.ParseRefusesZero | src/lib/server/auth/managers/session.ts:88-91 | the id 0 is refused |
| SessionManagers.ParseRefusesNaN | src/lib/server/auth/managers/session.ts:88-91 | an id that is no number is refused |
| SessionManagers.RefusedId | src/lib/server/auth/managers/session.ts:84-91 | a value whose id part reads as 0 or `NaN` is refused whatever its token |
| SessionManagers.RefusedIdPart | src/lib/server/auth/managers/session.ts:88-91 | the id parts "0" and "x" are refused |
| SessionManagers.Accepted | src/lib/server/auth/managers/session.ts:23-37 | an accepted session is the stored row named by the cookie, with the cookie's token, not expired |
| SessionManagers.RenewalExtends | src/lib/server/auth/managers/session.ts:39-42 | renewal sets the expiry to a full duration from now, later than before, and changes nothing else |
| SessionManagers.RenewalIsStable | src/lib/server/auth/managers/session.ts:39 | a session just renewed does not need renewal again at the same moment |
| SessionManagers.NoExpiryNeverExpires | src/lib/server/auth/managers/session.ts:35-39 | a session without an expiry date is neither expired nor renewed |
| SessionManagers.SessionManager.constructor | src/lib/server/auth/managers/session.ts:5-9 | the adapter, token length and duration given |
| SessionManagers.SessionManager.CreateBody | src/lib/server/auth/managers/session.ts:11-17 | the owners given, a hex token of the configured length that decodes to the random bytes, expiry `sessionDurationMin` minutes from now |
| SessionManagers.SessionManager.Create | src/lib/server/auth/managers/session.ts:19-21 | stores `createBody`'s session under the next serial id and returns it |
| SessionManagers.SessionManager.Validate | src/lib/server/auth/managers/session.ts:23-48 | a session iff the cookie is accepted; in the last quarter it is renewed and the stored row is updated; otherwise nothing changes |
| SessionManagers.SessionManager.Delete | src/lib/server/auth/managers/session.ts:50-57 | true iff the cookie parses, and then exactly the row matching id and token is removed |
| SessionManagers.SessionManager.DeleteAll | src/lib/server/auth/managers/session.ts:59-61 | exactly the user's sessions are removed |
| SessionManagers.SessionManager.DeleteExpired | src/lib/server/auth/managers/session.ts:63-65 | exactly the expired sessions are removed |
| SessionManagers.SessionManager.Get | src/lib/server/auth/managers/session.ts:67-69 | the session row with that id iff there is one |
| SessionManagers.SessionManager.GetAll | src/lib/server/auth/managers/session.ts:71-73 | exactly the user's session rows |
| SessionManagers.SessionManager.Update | src/lib/server/auth/managers/session.ts:75-77 | the patched row iff it exists; only that row changes |
| EmailProviders.DeletedIdentityIsFree | src/lib/server/auth/providers/email.ts:119-124 | once the unique reset key is deleted, its token names no key, even after another key is rewritten |
| EmailProviders.EmailProvider.constructor | src/lib/server/auth/providers/email.ts:7-13 | the three managers over one database, bcrypt and the pepper |
| EmailProviders.EmailProvider.HashOpens | src/lib/server/auth/providers/email.ts:160-167 | with sound bcrypt, a password opens a key that holds its peppered hash |
| EmailProviders.EmailProvider.SignUpThenSignIn | src/lib/server/auth/providers/email.ts:15-38 | the key sign-up stores is the one sign-in finds for the address, and the same password opens it |
| EmailProviders.EmailProvider.SignUp | src/lib/server/auth/providers/email.ts:15-28 | succeeds iff the address has no EMAIL key; then a user with that email, an EMAIL key holding the hash and a session, all linked; otherwise nothing changes |
| EmailProviders.EmailProvider.SignIn | src/lib/server/auth/providers/email.ts:30-61 | null and no change unless the password opens the address's key; the session is created even when the key's user is missing; an email-less user gets this address |
| EmailProviders.EmailProvider.Attach | src/lib/server/auth/providers/email.ts:63-75 | a new EMAIL key with the hash iff the address is free; otherwise an error and nothing changes |
| EmailProviders.EmailProvider.GetUserByEmail | src/lib/server/auth/providers/email.ts:77-86 | the owner of the address's EMAIL key when both exist, otherwise null |
| EmailProviders.EmailProvider.CreatePasswordResetToken | src/lib/server/auth/providers/email.ts:88-101 | null for an unknown address; otherwise a secret-less reset key of the same user named by a fresh hex token |
| EmailProviders.EmailProvider.ValidatePasswordResetToken | src/lib/server/auth/providers/email.ts:103-130 | a session exactly when the token is a reset key and its user has an EMAIL key, otherwise null and no change; on success a new hash, the token deleted and unusable, every session of the user ended and one new session |
| EmailProviders.EmailProvider.IsEmailTaken | src/lib/server/auth/providers/email.ts:132-138 | true iff some EMAIL key has this address |
| EmailProviders.EmailProvider.ChangePassword | src/lib/server/auth/providers/email.ts:140-158 | null and no change unless the old password opens the EMAIL key found for the user, and always a session when it opens every EMAIL key of the user; on success the key gets the new hash, the sessions end and one new session is issued |
| EmailProviders.OnlyNewSessionRemains | src/lib/server/auth/providers/email.ts:125-129 | after `deleteAll` and `create` the user's only session is the new one |
| AnonProviders.AnonIdentification | src/lib/server/auth/providers/anon.ts:6-18 | the anonymous identification is 16 hex digits encoding the drawn bytes |
| AnonProviders.DistinctDrawsDistinctIdentities | src/lib/server/auth/providers/anon.ts:18 | different random draws give different identifications |
| AnonProviders.AnonProvider.constructor | src/lib/server/auth/providers/anon.ts:8-12 | the three managers over one database |
| AnonProviders.AnonProvider.SignUp | src/lib/server/auth/providers/anon.ts:14-22 | succeeds iff the drawn identity is free; then a profile-less user, a secret-less ANON key and a session linked to both; otherwise nothing changes |
| OAuth.Cookies.constructor | src/lib/server/auth/providers/google.ts:56 | the request's cookies as given |
| OAuth.Cookies.Get | src/lib/server/auth/providers/google.ts:57 | the cookie's value iff it is set |
| OAuth.Cookies.Set | src/lib/server/auth/providers/google.ts:47-51 | that cookie, with value and lifetime, replaced and no other |
| OAuth.SessionCookieMaxAge | src/lib/server/auth/index.ts:26-38 | the session cookies live, in whole seconds, until the session expires, or a year without expiry |
| OAuth.SessionCookieMaxAgeAsWritten | src/lib/server/auth/index.ts:27 | as written, `maxAge` is the milliseconds left until the session expires, a thousand times the seconds the cookie should get (the year fallback is the same) |
| OAuth.SessionCookieOutlivesSession | src/lib/server/auth/index.ts:27 | as written the lifetime is a thousand times too long and outlives the session |
| OAuth.SessionCookieOneHourExample | src/lib/server/auth/index.ts:27 | a one-hour session gets a 3600000-second cookie as written, 3600 as intended |
| OAuth.WithSessionCookies | src/lib/server/auth/index.ts:26-42 | `setSession` sets the `id:token` cookie and the user id cookie and keeps every other cookie |
| OAuth.OrNull | src/lib/server/auth/providers/google.ts:138-141 | `x \|\| null` keeps a non-empty string and turns the rest into null |
| OAuth.Fill | src/lib/server/auth/providers/google.ts:107-118 | a field is filled iff the user's value is empty and the profile's is not, and then with the profile's value |
| OAuth.BackfillOnlyFillsEmpty | src/lib/server/auth/providers/google.ts:106-123 | the backfill never overwrites a non-empty field and leaves id and dates alone |
| OAuth.BackfillEmptyIff | src/lib/server/auth/providers/google.ts:121 | `user.update` runs iff some field is empty in the row and offered by the profile |
| OAuth.BackfillIdempotent | src/lib/server/auth/providers/google.ts:106-123 | a second sign-in with the same profile fills nothing |
| OAuth.NewUserHasNoEmptyFields | src/lib/server/auth/providers/google.ts:137-142 | a new user's missing or empty profile fields are stored as null |
| OAuth.RedirectStateAccepted | src/lib/server/auth/providers/google.ts:37-60 | the state the redirect stores passes the callback's check with any code, and no other state does |
| OAuth.OAuthProvider.constructor | src/lib/server/auth/providers/google.ts:28-35 | the managers over one database, the client credentials, the cookie name and the key kind |
| OAuth.OAuthProvider.GetRedirectURL | src/lib/server/auth/providers/google.ts:37-54 | a fresh 32-digit state, returned and stored in the state cookie for an hour |
| OAuth.OAuthProvider.Validate | src/lib/server/auth/providers/google.ts:56-174 | the three errors in order, with nothing changed; an existing key gets a session and a backfilled user; a new identity gets a user, key and session, the session cookies set; both successful branches clear the state cookie |
| OAuth.OAuthProvider.SignInWithKey | src/lib/server/auth/providers/google.ts:95-135 | a session for the key even when its user is missing (then an error); otherwise the backfilled user and the state cookie cleared |
| OAuth.OAuthProvider.SignUpWithProfile | src/lib/server/auth/providers/google.ts:136-173 | a user from the profile, its key and session, linked; session cookies set and the state cookie cleared |
| GoogleProviders.GoogleNewUserFields | src/lib/server/auth/providers/google.ts:137-151 | a new Google user takes email, given and family names and picture, or null; the key is identified by `sub` |
| GoogleProviders.GoogleBackfill | src/lib/server/auth/providers/google.ts:106-118 | each field is filled from the matching Google field iff it is empty and the Google field is not |
| GoogleProviders.NewGoogleProvider | src/lib/server/auth/providers/google.ts:7-35 | the OAuth flow with the `google_auth_state` cookie and GOOGLE keys |
| FacebookProviders.PictureUrl | src/lib/server/auth/providers/facebook.ts:125-126 | `picture?.data?.url` is set iff every link of the chain is |
| FacebookProviders.FacebookNewUserFields | src/lib/server/auth/providers/facebook.ts:146-160 | a new Facebook user takes email, first and last names and the picture url, or null; the key is identified by `id` |
| FacebookProviders.FacebookBackfill | src/lib/server/auth/providers/facebook.ts:115-127 | each field is filled from the matching Facebook field iff it is empty and the Facebook field is not |
| FacebookProviders.NewFacebookProvider | src/lib/server/auth/providers/facebook.ts:15-41 | the OAuth flow with the `facebook_auth_state` cookie and FACEBOOK keys |
| Db.DaysUniqueAfterWrite | src/lib/server/db.ts:48-68 | writing a row whose user and day are free keeps one row per user and day |
| Db.OneRowPerDay | src/lib/server/db.ts:52-58 | two rows of the same user on the same day are one row |
| Db.InsertByDay | src/lib/server/db.ts:38 | inserting keeps the rows strictly ordered by day and adds exactly the new row |
| Db.SortByDay | src/lib/server/db.ts:38 | the listing holds exactly the given rows, strictly ordered by day |
| Db.StrictlyByDayIsListingOrder | src/lib/server/db.ts:38 | rows strictly ordered by day follow `ORDER BY day_of_week, start_at_hour, start_at_minute`, with no repeats |
| Db.UpdateStep | src/lib/server/db.ts:79-84 | one `UPDATE ... WHERE id AND user_id`: no row when nothing matches; the patched row otherwise; an error iff the `SET` is empty or the day is taken |
| Db.UpdateAll | src/lib/server/db.ts:70-88 | on success one result per update in order, each with the requested id; other users' rows, the id set and one-row-per-day are kept |
| Db.StepKeepsDaysUnique | src/lib/server/db.ts:79-84 | a successful statement keeps one row per user and day |
| Db.AfterPrefixStep | src/lib/server/db.ts:77-85 | running one more statement moves its result to the done prefix, and a failure fails the whole |
| Db.OneFailureFailsAll | src/lib/server/db.ts:75-87 | a failing update anywhere in the list fails the transaction |
| Db.Db.constructor | src/lib/server/db.ts:5-14 | the statements work on the given tables |
| Db.Db.UserCount | src/lib/server/db.ts:18 | the number of user rows |
| Db.Db.UserFindOne | src/lib/server/db.ts:19 | the user row with that id iff there is one |
| Db.Db.UserUpdateOne | src/lib/server/db.ts:20-23 | the row with the given columns and `updatedAt` now iff it exists; only it changes |
| Db.Db.UserDeleteOne | src/lib/server/db.ts:24-26 | exactly that user row is removed |
| Db.Db.DesiredDayDoesOneExist | src/lib/server/db.ts:29-34 | true iff a row with that id belongs to that user |
| Db.Db.DesiredDayFindMany | src/lib/server/db.ts:35-38 | exactly the user's rows, each once, in `ORDER BY` order |
| Db.Db.DesiredDayUpdateOne | src/lib/server/db.ts:39-47 | no row unless it is the user's; otherwise the patched row with `updatedAt` now, or an error and no change when its day is taken |
| Db.Db.DesiredDayCreateOne | src/lib/server/db.ts:48-69 | an upsert on user and day: an existing row is overwritten in place keeping id and dates, otherwise a new row; afterwards the returned row is the user's only row for that day |
| Db.Db.DesiredDayUpdateMany | src/lib/server/db.ts:70-88 | the results and table of the sequential updates, or an error with the table rolled back |
| Db.Db.DesiredDayDeleteOne | src/lib/server/db.ts:89-91 | the row is removed iff it is that user's |
| ListStates.WithOperation | src/lib/client/stores/listStateFactory.ts:64-70 | the entry of `id` under the type is the patch merged into the old entry or `{}`; every other type and entry is kept |
| ListStates.StartThenEnd | src/lib/client/stores/listStateFactory.ts:71-85 | start then end leaves the start's payload, not in progress, exactly the end's error and result, and the old progress |
| ListStates.Ran | src/lib/client/stores/listStateFactory.ts:71-85 | a started and ended operation holds this run's payload, error and result; nothing else changes |
| ListStates.StartClears | src/lib/client/stores/listStateFactory.ts:76 | starting sets the payload and in progress and clears error and result |
| ListStates.ListPatchChangesOnlyItsFields | src/lib/client/stores/listStateFactory.ts:61-63 | a list patch changes exactly the fields it holds |
| ListStates.ListStateFactory.constructor | src/lib/client/stores/listStateFactory.ts:44-56 | the initial state is the empty list overridden by `list`, with the given operations, and the store holds it |
| ListStates.ListStateFactory.Mutate | src/lib/client/stores/listStateFactory.ts:58-60 | the store is the spread merge of the patch into the old value |
| ListStates.ListStateFactory.MutateList | src/lib/client/stores/listStateFactory.ts:61-63 | only the given list fields change; the operations are kept |
| ListStates.ListStateFactory.MutateOperation | src/lib/client/stores/listStateFactory.ts:64-70 | throws, changing nothing, iff the type has no map; otherwise the store's operations become `WithOperation`'s |
| ListStates.ListStateFactory.StartOperation | src/lib/client/stores/listStateFactory.ts:71-77 | `mutateOperation` with the start patch |
| ListStates.ListStateFactory.EndOperation | src/lib/client/stores/listStateFactory.ts:78-85 | `mutateOperation` with the end patch |
| UploadProgress.FirstIndexOf | src/lib/client/stores/helpers.ts:84 | `find(d => d.id === id)`: the first detail with that id, or none when there is none |
| UploadProgress.Upserted | src/lib/client/stores/helpers.ts:84-89 | the new detail is present; details of other ids keep their places; nothing else is added; the length grows only when the id was new; unique ids stay unique |
| UploadProgress.ReplacedKeepsOthers | src/lib/client/stores/helpers.ts:88 | overwriting a detail keeps every detail with another id |
| UploadProgress.SumBounds | src/lib/client/stores/helpers.ts:91 | the sum of `n` percentages in `lo..hi` lies in `n*lo..n*hi` |
| UploadProgress.RoundedMeanBounds | src/lib/client/stores/helpers.ts:90-92 | the overall percentage lies between the smallest and the largest part's |
| UploadProgress.RoundHalfUpBounds | src/lib/client/stores/helpers.ts:90-92 | `Math.round` of a mean of values in `lo..hi` stays in `lo..hi` |
| UploadProgress.RoundedMeanOfEqualParts | src/lib/client/stores/helpers.ts:90-92 | parts all at one percentage give that percentage |
| UploadProgress.Tracked | src/lib/client/stores/helpers.ts:78-92 | the part's detail is recorded, the overall percentage is the rounded mean, and a first part sets it outright |
| UploadProgress.TrackUploadProgress | src/lib/client/stores/helpers.ts:59-95 | nothing happens without an operation for the entity; otherwise the tracked progress is handed to `mutateOperation` for that entity |
| UploadProgress.UpdateProgress | src/lib/client/stores/helpers.ts:78-92 | the loop-level update computes `Tracked` |
| UploadProgress.UpsertDetail | src/lib/client/stores/helpers.ts:84-89 | overwrites or appends the detail as `Upserted` says |
| UploadProgress.FindDetail | src/lib/client/stores/helpers.ts:84 | the linear search finds the first matching index |
| UploadProgress.SumOf | src/lib/client/stores/helpers.ts:91 | the `reduce` computes the sum |
| UploadProgress.FirstIndexIsFirstMatch | src/lib/client/stores/helpers.ts:84 | a match with no match before it is the first index |
| DesiredDaysDiff.FindOldByDay | src/lib/client/stores/desiredDays.store.ts:86 | a stored record of that day, or none iff no stored record has that day |
| DesiredDaysDiff.Merge | src/lib/client/stores/desiredDays.store.ts:91 | `{...oldItem, ...item}` keeps the stored id and dates and takes every submitted field |
| DesiredDaysDiff.ToCreate | src/lib/client/stores/desiredDays.store.ts:85-97 | exactly the submitted records whose day is not stored |
| DesiredDaysDiff.ToDelete | src/lib/client/stores/desiredDays.store.ts:98-103 | exactly the stored records whose day was not submitted |
| DesiredDaysDiff.ToUpdate | src/lib/client/stores/desiredDays.store.ts:85-97 | at most one update per submitted record |
| DesiredDaysDiff.ToUpdateOnePerDay | src/lib/client/stores/desiredDays.store.ts:90 | no day is updated twice |
| DesiredDaysDiff.ToUpdateSound | src/lib/client/stores/desiredDays.store.ts:86-92 | every update is a stored record merged with a submitted record of its day whose times differ |
| DesiredDaysDiff.ToUpdateComplete | src/lib/client/stores/desiredDays.store.ts:86-92 | every submitted record that changes a stored day's times gives that day an update |
| DesiredDaysDiff.UnchangedDayIsNotUpdated | src/lib/client/stores/desiredDays.store.ts:89-93 | a day submitted exactly as stored gets no update |
| DesiredDaysDiff.UpdatesKeepStoredIds | src/lib/client/stores/desiredDays.store.ts:91 | every update carries the id of the stored record of its day |
| DesiredDaysDiff.DiffDaysDisjoint | src/lib/client/stores/desiredDays.store.ts:82-103 | no day is in two of the three lists |
| DesiredDaysDiff.ComputeDiff | src/lib/client/stores/desiredDays.store.ts:82-103 | the three `forEach` passes compute exactly the three lists |
| DesiredDaysDiff.UpdateForItem | src/lib/client/stores/desiredDays.store.ts:89-93 | the merged record is pushed once iff some compared field differs and the day has no update yet |
| DesiredDaysDiff.PushedDayIsUpdated | src/lib/client/stores/desiredDays.store.ts:90-91 | after the push the day has an update |
| DesiredDaysStore.InitialOperations | src/lib/client/stores/desiredDays.store.ts:31-41 | every operation kind has its map and the entries the store reads |
| DesiredDaysStore.RanKeepsReady | src/lib/client/stores/desiredDays.store.ts:46-48 | running an operation keeps every map and entry the store reads |
| DesiredDaysStore.RequestFailure | src/lib/client/stores/desiredDays.store.ts:171 | an error iff the request failed, and then `handleRequestError` of it |
| DesiredDaysStore.DayResultOf | src/lib/client/stores/desiredDays.store.ts:171 | a result iff the request returned a day, and then that day |
| DesiredDaysStore.LoadedList | src/lib/client/stores/desiredDays.store.ts:62-67 | the loaded list holds the days, total and page size their count, page 0 |
| DesiredDaysStore.ReplaceById | src/lib/client/stores/desiredDays.store.ts:226 | every day with the returned id is replaced, every other day kept in place |
| DesiredDaysStore.ReplacedDayIsHeld | src/lib/client/stores/desiredDays.store.ts:226 | the updated day is in the list iff its id was, and it is the only version of that id |
| DesiredDaysStore.WithoutId | src/lib/client/stores/desiredDays.store.ts:270-273 | exactly the days with another id |
| DesiredDaysStore.FindById | src/lib/client/stores/desiredDays.store.ts:242 | a day with that id, or none iff there is none |
| DesiredDaysStore.SaveError | src/lib/client/stores/desiredDays.store.ts:105-117 | the save records the caught error iff the dispatched calls threw |
| DesiredDaysStore.SaveErrorAsWritten | src/lib/client/stores/desiredDays.store.ts:113-115 | as written the save never records an error |
| DesiredDaysStore.SaveFailureIsLostAsWritten | src/lib/client/stores/desiredDays.store.ts:113-115 | as written a failed save looks like a successful one |
| DesiredDaysStore.DesiredDaysStore.constructor | src/lib/client/stores/desiredDays.store.ts:31-41 | the empty list and the five operation kinds, each with entry 0 |
| DesiredDaysStore.DesiredDaysStore.FetchList | src/lib/client/stores/desiredDays.store.ts:45-70 | nothing while a load runs; otherwise the list becomes the loaded days on success, and the load records the error or the days |
| DesiredDaysStore.DesiredDaysStore.Save | src/lib/client/stores/desiredDays.store.ts:71-117 | nothing while a save runs; otherwise the diff of the two lists is dispatched, and the save records its payload and the corrected error |
| DesiredDaysStore.DesiredDaysStore.Create | src/lib/client/stores/desiredDays.store.ts:142-172 | the created day is appended on success; the create records the error or the day |
| DesiredDaysStore.DesiredDaysStore.Update | src/lib/client/stores/desiredDays.store.ts:173-238 | sent iff the day passes the schema; else a validation error; on success the returned day replaces its id in the list |
| DesiredDaysStore.DesiredDaysStore.Delete | src/lib/client/stores/desiredDays.store.ts:240-279 | nothing for an unknown id; otherwise the delete runs under the id, and on success the day leaves the list |
| DesiredDaysStore.DesiredDaysStore.OnAuthStateChange | src/lib/client/stores/desiredDays.store.ts:291-300 | signing out resets the store to its initial value; signing in with a load result changes nothing; signing in without one loads exactly when no load is in progress, with `FetchList`'s list and recorded outcome |
| AuthStore.MergeOverridesGivenFields | src/lib/client/stores/auth.store.ts:40-43 | the merged state has exactly the patch's given fields and the old value of every other |
| AuthStore.ResetRestoresInitial | src/lib/client/stores/auth.store.ts:272-274 | `mutate(initialValue)` gives the initial state whatever the state was |
| AuthStore.SameAuthenticationNotifiesNoOne | src/lib/client/stores/auth.store.ts:45-49 | no notification unless someone signs in or out |
| AuthStore.Notifications | src/lib/client/stores/auth.store.ts:64 | one call per subscriber, in subscription order, with the new user |
| AuthStore.Reported | src/lib/client/stores/auth.store.ts:50-62 | the reported user has the id and names, the email only when non-empty, and a username iff both names are non-empty |
| AuthStore.IndexOf | src/lib/client/stores/auth.store.ts:280 | `indexOf`: the first index of the callback, or -1 iff it is absent |
| AuthStore.RemoveFirst | src/lib/client/stores/auth.store.ts:280-283 | the first occurrence is removed: one fewer of that callback and the same of every other |
| AuthStore.SubscribeThenUnsubscribe | src/lib/client/stores/auth.store.ts:277-285 | unsubscribing a callback just subscribed restores the list |
| AuthStore.RemoveFirstKeepsOrder | src/lib/client/stores/auth.store.ts:280-283 | the callbacks that stay keep their order |
| AuthStore.Auth.constructor | src/lib/client/stores/auth.store.ts:29-38 | the initial state, no subscribers |
| AuthStore.Auth.Mutate | src/lib/client/stores/auth.store.ts:40-67 | the state becomes the merge; on sign-in or sign-out the reporter's user is set and every subscriber is called once, in order |
| AuthStore.Auth.OnAuthStateChange | src/lib/client/stores/auth.store.ts:277-278 | the callback is appended and nothing else changes |
| AuthStore.Auth.Unsubscribe | src/lib/client/stores/auth.store.ts:279-284 | its first occurrence is removed and nothing else changes |
| AuthStore.Auth.RequestUser | src/lib/client/stores/auth.store.ts:73-127 | the answered user with `SUCCESS`, or no user with `ERROR` and the error; subscribers notified iff signed-in-ness changed |
| AuthStore.Auth.SignOut | src/lib/client/stores/auth.store.ts:128-144 | nobody is signed in afterwards, whatever the answer; `IDLE` or `ERROR` |
| AuthStore.Auth.PasswordResetRequest | src/lib/client/stores/auth.store.ts:145-179 | an empty email fails at once with the 400 error and sends nothing; otherwise `SUCCESS` or `ERROR`; the user is kept |
| AuthStore.Auth.FetchMe | src/lib/client/stores/auth.store.ts:208-229 | a 401 signs out with no error; another failure keeps the user with `ERROR`; success signs the answered user in |
| AuthStore.Auth.OAuth | src/lib/client/stores/auth.store.ts:230-236 | only status, error and operation change |
| AuthStore.Auth.Update | src/lib/client/stores/auth.store.ts:237-256 | `[null, error]` keeping the user, or `[user, null]` with the user replaced |
| AuthStore.Auth.Delete | src/lib/client/stores/auth.store.ts:257-276 | true iff the request succeeded, and then the initial state; otherwise `ERROR` with the user kept |
| AuthStore.Auth.Init | src/lib/client/stores/auth.store.ts:290-301 | status forced idle with no error; with the user-id cookie the outcome of `fetchMe`: signed out and idle on a 401, the old user with `ERROR` on another failure, the answered user on success; subscribers notified only when someone signs in or out |
| AuthStore.FindCallback | src/lib/client/stores/auth.store.ts:280 | the linear search computes `indexOf` |
| AuthStore.IndexOfIsFirstMatch | src/lib/client/stores/auth.store.ts:280 | a match with no match before it is the index found |
| Migrations.LastDot | sql/migrate.js:46 | the last `.` of the name, or none iff there is no `.` |
| Migrations.Extname | sql/migrate.js:46 | `path.extname`: empty exactly for `..` or a name with no `.` after its first character; otherwise a suffix of the name that starts with its only `.` |
| Migrations.SqlExtensionIff | sql/migrate.js:46 | `extname(file) === '.sql'` iff the name is something followed by `.sql` |
| Migrations.IndexOfSub | sql/migrate.js:47 | the first occurrence of the pattern, or none iff it does not occur |
| Migrations.ShiftOccurrence | sql/migrate.js:47 | occurrences after the first character are the occurrences in the rest, shifted |
| Migrations.ReplaceFirst | sql/migrate.js:47 | `replace` with a string pattern: the string unchanged when the pattern does not occur, otherwise only its first occurrence replaced |
| Migrations.MigrationName | sql/migrate.js:47-60 | the name with `.sql` appended gives back the file |
| Migrations.MigrationNameAsWritten | sql/migrate.js:47 | as written, the name is the file name with its first `.sql` cut out, wherever that occurs |
| Migrations.NamesAgreeWithSingleExtension | sql/migrate.js:47 | the name as written is the intended one when `.sql` occurs only at the end |
| Migrations.AsWrittenNameMissesItsFile | sql/migrate.js:47-60 | `a.sqlb.sql` is named `ab.sql` as written, whose file is not the one listed; the intended name is `a.sqlb` |
| Migrations.Candidates | sql/migrate.js:45-48 | exactly the names of listed `.sql` files that are not recorded |
| Migrations.LexLeTotal | sql/migrate.js:49 | the string order compares any two names |
| Migrations.LexLeTransitive | sql/migrate.js:49 | the string order is transitive |
| Migrations.LexLeAntisymmetric | sql/migrate.js:49 | names ordered both ways are equal |
| Migrations.Insert | sql/migrate.js:49 | inserting keeps the list sorted and adds exactly that name |
| Migrations.Sort | sql/migrate.js:49 | `.sort()` yields a sorted permutation |
| Migrations.SortedPermutationsAreEqual | sql/migrate.js:49 | the sorted order is unique |
| Migrations.SortedHeadsEqual | sql/migrate.js:49 | two sorted permutations start with the same name |
| Migrations.SortedTail | sql/migrate.js:49 | the tail of a sorted list is sorted |
| Migrations.MigrationsToApply | sql/migrate.js:45-49 | exactly the unrecorded listed migrations, each as often as listed, in string order |
| Migrations.NothingNewIffAllRecorded | sql/migrate.js:51-54 | nothing to apply iff every listed migration is recorded |
| Migrations.MigrationFileIsListed | sql/migrate.js:60 | the file read for a migration is one that was listed |
| Migrations.Scripts | sql/migrate.js:60 | one script per migration, in order, read from its file |
| Migrations.MigrationDatabase.constructor | sql/migrate.js:30-35 | the recorded names and executed scripts given |
| Migrations.MigrationDatabase.ApplyOne | sql/migrate.js:62-66 | script and record commit together, or neither does when the script fails |
| Migrations.ApplyMigrations | sql/migrate.js:41-74 | the plan is `migrationsToApply`; a prefix is applied and recorded in order; exit code 0 iff all applied, else 1 at the first failing migration |
| Migrations.RunPlan | sql/migrate.js:57-67 | the loop applies the plan in order and stops at the first failure |
| Decimal.NatToDecimal | src/lib/server/auth/managers/session.ts:80 | `${n}` of a non-negative number is a non-empty digit string |
| Decimal.IntToDecimal | src/lib/server/auth/managers/session.ts:80 | `${n}` is digits, with a leading minus sign for a negative number |
| Decimal.DigitsValueOfDecimal | src/lib/server/auth/managers/session.ts:80-88 | the digits `${n}` prints denote `n` |
| Decimal.IntToDecimalInjective | src/lib/server/cache/publicApiCache.ts:16 | distinct numbers print differently |
| Decimal.NegativeDecimalsInjective | src/lib/server/cache/publicApiCache.ts:16 | distinct negative numbers print differently |
| Decimal.NonNegativeDecimalsInjective | src/lib/server/cache/publicApiCache.ts:16 | distinct non-negative numbers print differently |
| Decimal.TrimStart | src/lib/server/auth/managers/session.ts:88 | `parseInt` first drops exactly the leading white space |
| Decimal.DigitPrefix | src/lib/server/auth/managers/session.ts:88 | the longest run of digits at the front |
| Decimal.TrimStartKeeps | src/lib/server/auth/managers/session.ts:88 | nothing is trimmed before a non-space character |
| Decimal.DigitPrefixOfDigits | src/lib/server/auth/managers/session.ts:88 | digits followed by a non-digit have exactly those digits as prefix |
| Decimal.DigitPrefixOfDigitFirst | src/lib/server/auth/managers/session.ts:88 | a string starting with a digit has digits to read |
| Decimal.SignedOfDigitFirst | src/lib/server/auth/managers/session.ts:88 | with no sign the digits are read as they are |
| Decimal.ParseIntOfDigitFirst | src/lib/server/auth/managers/session.ts:88 | a string starting with a digit reads as its digit prefix |
| Decimal.SignedOfMinusDigit | src/lib/server/auth/managers/session.ts:88 | a minus sign before digits negates them |
| Decimal.ParseIntIgnoresSuffix | src/lib/server/auth/managers/session.ts:88 | digits followed by a non-digit read as the digits' number |
| Decimal.ParseIntOfDigit | src/lib/server/auth/managers/session.ts:88-89 | one digit reads as its value; "0" as 0 |
| Decimal.ParseIntOfNonNumeric | src/lib/server/auth/managers/session.ts:88-89 | a string starting with no space, sign or digit reads as `NaN` |
| Decimal.UnsignedOfDigits | src/lib/server/auth/managers/session.ts:88 | a non-empty digit string reads as the number it denotes |
| Decimal.ParseIntNegative | src/lib/server/auth/managers/session.ts:88 | a minus sign before digits reads as the negated number |
| Decimal.ParseIntOfDecimal | src/lib/server/auth/managers/session.ts:80-88 | `parseInt(`${n}`, 10) === n` for every integer |
| Decimal.ParseIntOfDigits | src/lib/server/auth/managers/session.ts:88 | a digit string alone reads as its number |
| Decimal.ParseIntOfNegativeDecimal | src/lib/server/auth/managers/session.ts:80-88 | `parseInt` reads back a printed negative number |

## Left out

- HTTP route handlers and the server and client hooks are not part of this model. They parse requests, redirect and set up error reporting around the core.
- `invalidateSession`, the cookie path and the `httpOnly`/`sameSite`/`secure` flags are left out: they are framework plumbing. Only the cookie values and `maxAge` are modelled.
- The client's `request()` wrapper is left out: it is network I/O. Every store model takes what the server answered as a `RequestOutcome` input.
- The OAuth token exchange and profile `fetch` calls are left out: they are network I/O. Their parsed replies are inputs.
- The authorization URL's query parameters other than `state` are left out: they are string building around `URL`.
- Concurrency is not modelled.
  - `Promise.all` in the providers and in `signIn` becomes a fixed sequence of steps.
  - Two requests that miss the cache at the same time are not modelled.
- DesiredDaysStore.DesiredDaysStore.Save: returns the create, update and delete lists the source dispatches in parallel, but does not perform those calls. Whether one of them rejected is the `failure` input.
- The Postgres connection, the SQL text and foreign keys with their cascades are left out: they are external systems. The tables are maps, and a unique constraint is a `requires` plus an error result.
- The key table's unique `(kind, identification)` constraint and the desired-day table's unique `(user_id, day_of_week)` constraint are assumed. The schema is not part of this model.
- bcrypt's `genSalt`, `hash` and `compare` are uninterpreted functions. The only fact about them is `Sound`: a hash checks against the password it came from. Collision resistance is not provable.
- `randomBytes` and `Math.random` are not modelled. The bytes are inputs, and so are the `toString(36)` chunks of `getRandomStringSimple`.
- `exec` and `shutdown` are left out: they are child processes and `process.exit`.
- `er` and `clone` are left out: they are promise and `structuredClone` wrappers.
- The Svelte store machinery, toasts, breadcrumbs and Sentry's `setUser`/`captureException` calls are left out. They are UI and telemetry.
- The auth store's `localStorage` persistence is left out: it is browser storage.
- Numbers are unbounded integers.
  - `parseInt` is modelled on decimal digit strings. Floating point, `Infinity` and values beyond 2^53 are not.
  - The schemas' numeric bounds are stated on integers, but the source's zod `number()` also admits fractions.
  - Percentages in `trackUploadProgress` are integers with the mean rounded half up. The source uses a floating-point mean and `Math.round`.
- `String.prototype.sort` compares UTF-16 code units. The model compares characters, which agrees for text inside the Basic Multilingual Plane.
- Daylight-saving and time zones are left out: time is a single millisecond count.
- The email regular expression is a parameter `isEmail`, because the schema library's pattern is not part of this model.
- `DEFAULT_SESSION_LENGTH`, the session duration and the reset-token length are constructor parameters. Their defaults are read from the environment, which is not shown.
- The migration runner's creation of the `migrations` table and the exit-with-status-1 paths of its first two `try` blocks are left out: they are process-level I/O.
- The migration runner assumes file names hold no `/`, as a directory listing gives them.
- Adapter.PostgresAdapter.UpdateUser: requires a non-empty patch. For an empty one the source would send `SET` with nothing after it and throw. Every caller in the core passes a non-empty patch. Db.UpdateStep does model this error, for `updateMany`.
- Adapter.PostgresAdapter.UpdateKey: requires a non-empty patch, for the same reason.
- Adapter.PostgresAdapter.UpdateSession: requires a non-empty patch, for the same reason.
- KeyManagers.KeyManager.Update: requires a non-empty patch, because it forwards to Adapter.PostgresAdapter.UpdateKey.
- UserManagers.UserManager.Update: requires a non-empty patch, because it forwards to Adapter.PostgresAdapter.UpdateUser.
- SessionManagers.SessionManager.Update: requires a non-empty patch, because it forwards to Adapter.PostgresAdapter.UpdateSession.
- OAuth.WithSessionCookies: sets the corrected `maxAge` of the first Findings row (OAuth.SessionCookieMaxAge, in seconds), not the milliseconds src/lib/server/auth/index.ts:27 sets (OAuth.SessionCookieMaxAgeAsWritten).
- OAuth.OAuthProvider.Validate: the session cookies it sets carry the corrected `maxAge` of the first Findings row, through OAuth.WithSessionCookies.
- OAuth.OAuthProvider.SignUpWithProfile: the session cookies it sets carry the corrected `maxAge` of the first Findings row, through OAuth.WithSessionCookies.
- DesiredDaysStore.DesiredDaysStore.Save: ends the save with the corrected error of the second Findings row (DesiredDaysStore.SaveError), where the source records null when a dispatched call rejects (DesiredDaysStore.SaveErrorAsWritten).
- Migrations.Candidates: names each migration with the corrected Migrations.MigrationName of the third Findings row, not with the first-occurrence `replace` of sql/migrate.js:47 (Migrations.MigrationNameAsWritten). Both agree when `.sql` occurs only at the end of the file name (Migrations.NamesAgreeWithSingleExtension).
- Migrations.MigrationsToApply: is built on Migrations.Candidates, so it uses the corrected name of the third Findings row.
- Migrations.NothingNewIffAllRecorded: is stated of the corrected name of the third Findings row.
- Migrations.MigrationFileIsListed: holds of the corrected name of the third Findings row. As written it fails for `a.sqlb.sql`, whose name `ab.sql` points at the missing file `ab.sql.sql` (Migrations.AsWrittenNameMissesItsFile).
- Migrations.ApplyMigrations: plans with the corrected name of the third Findings row, so it never reaches the source's failure to read a file such as `ab.sql.sql`.
- The `initialValue` argument of `ListStateFactory`'s constructor is not modelled. The state has no key other than `list` and `operations`, so the argument never shows.
- UploadProgress.TrackUploadProgress: does not write the new progress into the operation object of the `state` it was handed. It returns the new progress and passes it to `mutateOperation`, which updates the store. The source also mutates that object and its `details` array in place, so a caller that keeps a reference to `state` sees the new progress there; the model does not capture that aliasing.
- DesiredDaysStore.DesiredDaysStore.Update: the source runs `DesiredDaySchema.safeParse` twice on the same day, and the second run is not modelled separately. Both runs judge the same input, so the second can never fail after the first passed.
- Db.Db.UserUpdateOne: the patch carries only `email`, `firstName`, `lastName` and `photoUrl`. It cannot carry the `cdcAuthToken` and `learner_id` columns, nor `id` and `createdAt`, all of which `Partial<User>` admits. The user row of the model has no `cdcAuthToken` or `learner_id` column at all, so `user.findOne`'s `SELECT *` result is modelled without them.
- Db.Db.DesiredDayUpdateOne: the patch carries only the base fields (`userId`, `dayOfWeek` and the four times). It cannot carry `id` or `createdAt`, which `Partial<DesiredDay>` admits, so the model always keeps the row's `createdAt`. The source overwrites it with whatever the caller sends, for instance the client's value that the desired-day PATCH route passes through.
- Keys and sessions carry no `createdAt`/`updatedAt`, although `Key` and `Session` extend `BaseModel` (src/lib/server/auth/misc/types.ts:3-7,35,42) and the adapter returns them with `SELECT *`. No modelled operation reads or sets those two columns on a key or a session, so the model leaves them out of both rows.
- DesiredDaysStore.DesiredDaysStore.Delete: the source also assigns the filtered array into the `state.list` object it captured, in place, before `mutateList` stores the same list. The model only stores it through `mutateList`; the final store is the same, and the aliasing of that captured object is not captured.
- `publicApiCache.spec.ts` and `publicApiCache.mock.spec.ts` exercise members that `publicApiCache.ts` no longer has, so their claims are not modelled.
- `sql/purge.js` and `sql/lib` are left out: they are database I/O.

## Findings

| source | as written | input that shows it | evidently intended | confidence | as-written member | corrected member |
|---|---|---|---|---|---|---|
| src/lib/server/auth/index.ts:27 | `maxAge` for the session cookies is `expiresAt.getTime() - Date.now()`, a number of milliseconds, where `maxAge` takes seconds (its fallback `ONE_YEAR_AS_SEC` is in seconds) | a session expiring one hour after `now` = 0: the cookie gets `maxAge` 3600000, about 41 days instead of 3600 seconds | the remaining lifetime divided by 1000 | high, not executed | OAuth.SessionCookieMaxAgeAsWritten (with OAuth.SessionCookieOneHourExample, OAuth.SessionCookieOutlivesSession) | OAuth.SessionCookieMaxAge |
| src/lib/client/stores/desiredDays.store.ts:113-115 | in the `catch`, `endOperation('save', error, …)` is called before `error = err`, so it records the `null` the variable still holds | a save whose dispatched create, update or delete rejects with a message: the save operation ends with no error | record the caught error | medium, not executed (the dispatched calls catch their own errors and never reject, so the path is latent) | DesiredDaysStore.SaveErrorAsWritten (with DesiredDaysStore.SaveFailureIsLostAsWritten) | DesiredDaysStore.SaveError |
| sql/migrate.js:47 | a migration's name is `file.replace('.sql', '')`, which removes the FIRST `.sql`, while line 60 reads the file back as `name + '.sql'` | the file `a.sqlb.sql` is named `ab.sql`, and the runner then reads `ab.sql.sql`, which is not the listed file | strip the trailing extension | medium, not executed | Migrations.MigrationNameAsWritten (with Migrations.AsWrittenNameMissesItsFile) | Migrations.MigrationName |
