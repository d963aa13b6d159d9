/**
 * `GoogleProvider`: the OAuth flow with Google's names. The state lives in the
 * `google_auth_state` cookie, keys are GOOGLE keys identified by the profile's `sub`, and the
 * profile's `given_name`, `family_name` and `picture` fill the first name, last name and photo.
 */
module GoogleProviders {
  import opened Common
  import opened AuthTypes
  import opened UserManagers
  import opened KeyManagers
  import opened SessionManagers
  import opened OAuth

  const GoogleAuthCookieName := "google_auth_state"

  /** The fields of Google's user info that the flow reads; any of them may be missing. */
  datatype GoogleUser = GoogleUser(sub: Option<string>, email: Option<string>, givenName: Option<string>,
                                   familyName: Option<string>, picture: Option<string>)

  /** How Google's user info feeds the flow. */
  function GoogleProfile(g: GoogleUser): Profile {
    Profile(g.sub, g.email, g.givenName, g.familyName, g.picture)
  }

  /**
   * A new Google user gets the profile's email, given and family names and picture, with
   * missing or empty ones stored as null, and the key is identified by `sub`.
   */
  lemma GoogleNewUserFields(g: GoogleUser)
    ensures var f := NewUserFields(GoogleProfile(g));
            && f.email == Present(OrNull(g.email)) && f.firstName == Present(OrNull(g.givenName))
            && f.lastName == Present(OrNull(g.familyName)) && f.photoUrl == Present(OrNull(g.picture))
            && GoogleProfile(g).id == g.sub
  {
  }

  /** The backfill takes the email, given name, family name and picture, and only into empty fields. */
  lemma GoogleBackfill(u: User, g: GoogleUser)
    ensures var f := Backfill(u, GoogleProfile(g));
            && (f.email.Present? <==> !Truthy(u.email) && Truthy(g.email))
            && (f.firstName.Present? <==> !Truthy(u.firstName) && Truthy(g.givenName))
            && (f.lastName.Present? <==> !Truthy(u.lastName) && Truthy(g.familyName))
            && (f.photoUrl.Present? <==> !Truthy(u.photoUrl) && Truthy(g.picture))
  {
  }

  /** `new GoogleProvider(user, key, session, clientId, clientSecret, redirectUri)`. */
  method NewGoogleProvider(user: UserManager, key: KeyManager, session: SessionManager, clientId: string,
                           clientSecret: string, redirectUri: string) returns (p: OAuthProvider)
    requires user.adapter.db == key.adapter.db == session.adapter.db
    ensures fresh(p) && p.Wired() && p.db == user.adapter.db
    ensures p.user == user && p.key == key && p.session == session
    ensures p.clientId == clientId && p.clientSecret == clientSecret && p.redirectUri == redirectUri
    ensures p.authCookieName == GoogleAuthCookieName && p.kind == GOOGLE
  {
    p := new OAuthProvider(user, key, session, clientId, clientSecret, redirectUri, GoogleAuthCookieName, GOOGLE);
  }
}
